/** Brace nesting. */
module Braces {
  import opened Sequences

  /** The nesting depth after reading `s` from depth `d`, or `None` when a closing
      brace finds nothing open. */
  function Scan(s: string, d: nat): Option<nat> {
    if s == [] then Some(d)
    else if s[0] == '{' then Scan(s[1..], d + 1)
    else if s[0] == '}' then (if d == 0 then None else Scan(s[1..], d - 1))
    else Scan(s[1..], d)
  }

  predicate Balanced(s: string) { Scan(s, 0) == Some(0) }

  lemma {:induction false} ScanConcat(a: string, b: string, d: nat)
    ensures Scan(a + b, d) == match Scan(a, d) case None => None case Some(e) => Scan(b, e)
  {
    if a == [] {
      assert a + b == b;
    } else {
      assert (a + b)[1..] == a[1..] + b;
      if a[0] == '{' { ScanConcat(a[1..], b, d + 1); }
      else if a[0] == '}' { if d > 0 { ScanConcat(a[1..], b, d - 1); } }
      else { ScanConcat(a[1..], b, d); }
    }
  }

  /** From a greater depth the same text can only close later. */
  lemma {:induction false} ScanDeeper(s: string, d: nat, e: nat)
    requires d <= e
    ensures Scan(s, e) == None ==> Scan(s, d) == None
    ensures Scan(s, d).Some? ==> Scan(s, e) == Some(Scan(s, d).value + e - d)
  {
    if s != [] {
      if s[0] == '{' { ScanDeeper(s[1..], d + 1, e + 1); }
      else if s[0] == '}' { if d > 0 { ScanDeeper(s[1..], d - 1, e - 1); } }
      else { ScanDeeper(s[1..], d, e); }
    }
  }

  /** The index of the first brace that closes more than `n` open ones. */
  function CloseAt(s: string, n: nat): (r: Option<nat>)
    ensures r.Some? ==> r.value < |s| && s[r.value] == '}'
  {
    if s == [] then None
    else
      var rest := if s[0] == '{' then CloseAt(s[1..], n + 1)
                  else if s[0] == '}' then (if n == 0 then None else CloseAt(s[1..], n - 1))
                  else CloseAt(s[1..], n);
      if s[0] == '}' && n == 0 then Some(0)
      else match rest
        case None => None
        case Some(i) => Some(i + 1)
  }

  /** There is such a brace exactly when scanning fails; the text before it closes
      exactly what was open. */
  lemma {:induction false} CloseMeaning(s: string, n: nat)
    ensures CloseAt(s, n).None? <==> Scan(s, n).Some?
    ensures CloseAt(s, n).Some? ==> Scan(s[..CloseAt(s, n).value], n) == Some(0)
  {
    if s != [] {
      if s[0] == '{' { CloseMeaning(s[1..], n + 1); }
      else if s[0] == '}' { if n > 0 { CloseMeaning(s[1..], n - 1); } }
      else { CloseMeaning(s[1..], n); }
      if CloseAt(s, n).Some? && CloseAt(s, n).value > 0 {
        var i := CloseAt(s, n).value;
        assert s[..i][1..] == s[1..][..i - 1];
      }
    }
  }

  /** The first unmatched brace after a text that leaves nothing open. */
  lemma {:induction false} CloseAfter(a: string, b: string, n: nat)
    requires Scan(a, n).Some?
    ensures CloseAt(a + b, n) ==
              match CloseAt(b, Scan(a, n).value) case None => None case Some(i) => Some(|a| + i)
  {
    if a == [] {
      assert a + b == b;
    } else {
      assert (a + b)[1..] == a[1..] + b;
      if a[0] == '{' { CloseAfter(a[1..], b, n + 1); }
      else if a[0] == '}' { CloseAfter(a[1..], b, n - 1); }
      else { CloseAfter(a[1..], b, n); }
    }
  }

  /** What comes after the brace does not matter. */
  lemma {:induction false} CloseInPrefix(a: string, b: string, n: nat)
    requires CloseAt(a, n).Some?
    ensures CloseAt(a + b, n) == CloseAt(a, n)
  {
    assert (a + b)[1..] == a[1..] + b;
    if a[0] == '{' { CloseInPrefix(a[1..], b, n + 1); }
    else if a[0] == '}' { if n > 0 { CloseInPrefix(a[1..], b, n - 1); } }
    else { CloseInPrefix(a[1..], b, n); }
  }
}
