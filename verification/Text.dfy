/** Searching, splitting and joining strings as Python's `str` methods do. */
module Text {
  import opened Sequences

  predicate StartsWith(s: string, prefix: string) { prefix <= s }

  predicate OccursAt(s: string, i: int, sep: string) {
    0 <= i && i + |sep| <= |s| && s[i..i + |sep|] == sep
  }

  /** The leftmost occurrence of `sep`. */
  function IndexOf(s: string, sep: string): (r: Option<nat>)
    ensures r.Some? ==> OccursAt(s, r.value, sep) && forall i :: 0 <= i < r.value ==> !OccursAt(s, i, sep)
    ensures r.None? ==> forall i :: 0 <= i ==> !OccursAt(s, i, sep)
  {
    if sep <= s then
      assert OccursAt(s, 0, sep);
      Some(0)
    else if s == [] then None
    else
      ShiftOccurrence(s, sep);
      match IndexOf(s[1..], sep)
      case None => None
      case Some(i) => Some(i + 1)
  }

  lemma SliceOfRest(s: string, d: nat, i: nat, n: nat)
    requires d <= i && i + n <= |s|
    ensures s[d..][i - d..i - d + n] == s[i..i + n]
  {
    var a, b := s[d..][i - d..i - d + n], s[i..i + n];
    forall k | 0 <= k < n ensures a[k] == b[k] {
      assert a[k] == s[d..][i - d + k] == s[i + k];
    }
    assert a == b;
  }

  lemma OccursInRest(s: string, sep: string, n: nat, i: int)
    requires n <= i && n <= |s|
    ensures OccursAt(s, i, sep) <==> OccursAt(s[n..], i - n, sep)
  {
    if i + |sep| <= |s| { SliceOfRest(s, n, i, |sep|); }
  }

  lemma ShiftOccurrence(s: string, sep: string)
    requires s != []
    ensures forall i :: 1 <= i ==> (OccursAt(s, i, sep) <==> OccursAt(s[1..], i - 1, sep))
    ensures OccursAt(s, 0, sep) <==> sep <= s
  {
    forall i | 1 <= i ensures OccursAt(s, i, sep) <==> OccursAt(s[1..], i - 1, sep) {
      OccursInRest(s, sep, 1, i);
    }
    if |sep| <= |s| { assert s[0..|sep|] == s[..|sep|]; }
  }

  ghost predicate Free(s: string, sep: string) { forall i :: 0 <= i ==> !OccursAt(s, i, sep) }

  lemma OccursInPart(part: string, tail: string, i: nat, sep: string)
    ensures i + |sep| <= |part| ==> (OccursAt(part + tail, i, sep) <==> OccursAt(part, i, sep))
  {
    if i + |sep| <= |part| { assert (part + tail)[i..i + |sep|] == part[i..i + |sep|]; }
  }

  /** `s.split(sep)` */
  function Split(s: string, sep: string): (r: seq<string>)
    requires sep != []
    ensures r != []
  {
    match IndexOf(s, sep)
    case None => [s]
    case Some(i) => [s[..i]] + Split(s[i + |sep|..], sep)
  }

  /** `sep.join(parts)` */
  function Join(parts: seq<string>, sep: string): string {
    if parts == [] then ""
    else if |parts| == 1 then parts[0]
    else parts[0] + sep + Join(parts[1..], sep)
  }

  /** Splitting loses nothing, and no piece contains the separator. */
  lemma {:induction false} JoinSplit(s: string, sep: string)
    requires sep != []
    ensures Join(Split(s, sep), sep) == s
    ensures forall k :: 0 <= k < |Split(s, sep)| ==> Free(Split(s, sep)[k], sep)
    decreases |s|
  {
    match IndexOf(s, sep)
    case None =>
    case Some(i) =>
      var rest := s[i + |sep|..];
      JoinSplit(rest, sep);
      assert s == s[..i] + sep + rest;
      assert ([s[..i]] + Split(rest, sep))[1..] == Split(rest, sep);
      forall k | 0 <= k ensures !OccursAt(s[..i], k, sep) {
        OccursInPart(s[..i], s[i..], k, sep);
        assert s == s[..i] + s[i..];
      }
      assert Free(s[..i], sep);
  }

  /** The first character of the separator occurs in it only once, so two of its
      occurrences never overlap. */
  predicate Unbordered(sep: string) { sep != [] && sep[0] !in sep[1..] }

  lemma OccurrencesDoNotOverlap(s: string, i: nat, p: nat, sep: string)
    requires Unbordered(sep) && OccursAt(s, p, sep) && i < p < i + |sep|
    ensures !OccursAt(s, i, sep)
  {
    var k := p - i;
    assert sep[1..][k - 1] == sep[k];
    assert s[p..p + |sep|][0] == s[p];
    if i + |sep| <= |s| { assert s[i..i + |sep|][k] == s[p]; }
  }

  lemma NextSeparator(part: string, sep: string, rest: string)
    requires Unbordered(sep) && Free(part, sep)
    ensures IndexOf(part + sep + rest, sep) == Some(|part|)
  {
    var s := part + sep + rest;
    assert s == part + (sep + rest);
    assert s[|part|..|part| + |sep|] == sep;
    assert OccursAt(s, |part|, sep);
    forall i | 0 <= i < |part| ensures !OccursAt(s, i, sep) {
      OccursInPart(part, sep + rest, i, sep);
      if i + |sep| > |part| { OccurrencesDoNotOverlap(s, i, |part|, sep); }
    }
  }

  lemma SplitFirst(part: string, sep: string, rest: string)
    requires Unbordered(sep) && Free(part, sep)
    ensures Split(part + sep + rest, sep) == [part] + Split(rest, sep)
  {
    NextSeparator(part, sep, rest);
    hide IndexOf, Free;
    var s := part + sep + rest;
    assert s[..|part|] == part && s[|part| + |sep|..] == rest;
  }

  lemma SplitWhole(part: string, sep: string)
    requires sep != [] && Free(part, sep)
    ensures Split(part, sep) == [part]
  {
  }

  /** Joining pieces that do not contain the separator can be undone. */
  lemma {:induction false} SplitJoin(parts: seq<string>, sep: string)
    requires parts != [] && Unbordered(sep)
    requires forall k :: 0 <= k < |parts| ==> Free(parts[k], sep)
    ensures Split(Join(parts, sep), sep) == parts
  {
    assert sep != [];
    hide Split, Free, Unbordered;
    if |parts| == 1 {
      SplitWhole(parts[0], sep);
    } else {
      SplitFirst(parts[0], sep, Join(parts[1..], sep));
      SplitJoin(parts[1..], sep);
      assert parts == [parts[0]] + parts[1..];
    }
  }

  lemma StartsAt(s: string, k: nat, sep: string)
    requires k <= |s|
    ensures sep <= s[k..] <==> OccursAt(s, k, sep)
  {
    if k + |sep| <= |s| { assert s[k..][..|sep|] == s[k..k + |sep|]; }
  }

  lemma FreePrefix(a: string, b: string, sep: string)
    requires sep != [] && forall k :: 0 <= k < |a| ==> !OccursAt(a + b, k, sep)
    ensures Free(a, sep)
  {
    forall k | 0 <= k ensures !OccursAt(a, k, sep) { OccursInPart(a, b, k, sep); }
  }

  lemma FreeBeforeFirst(s: string, sep: string, i: nat)
    requires sep != [] && IndexOf(s, sep) == Some(i)
    ensures i + |sep| <= |s| && s[i..i + |sep|] == sep && Free(s[..i], sep)
  {
    assert OccursAt(s, i, sep) && forall k :: 0 <= k < i ==> !OccursAt(s, k, sep);
    hide IndexOf, OccursAt;
    assert i + |sep| <= |s| && s[i..i + |sep|] == sep by { OccursMeans(s, i, sep); }
    assert s[..i] + s[i..] == s;
    FreePrefix(s[..i], s[i..], sep);
  }

  lemma OccursMeans(s: string, i: nat, sep: string)
    requires OccursAt(s, i, sep)
    ensures i + |sep| <= |s| && s[i..i + |sep|] == sep
  {
  }

  lemma OccursLater(s: string, sep: string, p: nat, i: int)
    requires Unbordered(sep) && OccursAt(s, p, sep) && OccursAt(s, i, sep) && i > p
    ensures i >= p + |sep| && OccursAt(s[p + |sep|..], i - p - |sep|, sep)
  {
    if i < p + |sep| {
      OccurrencesDoNotOverlap(s, p, i, sep);
      assert false;
    }
    OccursInRest(s, sep, p + |sep|, i);
  }

  /** All occurrences after the first are those of the rest. */
  lemma {:induction false} LaterOccurrences(s: string, sep: string, p: nat, rest: string)
    requires Unbordered(sep) && IndexOf(s, sep) == Some(p) && rest == s[p + |sep|..]
    ensures forall i :: OccursAt(s, i, sep) ==> i == p || (i >= p + |sep| && OccursAt(rest, i - p - |sep|, sep))
    ensures forall i :: OccursAt(rest, i, sep) ==> i >= 0 && OccursAt(s, i + p + |sep|, sep)
  {
    hide IndexOf, Unbordered;
    assert OccursAt(s, p, sep);
    forall i | OccursAt(s, i, sep) ensures i == p || (i >= p + |sep| && OccursAt(rest, i - p - |sep|, sep)) {
      assert i >= p;
      if i > p { OccursLater(s, sep, p, i); }
    }
    forall i | OccursAt(rest, i, sep) ensures i >= 0 && OccursAt(s, i + p + |sep|, sep) {
      OccursInRest(s, sep, p + |sep|, i + p + |sep|);
    }
  }

  lemma FreeAround(x: string, c: char, y: string, sep: string)
    requires Free(x, sep) && Free(y, sep) && c !in sep && sep != []
    ensures Free(x + [c] + y, sep)
  {
    var s := x + [c] + y;
    forall i | 0 <= i ensures !OccursAt(s, i, sep) {
      assert s == x + ([c] + y);
      OccursInPart(x, [c] + y, i, sep);
      if i <= |x| < i + |sep| {
        if i + |sep| <= |s| { assert s[i..i + |sep|][|x| - i] == c; }
      } else if i > |x| && i + |sep| <= |s| {
        assert s[i..i + |sep|] == y[i - |x| - 1..i - |x| - 1 + |sep|];
        assert !OccursAt(y, i - |x| - 1, sep);
      }
    }
  }

  lemma FreeSuffix(s: string, k: nat, sep: string)
    requires Free(s, sep) && k <= |s|
    ensures Free(s[k..], sep)
  {
    forall i | 0 <= i ensures !OccursAt(s[k..], i, sep) {
      OccursInRest(s, sep, k, i + k);
    }
  }

  lemma ShortIsFree(s: string, sep: string)
    requires |s| < |sep|
    ensures Free(s, sep)
  {
  }

  lemma FreeOfFirst(s: string, sep: string)
    requires sep != [] && sep[0] !in s
    ensures Free(s, sep)
  {
    forall i | 0 <= i ensures !OccursAt(s, i, sep) {
      if i + |sep| <= |s| { assert s[i..i + |sep|][0] == s[i]; }
    }
  }

  lemma FreeOfCharacter(s: string, c: char)
    requires c !in s
    ensures Free(s, [c])
  {
    forall i | 0 <= i ensures !OccursAt(s, i, [c]) {
      if i < |s| { assert s[i..i + 1][0] == s[i]; }
    }
  }

  predicate EndsWith(s: string, suffix: string) {
    |suffix| <= |s| && s[|s| - |suffix|..] == suffix
  }
}
