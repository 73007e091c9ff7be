/** The root page of the wheel index: one link per package
    (scripts/update_nightly_whl_index.py). */
module WheelRoot {
  import opened Sequences
  import opened Text
  import opened WheelPages

  const HREF := "<a href=\""

  predicate Quoteless(s: string) { '"' !in s }

  /** The match of `<a href="([^"]+)/">` at the head of `s`: the package, and what
      follows the match.  The name must reach exactly to the next quote. */
  function MatchPackage(s: string): (r: Option<(string, string)>)
    ensures r.Some? ==> |r.value.1| < |s| && r.value.0 != [] && Quoteless(r.value.0)
  {
    if !StartsWith(s, HREF) then None
    else
      var t := s[|HREF|..];
      match IndexOf(t, "\"")
      case None => None
      case Some(q) =>
        if q >= 2 && t[q - 1] == '/' && q + 1 < |t| && t[q + 1] == '>'
        then QuoteFirst(t, q); Some((t[..q - 1], t[q + 2..])) else None
  }

  lemma QuoteFirst(t: string, q: nat)
    requires IndexOf(t, "\"") == Some(q) && q >= 1
    ensures Quoteless(t[..q - 1])
  {
    forall i | 0 <= i < q ensures t[i] != '"' {
      assert !OccursAt(t, i, "\"");
      assert t[i..i + 1] == [t[i]];
    }
  }

  /** All matches, left to right. */
  function ScanPackages(s: string): seq<string>
    decreases |s|
  {
    if s == [] then []
    else match MatchPackage(s)
      case Some(m) => [m.0] + ScanPackages(m.1)
      case None => ScanPackages(s[1..])
  }

  function Elements(xs: seq<string>): set<string> { set x | x in xs }

  /** The packages listed in the root page. */
  function PackagesOf(page: Option<string>): set<string> {
    if page.None? then {} else Elements(ScanPackages(UniversalNewlines(page.value)))
  }

  function Entry(p: string): string { HREF + p + "/\">" + (p + "</a>\n") }

  function Entries(packages: seq<string>): string {
    if packages == [] then [] else Entry(packages[0]) + Entries(packages[1..])
  }

  function PrintRoot(packages: seq<string>): string { DOCTYPE + "\n" + Entries(packages) }

  /* ---------- printing and parsing back ---------- */

  predicate PackageName(p: string) { p != [] && Quoteless(p) }

  /** Text without quotes before the next entry yields nothing. */
  lemma {:induction false} SkipQuoteless(u: string, v: string)
    requires Quoteless(u) && (v == [] || StartsWith(v, HREF))
    ensures ScanPackages(u + v) == ScanPackages(v)
  {
    if u == [] {
      assert u + v == v;
    } else {
      var s := u + v;
      assert s[1..] == u[1..] + v;
      if StartsWith(s, HREF) {
        assert s[8] == HREF[8] == '"';
        QuoteComesLate(u, v);
        assert false;
      }
      SkipQuoteless(u[1..], v);
    }
  }

  lemma QuoteComesLate(u: string, v: string)
    requires Quoteless(u) && u != [] && (v == [] || StartsWith(v, HREF)) && |u + v| > 8
    ensures (u + v)[8] != '"'
  {
    if 8 < |u| {
      assert (u + v)[8] == u[8];
    } else {
      var k := 8 - |u|;
      assert (u + v)[8] == v[k] && v[k] == HREF[k];
      assert HREF[0] != '"' && HREF[1] != '"' && HREF[2] != '"' && HREF[3] != '"' && HREF[4] != '"'
          && HREF[5] != '"' && HREF[6] != '"' && HREF[7] != '"';
    }
  }

  lemma MatchEntry(p: string, rest: string)
    requires PackageName(p)
    ensures MatchPackage(HREF + p + "/\">" + rest) == Some((p, rest))
  {
    var s := HREF + p + "/\">" + rest;
    var t := p + "/\">" + rest;
    assert s == HREF + t && s[|HREF|..] == t;
    FreeOfCharacter(p + "/", '"');
    NextSeparator(p + "/", "\"", ">" + rest);
    assert t == (p + "/") + "\"" + (">" + rest);
    var q := |p| + 1;
    assert t[..q - 1] == p && t[q + 2..] == rest;
  }

  lemma {:induction false} EntriesRoundTrip(packages: seq<string>)
    requires forall k :: 0 <= k < |packages| ==> PackageName(packages[k])
    ensures ScanPackages(Entries(packages)) == packages
    ensures Entries(packages) == [] || StartsWith(Entries(packages), HREF)
  {
    hide MatchPackage, ScanPackages, PackageName;
    NothingToScan();
    if packages != [] {
      var p, tail := packages[0], packages[1..];
      EntriesRoundTrip(tail);
      ScanEntry(p, Entries(tail));
    }
  }

  lemma NothingToScan()
    ensures ScanPackages([]) == []
  {
  }

  lemma ScanEntry(p: string, more: string)
    requires PackageName(p) && (more == [] || StartsWith(more, HREF))
    ensures ScanPackages(Entry(p) + more) == [p] + ScanPackages(more)
    ensures StartsWith(Entry(p) + more, HREF)
  {
    var after := p + "</a>\n";
    EntrySplits(p, after, more);
    MatchEntry(p, after + more);
    hide MatchPackage, StartsWith;
    assert Quoteless(p) && Quoteless("</a>\n");
    SkipQuoteless(after, more);
  }

  lemma EntrySplits(p: string, after: string, more: string)
    ensures HREF + p + "/\">" + after + more == HREF + p + "/\">" + (after + more)
    ensures StartsWith(HREF + p + "/\">" + after + more, HREF)
  {
  }

  lemma {:induction false} EntriesHaveNo(packages: seq<string>, c: char)
    requires c == '\r' && forall k :: 0 <= k < |packages| ==> c !in packages[k]
    ensures c !in Entries(packages)
  {
    if packages != [] {
      EntriesHaveNo(packages[1..], c);
      assert c !in HREF && c !in "/\">" && c !in "</a>\n";
    }
  }

  /** Parsing a printed root page returns the packages printed. */
  lemma RootRoundTrip(packages: seq<string>)
    requires forall k :: 0 <= k < |packages| ==> PackageName(packages[k]) && '\r' !in packages[k]
    ensures PackagesOf(Some(PrintRoot(packages))) == Elements(packages)
  {
    EntriesHaveNo(packages, '\r');
    DoctypeIsPlain();
    NewlinesUnchanged(PrintRoot(packages));
    EntriesRoundTrip(packages);
    assert Quoteless(DOCTYPE);
    SkipQuoteless(DOCTYPE + "\n", Entries(packages));
  }

  /** Whatever the old page was, the packages read from it can be printed again. */
  lemma {:induction false} ScannedNames(s: string, k: nat)
    requires '\r' !in s && k < |ScanPackages(s)|
    ensures PackageName(ScanPackages(s)[k]) && '\r' !in ScanPackages(s)[k]
    decreases |s|
  {
    match MatchPackage(s)
    case Some(m) =>
      if k > 0 { ScannedNames(m.1, k - 1); }
    case None => ScannedNames(s[1..], k);
  }

  lemma PackagesArePrintable(page: Option<string>, p: string)
    requires p in PackagesOf(page)
    ensures PackageName(p) && '\r' !in p
  {
    var text := UniversalNewlines(page.value);
    NoCarriageReturn(page.value);
    var k :| 0 <= k < |ScanPackages(text)| && ScanPackages(text)[k] == p;
    ScannedNames(text, k);
  }

  /* ---------- sorting ---------- */

  /** Python's order on strings. */
  predicate Less(a: string, b: string) {
    if b == [] then false
    else if a == [] then true
    else a[0] < b[0] || (a[0] == b[0] && Less(a[1..], b[1..]))
  }

  lemma {:induction false} LessTransitive(a: string, b: string, c: string)
    requires Less(a, b) && Less(b, c)
    ensures Less(a, c) && !Less(c, a)
  {
    if a != [] && a[0] == b[0] && b[0] == c[0] { LessTransitive(a[1..], b[1..], c[1..]); }
  }

  lemma {:induction false} LessIrreflexive(a: string)
    ensures !Less(a, a)
  {
    if a != [] { LessIrreflexive(a[1..]); }
  }

  lemma {:induction false} LessTotal(a: string, b: string)
    ensures a == b || Less(a, b) || Less(b, a)
  {
    if a != [] && b != [] && a[0] == b[0] {
      LessTotal(a[1..], b[1..]);
      assert a == [a[0]] + a[1..] && b == [b[0]] + b[1..];
    }
  }

  ghost predicate Sorted(xs: seq<string>) {
    forall i, j :: 0 <= i < j < |xs| ==> Less(xs[i], xs[j])
  }

  lemma ElementsAppend(xs: seq<string>, x: string)
    ensures Elements(xs + [x]) == Elements(xs) + {x}
  {
    assert forall y :: y in xs + [x] <==> y in xs || y == x;
  }

  lemma EmptyIff(xs: seq<string>)
    ensures xs == [] <==> Elements(xs) == {}
  {
    if xs != [] { assert xs[0] in Elements(xs); }
  }

  /** `sorted` of a set, by repeatedly taking the least element. */
  method SortPackages(packages: set<string>) returns (sorted: seq<string>)
    ensures Sorted(sorted) && Elements(sorted) == packages
  {
    sorted := [];
    var left := packages;
    while left != {}
      invariant left <= packages && Elements(sorted) == packages - left
      invariant Sorted(sorted)
      invariant forall i, x :: 0 <= i < |sorted| && x in left ==> Less(sorted[i], x)
      decreases left
    {
      var least := FindLeast(left);
      ElementsAppend(sorted, least);
      sorted := sorted + [least];
      left := left - {least};
    }
  }

  method FindLeast(left: set<string>) returns (least: string)
    requires left != {}
    ensures least in left && forall x :: x in left && x != least ==> Less(least, x)
  {
    least :| least in left;
    var rest := left - {least};
    while rest != {}
      invariant least in left && least !in rest && rest <= left
      invariant forall x :: x in left - rest && x != least ==> Less(least, x)
      decreases rest
    {
      var x :| x in rest;
      rest := rest - {x};
      LessTotal(least, x);
      if Less(x, least) {
        forall y | y in left - rest && y != x ensures Less(x, y) {
          if y != least { LessTransitive(x, least, y); }
        }
        least := x;
      }
    }
  }

  /** A set has only one sorted listing, so the page depends on the set alone. */
  lemma {:induction false} SortedIsUnique(a: seq<string>, b: seq<string>)
    requires Sorted(a) && Sorted(b) && Elements(a) == Elements(b)
    ensures a == b
  {
    if a == [] || b == [] {
      EmptyIff(a);
      EmptyIff(b);
    } else {
      LeastIsFirst(a, b[0]);
      LeastIsFirst(b, a[0]);
      if a[0] != b[0] { LessTransitive(a[0], b[0], a[0]); assert false; }
      TailElements(a);
      TailElements(b);
      SortedIsUnique(a[1..], b[1..]);
      assert a == [a[0]] + a[1..] && b == [b[0]] + b[1..];
    }
  }

  lemma LeastIsFirst(a: seq<string>, x: string)
    requires a != [] && Sorted(a) && (x in Elements(a) || x == a[0])
    ensures x == a[0] || Less(a[0], x)
  {
    if x in a {
      var i :| 0 <= i < |a| && a[i] == x;
    }
  }

  lemma TailElements(a: seq<string>)
    requires a != [] && Sorted(a)
    ensures Elements(a[1..]) == Elements(a) - {a[0]} && Sorted(a[1..])
  {
    forall x ensures x in Elements(a[1..]) <==> x in Elements(a) && x != a[0] {
      if x in a[1..] {
        var i :| 0 <= i < |a[1..]| && a[1..][i] == x;
        LessIrreflexive(x);
        assert Less(a[0], a[i + 1]);
      }
      if x in a && x != a[0] {
        var i :| 0 <= i < |a| && a[i] == x;
        assert a[1..][i - 1] == x;
      }
    }
  }
}
