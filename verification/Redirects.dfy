/** Resolving redirections between lines (benchmark/line_retrieval/gen_data.py).

    Each line either holds a value or redirects to another line.  The resolver
    walks from every redirecting line, detects rings by remembering the lines
    visited, and overwrites the table of values while it is still reading it. */
module Redirects {
  import opened Sequences

  type Table = seq<Option<nat>>

  predicate ValidTable(t: Table) {
    forall i :: 0 <= i < |t| && t[i].Some? ==> t[i].value < |t|
  }

  /* ---------- what resolution means ---------- */

  /** The line reached from `i` after `k` redirections; a root stays where it is. */
  ghost function Hop(t: Table, i: nat, k: nat): (r: nat)
    requires ValidTable(t) && i < |t|
    ensures r < |t|
  {
    if k == 0 then i
    else
      var c := Hop(t, i, k - 1);
      if t[c].Some? then t[c].value else c
  }

  /** Some number of redirections leads to a line with a value of its own. */
  ghost predicate ReachesRoot(t: Table, i: nat)
    requires ValidTable(t) && i < |t|
  {
    exists k: nat :: t[Hop(t, i, k)].None?
  }

  predicate Distinct(s: seq<nat>) {
    forall a, b :: 0 <= a < b < |s| ==> s[a] != s[b]
  }

  /** Consecutive lines of `p` redirect to each other. */
  predicate Chained(t: Table, p: seq<nat>) {
    && (forall a :: 0 <= a < |p| ==> p[a] < |t|)
    && (forall a :: 0 <= a < |p| - 1 ==> t[p[a]] == Some(p[a + 1]))
  }

  /** A walk in progress: no line occurs twice, except that the last may repeat. */
  predicate Walk(t: Table, p: seq<nat>) {
    p != [] && Chained(t, p) && Distinct(p[..|p| - 1])
  }

  function Last(p: seq<nat>): nat
    requires p != []
  {
    p[|p| - 1]
  }

  predicate Ended(t: Table, p: seq<nat>)
    requires Walk(t, p)
  {
    t[Last(p)].None? || Last(p) in p[..|p| - 1]
  }

  lemma {:induction false} DistinctBounded(s: seq<nat>, n: nat)
    requires Distinct(s) && forall a :: 0 <= a < |s| ==> s[a] < n
    ensures |s| <= n
  {
    var ones := seq(n, i => 1);
    SumOnes(ones);
    DistinctMultiset(s);
    forall i | i in multiset(s) ensures i < |ones| && multiset(s)[i] == 1 && ones[i] >= 1 {
      assert i in s;
    }
    SumCoversDistinct(ones, multiset(s));
  }

  lemma {:induction false} DistinctMultiset(s: seq<nat>)
    requires Distinct(s)
    ensures forall i :: i in s ==> multiset(s)[i] == 1
  {
    if s != [] {
      var m := |s| - 1;
      assert s == s[..m] + [s[m]];
      DistinctMultiset(s[..m]);
      assert s[m] !in s[..m];
    }
  }

  lemma WalkBounded(t: Table, p: seq<nat>)
    requires Walk(t, p)
    ensures |p| <= |t| + 1
    ensures !Ended(t, p) ==> |p| <= |t|
  {
    DistinctBounded(p[..|p| - 1], |t|);
    if !Ended(t, p) {
      assert Distinct(p) by {
        forall a, b | 0 <= a < b < |p| ensures p[a] != p[b] {
          if b == |p| - 1 {
            assert p[..b][a] == p[a];
          } else {
            assert p[..|p| - 1][a] == p[a] && p[..|p| - 1][b] == p[b];
          }
        }
      }
      DistinctBounded(p, |t|);
    }
  }

  lemma WalkExtends(t: Table, p: seq<nat>)
    requires ValidTable(t) && Walk(t, p) && !Ended(t, p)
    ensures Walk(t, p + [t[Last(p)].value])
  {
    var q := p + [t[Last(p)].value];
    assert q[..|q| - 1] == p;
    forall a, b | 0 <= a < b < |p| ensures p[a] != p[b] {
      if b == |p| - 1 { assert p[..b][a] == p[a]; } else { assert p[..|p| - 1][a] == p[a] && p[..|p| - 1][b] == p[b]; }
    }
  }

  /** Walk on until a root is reached or a line is seen again. */
  ghost function Extend(t: Table, p: seq<nat>): (q: seq<nat>)
    requires ValidTable(t) && Walk(t, p)
    ensures Walk(t, q) && Ended(t, q) && p <= q
    decreases |t| + 1 - |p|
  {
    WalkBounded(t, p);
    if Ended(t, p) then p
    else
      WalkExtends(t, p);
      WalkBounded(t, p + [t[Last(p)].value]);
      Extend(t, p + [t[Last(p)].value])
  }

  /** The complete walk from line `i`. */
  ghost function Trail(t: Table, i: nat): (q: seq<nat>)
    requires ValidTable(t) && i < |t|
    ensures Walk(t, q) && Ended(t, q) && q[0] == i
  {
    Extend(t, [i])
  }

  /** The line whose value line `i` ends up with. */
  ghost function Terminal(t: Table, i: nat): (r: nat)
    requires ValidTable(t) && i < |t|
    ensures r < |t|
  {
    Last(Trail(t, i))
  }

  /** The links recorded for line `i`: the lines after it on its walk to a root. */
  ghost function Link(t: Table, i: nat): Option<seq<nat>>
    requires ValidTable(t) && i < |t|
  {
    if ReachesRoot(t, i) then Some(Trail(t, i)[1..]) else None
  }

  /* ---------- the walk is the right one ---------- */

  lemma {:induction false} HopAlongChain(t: Table, p: seq<nat>, k: nat)
    requires ValidTable(t) && p != [] && Chained(t, p) && k < |p|
    ensures Hop(t, p[0], k) == p[k]
  {
    if k > 0 { HopAlongChain(t, p, k - 1); }
  }

  lemma {:induction false} HopStaysInRing(t: Table, p: seq<nat>, k: nat)
    requires ValidTable(t) && Walk(t, p) && Last(p) in p[..|p| - 1]
    ensures Hop(t, p[0], k) in p[..|p| - 1]
  {
    if k > 0 {
      HopStaysInRing(t, p, k - 1);
      var c := Hop(t, p[0], k - 1);
      var a :| 0 <= a < |p| - 1 && p[a] == c;
      assert t[p[a]] == Some(p[a + 1]);
      if a + 1 < |p| - 1 { assert p[..|p| - 1][a + 1] == p[a + 1]; }
    } else {
      assert p[..|p| - 1] != [];
      assert p[..|p| - 1][0] == p[0];
    }
  }

  /** A walk ends at a root exactly when the line can be resolved at all. */
  lemma TrailFindsRoot(t: Table, i: nat)
    requires ValidTable(t) && i < |t|
    ensures t[Terminal(t, i)].None? <==> ReachesRoot(t, i)
  {
    var p := Trail(t, i);
    HopAlongChain(t, p, |p| - 1);
    if t[Last(p)].Some? {
      forall k: nat ensures t[Hop(t, i, k)].Some? {
        HopStaysInRing(t, p, k);
        var a :| 0 <= a < |p| - 1 && p[a] == Hop(t, i, k);
        assert t[p[a]] == Some(p[a + 1]);
      }
    }
  }

  /** There is only one complete walk from a line. */
  lemma {:induction false} ExtendUnique(t: Table, p: seq<nat>, q: seq<nat>)
    requires ValidTable(t) && Walk(t, p) && Walk(t, q) && Ended(t, q) && p <= q
    ensures Extend(t, p) == q
    decreases |q| - |p|
  {
    if p != q {
      var m := |p| - 1;
      assert t[q[m]] == Some(q[m + 1]);
      forall a | 0 <= a < m ensures p[..m][a] != p[m] {
        assert q[..|q| - 1][a] == p[a] && q[..|q| - 1][m] == p[m];
      }
      assert !Ended(t, p);
      WalkExtends(t, p);
      assert p + [q[m + 1]] == q[..m + 2];
      ExtendUnique(t, p + [q[m + 1]], q);
    }
  }

  lemma WalkSuffix(t: Table, p: seq<nat>, a: nat)
    requires Walk(t, p) && a < |p| - 1
    ensures Walk(t, p[a..])
  {
    var q := p[a..];
    assert q[..|q| - 1] == p[..|p| - 1][a..];
    forall k | 0 <= k < |q| - 1 ensures t[q[k]] == Some(q[k + 1]) {
      assert t[p[a + k]] == Some(p[a + k + 1]);
    }
  }

  /** The line a walk ends at keeps its own value: its own walk ends at itself. */
  lemma TerminalIsFixed(t: Table, i: nat)
    requires ValidTable(t) && i < |t|
    ensures Terminal(t, Terminal(t, i)) == Terminal(t, i)
  {
    var p := Trail(t, i);
    var e := Last(p);
    if t[e].None? {
      assert Trail(t, e) == [e];
    } else {
      var a :| 0 <= a < |p| - 1 && p[..|p| - 1][a] == e;
      var q := p[a..];
      WalkSuffix(t, p, a);
      assert q[0] == e && Last(q) == e && q[..|q| - 1][0] == e;
      assert Ended(t, q);
      hide Walk, Ended;
      assert Walk(t, [e]);
      ExtendUnique(t, [e], q);
    }
  }

  /* ---------- the resolver ---------- */

  lemma WalkDone(t: Table, i: nat, p: seq<nat>)
    requires ValidTable(t) && i < |t| && Walk(t, p) && Ended(t, p) && Extend(t, p) == Trail(t, i)
    ensures Last(p) == Terminal(t, i)
    ensures Link(t, i) == if t[Last(p)].None? then Some(p[1..]) else None
  {
    TrailFindsRoot(t, i);
  }

  lemma SeenIsNoRoot(t: Table, p: seq<nat>)
    requires Walk(t, p) && Last(p) in p[..|p| - 1]
    ensures t[Last(p)].Some?
  {
    var a :| 0 <= a < |p| - 1 && p[..|p| - 1][a] == Last(p);
    assert t[p[a]] == Some(p[a + 1]);
  }

  lemma ExtendStep(t: Table, p: seq<nat>)
    requires ValidTable(t) && Walk(t, p) && !Ended(t, p)
    ensures var q := p + [t[Last(p)].value];
            Walk(t, q) && |p| <= |t| && Extend(t, q) == Extend(t, p)
            && q[..|q| - 1] == p && p == p[..|p| - 1] + [Last(p)] && q[1..] == p[1..] + [t[Last(p)].value]
  {
    WalkBounded(t, p);
    WalkExtends(t, p);
  }

  lemma StartOfTrail(t: Table, i: nat)
    requires ValidTable(t) && i < |t|
    ensures Walk(t, [i]) && Extend(t, [i]) == Trail(t, i)
  {
  }

  /** Follow the redirections of line `i`: its links, or `None` on a ring, and the
      line whose value it takes. */
  method Follow(t: Table, i: nat) returns (link: Option<seq<nat>>, cur: nat)
    requires ValidTable(t) && i < |t|
    ensures cur == Terminal(t, i)
    ensures link == Link(t, i)
  {
    hide Extend, Trail, Link, Chained, Distinct;
    var tmpLink: seq<nat> := [];
    cur := i;
    var visited: set<nat> := {};
    ghost var p := [i];
    StartOfTrail(t, i);
    while t[cur].Some?
      invariant cur < |t|
      invariant Walk(t, p) && Last(p) == cur && tmpLink == p[1..]
      invariant forall x :: x in visited <==> x in p[..|p| - 1]
      invariant cur !in visited
      invariant Extend(t, p) == Trail(t, i)
      decreases |t| + 1 - |p|
    {
      ExtendStep(t, p);
      visited := visited + {cur};
      tmpLink := tmpLink + [t[cur].value];
      cur := t[cur].value;
      p := p + [cur];
      if cur in visited {
        SeenIsNoRoot(t, p);
        WalkDone(t, i, p);
        return None, cur;
      }
    }
    WalkDone(t, i, p);
    return Some(tmpLink), cur;
  }

  /** Resolve all lines, overwriting `values` in place.  Every line gets the
      original value of the line its walk ends at, although earlier iterations
      have already overwritten some of the values read. */
  method Resolve(t: Table, values: array<string>) returns (links: array<Option<seq<nat>>>, rings: set<nat>)
    requires ValidTable(t) && values.Length == |t|
    modifies values
    ensures fresh(links) && links.Length == |t|
    ensures forall i :: 0 <= i < |t| ==> (i in rings <==> !ReachesRoot(t, i))
    ensures forall i :: i in rings ==> i < |t|
    ensures forall i :: 0 <= i < |t| ==>
              links[i] == Link(t, i)
    ensures forall i :: 0 <= i < |t| ==> values[i] == old(values[Terminal(t, i)])
  {
    hide ReachesRoot, Terminal;
    links := new Option<seq<nat>>[|t|](_ => Some([]));
    rings := {};
    for i := 0 to |t|
      invariant forall x :: x in rings ==> x < i
      invariant forall x :: 0 <= x < i ==> (x in rings <==> !ReachesRoot(t, x))
      invariant forall x :: 0 <= x < i ==> links[x] == Link(t, x)
      invariant forall x :: i <= x < |t| ==> links[x] == Some([])
      invariant forall x :: 0 <= x < i ==> values[x] == old(values[Terminal(t, x)])
      invariant forall x :: i <= x < |t| ==> values[x] == old(values[x])
    {
      RootStays(t, i);
      if t[i].None? {
        continue;
      }
      var link, cur := Follow(t, i);
      if link.None? { rings := rings + {i}; }
      TerminalIsFixed(t, i);
      values[i] := values[cur];
      links[i] := link;
    }
  }

  lemma RootStays(t: Table, i: nat)
    requires ValidTable(t) && i < |t|
    ensures t[i].None? ==> Terminal(t, i) == i && Link(t, i) == Some([]) && ReachesRoot(t, i)
  {
    assert Hop(t, i, 0) == i;
    if t[i].None? { assert Trail(t, i) == [i] && [i][1..] == []; }
  }

  /** The links of a resolvable line are its duplicate-free redirect path: they
      chain from the line to a root, and no line occurs twice. */
  lemma LinksAreThePath(t: Table, i: nat)
    requires ValidTable(t) && i < |t| && ReachesRoot(t, i)
    ensures var path := [i] + Trail(t, i)[1..];
            Chained(t, path) && Distinct(path) && t[Last(path)].None? && Last(path) == Terminal(t, i)
  {
    TrailFindsRoot(t, i);
    var p := Trail(t, i);
    assert p == [i] + p[1..];
    forall a, b | 0 <= a < b < |p| ensures p[a] != p[b] {
      if b == |p| - 1 {
        assert t[p[a]] == Some(p[a + 1]);
      } else {
        assert p[..|p| - 1][a] == p[a] && p[..|p| - 1][b] == p[b];
      }
    }
  }

  /* ---------- grouping by number of hops ---------- */

  /** The resolvable lines below `n` whose path has `h` lines, in order. */
  ghost function Group(t: Table, h: int, n: nat): seq<nat>
    requires ValidTable(t) && n <= |t|
  {
    if n == 0 then []
    else if ReachesRoot(t, n - 1) && |Trail(t, n - 1)| == h then Group(t, h, n - 1) + [n - 1]
    else Group(t, h, n - 1)
  }

  function Lookup(groups: map<int, seq<nat>>, h: int): seq<nat> {
    if h in groups then groups[h] else []
  }

  /** Group the resolvable lines; the first two groups always exist. */
  method GroupByHops(t: Table, links: array<Option<seq<nat>>>, rings: set<nat>) returns (groups: map<int, seq<nat>>)
    requires ValidTable(t) && links.Length == |t|
    requires forall i :: 0 <= i < |t| ==> (i in rings <==> !ReachesRoot(t, i))
    requires forall i :: 0 <= i < |t| ==> links[i] == Link(t, i)
    ensures forall h :: Lookup(groups, h) == Group(t, h, |t|)
    ensures forall h :: h in groups <==> h == 1 || h == 2 || Group(t, h, |t|) != []
  {
    hide Group, ReachesRoot, Link;
    groups := map[];
    GroupsOfNone(t);
    for i := 0 to |t|
      invariant forall h :: Lookup(groups, h) == Group(t, h, i)
      invariant forall h :: h in groups <==> Group(t, h, i) != []
    {
      GroupsStep(t, i);
      if i in rings {
        continue;
      }
      var h := |links[i].value| + 1;
      groups := groups[h := Lookup(groups, h) + [i]];
    }
    groups := groups[1 := Lookup(groups, 1)];
    groups := groups[2 := Lookup(groups, 2)];
  }

  lemma GroupsOfNone(t: Table)
    requires ValidTable(t)
    ensures forall h :: Group(t, h, 0) == []
  {
  }

  lemma GroupsStep(t: Table, i: nat)
    requires ValidTable(t) && i < |t|
    ensures !ReachesRoot(t, i) ==> forall h :: Group(t, h, i + 1) == Group(t, h, i)
    ensures ReachesRoot(t, i) ==>
              && Link(t, i).Some?
              && forall h :: Group(t, h, i + 1) == Group(t, h, i) + if h == |Link(t, i).value| + 1 then [i] else []
  {
  }

  predicate Increasing(s: seq<nat>) {
    forall i, j :: 0 <= i < j < |s| ==> s[i] < s[j]
  }

  /** A group is in line order. */
  lemma {:induction false} GroupInOrder(t: Table, h: int, n: nat)
    requires ValidTable(t) && n <= |t|
    ensures Increasing(Group(t, h, n)) && forall i :: 0 <= i < |Group(t, h, n)| ==> Group(t, h, n)[i] < n
  {
    hide Trail, ReachesRoot;
    if n > 0 { GroupInOrder(t, h, n - 1); }
  }

  /** Membership in a group, said without the recursion. */
  lemma {:induction false} GroupContains(t: Table, h: int, n: nat, i: nat)
    requires ValidTable(t) && n <= |t|
    ensures i in Group(t, h, n) <==> i < n && ReachesRoot(t, i) && |Trail(t, i)| == h
  {
    if n > 0 { GroupContains(t, h, n - 1, i); }
  }
}
