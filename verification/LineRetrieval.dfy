/** Queries on a truncated document (benchmark/line_retrieval/bench_sglang.py,
    with the document written by benchmark/line_retrieval/gen_data.py).

    The evaluation cuts the document after a chosen line and asks for a line
    before the cut.  A reader who has only the cut document and the queried name
    must be able to find the expected answer. */
module LineRetrieval {
  import opened Sequences
  import opened Redirects

  datatype Line = Content(name: string, value: string) | SameAs(name: string, target: string)

  /** The generated data: names of the lines, their original values, redirections. */
  datatype Source = Source(names: seq<string>, originals: seq<string>, table: Table)

  ghost predicate ValidSource(d: Source) {
    && |d.names| == |d.originals| == |d.table| && ValidTable(d.table)
    && forall i, j :: 0 <= i < j < |d.names| ==> d.names[i] != d.names[j]
  }

  function LineOf(d: Source, i: nat): Line
    requires ValidSource(d) && i < |d.table|
  {
    if d.table[i].None? then Content(d.names[i], d.originals[i])
    else SameAs(d.names[i], d.names[d.table[i].value])
  }

  /** The lines before the cut. */
  function Document(d: Source, n: nat): (r: seq<Line>)
    requires ValidSource(d) && n <= |d.table|
    ensures |r| == n && forall i :: 0 <= i < n ==> r[i] == LineOf(d, i)
  {
    seq(n, i requires 0 <= i < n => LineOf(d, i))
  }

  /* ---------- a reader of the document ---------- */

  function Find(body: seq<Line>, name: string): (r: Option<nat>)
    ensures r.Some? ==> r.value < |body| && body[r.value].name == name
    ensures r.None? ==> forall i :: 0 <= i < |body| ==> body[i].name != name
  {
    if body == [] then None
    else if body[0].name == name then Some(0)
    else match Find(body[1..], name)
      case None => None
      case Some(i) => Some(i + 1)
  }

  /** Look up a line by name and follow at most `hops` references. */
  function Read(body: seq<Line>, name: string, hops: nat): Option<string>
    decreases hops
  {
    match Find(body, name)
    case None => None
    case Some(i) =>
      match body[i]
      case Content(_, value) => Some(value)
      case SameAs(_, target) => if hops == 0 then None else Read(body, target, hops - 1)
  }

  lemma FindByName(d: Source, n: nat, i: nat)
    requires ValidSource(d) && n <= |d.table| && i < |d.table|
    ensures Find(Document(d, n), d.names[i]) == if i < n then Some(i) else None
  {
    var r := Find(Document(d, n), d.names[i]);
    if i < n {
      assert Document(d, n)[i].name == d.names[i];
    }
    if r.Some? {
      assert d.names[r.value] == d.names[i];
    }
  }

  /** Following a chain of references inside the document down to a root. */
  lemma {:induction false} ReadAlong(d: Source, n: nat, p: seq<nat>)
    requires ValidSource(d) && n <= |d.table|
    requires p != [] && Chained(d.table, p) && d.table[Last(p)].None?
    requires forall a :: 0 <= a < |p| ==> p[a] < n
    ensures Read(Document(d, n), d.names[p[0]], |p| - 1) == Some(d.originals[Last(p)])
    decreases |p|
  {
    FindByName(d, n, p[0]);
    if |p| > 1 {
      assert d.table[p[0]] == Some(p[1]);
      var q := p[1..];
      forall a | 0 <= a < |q| - 1 ensures d.table[q[a]] == Some(q[a + 1]) {
        assert d.table[p[a + 1]] == Some(p[a + 2]);
      }
      ReadAlong(d, n, q);
    }
  }

  /** Once a reference leaves the document, no amount of reading helps. */
  lemma {:induction false} ReadStuck(d: Source, n: nat, p: seq<nat>, k: nat, hops: nat)
    requires ValidSource(d) && n <= |d.table|
    requires Chained(d.table, p) && k < |p| && p[k] >= n
    ensures Read(Document(d, n), d.names[p[0]], hops) == None
    decreases k
  {
    FindByName(d, n, p[0]);
    if k > 0 && p[0] < n && hops > 0 {
      assert d.table[p[0]] == Some(p[1]);
      var q := p[1..];
      forall a | 0 <= a < |q| - 1 ensures d.table[q[a]] == Some(q[a + 1]) {
        assert d.table[p[a + 1]] == Some(p[a + 2]);
      }
      ReadStuck(d, n, q, k - 1, hops - 1);
    } else if p[0] < n {
      assert k > 0;
      assert d.table[p[0]] == Some(p[1]);
    }
  }

  /** A resolvable line can be read from the cut document exactly when all lines on
      its redirect path are before the cut, and then what is read is the value the
      resolver gave it. */
  lemma ReadableIffPathInside(d: Source, n: nat, q: nat, hops: nat)
    requires ValidSource(d) && n <= |d.table| && q < |d.table| && ReachesRoot(d.table, q)
    ensures var path := Trail(d.table, q);
            && ((forall a :: 0 <= a < |path| ==> path[a] < n) ==>
                 Read(Document(d, n), d.names[q], |path| - 1) == Some(d.originals[Terminal(d.table, q)]))
            && (!(forall a :: 0 <= a < |path| ==> path[a] < n) ==>
                 Read(Document(d, n), d.names[q], hops) == None)
  {
    TrailFindsRoot(d.table, q);
    var path := Trail(d.table, q);
    if forall a :: 0 <= a < |path| ==> path[a] < n {
      ReadAlong(d, n, path);
    } else {
      var k :| 0 <= k < |path| && path[k] >= n;
      ReadStuck(d, n, path, k, hops);
    }
  }

  /* ---------- choosing a query ---------- */

  datatype QueryError = NoSuchGroup | NoQuery

  /** The generator's output as read back by the evaluation. */
  datatype LineObject = LineObject(
    names: seq<string>,
    values: seq<string>,
    links: seq<Option<seq<nat>>>,
    groups: map<int, seq<nat>>,
    lines: seq<Line>)

  ghost predicate GeneratedFrom(o: LineObject, d: Source) {
    && ValidSource(d)
    && var n := |d.table|;
    && o.names == d.names && |o.values| == |o.links| == n && o.lines == Document(d, n)
    && (forall i :: 0 <= i < n ==> o.values[i] == d.originals[Terminal(d.table, i)])
    && (forall i :: 0 <= i < n ==> o.links[i] == Link(d.table, i))
    && (forall h :: h in o.groups ==> o.groups[h] == Group(d.table, h, n))
  }

  /** Generate the object: resolve all lines in place, then group them. */
  method Generate(d: Source) returns (o: LineObject)
    requires ValidSource(d)
    ensures GeneratedFrom(o, d) && 1 in o.groups && 2 in o.groups
    ensures forall h :: Group(d.table, h, |d.table|) != [] ==> h in o.groups
  {
    var n := |d.table|;
    var values := new string[n](i requires 0 <= i < n => d.originals[i]);
    assert forall i :: 0 <= i < n ==> values[i] == d.originals[i];
    var links, rings := Resolve(d.table, values);
    var groups := GroupByHops(d.table, links, rings);
    hide Terminal, Link, Group;
    o := LineObject(d.names, values[..], links[..], groups, Document(d, n));
    forall h | h in o.groups ensures o.groups[h] == Group(d.table, h, n) {
      assert Lookup(groups, h) == groups[h];
    }
  }

  datatype Query = Query(dst: nat, answer: string, name: string, parts: seq<seq<Line>>)

  predicate LinksBelow(link: seq<nat>, src: int) {
    forall a :: 0 <= a < |link| ==> link[a] <= src
  }

  /** The queries of a group that the cut document can answer, in order. */
  function Answerable(links: seq<Option<seq<nat>>>, group: seq<nat>, src: int): (r: seq<nat>)
    ensures forall q :: q in r <==>
              q in group && q < src && q < |links| && links[q].Some? && LinksBelow(links[q].value, src)
  {
    if group == [] then []
    else
      var q := group[0];
      var rest := Answerable(links, group[1..], src);
      if q < src && q < |links| && links[q].Some? && LinksBelow(links[q].value, src) then [q] + rest else rest
  }

  lemma {:induction false} AnswerableInOrder(links: seq<Option<seq<nat>>>, group: seq<nat>, src: int)
    requires Increasing(group)
    ensures Increasing(Answerable(links, group, src))
  {
    if group != [] {
      AnswerableInOrder(links, group[1..], src);
      var rest := Answerable(links, group[1..], src);
      forall i | 0 <= i < |rest| ensures group[0] < rest[i] {
        assert rest[i] in rest;
        assert rest[i] in group[1..];
      }
    }
  }

  /** The four body parts. */
  function Parts(body: seq<Line>): (r: seq<seq<Line>>)
    ensures |r| == 4 && r[0] + r[1] + r[2] + r[3] == body
    ensures |r[0]| == |r[1]| == |r[2]| == |body| / 4
  {
    var n := |body| / 4;
    [body[..n], body[n..2 * n], body[2 * n..3 * n], body[3 * n..]]
  }

  /** The position at `percent` of `n` entries, at most the last. */
  function PositionAt(n: nat, percent: real): (r: nat)
    requires n > 0 && percent >= 0.0
    ensures r < n
    ensures r as real <= n as real * percent
    ensures n as real * percent < r as real + 1.0 || r == n - 1
  {
    var k := (n as real * percent).Floor;
    if k < n - 1 then k else n - 1
  }

  /** Lines of the document kept by a cut after line `src`. */
  function Cut(n: nat, src: int): (r: nat)
    requires src >= 0
    ensures r <= n && r <= src + 1 && (r == n || r == src + 1)
  {
    if src + 1 <= n then src + 1 else n
  }

  lemma QueryIsReadable(d: Source, h: int, src: int, q: nat)
    requires ValidSource(d) && 0 <= q < src && AnswerableLine(d, h, src, q)
    ensures h >= 1
    ensures Read(Document(d, Cut(|d.table|, src)), d.names[q], h - 1) == Some(d.originals[Terminal(d.table, q)])
  {
    var p := Trail(d.table, q);
    assert forall a :: 0 <= a < |p| ==> p[a] < Cut(|d.table|, src);
    ReadableIffPathInside(d, Cut(|d.table|, src), q, h - 1);
  }

  /** One query of the evaluation: pick a line at `percent` of the answerable ones,
      cut the document after line `src` and split it into four parts. */
  method ChooseQuery(o: LineObject, ghost d: Source, numHoops: int, src: int, percent: real)
    returns (r: Result<Query, QueryError>)
    requires GeneratedFrom(o, d) && percent >= 0.0
    ensures r == Err(NoSuchGroup) <==> numHoops !in o.groups
    ensures r == Err(NoQuery) <==>
              numHoops in o.groups && !exists q :: 0 <= q < src && q < |d.table| && AnswerableLine(d, numHoops, src, q)
    ensures r.Ok? ==>
              && r.value.dst < src && AnswerableLine(d, numHoops, src, r.value.dst)
              && r.value.name == d.names[r.value.dst]
              && numHoops in o.groups
              && var queries := Answerable(o.links, o.groups[numHoops], src);
              && |queries| > 0 && r.value.dst == queries[PositionAt(|queries|, percent)]
              && Increasing(queries)
              && (forall q: nat :: q in queries <==> q < src && q < |d.table| && AnswerableLine(d, numHoops, src, q))
              && |r.value.parts| == 4
              && var body := r.value.parts[0] + r.value.parts[1] + r.value.parts[2] + r.value.parts[3];
              && |body| == (if src < |d.table| then src + 1 else |d.table|)
              && (forall i :: 0 <= i < |body| ==> body[i] == LineOf(d, i))
              && Read(body, r.value.name, numHoops - 1) == Some(r.value.answer)
  {
    assert |d.names| == |d.table|;
    hide Terminal, Link, Group, Answerable, AnswerableLine, ValidSource, Read, PositionAt, Cut;
    if numHoops !in o.groups { return Err(NoSuchGroup); }
    var group := o.groups[numHoops];
    var queries := Answerable(o.links, group, src);
    AnswerableMeaning(o, d, numHoops, src);
    if queries == [] {
      return Err(NoQuery);
    }
    var dst := queries[PositionAt(|queries|, percent)];
    assert dst in queries;
    GroupInOrder(d.table, numHoops, |d.table|);
    AnswerableInOrder(o.links, group, src);
    var body := o.lines[..Cut(|o.lines|, src)];
    assert body == Document(d, Cut(|d.table|, src));
    QueryIsReadable(d, numHoops, src, dst);
    return Ok(Query(dst, o.values[dst], o.names[dst], Parts(body)));
  }

  /** Line `q` is in the group and its whole redirect path is at most at `src`. */
  ghost predicate AnswerableLine(d: Source, h: int, src: int, q: nat)
    requires ValidSource(d)
  {
    && q < |d.table| && ReachesRoot(d.table, q) && |Trail(d.table, q)| == h
    && forall a :: 0 <= a < |Trail(d.table, q)| ==> Trail(d.table, q)[a] <= src
  }

  lemma AnswerableMeaning(o: LineObject, d: Source, h: int, src: int)
    requires GeneratedFrom(o, d) && h in o.groups
    ensures forall q: nat :: q in Answerable(o.links, o.groups[h], src) <==>
              q < src && q < |d.table| && AnswerableLine(d, h, src, q)
  {
    forall q: nat
      ensures q in Answerable(o.links, o.groups[h], src) <==> q < src && q < |d.table| && AnswerableLine(d, h, src, q)
    {
      GroupContains(d.table, h, |d.table|, q);
      if q < |d.table| && ReachesRoot(d.table, q) {
        var p := Trail(d.table, q);
        assert p == [q] + p[1..];
        assert o.links[q] == Some(p[1..]);
        assert q < src ==> (LinksBelow(p[1..], src) <==> forall a :: 0 <= a < |p| ==> p[a] <= src);
      }
    }
  }
}
