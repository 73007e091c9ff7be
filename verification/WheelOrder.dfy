/** The order of the links in the package index.  The script promises an order by
    commit count, newest first (scripts/update_nightly_whl_index.py); the page is
    ordered by run, and this says exactly when that is the same. */
module WheelOrder {
  import opened Sequences
  import opened WheelLinks
  import opened WheelPages

  /** The last run that published a file name, or -1. */
  function LatestRun(runs: seq<seq<string>>, name: string): (r: int)
    ensures -1 <= r < |runs|
  {
    if runs == [] then -1
    else
      var m := |runs| - 1;
      if name in Names(runs[m]) then m else LatestRun(runs[..m], name)
  }

  /** The file name of a link that has one. */
  function NameOf(link: string): string {
    match FilenameOf(link) case None => "" case Some(f) => f
  }

  /** Run `a` published a file name that no later run publishes again. */
  ghost predicate Contributes(runs: seq<seq<string>>, a: nat)
    requires a < |runs|
  {
    exists name :: name in Names(runs[a]) && LatestRun(runs, name) == a
  }

  /** What `LatestRun` means. */
  lemma {:induction false} LatestRunMeaning(runs: seq<seq<string>>, name: string, a: nat)
    requires a < |runs|
    ensures LatestRun(runs, name) == a <==>
              name in Names(runs[a]) && forall b :: a < b < |runs| ==> name !in Names(runs[b])
  {
    hide Names;
    var m := |runs| - 1;
    if name !in Names(runs[m]) && a < m {
      LatestRunMeaning(runs[..m], name, a);
      assert forall b :: 0 <= b < m ==> runs[..m][b] == runs[b];
    }
  }

  /** Exactly the names published by some run have a latest run. */
  lemma {:induction false} PublishedHasLatest(runs: seq<seq<string>>, name: string)
    ensures name in Names(NewestFirst(runs)) <==> LatestRun(runs, name) >= 0
  {
    if runs != [] {
      var m := |runs| - 1;
      PublishedHasLatest(runs[..m], name);
      NamesConcat(runs[m], NewestFirst(runs[..m]));
    }
  }

  lemma DedupNames(links: seq<string>, seen: set<string>, i: nat)
    requires i < |Dedup(links, seen)|
    ensures NameOf(Dedup(links, seen)[i]) in Names(links) && NameOf(Dedup(links, seen)[i]) !in seen
  {
    hide FilenameOf, Dedup;
    DedupIsDistinct(links, seen);
    DedupKeepsNames(links, seen);
    NamesContain(Dedup(links, seen), i);
  }

  /** The kept links come run by run, the latest run first. */
  lemma {:induction false} RunsDescend(runs: seq<seq<string>>, seen: set<string>, i: nat, j: nat)
    requires i < j < |Dedup(NewestFirst(runs), seen)|
    ensures var kept := Dedup(NewestFirst(runs), seen);
            LatestRun(runs, NameOf(kept[i])) >= LatestRun(runs, NameOf(kept[j]))
    decreases |runs|
  {
    var kept, m := Dedup(NewestFirst(runs), seen), |runs| - 1;
    var newest, earlier := runs[m], NewestFirst(runs[..m]);
    DedupConcat(newest, earlier, seen);
    var x, y := Dedup(newest, seen), Dedup(earlier, seen + Names(newest));
    assert kept == x + y;
    hide Dedup, NameOf, NewestFirst, Names;
    if i < |x| {
      DedupNames(newest, seen, i);
    } else {
      DedupNames(earlier, seen + Names(newest), i - |x|);
      DedupNames(earlier, seen + Names(newest), j - |x|);
      RunsDescend(runs[..m], seen + Names(newest), i - |x|, j - |x|);
    }
  }

  /** The count of the run a listed link comes from. */
  function CountOf(counts: seq<int>, runs: seq<seq<string>>, link: string): int
    requires |counts| == |runs|
  {
    var r := LatestRun(runs, NameOf(link));
    if r < 0 then 0 else counts[r]
  }

  /** The links are listed by the commit count of their runs, the highest first. */
  ghost predicate ListedByCount(counts: seq<int>, runs: seq<seq<string>>, links: seq<string>)
    requires |counts| == |runs|
  {
    forall i, j :: 0 <= i < j < |links| ==> CountOf(counts, runs, links[i]) >= CountOf(counts, runs, links[j])
  }

  /** No run that contributes to the page has a lower count than an earlier one. */
  ghost predicate CountsNeverFall(counts: seq<int>, runs: seq<seq<string>>)
    requires |counts| == |runs|
  {
    forall a, b :: 0 <= a < b < |runs| && Contributes(runs, a) && Contributes(runs, b) ==> counts[a] <= counts[b]
  }

  /** Every listed link comes from a run that contributes. */
  lemma ListedRun(runs: seq<seq<string>>, i: nat)
    requires i < |Dedup(NewestFirst(runs), {})|
    ensures var r := LatestRun(runs, NameOf(Dedup(NewestFirst(runs), {})[i])); r >= 0 && Contributes(runs, r)
  {
    hide Dedup, NewestFirst, NameOf, Names;
    var name := NameOf(Dedup(NewestFirst(runs), {})[i]);
    DedupNames(NewestFirst(runs), {}, i);
    PublishedHasLatest(runs, name);
    var r := LatestRun(runs, name);
    LatestRunMeaning(runs, name, r);
  }

  lemma {:induction false} NameHasLink(links: seq<string>, name: string) returns (i: nat)
    requires name in Names(links)
    ensures i < |links| && NameOf(links[i]) == name
  {
    hide FilenameOf;
    if NameOf(links[0]) == name {
      i := 0;
    } else {
      i := NameHasLink(links[1..], name);
      i := i + 1;
    }
  }

  /** Every run that contributes has a listed link. */
  lemma ContributionIsListed(runs: seq<seq<string>>, a: nat) returns (i: nat)
    requires a < |runs| && Contributes(runs, a)
    ensures var kept := Dedup(NewestFirst(runs), {});
            i < |kept| && LatestRun(runs, NameOf(kept[i])) == a
  {
    hide Dedup, NewestFirst, NameOf, Names;
    var name :| name in Names(runs[a]) && LatestRun(runs, name) == a;
    PublishedHasLatest(runs, name);
    DedupKeepsNames(NewestFirst(runs), {});
    i := NameHasLink(Dedup(NewestFirst(runs), {}), name);
  }

  lemma FallingCountsMisplace(counts: seq<int>, runs: seq<seq<string>>, a: nat, b: nat)
    requires |counts| == |runs| && a < b < |runs| && Contributes(runs, a) && Contributes(runs, b)
    requires ListedByCount(counts, runs, Dedup(NewestFirst(runs), {}))
    ensures counts[a] <= counts[b]
  {
    hide Dedup, NewestFirst, NameOf, LatestRun, Contributes;
    var i := ContributionIsListed(runs, a);
    var j := ContributionIsListed(runs, b);
    if i < j { RunsDescend(runs, {}, i, j); }
  }

  lemma KeptByCountIff(counts: seq<int>, runs: seq<seq<string>>)
    requires |counts| == |runs|
    ensures ListedByCount(counts, runs, Dedup(NewestFirst(runs), {})) <==> CountsNeverFall(counts, runs)
  {
    hide Dedup, NewestFirst, NameOf, LatestRun, Contributes;
    var links := Dedup(NewestFirst(runs), {});
    if ListedByCount(counts, runs, links) {
      forall a, b | 0 <= a < b < |runs| && Contributes(runs, a) && Contributes(runs, b)
        ensures counts[a] <= counts[b]
      {
        FallingCountsMisplace(counts, runs, a, b);
      }
    }
    if CountsNeverFall(counts, runs) {
      forall i, j | 0 <= i < j < |links| ensures CountOf(counts, runs, links[i]) >= CountOf(counts, runs, links[j]) {
        RunsDescend(runs, {}, i, j);
        ListedRun(runs, i);
        ListedRun(runs, j);
      }
    }
  }

  lemma PageOfRuns(cuda: string, runs: seq<seq<string>>)
    requires OneLine(cuda) && forall r :: 0 <= r < |runs| ==> CleanLinks(runs[r])
    requires runs != []
    ensures ParsePage(AfterRuns(None, cuda, runs)) == Dedup(NewestFirst(runs), {})
  {
    assert ParsePage(None) == [];
    hide Dedup, ParsePage, AfterRuns, CleanLinks, NewestFirst;
    IncrementalIsBatch(None, cuda, runs);
    assert NewestFirst(runs) + [] == NewestFirst(runs);
  }

  /** The page is ordered by commit count exactly when no contributing run is of an
      older commit than an earlier one: for every sequence of runs on a new index,
      with files republished or not. */
  lemma ListedByCountIff(cuda: string, runs: seq<seq<string>>, counts: seq<int>)
    requires OneLine(cuda) && forall r :: 0 <= r < |runs| ==> CleanLinks(runs[r])
    requires |counts| == |runs| && runs != []
    ensures ListedByCount(counts, runs, ParsePage(AfterRuns(None, cuda, runs))) <==> CountsNeverFall(counts, runs)
  {
    hide Dedup, ParsePage, AfterRuns, CleanLinks, NewestFirst, ListedByCount, CountsNeverFall;
    PageOfRuns(cuda, runs);
    KeptByCountIff(counts, runs);
  }

  /** When every run publishes file names of its own, the page is ordered by commit
      count exactly when the counts never fall from one run to the next. */
  lemma FreshRunsByCountIff(cuda: string, runs: seq<seq<string>>, counts: seq<int>)
    requires OneLine(cuda) && forall r :: 0 <= r < |runs| ==> CleanLinks(runs[r]) && Names(runs[r]) != {}
    requires forall a, b :: 0 <= a < b < |runs| ==> Names(runs[a]) !! Names(runs[b])
    requires |counts| == |runs| && runs != []
    ensures ListedByCount(counts, runs, ParsePage(AfterRuns(None, cuda, runs))) <==>
              forall r :: 0 < r < |runs| ==> counts[r - 1] <= counts[r]
  {
    hide Names, ParsePage, AfterRuns, CleanLinks, ListedByCount;
    ListedByCountIff(cuda, runs, counts);
    forall a | 0 <= a < |runs| ensures Contributes(runs, a) {
      var name :| name in Names(runs[a]);
      LatestRunMeaning(runs, name, a);
    }
    if forall r :: 0 < r < |runs| ==> counts[r - 1] <= counts[r] {
      forall a, b | 0 <= a < b < |runs| ensures counts[a] <= counts[b] { StepsAddUp(counts, a, b); }
    }
  }

  lemma {:induction false} StepsAddUp(counts: seq<int>, a: nat, b: nat)
    requires a <= b < |counts| && forall r :: 0 < r < |counts| ==> counts[r - 1] <= counts[r]
    ensures counts[a] <= counts[b]
    decreases b - a
  {
    if a < b { StepsAddUp(counts, a, b - 1); }
  }

  lemma NamesOfOne(x: string)
    requires FilenameOf(x).Some?
    ensures Names([x]) == {NameOf(x)}
  {
    assert Names([x][1..]) == {};
  }

  /** Two runs of one link each: the second run's is listed first. */
  lemma TwoRuns(cuda: string, x: string, y: string)
    requires OneLine(cuda) && CleanLink(x) && CleanLink(y)
    requires FilenameOf(x).Some? && FilenameOf(y).Some? && FilenameOf(x) != FilenameOf(y)
    ensures ParsePage(AfterRuns(None, cuda, [[x], [y]])) == [y, x]
    ensures CountOf([2, 1], [[x], [y]], y) == 1 && CountOf([2, 1], [[x], [y]], x) == 2
  {
    hide FilenameOf, ParsePage, AfterRuns, CleanLink;
    var runs := [[x], [y]];
    assert [x][1..] == [] && [y][1..] == [] && [y, x][1..] == [x];
    NamesOfOne(x);
    NamesOfOne(y);
    assert NewestFirst(runs) == [y, x] by {
      assert runs[..1] == [[x]] && [[x]][..0] == [];
      assert NewestFirst([[x]]) == [x] + NewestFirst([]);
    }
    assert Dedup([y, x], {}) == [y, x] by { assert Dedup([x], {} + {NameOf(y)}) == [x]; }
    PageOfRuns(cuda, runs);
    assert LatestRun(runs, NameOf(y)) == 1;
    assert LatestRun(runs, NameOf(x)) == 0 by { assert runs[..1] == [[x]]; }
  }

  const NewerWheel := Wheel("b.whl", "")
  const OlderWheel := Wheel("a.whl", "")

  /** The wheel of commit 2 is published, then a rebuild of commit 1, which is then
      listed first. */
  lemma RebuildIsListedFirst(cuda: string)
    requires OneLine(cuda)
    ensures var newer, older := MakeLink("n", NewerWheel), MakeLink("o", OlderWheel);
            var page := ParsePage(AfterRuns(None, cuda, [[newer], [older]]));
            page == [older, newer] && !ListedByCount([2, 1], [[newer], [older]], page)
  {
    hide MakeLink, FilenameOf, ParsePage, AfterRuns, CountOf, CleanLink;
    var newer, older := MakeLink("n", NewerWheel), MakeLink("o", OlderWheel);
    LinkHasName("n", NewerWheel);
    LinkHasName("o", OlderWheel);
    GeneratedLinkIsClean("n", NewerWheel);
    GeneratedLinkIsClean("o", OlderWheel);
    assert NewerWheel.filename[0] == 'b' && OlderWheel.filename[0] == 'a';
    TwoRuns(cuda, newer, older);
    assert [older, newer][0] == older && [older, newer][1] == newer;
  }
}
