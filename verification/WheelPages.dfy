/** The package page of the wheel index: printing it, parsing it back, and what a
    sequence of runs leaves in it (scripts/update_nightly_whl_index.py). */
module WheelPages {
  import opened Sequences
  import opened Text
  import opened WheelLinks

  /** Reading a file in text mode turns every line ending into `\n`. */
  function UniversalNewlines(s: string): string {
    if s == [] then []
    else if s[0] == '\r' then
      "\n" + UniversalNewlines(if |s| > 1 && s[1] == '\n' then s[2..] else s[1..])
    else [s[0]] + UniversalNewlines(s[1..])
  }

  lemma {:induction false} NewlinesUnchanged(s: string)
    requires '\r' !in s
    ensures UniversalNewlines(s) == s
  {
    if s != [] { NewlinesUnchanged(s[1..]); }
  }

  lemma {:induction false} NoCarriageReturn(s: string)
    ensures '\r' !in UniversalNewlines(s)
    decreases |s|
  {
    if s != [] {
      if s[0] == '\r' { NoCarriageReturn(if |s| > 1 && s[1] == '\n' then s[2..] else s[1..]); }
      else { NoCarriageReturn(s[1..]); }
    }
  }

  /** The lines that are links. */
  function LinkLines(lines: seq<string>): seq<string> {
    if lines == [] then []
    else (if StartsWith(lines[0], LINK_START) then [lines[0]] else []) + LinkLines(lines[1..])
  }

  function ParsePage(page: Option<string>): seq<string> {
    if page.None? then [] else LinkLines(Split(UniversalNewlines(page.value), "\n"))
  }

  const DOCTYPE := "<!DOCTYPE html>"

  function Heading(cuda: string): string { "<h1>SGLang" + " Nightly" + " Wheels (" + cuda + ")</h1>" }

  function PrintPage(cuda: string, links: seq<string>): string {
    DOCTYPE + "\n" + (Heading(cuda) + "\n" + (Join(links, "\n") + "\n"))
  }

  /** One line, with Unix line endings. */
  predicate OneLine(s: string) { '\n' !in s && '\r' !in s }

  predicate CleanLink(s: string) { OneLine(s) && StartsWith(s, LINK_START) }

  predicate CleanLinks(links: seq<string>) { forall k :: 0 <= k < |links| ==> CleanLink(links[k]) }

  /* ---------- printing and parsing back ---------- */

  lemma {:induction false} LinkLinesConcat(a: seq<string>, b: seq<string>)
    ensures LinkLines(a + b) == LinkLines(a) + LinkLines(b)
  {
    if a == [] {
      assert a + b == b;
    } else {
      assert (a + b)[1..] == a[1..] + b;
      LinkLinesConcat(a[1..], b);
    }
  }

  lemma {:induction false} LinkLinesOfLinks(links: seq<string>)
    requires CleanLinks(links)
    ensures LinkLines(links) == links
  {
    if links != [] {
      assert CleanLink(links[0]);
      forall k | 0 <= k < |links[1..]| ensures CleanLink(links[1..][k]) { assert CleanLink(links[k + 1]); }
      LinkLinesOfLinks(links[1..]);
    }
  }

  lemma NoLinkLine(line: string)
    requires !StartsWith(line, LINK_START)
    ensures LinkLines([line]) == []
  {
    assert [line][1..] == [];
  }

  /** The lines of a printed page; a page without links has an empty line instead. */
  function PageLines(cuda: string, links: seq<string>): seq<string> {
    [DOCTYPE] + ([Heading(cuda)] + ((if links == [] then [""] else links) + [""]))
  }

  lemma {:induction false} JoinTrailing(links: seq<string>)
    requires links != []
    ensures Join(links + [""], "\n") == Join(links, "\n") + "\n"
  {
    if |links| == 1 {
      assert (links + [""])[1..] == [""];
    } else {
      assert (links + [""])[1..] == links[1..] + [""];
      JoinTrailing(links[1..]);
    }
  }

  lemma JoinCons(head: string, tail: seq<string>)
    requires tail != []
    ensures Join([head] + tail, "\n") == head + "\n" + Join(tail, "\n")
  {
    assert ([head] + tail)[1..] == tail;
  }

  lemma PageIsJoined(cuda: string, links: seq<string>)
    ensures PrintPage(cuda, links) == Join(PageLines(cuda, links), "\n")
  {
    var body := (if links == [] then [""] else links) + [""];
    hide Heading;
    if links == [] {
      JoinCons("", [""]);
      assert body == [""] + [""];
    } else {
      JoinTrailing(links);
    }
    JoinCons(Heading(cuda), body);
    JoinCons(DOCTYPE, [Heading(cuda)] + body);
  }

  lemma DoctypeIsPlain()
    ensures OneLine(DOCTYPE) && !StartsWith(DOCTYPE, LINK_START)
  {
    assert DOCTYPE[1] == '!' && LINK_START[1] == 'a';
  }

  lemma HeadingIsOneLine(cuda: string)
    requires OneLine(cuda)
    ensures OneLine(Heading(cuda))
  {
    assert OneLine("<h1>SGLang");
    assert OneLine(" Nightly");
    assert OneLine(" Wheels (");
    assert OneLine(")</h1>");
  }

  lemma HeaderIsPlain(cuda: string)
    requires OneLine(cuda)
    ensures OneLine(DOCTYPE) && !StartsWith(DOCTYPE, LINK_START)
    ensures OneLine(Heading(cuda)) && !StartsWith(Heading(cuda), LINK_START)
  {
    hide OneLine;
    DoctypeIsPlain();
    HeadingIsOneLine(cuda);
    assert Heading(cuda)[1] == 'h' && LINK_START[1] == 'a';
  }

  lemma {:induction false} NotInJoin(parts: seq<string>, c: char)
    requires c != '\n' && forall k :: 0 <= k < |parts| ==> c !in parts[k]
    ensures c !in Join(parts, "\n")
  {
    if |parts| > 1 {
      NotInJoin(parts[1..], c);
    }
  }

  lemma PageLinesAreOneLine(cuda: string, links: seq<string>, k: nat)
    requires OneLine(cuda) && CleanLinks(links) && k < |PageLines(cuda, links)|
    ensures OneLine(PageLines(cuda, links)[k])
  {
    HeaderIsPlain(cuda);
    hide Heading;
    if links != [] && 2 <= k < |links| + 2 { assert PageLines(cuda, links)[k] == links[k - 2]; }
  }

  /** Parsing a printed page returns the links printed, in order. */
  lemma PageRoundTrip(cuda: string, links: seq<string>)
    requires OneLine(cuda) && CleanLinks(links)
    ensures ParsePage(Some(PrintPage(cuda, links))) == links
  {
    var lines := PageLines(cuda, links);
    PageIsJoined(cuda, links);
    forall k | 0 <= k < |lines| ensures '\n' !in lines[k] && '\r' !in lines[k] && Free(lines[k], "\n") {
      PageLinesAreOneLine(cuda, links, k);
      FreeOfCharacter(lines[k], '\n');
    }
    NotInJoin(lines, '\r');
    NewlinesUnchanged(PrintPage(cuda, links));
    SplitJoin(lines, "\n");
    PageLinksAreLinks(cuda, links);
  }

  lemma PageLinksAreLinks(cuda: string, links: seq<string>)
    requires OneLine(cuda) && CleanLinks(links)
    ensures LinkLines(PageLines(cuda, links)) == links
  {
    HeaderIsPlain(cuda);
    hide Heading, LinkLines;
    var body := if links == [] then [""] else links;
    LinkLinesConcat([DOCTYPE], [Heading(cuda)] + (body + [""]));
    LinkLinesConcat([Heading(cuda)], body + [""]);
    LinkLinesConcat(body, [""]);
    NoLinkLine(DOCTYPE);
    NoLinkLine(Heading(cuda));
    NoLinkLine("");
    if links != [] { LinkLinesOfLinks(links); }
  }

  /** Whatever file was there before, the links read from it are clean. */
  lemma {:induction false} LinkLinesClean(lines: seq<string>)
    requires forall k :: 0 <= k < |lines| ==> OneLine(lines[k])
    ensures CleanLinks(LinkLines(lines))
  {
    if lines != [] {
      LinkLinesClean(lines[1..]);
      assert OneLine(lines[0]);
    }
  }

  lemma {:induction false} SplitKeepsOut(s: string, c: char, sep: string, k: nat)
    requires sep != [] && c !in s && k < |Split(s, sep)|
    ensures c !in Split(s, sep)[k]
    decreases |s|
  {
    match IndexOf(s, sep)
    case None =>
    case Some(i) => if k > 0 { SplitKeepsOut(s[i + |sep|..], c, sep, k - 1); }
  }

  lemma ParsedLinksAreClean(page: Option<string>)
    ensures CleanLinks(ParsePage(page))
  {
    if page.Some? {
      var text := UniversalNewlines(page.value);
      NoCarriageReturn(page.value);
      JoinSplit(text, "\n");
      var lines := Split(text, "\n");
      forall k | 0 <= k < |lines| ensures OneLine(lines[k]) {
        SplitKeepsOut(text, '\r', "\n", k);
        FreeHasNo(lines[k], '\n');
      }
      LinkLinesClean(lines);
    }
  }

  lemma FreeHasNo(s: string, c: char)
    requires Free(s, [c])
    ensures c !in s
  {
    forall i | 0 <= i < |s| ensures s[i] != c {
      assert !OccursAt(s, i, [c]);
      assert s[i..i + 1] == [s[i]];
    }
  }

  lemma {:induction false} DedupIsClean(links: seq<string>, seen: set<string>)
    requires CleanLinks(links)
    ensures CleanLinks(Dedup(links, seen))
  {
    hide FilenameOf;
    if links != [] {
      forall k | 0 <= k < |links[1..]| ensures CleanLink(links[1..][k]) { assert CleanLink(links[k + 1]); }
      match FilenameOf(links[0])
      case None => DedupIsClean(links[1..], seen);
      case Some(f) =>
        if f in seen { DedupIsClean(links[1..], seen); } else { DedupIsClean(links[1..], seen + {f}); }
    }
  }

  lemma LinkIsOneLine(c: char, releaseTag: string, w: Wheel)
    requires (c == '\n' || c == '\r') && Absent(c, releaseTag, w)
    ensures c !in MakeLink(releaseTag, w)
  {
    BaseUrlIsPlain(c);
    NotInHead(c, releaseTag, w);
    hide LinkHead;
    assert c !in ">" && c !in "</a><br>";
  }

  /** A generated link is clean. */
  lemma GeneratedLinkIsClean(releaseTag: string, w: Wheel)
    requires Absent('\n', releaseTag, w) && Absent('\r', releaseTag, w)
    ensures CleanLink(MakeLink(releaseTag, w))
  {
    LinkIsOneLine('\n', releaseTag, w);
    LinkIsOneLine('\r', releaseTag, w);
  }

  /* ---------- runs ---------- */

  /** The page one run writes. */
  function UpdatePage(page: Option<string>, cuda: string, newLinks: seq<string>): string {
    PrintPage(cuda, Dedup(newLinks + ParsePage(page), {}))
  }

  lemma UpdatedLinks(page: Option<string>, cuda: string, newLinks: seq<string>)
    requires OneLine(cuda) && CleanLinks(newLinks)
    ensures ParsePage(Some(UpdatePage(page, cuda, newLinks))) == Dedup(newLinks + ParsePage(page), {})
  {
    ParsedLinksAreClean(page);
    DedupIsClean(newLinks + ParsePage(page), {});
    PageRoundTrip(cuda, Dedup(newLinks + ParsePage(page), {}));
  }

  /** The page after several runs, oldest first. */
  function AfterRuns(page: Option<string>, cuda: string, runs: seq<seq<string>>): Option<string> {
    if runs == [] then page
    else
      var m := |runs| - 1;
      Some(UpdatePage(AfterRuns(page, cuda, runs[..m]), cuda, runs[m]))
  }

  /** All links of all runs, the newest run's first. */
  function NewestFirst(runs: seq<seq<string>>): seq<string> {
    if runs == [] then [] else runs[|runs| - 1] + NewestFirst(runs[..|runs| - 1])
  }

  /** Incremental refines batch: what a sequence of runs leaves in the page is the
      first link of each file name in the concatenation of all runs, newest first,
      followed by what was there before. */
  lemma {:induction false} IncrementalIsBatch(page: Option<string>, cuda: string, runs: seq<seq<string>>)
    requires OneLine(cuda) && forall r :: 0 <= r < |runs| ==> CleanLinks(runs[r])
    requires runs != []
    ensures ParsePage(AfterRuns(page, cuda, runs)) == Dedup(NewestFirst(runs) + ParsePage(page), {})
  {
    hide ParsePage, Dedup, UpdatePage, CleanLinks;
    var m := |runs| - 1;
    var earlier, given := runs[..m], ParsePage(page);
    UpdatedLinks(AfterRuns(page, cuda, earlier), cuda, runs[m]);
    if earlier == [] {
      assert NewestFirst(runs) == runs[m];
    } else {
      forall r | 0 <= r < |earlier| ensures CleanLinks(earlier[r]) { assert earlier[r] == runs[r]; }
      IncrementalIsBatch(page, cuda, earlier);
      DedupIncremental(runs[m], NewestFirst(earlier) + given);
      assert runs[m] + (NewestFirst(earlier) + given) == NewestFirst(runs) + given;
    }
  }

  /** Repeating a run leaves the page as it is, to the letter. */
  lemma RepeatedRunChangesNothing(page: Option<string>, cuda: string, newLinks: seq<string>)
    requires OneLine(cuda) && CleanLinks(newLinks)
    ensures UpdatePage(Some(UpdatePage(page, cuda, newLinks)), cuda, newLinks) == UpdatePage(page, cuda, newLinks)
  {
    UpdatedLinks(page, cuda, newLinks);
    hide Dedup, ParsePage, PrintPage;
    DedupIncremental(newLinks, newLinks + ParsePage(page));
    DedupRepeated(newLinks, ParsePage(page));
  }

  lemma {:induction false} FirstLinkConcat(a: seq<string>, b: seq<string>, name: string)
    ensures FirstLink(a + b, name) == if FirstLink(a, name).Some? then FirstLink(a, name) else FirstLink(b, name)
  {
    hide FilenameOf;
    if a == [] {
      assert a + b == b;
    } else {
      assert (a + b)[1..] == a[1..] + b;
      FirstLinkConcat(a[1..], b, name);
    }
  }

  /** After a run the page has one link per file name, all the names it had before
      and those of the run, and for each name the run's link if it has one, else
      the link that was there. */
  lemma RunOutcome(page: Option<string>, cuda: string, newLinks: seq<string>, name: string)
    requires OneLine(cuda) && CleanLinks(newLinks)
    ensures var after := ParsePage(Some(UpdatePage(page, cuda, newLinks)));
            && DistinctNames(after)
            && Names(after) == Names(newLinks) + Names(ParsePage(page))
            && FirstLink(after, name) ==
                 if FirstLink(newLinks, name).Some? then FirstLink(newLinks, name) else FirstLink(ParsePage(page), name)
  {
    UpdatedLinks(page, cuda, newLinks);
    hide Dedup, ParsePage, UpdatePage, DistinctNames, Names, FirstLink;
    var all := newLinks + ParsePage(page);
    DedupIsDistinct(all, {});
    DedupKeepsNames(all, {});
    NamesConcat(newLinks, ParsePage(page));
    DedupKeepsFirst(all, {}, name);
    FirstLinkConcat(newLinks, ParsePage(page), name);
  }
}
