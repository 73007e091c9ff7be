/** The texts the index update writes, line by line and part by part
    (scripts/update_nightly_whl_index.py). */
module WheelTexts {
  import opened Sequences
  import opened Text
  import opened WheelLinks
  import opened WheelPages
  import opened WheelRoot
  import opened WheelIndex

  /* ---------- pages ---------- */

  /** The lines of the package page. */
  lemma PageLayout(cuda: string, links: seq<string>)
    requires OneLine(cuda) && CleanLinks(links) && links != []
    ensures Split(PrintPage(cuda, links), "\n")
         == ["<!DOCTYPE html>", "<h1>SGLang Nightly Wheels (" + cuda + ")</h1>"] + links + [""]
  {
    hide Split, CleanLinks, Heading;
    var lines := PageLines(cuda, links);
    PageIsJoined(cuda, links);
    forall k | 0 <= k < |lines| ensures Free(lines[k], "\n") {
      PageLinesAreOneLine(cuda, links, k);
      FreeOfCharacter(lines[k], '\n');
    }
    hide Free;
    SplitJoin(lines, "\n");
    HeadingIs(cuda);
    assert lines == [DOCTYPE, Heading(cuda)] + links + [""];
  }

  lemma HeadingIs(cuda: string)
    ensures Heading(cuda) == "<h1>SGLang Nightly Wheels (" + cuda + ")</h1>"
  {
    assert "<h1>SGLang" + " Nightly" + " Wheels (" == "<h1>SGLang Nightly Wheels (";
  }

  /** The line of a package in the root page. */
  function PackageLine(p: string): string { "<a href=\"" + p + "/\">" + p + "</a>" }

  function PackageLines(packages: seq<string>): (r: seq<string>)
    ensures |r| == |packages| && forall i :: 0 <= i < |r| ==> r[i] == PackageLine(packages[i])
  {
    seq(|packages|, i requires 0 <= i < |packages| => PackageLine(packages[i]))
  }

  lemma {:induction false} EntriesJoined(packages: seq<string>)
    ensures Entries(packages) == Join(PackageLines(packages) + [""], "\n")
  {
    var lines := PackageLines(packages) + [""];
    if packages != [] {
      EntriesJoined(packages[1..]);
      assert lines[1..] == PackageLines(packages[1..]) + [""];
      assert Entry(packages[0]) == PackageLine(packages[0]) + "\n" by { EntryIs(packages[0]); }
      hide Entry, PackageLine;
    }
  }

  lemma EntryIs(p: string)
    ensures Entry(p) == PackageLine(p) + "\n"
  {
    assert "</a>\n" == "</a>" + "\n";
    assert HREF + p + "/\">" + (p + ("</a>" + "\n")) == (HREF + p + "/\">" + p + "</a>") + "\n";
  }

  lemma PackageLineIsOneLine(p: string)
    requires '\n' !in p
    ensures '\n' !in PackageLine(p)
  {
    assert '\n' !in "<a href=\"" && '\n' !in "/\">" && '\n' !in "</a>";
  }

  /** The lines of the root page: one per package, in the order of the listing. */
  lemma RootLayout(packages: seq<string>)
    requires forall i :: 0 <= i < |packages| ==> '\n' !in packages[i]
    ensures Split(PrintRoot(packages), "\n") == ["<!DOCTYPE html>"] + PackageLines(packages) + [""]
  {
    hide Split;
    EntriesJoined(packages);
    var rest := PackageLines(packages) + [""];
    var lines := [DOCTYPE] + rest;
    JoinCons(DOCTYPE, rest);
    DoctypeIsPlain();
    forall k | 0 <= k < |lines| ensures Free(lines[k], "\n") {
      if 1 <= k <= |packages| { PackageLineIsOneLine(packages[k - 1]); }
      FreeOfCharacter(lines[k], '\n');
    }
    hide Free, PackageLine;
    SplitJoin(lines, "\n");
    assert lines == ["<!DOCTYPE html>"] + PackageLines(packages) + [""];
  }

  /** Reading in text mode: a line ending of either kind becomes one `\n`. */
  lemma {:induction false} NewlineIsOne(a: string, b: string)
    requires '\r' !in a
    ensures UniversalNewlines(a + "\r\n" + b) == a + "\n" + UniversalNewlines(b)
    ensures b == [] || b[0] != '\n' ==> UniversalNewlines(a + "\r" + b) == a + "\n" + UniversalNewlines(b)
  {
    var s, t := a + "\r\n" + b, a + "\r" + b;
    if a == [] {
      assert s[2..] == b && t[1..] == b;
    } else {
      assert s[1..] == a[1..] + "\r\n" + b && t[1..] == a[1..] + "\r" + b;
      NewlineIsOne(a[1..], b);
    }
  }

  /** The order of the listing: by the first character that differs, a beginning
      before what it begins. */
  lemma {:induction false} LessMeaning(a: string, b: string)
    ensures Less(a, b) <==>
              (a <= b && a != b) || exists k :: 0 <= k < |a| && k < |b| && a[..k] == b[..k] && a[k] < b[k]
  {
    if a != [] && b != [] && a[0] == b[0] {
      var x, y := a[1..], b[1..];
      LessMeaning(x, y);
      assert a == [a[0]] + x && b == [b[0]] + y;
      if k :| 0 <= k < |x| && k < |y| && x[..k] == y[..k] && x[k] < y[k] {
        assert a[..k + 1] == [a[0]] + x[..k] && b[..k + 1] == [b[0]] + y[..k];
        assert a[k + 1] < b[k + 1];
      }
      if k :| 0 <= k < |a| && k < |b| && a[..k] == b[..k] && a[k] < b[k] {
        assert x[..k - 1] == a[..k][1..] && y[..k - 1] == b[..k][1..];
        assert x[k - 1] < y[k - 1];
      }
    } else if a != [] && b != [] && a[0] < b[0] {
      assert a[..0] == b[..0];
    } else if a != [] && b != [] {
      forall k | 0 < k < |a| && k < |b| ensures a[..k] != b[..k] {
        assert a[..k][0] == a[0] && b[..k][0] == b[0];
      }
    }
  }

  /* ---------- links ---------- */

  /** The address in a link: what stands between its quotes. */
  function AddressOf(link: string): Option<string> {
    if !("<a href=\"" <= link) then None
    else
      var rest := link[9..];
      match IndexOf(rest, "\"")
      case None => None
      case Some(q) => Some(rest[..q])
  }

  /** Host, repository and release, the file and its hash. */
  function Address(tag: string, w: Wheel): string {
    "https://" + "github.com" + "/sgl-project" + "/whl" + "/releases" + "/download"
    + "/" + tag + "/" + w.filename + "#sha256=" + w.sha256
  }

  lemma BaseUrlHasNoQuote()
    ensures '"' !in BASE_URL
  {
    assert '"' !in "https://" && '"' !in "github.com" && '"' !in "/sgl-project";
    assert '"' !in "/whl" && '"' !in "/releases" && '"' !in "/download";
  }

  /** A generated link leads to the wheel in its release, with its hash. */
  lemma LinkLeadsToWheel(tag: string, w: Wheel)
    requires '"' !in tag && '"' !in w.filename && HexDigest(w.sha256)
    ensures AddressOf(MakeLink(tag, w)) == Some(Address(tag, w))
  {
    hide IndexOf;
    BaseUrlHasNoQuote();
    var url := BASE_URL + "/" + tag + "/" + w.filename + "#sha256=" + w.sha256;
    assert '"' !in "/" && '"' !in "#sha256=";
    NoQuoteIn(BASE_URL, tag, w.filename, w.sha256);
    var rest := ">" + w.filename + "</a><br>";
    AddressIsRead(url, rest);
    MakeLinkSplits(url, w.filename, rest);
    assert url == Address(tag, w);
  }

  lemma NoQuoteIn(base: string, tag: string, name: string, sha: string)
    requires '"' !in base && '"' !in tag && '"' !in name && HexDigest(sha)
    ensures '"' !in base + "/" + tag + "/" + name + "#sha256=" + sha
  {
    assert '"' !in "/" && '"' !in "#sha256=" && '"' !in sha;
  }

  lemma MakeLinkSplits(url: string, name: string, rest: string)
    requires rest == ">" + name + "</a><br>"
    ensures LINK_START + "\"" + url + "\"" + ">" + name + "</a><br>" == "<a href=\"" + (url + "\"" + rest)
  {
    assert LINK_START + "\"" == "<a href=\"";
  }

  lemma AddressIsRead(url: string, rest: string)
    requires '"' !in url
    ensures AddressOf("<a href=\"" + (url + "\"" + rest)) == Some(url)
  {
    var tail := url + "\"" + rest;
    assert ("<a href=\"" + tail)[9..] == tail;
    FreeOfCharacter(url, '"');
    NextSeparator(url, "\"", rest);
    assert tail[..|url|] == url;
  }

  /** What the pattern for file names matches at the head of a text. */
  lemma MatchHereIff(s: string, name: string)
    requires s != []
    ensures MatchHere(s) == Some(name) <==>
              '<' !in name && EndsWith(name, ".whl") && |name| > 4 && ">" + name + "</a>" <= s
  {
    hide MatchHere;
    if '<' !in name && EndsWith(name, ".whl") && |name| > 4 && ">" + name + "</a>" <= s {
      var rest := s[|name| + 5..];
      NameIsMatched(name, rest);
      assert s == ">" + name + "</a>" + rest;
    }
    if MatchHere(s) == Some(name) { MatchedName(s, name); }
  }

  lemma NameIsMatched(name: string, rest: string)
    requires '<' !in name && EndsWith(name, ".whl") && |name| > 4
    ensures MatchHere(">" + name + "</a>" + rest) == Some(name)
  {
    var s := ">" + name + "</a>" + rest;
    FreeOfCharacter(">" + name, '<');
    NextSeparator(">" + name, "<", "/a>" + rest);
    assert s == (">" + name) + "<" + ("/a>" + rest);
    hide IndexOf;
    var e := |name| + 1;
    assert s[1..e] == name && s[e..e + 4] == "</a>";
  }

  lemma MatchedName(s: string, name: string)
    requires s != [] && MatchHere(s) == Some(name)
    ensures '<' !in name && EndsWith(name, ".whl") && |name| > 4 && ">" + name + "</a>" <= s
  {
    var e := IndexOf(s, "<").value;
    assert forall k :: 0 <= k < e ==> !OccursAt(s, k, "<");
    hide IndexOf;
    assert s[..e + 4] == [s[0]] + s[1..e] + s[e..e + 4];
    forall k | 0 <= k < |name| ensures name[k] != '<' {
      assert !OccursAt(s, k + 1, "<");
      assert s[k + 1..k + 2] == [name[k]];
    }
  }

  /** What the pattern for packages matches at the head of a text. */
  lemma MatchPackageIff(s: string, p: string, rest: string)
    ensures MatchPackage(s) == Some((p, rest)) <==>
              p != [] && '"' !in p && s == "<a href=\"" + p + "/\">" + rest
  {
    if p != [] && '"' !in p && s == "<a href=\"" + p + "/\">" + rest {
      PackageIsMatched(p, rest);
    }
    if MatchPackage(s) == Some((p, rest)) {
      var t := s[|HREF|..];
      var q := IndexOf(t, "\"").value;
      assert s == HREF + t;
      assert t[q..q + 1] == "\"";
      assert t == t[..q - 1] + [t[q - 1], t[q], t[q + 1]] + t[q + 2..];
      assert [t[q - 1], t[q], t[q + 1]] == "/\">";
      PackageSplits(p, rest, t);
    }
  }

  lemma PackageSplits(p: string, rest: string, t: string)
    requires t == p + "/\">" + rest
    ensures HREF + t == "<a href=\"" + p + "/\">" + rest
  {
  }

  lemma PackageIsMatched(p: string, rest: string)
    requires p != [] && '"' !in p
    ensures MatchPackage("<a href=\"" + p + "/\">" + rest) == Some((p, rest))
  {
    var s, t := "<a href=\"" + p + "/\">" + rest, (p + "/") + "\"" + (">" + rest);
    assert s == HREF + t by { assert "/\">" == "/" + "\"" + ">"; }
    assert s[|HREF|..] == t;
    FreeOfCharacter(p + "/", '"');
    NextSeparator(p + "/", "\"", ">" + rest);
    var q := |p| + 1;
    assert t[q - 1] == '/' && t[q + 1] == '>' && t[..q - 1] == p && t[q + 2..] == rest;
  }

  /** Whether a line counts as a link. */
  lemma LinkLinesOfOne(line: string)
    ensures LinkLines([line]) == if "<a href=" <= line then [line] else []
  {
    assert [line][1..] == [];
  }

  /* ---------- names made from the arguments ---------- */

  /** A version with its prefix is kept, another one gets it. */
  lemma CudaNameIs(version: string)
    ensures "cu" <= version ==> CudaName(version) == version
    ensures !("cu" <= version) ==> CudaName(version) == "cu" + version
    ensures CudaName(CudaName(version)) == CudaName(version)
  {
  }

  predicate Dated(buildDate: Option<string>) { buildDate.Some? && buildDate.value != "" }

  lemma NoHyphenAfter(a: string, x: string)
    requires '-' !in x
    ensures forall i :: |a| < i < |a + "-" + x| ==> (a + "-" + x)[i] != '-'
  {
  }

  /** Two ways to cut a text behind its last hyphen are the same. */
  lemma LastHyphen(a: string, x: string, b: string, y: string)
    requires a + "-" + x == b + "-" + y && '-' !in x && '-' !in y
    ensures a == b && x == y
  {
    var s := a + "-" + x;
    assert s[|a|] == '-' && s[|b|] == '-';
    NoHyphenAfter(a, x);
    NoHyphenAfter(b, y);
    assert |a| == |b|;
    assert s[..|a|] == a && s[..|b|] == b && s[|a| + 1..] == x && s[|b| + 1..] == y;
  }

  lemma TagParts(buildDate: Option<string>, commit: string)
    ensures ReleaseTag(buildDate, commit)
         == (if Dated(buildDate) then "nightly-" + buildDate.value else "nightly") + "-" + commit
  {
    assert "nightly" + "-" == "nightly-";
  }

  /** Different builds have different tags: date and commit can be read back from the
      tag of a commit without hyphens. */
  lemma TagIdentifiesBuild(d1: Option<string>, c1: string, d2: Option<string>, c2: string)
    requires '-' !in c1 && '-' !in c2 && ReleaseTag(d1, c1) == ReleaseTag(d2, c2)
    ensures c1 == c2 && Dated(d1) == Dated(d2) && (Dated(d1) ==> d1.value == d2.value)
  {
    TagParts(d1, c1);
    TagParts(d2, c2);
    hide ReleaseTag;
    var a := if Dated(d1) then "nightly-" + d1.value else "nightly";
    var b := if Dated(d2) then "nightly-" + d2.value else "nightly";
    LastHyphen(a, c1, b, c2);
    if Dated(d1) { assert a[8..] == d1.value; }
    if Dated(d2) { assert b[8..] == d2.value; }
  }
}
