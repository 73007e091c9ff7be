/** One run of the index update on the two files it keeps
    (scripts/update_nightly_whl_index.py). */
module WheelIndex {
  import opened Sequences
  import opened Text
  import opened WheelLinks
  import opened WheelPages
  import opened WheelRoot

  datatype UpdateError = NoDistDirectory | NoWheels

  function CudaName(version: string): (r: string)
    ensures StartsWith(r, "cu")
  {
    if StartsWith(version, "cu") then version else "cu" + version
  }

  function ReleaseTag(buildDate: Option<string>, commit: string): string {
    if buildDate.Some? && buildDate.value != "" then "nightly-" + buildDate.value + "-" + commit
    else "nightly-" + commit
  }

  function LinksFor(tag: string, wheels: seq<Wheel>): (r: seq<string>)
    ensures |r| == |wheels| && forall k :: 0 <= k < |r| ==> r[k] == MakeLink(tag, wheels[k])
  {
    seq(|wheels|, k requires 0 <= k < |wheels| => MakeLink(tag, wheels[k]))
  }

  /** The parts of the input that end up in a link are ordinary: wheel file names on
      one line, hash values, and a tag on one line without closing brackets. */
  predicate Ordinary(tag: string, wheels: seq<Wheel>) {
    && OneLine(tag) && '>' !in tag
    && forall k :: 0 <= k < |wheels| ==>
         WheelName(wheels[k].filename) && OneLine(wheels[k].filename) && HexDigest(wheels[k].sha256)
  }

  /** The index files of one CUDA version, kept between runs. */
  class IndexFiles {
    const cuda: string
    var packagePage: Option<string>
    var rootPage: Option<string>

    constructor (cudaVersion: string, packagePage: Option<string>, rootPage: Option<string>)
      ensures cuda == CudaName(cudaVersion)
      ensures this.packagePage == packagePage && this.rootPage == rootPage
    {
      cuda := CudaName(cudaVersion);
      this.packagePage, this.rootPage := packagePage, rootPage;
    }

    /** Publish the wheels found in the distribution directory, if there is one.
        A run without wheels fails and leaves both files alone. */
    method Update(buildDate: Option<string>, commit: string, dist: Option<seq<Wheel>>)
      returns (r: Result<nat, UpdateError>)
      modifies this
      ensures r == Err(NoDistDirectory) <==> dist == None
      ensures r == Err(NoWheels) <==> dist == Some([])
      ensures r.Err? ==> packagePage == old(packagePage) && rootPage == old(rootPage)
      ensures r.Ok? ==>
                var newLinks := LinksFor(ReleaseTag(buildDate, commit), dist.value);
                && packagePage == Some(UpdatePage(old(packagePage), cuda, newLinks))
                && r.value == |Dedup(newLinks + ParsePage(old(packagePage)), {})|
      ensures r.Ok? ==>
                && PackagesOf(rootPage) == PackagesOf(old(rootPage)) + {"sglang"}
                && exists listing :: Sorted(listing) && rootPage == Some(PrintRoot(listing))
    {
      if dist.None? { return Err(NoDistDirectory); }
      var tag := ReleaseTag(buildDate, commit);
      var existing: seq<string> := [];
      if packagePage.Some? {
        var lines := Split(UniversalNewlines(packagePage.value), "\n");
        existing := KeepLinks(lines);
      }
      assert existing == ParsePage(packagePage);
      var newLinks: seq<string> := [];
      for k := 0 to |dist.value|
        invariant newLinks == LinksFor(tag, dist.value[..k])
      {
        assert dist.value[..k + 1] == dist.value[..k] + [dist.value[k]];
        newLinks := newLinks + [MakeLink(tag, dist.value[k])];
      }
      assert dist.value[..|dist.value|] == dist.value;
      if newLinks == [] { return Err(NoWheels); }
      var unique := RemoveDuplicates(newLinks + existing);
      var packages := PackagesOf(rootPage) + {"sglang"};
      var listing := SortPackages(packages);
      PrintedPackages(rootPage, packages, listing);
      rootPage := Some(PrintRoot(listing));
      packagePage := Some(PrintPage(cuda, unique));
      return Ok(|unique|);
    }
  }

  /** The lines that are links. */
  method KeepLinks(lines: seq<string>) returns (kept: seq<string>)
    ensures kept == LinkLines(lines)
  {
    kept := [];
    assert lines[0..] == lines;
    for k := 0 to |lines|
      invariant kept + LinkLines(lines[k..]) == LinkLines(lines)
    {
      assert lines[k..][0] == lines[k] && lines[k..][1..] == lines[k + 1..];
      if StartsWith(lines[k], LINK_START) {
        assert kept + ([lines[k]] + LinkLines(lines[k + 1..])) == kept + [lines[k]] + LinkLines(lines[k + 1..]);
        kept := kept + [lines[k]];
      } else {
        assert [] + LinkLines(lines[k + 1..]) == LinkLines(lines[k + 1..]);
      }
    }
    assert lines[|lines|..] == [];
  }

  lemma PrintedPackages(page: Option<string>, packages: set<string>, listing: seq<string>)
    requires packages == PackagesOf(page) + {"sglang"} && Elements(listing) == packages
    ensures PackagesOf(Some(PrintRoot(listing))) == packages
  {
    forall k | 0 <= k < |listing| ensures PackageName(listing[k]) && '\r' !in listing[k] {
      assert listing[k] in Elements(listing);
      if listing[k] in PackagesOf(page) {
        PackagesArePrintable(page, listing[k]);
      } else {
        assert listing[k] == "sglang";
      }
    }
    RootRoundTrip(listing);
  }

  /* ---------- what the generated links mean ---------- */

  lemma OrdinaryLinksAreClean(tag: string, wheels: seq<Wheel>)
    requires Ordinary(tag, wheels)
    ensures CleanLinks(LinksFor(tag, wheels))
  {
    forall k | 0 <= k < |wheels| ensures CleanLink(LinksFor(tag, wheels)[k]) {
      GeneratedLinkIsClean(tag, wheels[k]);
    }
  }

  /** After publishing, every wheel of the run is in the index under its own name,
      with the link of this run, and every name listed before still is. */
  lemma PublishedWheelsAreListed(page: Option<string>, cuda: string, tag: string, wheels: seq<Wheel>, k: nat)
    requires OneLine(cuda) && Ordinary(tag, wheels) && k < |wheels|
    requires forall i :: 0 <= i < k ==> wheels[i].filename != wheels[k].filename
    ensures var after := ParsePage(Some(UpdatePage(page, cuda, LinksFor(tag, wheels))));
            && FirstLink(after, wheels[k].filename) == Some(MakeLink(tag, wheels[k]))
            && Names(ParsePage(page)) <= Names(after)
  {
    OrdinaryLinksAreClean(tag, wheels);
    RunOutcome(page, cuda, LinksFor(tag, wheels), wheels[k].filename);
    hide ParsePage, UpdatePage, Names, CleanLinks;
    FirstOfRun(tag, wheels, k);
  }

  lemma {:induction false} FirstOfRun(tag: string, wheels: seq<Wheel>, k: nat)
    requires Ordinary(tag, wheels) && k < |wheels|
    requires forall i :: 0 <= i < k ==> wheels[i].filename != wheels[k].filename
    ensures FirstLink(LinksFor(tag, wheels), wheels[k].filename) == Some(MakeLink(tag, wheels[k]))
    decreases k
  {
    hide MakeLink, FilenameOf;
    var links := LinksFor(tag, wheels);
    LinkHasName(tag, wheels[0]);
    assert links[0] == MakeLink(tag, wheels[0]);
    if k > 0 {
      var rest := wheels[1..];
      assert forall i :: 0 <= i < |rest| ==> rest[i] == wheels[i + 1];
      assert Ordinary(tag, rest);
      assert links[1..] == LinksFor(tag, rest);
      assert forall i :: 0 <= i < k - 1 ==> rest[i] == wheels[i + 1];
      FirstOfRun(tag, rest, k - 1);
    }
  }
}
