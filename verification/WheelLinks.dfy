/** Links of the wheel index and their removal of duplicates
    (scripts/update_nightly_whl_index.py). */
module WheelLinks {
  import opened Sequences
  import opened Text

  /* ---------- the text of a link ---------- */

  const LINK_START := "<a href="

  datatype Wheel = Wheel(filename: string, sha256: string)

  const BASE_URL := "https://" + "github.com" + "/sgl-project" + "/whl" + "/releases" + "/download"

  /** Everything of the link before its file name. */
  function LinkHead(releaseTag: string, w: Wheel): string {
    LINK_START + "\"" + (BASE_URL + "/" + releaseTag + "/" + w.filename + "#sha256=" + w.sha256) + "\""
  }

  function MakeLink(releaseTag: string, w: Wheel): string {
    LinkHead(releaseTag, w) + ">" + w.filename + "</a><br>"
  }

  /** The match of `>([^<]+\.whl)</a>` beginning at the head of `s`: the name must
      reach exactly to the next `<`. */
  function MatchHere(s: string): Option<string> {
    match IndexOf(s, "<")
    case None => None
    case Some(e) =>
      if s[0] == '>' && e >= 1 + 5 && EndsWith(s[1..e], ".whl") && OccursAt(s, e, "</a>")
      then Some(s[1..e]) else None
  }

  /** The file name in a link: the leftmost match. */
  function FilenameOf(link: string): Option<string> {
    if link == [] then None
    else if MatchHere(link).Some? then MatchHere(link)
    else FilenameOf(link[1..])
  }

  lemma {:induction false} SkipToBracket(u: string, v: string)
    requires '>' !in u
    ensures FilenameOf(u + v) == FilenameOf(v)
  {
    if u == [] {
      assert u + v == v;
    } else {
      assert (u + v)[1..] == u[1..] + v;
      SkipToBracket(u[1..], v);
    }
  }

  predicate WheelName(name: string) {
    '<' !in name && '>' !in name && EndsWith(name, ".whl") && |name| > 4
  }

  lemma NameIsFound(name: string, rest: string)
    requires '<' !in name && EndsWith(name, ".whl") && |name| > 4
    ensures FilenameOf(">" + name + "</a>" + rest) == Some(name)
  {
    var s := ">" + name + "</a>" + rest;
    FreeOfCharacter(">" + name, '<');
    NextSeparator(">" + name, "<", "/a>" + rest);
    assert s == (">" + name) + "<" + ("/a>" + rest);
    var e := |name| + 1;
    assert s[1..e] == name;
    assert s[e..e + 4] == "</a>";
  }

  /** A character that is in no variable part of the link head. */
  predicate Absent(c: char, releaseTag: string, w: Wheel) {
    c !in releaseTag && c !in w.filename && c !in w.sha256
  }

  lemma NotInHead(c: char, releaseTag: string, w: Wheel)
    requires Absent(c, releaseTag, w)
    requires c !in LINK_START && c !in BASE_URL && c !in "\"" && c !in "/" && c !in "#sha256="
    ensures c !in LinkHead(releaseTag, w)
  {
    var start, base, hash := LINK_START, BASE_URL, "#sha256=";
    NotInConcat(c, start, base, releaseTag, w.filename, hash, w.sha256);
  }

  lemma NotInConcat(c: char, start: string, base: string, tag: string, name: string, hash: string, sha: string)
    requires c !in start && c !in base && c !in tag && c !in name && c !in hash && c !in sha && c !in "\"" && c !in "/"
    ensures c !in start + "\"" + (base + "/" + tag + "/" + name + hash + sha) + "\""
  {
  }

  lemma BaseUrlIsPlain(c: char)
    requires c == '>' || c == '\n' || c == '\r' || c == '#'
    ensures c !in BASE_URL
  {
    assert c !in "https://";
    assert c !in "github.com";
    assert c !in "/sgl-project";
    assert c !in "/whl";
    assert c !in "/releases";
    assert c !in "/download";
  }

  /** What `hexdigest` returns. */
  predicate HexDigest(s: string) { forall k :: 0 <= k < |s| ==> '0' <= s[k] <= '9' || 'a' <= s[k] <= 'f' }

  /** A found name has the form of a wheel's, apart from closing brackets. */
  lemma {:induction false} FoundNames(link: string)
    requires FilenameOf(link).Some?
    ensures var name := FilenameOf(link).value; '<' !in name && EndsWith(name, ".whl") && |name| > 4
  {
    match MatchHere(link)
    case None => FoundNames(link[1..]);
    case Some(name) =>
      var e := IndexOf(link, "<").value;
      if '<' in name {
        var k :| 0 <= k < |name| && name[k] == '<';
        assert link[k + 1..k + 2] == "<";
        assert OccursAt(link, k + 1, "<");
        assert false;
      }
  }

  /** A closing bracket in the head makes the name found a longer one. */
  lemma BracketInHead(u: string, v: string, name: string, rest: string)
    requires '>' !in u && '<' !in v && '<' !in name && EndsWith(name, ".whl") && |name| > 4
    ensures FilenameOf(u + (">" + (v + ">" + name) + "</a>" + rest)) == Some(v + ">" + name)
  {
    hide FilenameOf;
    var longer := v + ">" + name;
    assert longer[|longer| - 4..] == name[|name| - 4..];
    NameIsFound(longer, rest);
    SkipToBracket(u, ">" + longer + "</a>" + rest);
  }

  /** The generated link carries its file name exactly when that is a wheel name
      without angle brackets and with something before its ending. */
  lemma LinkHasName(releaseTag: string, w: Wheel)
    requires '>' !in releaseTag && HexDigest(w.sha256)
    ensures FilenameOf(MakeLink(releaseTag, w)) == Some(w.filename) <==> WheelName(w.filename)
  {
    hide FilenameOf;
    if WheelName(w.filename) { WheelNameIsFound(releaseTag, w); }
    if FilenameOf(MakeLink(releaseTag, w)) == Some(w.filename) {
      FoundNames(MakeLink(releaseTag, w));
      if '>' in w.filename {
        BracketBreaksName(releaseTag, w);
        assert false;
      }
    }
  }

  lemma WheelNameIsFound(releaseTag: string, w: Wheel)
    requires WheelName(w.filename) && '>' !in releaseTag && HexDigest(w.sha256)
    ensures FilenameOf(MakeLink(releaseTag, w)) == Some(w.filename)
  {
    BaseUrlIsPlain('>');
    NotInHead('>', releaseTag, w);
    NameIsFound(w.filename, "<br>");
    hide FilenameOf, LinkHead;
    var v := ">" + w.filename + "</a>" + "<br>";
    assert "</a><br>" == "</a>" + "<br>";
    assert MakeLink(releaseTag, w) == LinkHead(releaseTag, w) + v;
    SkipToBracket(LinkHead(releaseTag, w), v);
  }

  lemma BracketBreaksName(releaseTag: string, w: Wheel)
    requires '>' !in releaseTag && HexDigest(w.sha256)
    requires '>' in w.filename && '<' !in w.filename && EndsWith(w.filename, ".whl") && |w.filename| > 4
    ensures FilenameOf(MakeLink(releaseTag, w)) != Some(w.filename)
  {
    hide FilenameOf;
    var name := w.filename;
    var k: nat := FirstBracket(name);
    var x, y := name[..k], name[k + 1..];
    assert name == x + ">" + y;
    BaseUrlIsPlain('>');
    var start, url, hash := LINK_START + "\"", BASE_URL + "/" + releaseTag + "/", "#sha256=" + w.sha256 + "\"";
    assert '>' !in start && '>' !in "/" && '>' !in url;
    assert '<' !in hash;
    BracketInHead(start + (url + x), y + hash, name, "<br>");
    assert "</a><br>" == "</a>" + "<br>";
    HeadSplits(LINK_START, BASE_URL, releaseTag, x, y, name, w.sha256);
    assert |y + hash + ">" + name| > |name|;
  }

  lemma HeadSplits(begin: string, base: string, tag: string, x: string, y: string, name: string, sha: string)
    requires name == x + ">" + y
    ensures begin + "\"" + (base + "/" + tag + "/" + name + "#sha256=" + sha) + "\"" + ">" + name + ("</a>" + "<br>")
         == begin + "\"" + (base + "/" + tag + "/" + x)
            + (">" + (y + ("#sha256=" + sha + "\"") + ">" + name) + "</a>" + "<br>")
  {
  }

  function FirstBracket(s: string): (k: nat)
    requires '>' in s
    ensures k < |s| && s[k] == '>' && '>' !in s[..k]
  {
    if s[0] == '>' then 0
    else
      var k := 1 + FirstBracket(s[1..]);
      assert s[..k] == [s[0]] + s[1..][..k - 1];
      k
  }

  /** A closing bracket with no opening one after it. */
  predicate LeftOpen(s: string) {
    s != [] && (LeftOpen(s[1..]) || (s[0] == '>' && '<' !in s[1..]))
  }

  lemma {:induction false} ClosedTag(s: string)
    requires '<' !in s
    ensures FilenameOf(s) == None
  {
    if s != [] { ClosedTag(s[1..]); }
  }

  /** The end of an opening bracket's tag cannot be the start of the address. */
  lemma NoStraddle(t: string, name: string, rest: string, e: nat)
    requires e < |t| && t[e] == '<' && '>' !in name && |name| > 4
    ensures OccursAt(t + ("/" + name + rest), e, "</a>") <==> OccursAt(t, e, "</a>")
  {
    var s := t + ("/" + name + rest);
    if e + 4 <= |t| {
      assert s[e..e + 4] == t[e..e + 4];
    } else {
      var end := s[e..e + 4];
      assert end[2] == s[e + 2] && end[3] == s[e + 3];
      assert s[|t|] == '/' && s[|t| + 2] == name[1];
      assert end[2] != 'a' || end[3] != '>';
    }
  }

  lemma FirstOpening(t: string, v: string)
    requires '<' in t
    ensures IndexOf(t + v, "<") == IndexOf(t, "<") && IndexOf(t, "<").Some? && IndexOf(t, "<").value < |t|
    ensures t[IndexOf(t, "<").value] == '<'
  {
    var k :| 0 <= k < |t| && t[k] == '<';
    assert t[k..k + 1] == "<";
    assert OccursAt(t, k, "<");
    var e := IndexOf(t, "<").value;
    assert t[e..e + 1][0] == t[e];
    assert (t + v)[e..e + 1] == t[e..e + 1];
    assert OccursAt(t + v, e, "<");
    forall i | 0 <= i < e ensures !OccursAt(t + v, i, "<") { OccursInPart(t, v, i, "<"); }
  }

  lemma SameMatch(t: string, name: string, rest: string)
    requires t != [] && '<' in t && '>' !in name && |name| > 4
    ensures MatchHere(t + ("/" + name + rest)) == MatchHere(t)
  {
    var v := "/" + name + rest;
    FirstOpening(t, v);
    var e := IndexOf(t, "<").value;
    NoStraddle(t, name, rest, e);
    if e >= 1 { assert (t + v)[1..e] == t[1..e]; }
  }

  /** What a tag does to the name found in the text after it. */
  lemma {:induction false} TagEffect(tag: string, name: string, hash: string, rest: string)
    requires WheelName(name) && '<' !in hash && '>' !in hash
    ensures var found := FilenameOf(tag + ("/" + name + (hash + ">" + name + "</a>" + rest)));
            if FilenameOf(tag).Some? then found == FilenameOf(tag)
            else if LeftOpen(tag) then found != Some(name)
            else found == Some(name)
    decreases |tag|
  {
    var v := "/" + name + (hash + ">" + name + "</a>" + rest);
    if tag == [] {
      assert tag + v == ("/" + name + hash) + (">" + name + "</a>" + rest);
      SkipToBracket("/" + name + hash, ">" + name + "</a>" + rest);
      NameIsFound(name, rest);
    } else {
      assert (tag + v)[1..] == tag[1..] + v;
      TagEffect(tag[1..], name, hash, rest);
      if '<' in tag {
        SameMatch(tag, name, hash + ">" + name + "</a>" + rest);
      } else {
        TagWithoutOpening(tag, name, hash, rest);
      }
    }
  }

  lemma TagWithoutOpening(tag: string, name: string, hash: string, rest: string)
    requires tag != [] && '<' !in tag && WheelName(name) && '<' !in hash && '>' !in hash
    ensures FilenameOf(tag) == None
    ensures var text := tag + ("/" + name + (hash + ">" + name + "</a>" + rest));
            if tag[0] == '>' then LeftOpen(tag) && FilenameOf(text) != Some(name)
            else MatchHere(text) == None && (LeftOpen(tag) <==> LeftOpen(tag[1..]))
  {
    ClosedTag(tag);
    if tag[0] == '>' {
      hide FilenameOf;
      OpenTag(tag, name, hash, rest);
    } else {
      hide FilenameOf;
    }
  }

  lemma OpenTag(tag: string, name: string, hash: string, rest: string)
    requires tag != [] && tag[0] == '>' && '<' !in tag && WheelName(name) && '<' !in hash
    ensures FilenameOf(tag + ("/" + name + (hash + ">" + name + "</a>" + rest))) != Some(name)
  {
    hide FilenameOf;
    var middle := tag[1..] + "/" + name + hash;
    BracketInHead("", middle, name, rest);
    OpenTagSplits(tag, name, hash, rest);
    assert |middle + ">" + name| > |name|;
  }

  lemma OpenTagSplits(tag: string, name: string, hash: string, rest: string)
    requires tag != [] && tag[0] == '>'
    ensures tag + ("/" + name + (hash + ">" + name + "</a>" + rest))
         == "" + (">" + ((tag[1..] + "/" + name + hash) + ">" + name) + "</a>" + rest)
  {
    assert tag == ">" + tag[1..];
  }

  /** For a wheel name and any tag: the link carries its name exactly when the tag
      holds no other link's name and no closing bracket that is left open. */
  lemma LinkHasNameTag(releaseTag: string, w: Wheel)
    requires WheelName(w.filename) && HexDigest(w.sha256)
    ensures FilenameOf(MakeLink(releaseTag, w)) == Some(w.filename) <==>
              FilenameOf(releaseTag) == Some(w.filename) || (FilenameOf(releaseTag) == None && !LeftOpen(releaseTag))
  {
    hide FilenameOf, LeftOpen;
    var begin, hash := LINK_START + "\"" + BASE_URL + "/", "#sha256=" + w.sha256 + "\"";
    BaseUrlIsPlain('>');
    assert '>' !in begin && '<' !in hash && '>' !in hash;
    TagEffect(releaseTag, w.filename, hash, "<br>");
    var text := releaseTag + ("/" + w.filename + (hash + ">" + w.filename + "</a>" + "<br>"));
    SkipToBracket(begin, text);
    assert "</a><br>" == "</a>" + "<br>";
    TagSplits(LINK_START, BASE_URL, releaseTag, w.filename, w.sha256);
  }

  lemma TagSplits(start: string, base: string, tag: string, name: string, sha: string)
    ensures start + "\"" + (base + "/" + tag + "/" + name + "#sha256=" + sha) + "\"" + ">" + name + ("</a>" + "<br>")
         == start + "\"" + base + "/"
            + (tag + ("/" + name + (("#sha256=" + sha + "\"") + ">" + name + "</a>" + "<br>")))
  {
  }

  const HASH := "#sha256="

  /** The hash fragment of a link's address: from `#sha256=` to the closing quote. */
  function HashOf(link: string): Option<string> {
    match IndexOf(link, HASH)
    case None => None
    case Some(i) =>
      var rest := link[i + |HASH|..];
      match IndexOf(rest, "\"")
      case None => None
      case Some(q) => Some(rest[..q])
  }

  lemma HashIsFound(before: string, sha: string, rest: string)
    requires Free(before, HASH) && '"' !in sha
    ensures HashOf(before + HASH + (sha + "\"" + rest)) == Some(sha)
  {
    var link := before + HASH + (sha + "\"" + rest);
    NextSeparator(before, HASH, sha + "\"" + rest);
    assert link[|before| + |HASH|..] == sha + "\"" + rest;
    FreeOfCharacter(sha, '"');
    NextSeparator(sha, "\"", rest);
    assert (sha + "\"" + rest)[..|sha|] == sha;
  }

  /** A mark before the generated one makes the hash found a longer text. */
  lemma EarlierMark(start: string, mid: string, sha: string, tail: string)
    requires '#' !in start && '"' !in mid && '"' !in sha && !Free(mid, HASH)
    ensures HashOf(start + mid + HASH + (sha + "\"" + tail)) != Some(sha)
  {
    var before := start + mid;
    var link := before + HASH + (sha + "\"" + tail);
    var i :| 0 <= i && OccursAt(mid, i, HASH);
    OccursInRest(before, HASH, |start|, i + |start|);
    assert before[|start|..] == mid;
    OccursInPart(before, HASH + (sha + "\"" + tail), i + |start|, HASH);
    assert link == before + (HASH + (sha + "\"" + tail));
    var p := IndexOf(link, HASH).value;
    assert link[p..p + |HASH|][0] == link[p] == '#';
    assert |start| <= p < |before|;
    var end := |before| + |HASH| + |sha|;
    assert link[end] == '"';
    var rest := link[p + |HASH|..];
    NoQuoteWithin(link, start, mid, sha, tail, p + |HASH|);
    FirstAt(rest, '"', end - p - |HASH|);
  }

  lemma NoQuoteWithin(link: string, start: string, mid: string, sha: string, tail: string, p: nat)
    requires link == start + mid + HASH + (sha + "\"" + tail) && '"' !in mid && '"' !in sha && |start| <= p
    ensures forall k :: p <= k < |start| + |mid| + |HASH| + |sha| ==> link[k] != '"'
  {
    var rest := mid + HASH + sha;
    assert '"' !in HASH;
    assert link == start + (rest + ("\"" + tail));
  }

  lemma FirstAt(s: string, c: char, n: nat)
    requires n < |s| && s[n] == c && forall k :: 0 <= k < n ==> s[k] != c
    ensures IndexOf(s, [c]) == Some(n)
  {
    assert s[n..n + 1] == [c];
    assert OccursAt(s, n, [c]);
    forall k | 0 <= k < n ensures !OccursAt(s, k, [c]) { assert s[k..k + 1] == [s[k]]; }
  }

  /** The mark occurs in the address exactly when it occurs in tag or file name. */
  lemma MarkInAddress(tag: string, name: string)
    ensures Free("/" + tag + "/" + name, HASH) <==> Free(tag, HASH) && Free(name, HASH)
  {
    var mid := "/" + tag + "/" + name;
    if Free(tag, HASH) && Free(name, HASH) {
      FreeOfFirst("", HASH);
      FreeAround(tag, '/', name, HASH);
      FreeAround("", '/', tag + "/" + name, HASH);
      assert "" + "/" + (tag + "/" + name) == mid;
    }
    if Free(mid, HASH) {
      FreeSuffix(mid, 1 + |tag| + 1, HASH);
      assert mid[1 + |tag| + 1..] == name;
      FreeSuffix(mid, 1, HASH);
      assert mid[1..] == tag + ("/" + name);
      forall i | 0 <= i ensures !OccursAt(tag, i, HASH) {
        OccursInPart(tag, "/" + name, i, HASH);
        assert !OccursAt(mid[1..], i, HASH);
      }
    }
  }

  /** The generated link carries the wheel's hash, as PEP 503 asks, exactly when the
      mark of a hash does not already occur in the tag or the file name. */
  lemma LinkHasHash(releaseTag: string, w: Wheel)
    requires '"' !in releaseTag && '"' !in w.filename && HexDigest(w.sha256)
    ensures HashOf(MakeLink(releaseTag, w)) == Some(w.sha256) <==> Free(releaseTag, HASH) && Free(w.filename, HASH)
  {
    hide HashOf, Free;
    var start := LINK_START + "\"" + BASE_URL;
    var mid := "/" + releaseTag + "/" + w.filename;
    var tail := ">" + w.filename + "</a><br>";
    BaseUrlIsPlain('#');
    assert '#' !in start;
    MarkInAddress(releaseTag, w.filename);
    FreeOfFirst(start, HASH);
    if Free(mid, HASH) {
      FreeSuffix(mid, 1, HASH);
      FreeAround(start, '/', mid[1..], HASH);
      assert start + "/" + mid[1..] == start + mid;
      HashIsFound(start + mid, w.sha256, tail);
    } else {
      EarlierMark(start, mid, w.sha256, tail);
    }
    LinkSplits(LINK_START, BASE_URL, releaseTag, w.filename, w.sha256);
  }

  lemma LinkSplits(begin: string, base: string, tag: string, name: string, sha: string)
    ensures begin + "\"" + (base + "/" + tag + "/" + name + HASH + sha) + "\"" + ">" + name + "</a><br>"
         == begin + "\"" + base + ("/" + tag + "/" + name) + HASH + (sha + "\"" + (">" + name + "</a><br>"))
  {
  }

  /* ---------- removing duplicates ---------- */

  /** Keep the first link of each file name not in `seen`; drop what has no name. */
  function Dedup(links: seq<string>, seen: set<string>): seq<string> {
    if links == [] then []
    else match FilenameOf(links[0])
      case None => Dedup(links[1..], seen)
      case Some(f) =>
        if f in seen then Dedup(links[1..], seen)
        else [links[0]] + Dedup(links[1..], seen + {f})
  }

  /** The file names occurring in some links. */
  function Names(links: seq<string>): set<string> {
    if links == [] then {}
    else match FilenameOf(links[0])
      case None => Names(links[1..])
      case Some(f) => {f} + Names(links[1..])
  }

  /** The loop of the source. */
  method RemoveDuplicates(links: seq<string>) returns (unique: seq<string>)
    ensures unique == Dedup(links, {})
  {
    hide FilenameOf;
    var seen := {};
    unique := [];
    assert links[0..] == links;
    for k := 0 to |links|
      invariant unique + Dedup(links[k..], seen) == Dedup(links, {})
    {
      assert links[k..][0] == links[k] && links[k..][1..] == links[k + 1..];
      var name := FilenameOf(links[k]);
      if name.Some? && name.value !in seen {
        assert unique + ([links[k]] + Dedup(links[k + 1..], seen + {name.value}))
            == unique + [links[k]] + Dedup(links[k + 1..], seen + {name.value});
        seen := seen + {name.value};
        unique := unique + [links[k]];
      }
    }
    assert links[|links|..] == [];
  }

  lemma {:induction false} NamesConcat(a: seq<string>, b: seq<string>)
    ensures Names(a + b) == Names(a) + Names(b)
  {
    hide FilenameOf;
    if a == [] {
      assert a + b == b;
    } else {
      assert (a + b)[1..] == a[1..] + b;
      NamesConcat(a[1..], b);
    }
  }

  lemma {:induction false} DedupConcat(a: seq<string>, b: seq<string>, seen: set<string>)
    ensures Dedup(a + b, seen) == Dedup(a, seen) + Dedup(b, seen + Names(a))
  {
    hide FilenameOf;
    if a == [] {
      assert a + b == b && seen + Names(a) == seen;
    } else {
      assert (a + b)[1..] == a[1..] + b;
      match FilenameOf(a[0])
      case None => DedupConcat(a[1..], b, seen);
      case Some(f) =>
        if f in seen {
          DedupConcat(a[1..], b, seen);
          assert seen + Names(a) == seen + Names(a[1..]);
        } else {
          DedupConcat(a[1..], b, seen + {f});
          assert seen + Names(a) == seen + {f} + Names(a[1..]);
        }
    }
  }

  /** No file name is lost, and the first link of each is the one kept. */
  lemma {:induction false} DedupKeepsNames(links: seq<string>, seen: set<string>)
    ensures Names(Dedup(links, seen)) == Names(links) - seen
  {
    hide FilenameOf;
    if links != [] {
      match FilenameOf(links[0])
      case None => DedupKeepsNames(links[1..], seen);
      case Some(f) =>
        if f in seen {
          DedupKeepsNames(links[1..], seen);
        } else {
          DedupKeepsNames(links[1..], seen + {f});
          var rest := Dedup(links[1..], seen + {f});
          assert ([links[0]] + rest)[1..] == rest;
          assert Names(links) - seen == {f} + (Names(links[1..]) - (seen + {f}));
        }
    }
  }

  /** Every kept link has a name of its own. */
  ghost predicate DistinctNames(links: seq<string>) {
    && (forall i :: 0 <= i < |links| ==> FilenameOf(links[i]).Some?)
    && (forall i, j :: 0 <= i < j < |links| ==> FilenameOf(links[i]) != FilenameOf(links[j]))
  }

  lemma {:induction false} NamesContain(links: seq<string>, i: nat)
    requires i < |links| && FilenameOf(links[i]).Some?
    ensures FilenameOf(links[i]).value in Names(links)
  {
    hide FilenameOf;
    if i > 0 {
      assert links[1..][i - 1] == links[i];
      NamesContain(links[1..], i - 1);
    }
  }

  lemma {:induction false} DedupIsDistinct(links: seq<string>, seen: set<string>)
    ensures DistinctNames(Dedup(links, seen))
  {
    hide FilenameOf;
    if links != [] {
      match FilenameOf(links[0])
      case None => DedupIsDistinct(links[1..], seen);
      case Some(f) =>
        if f in seen {
          DedupIsDistinct(links[1..], seen);
        } else {
          var rest := Dedup(links[1..], seen + {f});
          DedupIsDistinct(links[1..], seen + {f});
          DedupKeepsNames(links[1..], seen + {f});
          var all := [links[0]] + rest;
          forall i, j | 0 <= i < j < |all| ensures FilenameOf(all[i]) != FilenameOf(all[j]) {
            NamesContain(rest, j - 1);
          }
        }
    }
  }

  /** Which link of a file name is kept: the first one. */
  function FirstLink(links: seq<string>, name: string): Option<string> {
    if links == [] then None
    else if FilenameOf(links[0]) == Some(name) then Some(links[0])
    else FirstLink(links[1..], name)
  }

  lemma {:induction false} DedupKeepsFirst(links: seq<string>, seen: set<string>, name: string)
    requires name !in seen
    ensures FirstLink(Dedup(links, seen), name) == FirstLink(links, name)
  {
    hide FilenameOf;
    if links != [] {
      match FilenameOf(links[0])
      case None => DedupKeepsFirst(links[1..], seen, name);
      case Some(f) =>
        if f in seen {
          DedupKeepsFirst(links[1..], seen, name);
        } else {
          assert ([links[0]] + Dedup(links[1..], seen + {f}))[1..] == Dedup(links[1..], seen + {f});
          if f != name { DedupKeepsFirst(links[1..], seen + {f}, name); }
        }
    }
  }

  lemma {:induction false} DedupTwice(links: seq<string>, seen: set<string>, more: set<string>)
    ensures Dedup(Dedup(links, seen), more) == Dedup(links, seen + more)
  {
    hide FilenameOf;
    if links != [] {
      match FilenameOf(links[0])
      case None => DedupTwice(links[1..], seen, more);
      case Some(f) =>
        if f in seen {
          DedupTwice(links[1..], seen, more);
        } else {
          var rest := Dedup(links[1..], seen + {f});
          assert ([links[0]] + rest)[1..] == rest;
          if f in more {
            DedupTwice(links[1..], seen + {f}, more);
            assert seen + {f} + more == seen + more;
          } else {
            DedupTwice(links[1..], seen + {f}, more + {f});
            assert seen + {f} + (more + {f}) == seen + more + {f};
          }
        }
    }
  }

  /** Links already reduced can be used in place of the full history. */
  lemma DedupIncremental(added: seq<string>, history: seq<string>)
    ensures Dedup(added + Dedup(history, {}), {}) == Dedup(added + history, {})
  {
    DedupConcat(added, Dedup(history, {}), {});
    DedupConcat(added, history, {});
    DedupTwice(history, {}, {} + Names(added));
    assert {} + ({} + Names(added)) == {} + Names(added);
  }

  lemma {:induction false} DedupAllSeen(links: seq<string>, seen: set<string>)
    requires Names(links) <= seen
    ensures Dedup(links, seen) == []
  {
    hide FilenameOf;
    if links != [] { DedupAllSeen(links[1..], seen); }
  }

  /** Publishing the same links again changes nothing. */
  lemma DedupRepeated(links: seq<string>, history: seq<string>)
    ensures Dedup(links + (links + history), {}) == Dedup(links + history, {})
  {
    DedupConcat(links, links + history, {});
    DedupConcat(links, history, {} + Names(links));
    DedupConcat(links, history, {});
    DedupAllSeen(links, {} + Names(links));
    assert {} + Names(links) + Names(links) == {} + Names(links);
  }
}
