/** Extracting boxed answers
    (`extract_boxed_answers` in benchmark/reasoning_benchmark/answer_extraction.py). */
module Boxed {
  import opened Sequences
  import opened Text
  import opened Braces

  const BOXED := "boxed{"

  /** The answer in the text after one `boxed{`: up to the brace closing it, and
      including that brace when a percent sign follows. */
  function Answer(piece: string): Option<string> {
    match CloseAt(piece, 0)
    case None => None
    case Some(i) => Some(if i + 1 < |piece| && piece[i + 1] == '%' then piece[..i + 1] else piece[..i])
  }

  function Answers(pieces: seq<string>): seq<string> {
    if pieces == [] then []
    else (match Answer(pieces[0]) case None => [] case Some(a) => [a]) + Answers(pieces[1..])
  }

  /** The answers in the text that follows a `boxed{`. */
  function AnswersAfter(u: string): seq<string> { Answers(Split(u, BOXED)) }

  function Extract(text: string): seq<string> { Answers(Split(text, BOXED)[1..]) }

  /** The two nested loops of the source. */
  method ExtractBoxedAnswers(text: string) returns (answers: seq<string>)
    ensures answers == Extract(text)
  {
    hide Split, CloseAt, Answer;
    answers := [];
    var pieces := Split(text, BOXED)[1..];
    for k := 0 to |pieces|
      invariant answers + Answers(pieces[k..]) == Extract(text)
    {
      var piece := pieces[k];
      assert pieces[k..][0] == piece && pieces[k..][1..] == pieces[k + 1..];
      var found := FindAnswer(piece);
      match found {
        case None => assert Answers(pieces[k..]) == Answers(pieces[k + 1..]);
        case Some(a) =>
          assert answers + ([a] + Answers(pieces[k + 1..])) == answers + [a] + Answers(pieces[k + 1..]);
          answers := answers + [a];
      }
    }
  }

  /** The inner loop: count open braces until one closes the box. */
  method FindAnswer(piece: string) returns (found: Option<string>)
    ensures found == Answer(piece)
  {
    hide CloseAt;
    var n: nat := 0;
    assert piece[0..] == piece;
    for i := 0 to |piece|
      invariant CloseAt(piece, 0) == match CloseAt(piece[i..], n) case None => None case Some(j) => Some(i + j)
    {
      CloseStep(piece[i..], n);
      assert piece[i..][1..] == piece[i + 1..];
      if piece[i] == '{' {
        n := n + 1;
      } else if piece[i] == '}' {
        if n == 0 {
          return Some(if i + 1 < |piece| && piece[i + 1] == '%' then piece[..i + 1] else piece[..i]);
        }
        n := n - 1;
      }
    }
    CloseOfNothing(n);
    assert piece[|piece|..] == [];
    return None;
  }

  lemma CloseOfNothing(n: nat)
    ensures CloseAt([], n) == None
  {
  }

  lemma CloseStep(s: string, n: nat)
    requires s != []
    ensures s[0] == '}' && n == 0 ==> CloseAt(s, n) == Some(0)
    ensures !(s[0] == '}' && n == 0) ==>
              var m := if s[0] == '{' then n + 1 else if s[0] == '}' then n - 1 else n;
              CloseAt(s, n) == match CloseAt(s[1..], m) case None => None case Some(i) => Some(i + 1)
  {
  }

  /** An answer is brace-balanced, apart from the closing brace kept before a
      percent sign; and a text yields no answer exactly when its box is never
      closed. */
  lemma AnswerIsBalanced(piece: string)
    ensures Answer(piece).None? <==> Scan(piece, 0).Some?
    ensures Answer(piece).Some? ==>
              var a := Answer(piece).value;
              Balanced(a) || (exists b :: a == b + "}" && Balanced(b) && a + "%" <= piece)
  {
    CloseMeaning(piece, 0);
    if CloseAt(piece, 0).Some? {
      var i := CloseAt(piece, 0).value;
      if i + 1 < |piece| && piece[i + 1] == '%' {
        var a := piece[..i + 1];
        assert a == piece[..i] + "}" && Balanced(piece[..i]);
        assert a + "%" == piece[..i + 2];
      }
    }
  }

  /* ---------- the round trip ---------- */

  /** A body in a box, and the text after it. */
  datatype Box = Box(body: string, after: string)

  /** A text with boxes in it. */
  function Compose(before: string, boxes: seq<Box>): string
    decreases |boxes|
  {
    if boxes == [] then before
    else before + BOXED + (boxes[0].body + "}" + Compose(boxes[0].after, boxes[1..]))
  }

  function Bodies(boxes: seq<Box>): (r: seq<string>)
    ensures |r| == |boxes| && forall k :: 0 <= k < |r| ==> r[k] == boxes[k].body
  {
    seq(|boxes|, k requires 0 <= k < |boxes| => boxes[k].body)
  }

  ghost predicate ValidBoxes(boxes: seq<Box>) {
    forall k :: 0 <= k < |boxes| ==> Balanced(boxes[k].body) && Free(boxes[k].after, BOXED)
  }

  /** No box within the body, and no percent sign right after the box. */
  ghost predicate Plain(b: Box) {
    Free(b.body, BOXED) && !Percent(b.after)
  }

  predicate Percent(s: string) { s != [] && s[0] == '%' }

  lemma ExtractAfterFirst(before: string, u: string)
    requires Free(before, BOXED)
    ensures Extract(before + BOXED + u) == AnswersAfter(u)
  {
    SplitFirst(before, BOXED, u);
    hide Split, Free;
    assert ([before] + Split(u, BOXED))[1..] == Split(u, BOXED);
  }

  lemma SplitBeforeBox(part: string, u: string)
    requires Free(part, BOXED)
    ensures Split(part + BOXED + u, BOXED) == [part] + Split(u, BOXED)
    ensures AnswersAfter(part + BOXED + u) == (match Answer(part) case None => [] case Some(a) => [a]) + AnswersAfter(u)
  {
    SplitFirst(part, BOXED, u);
    hide Split, Free;
    assert ([part] + Split(u, BOXED))[1..] == Split(u, BOXED);
  }

  lemma SplitWithoutBox(part: string)
    requires Free(part, BOXED)
    ensures AnswersAfter(part) == match Answer(part) case None => [] case Some(a) => [a]
  {
    assert Split(part, BOXED) == [part];
    assert [part][1..] == [];
    assert Answers([]) == [];
  }

  /** The answer for a body without a box of its own. */
  lemma SimpleAnswer(body: string, after: string)
    requires Balanced(body)
    ensures Answer(body + "}" + after) == Some(if Percent(after) then body + "}" else body)
  {
    var piece := body + "}" + after;
    assert piece == body + ("}" + after);
    CloseAfter(body, "}" + after, 0);
    assert CloseAt("}" + after, 0) == Some(0);
    assert piece[..|body|] == body && piece[..|body| + 1] == body + "}";
    if after != [] { assert piece[|body| + 1] == after[0]; }
  }

  lemma AnswersOfSimpleBox(body: string, after: string, boxes: seq<Box>)
    requires Balanced(body) && Free(body, BOXED) && Free(after, BOXED)
    ensures AnswersAfter(body + "}" + Compose(after, boxes)) ==
              [if Percent(after) then body + "}" else body] + Extract(Compose(after, boxes))
  {
    hide Answer, Split, Scan, Free, Balanced, IndexOf, AnswersAfter, Extract;
    var piece := body + "}" + after;
    FreeAround(body, '}', after, BOXED);
    SimpleAnswer(body, after);
    if boxes == [] {
      SplitWithoutBox(piece);
      NoBoxNoAnswer(after);
    } else {
      var u := boxes[0].body + "}" + Compose(boxes[0].after, boxes[1..]);
      ConcatThree(body + "}", after, BOXED, u);
      SplitBeforeBox(piece, u);
      ExtractAfterFirst(after, u);
    }
  }

  lemma ConcatThree(a: string, b: string, c: string, d: string)
    ensures a + (b + c + d) == a + b + c + d
  {
  }

  lemma NoBoxNoAnswer(after: string)
    requires Free(after, BOXED)
    ensures Extract(after) == []
  {
    assert Split(after, BOXED) == [after];
    assert [after][1..] == [];
  }

  /* ---------- nested boxes spoil it ---------- */

  /** A text that closes its box has an answer, whatever follows. */
  lemma AnswerWithin(v: string, rest: string)
    requires CloseAt(v, 0).Some?
    ensures Answer(v + rest).Some? && |Answer(v + rest).value| <= |v|
  {
    CloseInPrefix(v, rest, 0);
  }

  /** In a text that closes more than it opens, the first answer exists and is no
      longer than that text, whatever follows. */
  lemma {:induction false} FirstAnswerIsShort(v: string, rest: string)
    requires Scan(v, 0) == None
    ensures AnswersAfter(v + rest) != [] && |AnswersAfter(v + rest)[0]| <= |v|
    decreases |v|
  {
    hide Scan, CloseAt, Answer, AnswersAfter, Split, IndexOf;
    CloseMeaning(v, 0);
    var i := CloseAt(v, 0).value;
    var s := v + rest;
    match IndexOf(s, BOXED)
    case None =>
      AnswerWithin(v, rest);
      SplitWithoutBox(s);
    case Some(p) =>
      var u := s[p + |BOXED|..];
      assert s == s[..p] + BOXED + u;
      FreeBefore(s, BOXED, p);
      SplitBeforeBox(s[..p], u);
      if p > i {
        ClosesBeforeBox(v, rest, i, p);
      } else {
        BoxBeforeClose(v, rest, i, p);
        FirstAnswerIsShort(v[p + |BOXED|..], rest);
        assert u == v[p + |BOXED|..] + rest;
        assert [] + AnswersAfter(u) == AnswersAfter(u);
      }
  }

  lemma FreeBefore(s: string, sep: string, p: nat)
    requires sep != [] && IndexOf(s, sep) == Some(p)
    ensures Free(s[..p], sep)
  {
    forall k | 0 <= k ensures !OccursAt(s[..p], k, sep) {
      OccursInPart(s[..p], s[p..], k, sep);
      assert s == s[..p] + s[p..];
    }
  }

  /** The box is closed before the next one opens. */
  lemma ClosesBeforeBox(v: string, rest: string, i: nat, p: nat)
    requires CloseAt(v, 0) == Some(i) && i < p <= |v + rest|
    ensures Answer((v + rest)[..p]).Some? && |Answer((v + rest)[..p]).value| <= |v|
  {
    var s := v + rest;
    CloseMeaning(v, 0);
    CloseAfter(v[..i], "}", 0);
    assert v[..i] + "}" == v[..i + 1];
    assert CloseAt("}", 0) == Some(0);
    CloseInPrefix(v[..i + 1], s[i + 1..p], 0);
    assert v[..i + 1] + s[i + 1..p] == s[..p];
  }

  /** Reading on after an opened box. */
  lemma ScanThroughBox(pre: string, w: string)
    requires Scan(pre, 0).Some?
    ensures Scan(pre + BOXED + w, 0) == Scan(w, Scan(pre, 0).value + 1)
  {
    var d := Scan(pre, 0).value;
    assert pre + BOXED + w == pre + (BOXED + w);
    ScanConcat(pre, BOXED + w, 0);
    ScanConcat(BOXED, w, d);
    ScanBoxed(d);
  }

  lemma PrefixBeforeClose(v: string, i: nat, p: nat)
    requires CloseAt(v, 0) == Some(i) && p <= i
    ensures Scan(v[..p], 0).Some? && Answer(v[..p]) == None
  {
    CloseMeaning(v, 0);
    assert v[..i] == v[..p] + v[p..i];
    ScanConcat(v[..p], v[p..i], 0);
    CloseMeaning(v[..p], 0);
  }

  /** An occurrence of a separator without closing braces ends before one. */
  lemma OccurrenceEndsBefore(v: string, rest: string, sep: string, i: nat, p: nat)
    requires p <= i < |v| && v[i] == '}' && '}' !in sep && OccursAt(v + rest, p, sep)
    ensures p + |sep| <= |v| && (v + rest)[..p] == v[..p]
    ensures v == v[..p] + sep + v[p + |sep|..]
  {
    var s := v + rest;
    forall k | p <= k < p + |sep| ensures s[k] != '}' {
      assert s[p..p + |sep|][k - p] == s[k] && sep[k - p] in sep;
    }
    assert s[i] == v[i];
    assert v[p..p + |sep|] == s[p..p + |sep|];
  }

  /** The next box opens first; the text inside it still closes too much. */
  lemma BoxBeforeClose(v: string, rest: string, i: nat, p: nat)
    requires CloseAt(v, 0) == Some(i) && p <= i && OccursAt(v + rest, p, BOXED)
    ensures p + |BOXED| <= |v| && Answer((v + rest)[..p]) == None
    ensures Scan(v[p + |BOXED|..], 0) == None
  {
    hide Scan, CloseAt, Answer, OccursAt;
    PrefixBeforeClose(v, i, p);
    CloseMeaning(v, 0);
    OccurrenceEndsBefore(v, rest, BOXED, i, p);
    var w := v[p + |BOXED|..];
    ScanThroughBox(v[..p], w);
    ScanDeeper(w, 0, Scan(v[..p], 0).value + 1);
  }

  lemma ScanBoxed(d: nat)
    ensures Scan(BOXED, d) == Some(d + 1)
  {
    assert BOXED[1..] == "oxed{" && BOXED[1..][1..] == "xed{" && BOXED[1..][1..][1..] == "ed{";
    assert "ed{"[1..] == "d{" && "d{"[1..] == "{" && "{"[1..] == [];
    assert Scan("{", d) == Scan([], d + 1) == Some(d + 1);
    assert Scan("d{", d) == Scan("{", d);
    assert Scan("ed{", d) == Scan("d{", d);
    assert Scan("xed{", d) == Scan("ed{", d);
    assert Scan("oxed{", d) == Scan("xed{", d);
  }

  /** A balanced text with a box in it: the text inside closes too much. */
  lemma InsideClosesTooMuch(body: string, p: nat)
    requires Balanced(body) && IndexOf(body, BOXED) == Some(p)
    ensures Answer(body[..p]) == None && Scan(body[p + |BOXED|..], 0) == None
    ensures body == body[..p] + BOXED + body[p + |BOXED|..]
  {
    hide IndexOf;
    var u := body[p + |BOXED|..];
    assert body[p..p + |BOXED|] == BOXED;
    assert body == body[..p] + BOXED + u && body == body[..p] + body[p..];
    ScanConcat(body[..p], body[p..], 0);
    CloseMeaning(body[..p], 0);
    ScanThroughBox(body[..p], u);
    ScanDeeper(u, 0, Scan(body[..p], 0).value + 1);
  }

  lemma OccurrenceIsFound(s: string, sep: string)
    ensures !Free(s, sep) ==> IndexOf(s, sep).Some?
  {
  }

  /** The first answer from a body that contains a box is not the body. */
  lemma NestedBoxIsLost(body: string, rest: string)
    requires Balanced(body) && !Free(body, BOXED)
    ensures AnswersAfter(body + rest) != [] && AnswersAfter(body + rest)[0] != body
  {
    hide Scan, IndexOf, Answer, AnswersAfter, Split, Balanced, Free;
    OccurrenceIsFound(body, BOXED);
    var p := IndexOf(body, BOXED).value;
    InsideClosesTooMuch(body, p);
    FreeBefore(body, BOXED, p);
    var pre, u := body[..p], body[p + |BOXED|..];
    assert pre + BOXED + u + rest == pre + BOXED + (u + rest);
    SplitBeforeBox(pre, u + rest);
    FirstAnswerIsShort(u, rest);
    assert [] + AnswersAfter(u + rest) == AnswersAfter(u + rest);
  }

  /** Round trip.  Whatever texts without boxes and whatever balanced bodies are
      composed, extraction returns exactly the bodies if and only if no body has a
      box inside and no box is followed by a percent sign. */
  lemma {:induction false} RoundTripIff(before: string, boxes: seq<Box>)
    requires Free(before, BOXED) && ValidBoxes(boxes)
    ensures Extract(Compose(before, boxes)) == Bodies(boxes) <==> forall k :: 0 <= k < |boxes| ==> Plain(boxes[k])
    decreases |boxes|
  {
    hide Extract, AnswersAfter, Balanced, Free, Plain;
    if boxes == [] {
      NoBoxNoAnswer(before);
    } else {
      var b, tail := boxes[0], boxes[1..];
      RoundTripIff(b.after, tail);
      var rest := Compose(b.after, tail);
      ExtractAfterFirst(before, b.body + "}" + rest);
      assert Bodies(boxes) == [b.body] + Bodies(tail);
      AllPlain(boxes);
      var first, others := Extract(Compose(before, boxes)), Extract(rest);
      hide Compose;
      PlainMeaning(b);
      if Free(b.body, BOXED) {
        AnswersOfSimpleBox(b.body, b.after, tail);
        assert first[1..] == others && Bodies(boxes)[1..] == Bodies(tail);
        if Percent(b.after) { assert |first[0]| == |b.body| + 1; }
      } else {
        assert b.body + "}" + rest == b.body + ("}" + rest);
        NestedBoxIsLost(b.body, "}" + rest);
      }
    }
  }

  lemma PlainMeaning(b: Box)
    ensures Plain(b) <==> Free(b.body, BOXED) && !Percent(b.after)
  {
  }

  lemma AllPlain(boxes: seq<Box>)
    requires boxes != []
    ensures (forall k :: 0 <= k < |boxes| ==> Plain(boxes[k])) <==>
            Plain(boxes[0]) && forall k :: 0 <= k < |boxes[1..]| ==> Plain(boxes[1..][k])
  {
    hide Plain;
    assert boxes == [boxes[0]] + boxes[1..];
  }

  /** Both exceptions occur.  A percentage keeps the closing brace of its box ... */
  lemma SingleBox(before: string, body: string, after: string)
    requires Free(before, BOXED) && Free(body, BOXED) && Free(after, BOXED) && Balanced(body)
    ensures Extract(before + "boxed{" + (body + "}" + after))
         == [if after != [] && after[0] == '%' then body + "}" else body]
  {
    hide Free, Balanced, Extract, AnswersAfter;
    ExtractAfterFirst(before, body + "}" + after);
    AnswersOfSimpleBox(body, after, []);
    NoBoxNoAnswer(after);
  }

  /** ... and of two nested boxes the outer one is lost. */
  lemma NestedExample()
    ensures Extract(Compose("", [Box("boxed{1}", "")])) != ["boxed{1}"]
  {
    var body := "boxed{1}";
    assert body == BOXED + "1}";
    ScanConcat(BOXED, "1}", 0);
    ScanBoxed(0);
    assert Scan("1}", 1) == Some(0) by {
      assert "1}"[1..] == "}" && "}"[1..] == [];
      assert Scan("}", 1) == Scan([], 0);
    }
    assert body[0..|BOXED|] == BOXED;
    assert OccursAt(body, 0, BOXED);
    var boxes := [Box(body, "")];
    assert !Plain(boxes[0]);
    assert Bodies(boxes) == [body];
    RoundTripIff("", boxes);
  }
}
