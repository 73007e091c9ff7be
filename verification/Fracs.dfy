/** Repairing abbreviated fractions
    (`_fix_fracs` in benchmark/reasoning_benchmark/answer_extraction.py). */
module Fracs {
  import opened Sequences
  import opened Text
  import opened Braces

  const FRAC := "\\frac"

  predicate Braced(piece: string) { piece != [] && piece[0] == '{' }

  /** Too short to hold numerator and denominator: the whole repair is given up. */
  predicate Hopeless(piece: string) { !Braced(piece) && |piece| < 2 }

  /** What follows one `\frac`, with its first two symbols put into braces. */
  function FixPiece(piece: string): string
    requires !Hopeless(piece)
  {
    if Braced(piece) then piece
    else
      var a, b, post := piece[0], piece[1], piece[2..];
      if b != '{' then "{" + [a] + "}{" + [b] + "}" + post
      else "{" + [a] + "}{" + post
  }

  /** A piece with its first symbol, or its first two, put into braces. */
  function Wrapped(c: char, rest: string): string { "{" + [c] + "}" + rest }

  lemma FixPieceShape(piece: string)
    requires !Hopeless(piece) && !Braced(piece)
    ensures piece == [piece[0]] + piece[1..] && piece[1..] == [piece[1]] + piece[2..]
    ensures piece[1] != '{' ==> FixPiece(piece) == Wrapped(piece[0], Wrapped(piece[1], piece[2..]))
    ensures piece[1] == '{' ==> FixPiece(piece) == Wrapped(piece[0], piece[1..])
  {
  }

  function FixPieces(pieces: seq<string>): (r: seq<string>)
    requires forall k :: 0 <= k < |pieces| ==> !Hopeless(pieces[k])
    ensures |r| == |pieces| && forall k :: 0 <= k < |r| ==> r[k] == FixPiece(pieces[k])
  {
    seq(|pieces|, k requires 0 <= k < |pieces| => FixPiece(pieces[k]))
  }

  predicate Repairable(s: string) {
    var pieces := Split(s, FRAC);
    forall k :: 1 <= k < |pieces| ==> !Hopeless(pieces[k])
  }

  /** The pieces of the repaired string. */
  function FixedParts(s: string): (r: seq<string>)
    requires Repairable(s)
    ensures |r| == |Split(s, FRAC)|
  {
    [Split(s, FRAC)[0]] + FixPieces(Split(s, FRAC)[1..])
  }

  function Fixed(s: string): string {
    if Repairable(s) then Join(FixedParts(s), FRAC) else s
  }

  /** The loop of the source, with its early return. */
  method FixFracs(s: string) returns (r: string)
    ensures r == Fixed(s)
  {
    hide Split, Join, Fixed;
    var pieces := Split(s, FRAC);
    r := pieces[0];
    JoinOne(pieces[0], FRAC);
    for k := 1 to |pieces|
      invariant forall q :: 1 <= q < k ==> !Hopeless(pieces[q])
      invariant r == Join([pieces[0]] + FixPieces(pieces[1..k]), FRAC)
    {
      var piece := pieces[k];
      if Hopeless(piece) {
        NotRepairable(s, k);
        return s;
      }
      var next := piece;
      if !Braced(piece) {
        var a, b := piece[0], piece[1];
        if b != '{' {
          next := "{" + [a] + "}{" + [b] + "}" + piece[2..];
        } else {
          next := "{" + [a] + "}{" + piece[2..];
        }
      }
      AppendFixed(pieces, k, next);
      r := r + FRAC + next;
    }
    Finished(s);
  }

  lemma JoinOne(part: string, sep: string)
    ensures Join([part] + FixPieces([]), sep) == part
  {
    assert [part] + FixPieces([]) == [part];
  }

  lemma NotRepairable(s: string, k: nat)
    requires 1 <= k < |Split(s, FRAC)| && Hopeless(Split(s, FRAC)[k])
    ensures Fixed(s) == s
  {
  }

  lemma AppendFixed(pieces: seq<string>, k: nat, next: string)
    requires 1 <= k < |pieces| && !Hopeless(pieces[k]) && next == FixPiece(pieces[k])
    requires forall q :: 1 <= q < k ==> !Hopeless(pieces[q])
    ensures Join([pieces[0]] + FixPieces(pieces[1..k + 1]), FRAC)
         == Join([pieces[0]] + FixPieces(pieces[1..k]), FRAC) + FRAC + next
  {
    hide FixPiece, Hopeless, Join;
    assert pieces[1..k + 1] == pieces[1..k] + [pieces[k]];
    FixPiecesAppend(pieces[1..k], pieces[k]);
    var done := [pieces[0]] + FixPieces(pieces[1..k]);
    assert [pieces[0]] + (FixPieces(pieces[1..k]) + [next]) == done + [next];
    JoinAppend(done, next, FRAC);
  }

  lemma FixPiecesAppend(pieces: seq<string>, piece: string)
    requires !Hopeless(piece) && forall k :: 0 <= k < |pieces| ==> !Hopeless(pieces[k])
    ensures FixPieces(pieces + [piece]) == FixPieces(pieces) + [FixPiece(piece)]
  {
    hide FixPiece;
  }

  /** The pieces of the result, one by one. */
  lemma FixedPartAt(s: string, k: nat)
    requires Repairable(s) && k < |Split(s, FRAC)|
    ensures k > 0 ==> !Hopeless(Split(s, FRAC)[k])
    ensures FixedParts(s)[k] == if k == 0 then Split(s, FRAC)[0] else FixPiece(Split(s, FRAC)[k])
  {
    hide FixPiece, Split;
    if k > 0 { assert Split(s, FRAC)[1..][k - 1] == Split(s, FRAC)[k]; }
  }

  lemma Finished(s: string)
    requires Repairable(s)
    ensures Fixed(s) == Join([Split(s, FRAC)[0]] + FixPieces(Split(s, FRAC)[1..|Split(s, FRAC)|]), FRAC)
  {
    var pieces := Split(s, FRAC);
    assert pieces[1..|pieces|] == pieces[1..];
  }

  lemma {:induction false} JoinAppend(parts: seq<string>, last: string, sep: string)
    requires parts != []
    ensures Join(parts + [last], sep) == Join(parts, sep) + sep + last
  {
    if |parts| == 1 {
      assert (parts + [last])[1..] == [last];
    } else {
      assert (parts + [last])[1..] == parts[1..] + [last];
      JoinAppend(parts[1..], last, sep);
      var rest := Join(parts[1..], sep);
      assert parts[0] + sep + (rest + sep + last) == parts[0] + sep + rest + sep + last;
    }
  }

  /* ---------- the text is kept ---------- */

  function EraseBraces(s: string): string {
    if s == [] then []
    else if s[0] == '{' || s[0] == '}' then EraseBraces(s[1..])
    else [s[0]] + EraseBraces(s[1..])
  }

  lemma {:induction false} EraseConcat(a: string, b: string)
    ensures EraseBraces(a + b) == EraseBraces(a) + EraseBraces(b)
  {
    if a == [] {
      assert a + b == b;
    } else {
      assert (a + b)[1..] == a[1..] + b;
      EraseConcat(a[1..], b);
    }
  }

  lemma EraseWrapped(c: char, rest: string)
    ensures EraseBraces(Wrapped(c, rest)) == EraseBraces([c] + rest)
  {
    hide EraseBraces;
    EraseBrace("{");
    EraseBrace("}");
    EraseConcat("{" + [c] + "}", rest);
    EraseConcat("{" + [c], "}");
    EraseConcat("{", [c]);
    EraseConcat([c], rest);
  }

  lemma EraseFixPiece(piece: string)
    requires !Hopeless(piece)
    ensures EraseBraces(FixPiece(piece)) == EraseBraces(piece)
  {
    if !Braced(piece) {
      hide EraseBraces, FixPiece, Wrapped;
      var a, b, post := piece[0], piece[1], piece[2..];
      FixPieceShape(piece);
      EraseConcat([a], piece[1..]);
      if b != '{' {
        EraseWrapped(a, Wrapped(b, post));
        EraseConcat([a], Wrapped(b, post));
        EraseWrapped(b, post);
      } else {
        EraseWrapped(a, piece[1..]);
      }
    }
  }

  lemma {:induction false} EraseBrace(s: string)
    requires forall k :: 0 <= k < |s| ==> s[k] == '{' || s[k] == '}'
    ensures EraseBraces(s) == []
  {
    if s != [] { EraseBrace(s[1..]); }
  }

  lemma {:induction false} EraseJoin(parts: seq<string>, fixed: seq<string>, sep: string)
    requires |parts| == |fixed|
    requires forall k :: 0 <= k < |parts| ==> EraseBraces(fixed[k]) == EraseBraces(parts[k])
    ensures EraseBraces(Join(fixed, sep)) == EraseBraces(Join(parts, sep))
  {
    if |parts| > 1 {
      EraseJoin(parts[1..], fixed[1..], sep);
      EraseConcat(parts[0] + sep, Join(parts[1..], sep));
      EraseConcat(fixed[0] + sep, Join(fixed[1..], sep));
      EraseConcat(parts[0], sep);
      EraseConcat(fixed[0], sep);
    }
  }

  /** The repair only inserts braces: erasing all braces from input and output
      gives the same text. */
  lemma FixKeepsText(s: string)
    ensures EraseBraces(Fixed(s)) == EraseBraces(s)
  {
    if Repairable(s) {
      hide EraseBraces, FixPiece, Split, Join, Repairable, FixedParts, Hopeless;
      var pieces := Split(s, FRAC);
      forall k | 0 <= k < |pieces| ensures EraseBraces(FixedParts(s)[k]) == EraseBraces(pieces[k]) {
        FixedPartAt(s, k);
        if k > 0 { EraseFixPiece(pieces[k]); }
      }
      EraseJoin(pieces, FixedParts(s), FRAC);
      JoinSplit(s, FRAC);
    }
  }

  /* ---------- the nesting is kept ---------- */

  /** Wrapping one symbol other than an opening brace changes nothing outside. */
  lemma ScanSymbol(c: char, d: nat)
    requires c != '{'
    ensures Scan("{" + [c] + "}", d) == Scan([c], d)
  {
    var w := "{" + [c] + "}";
    assert w[1..] == [c] + "}";
    assert w[1..][1..] == "}";
    assert w[1..][1..][1..] == [];
    assert [c][1..] == [];
    assert Scan("}", d + 1) == Scan([], d) == Some(d);
  }

  lemma ScanWrapped(c: char, rest: string, d: nat)
    requires c != '{'
    ensures Scan(Wrapped(c, rest), d) == Scan([c] + rest, d)
  {
    hide Scan;
    ScanSymbol(c, d);
    ScanConcat("{" + [c] + "}", rest, d);
    ScanConcat([c], rest, d);
  }

  lemma ScanFixPiece(piece: string, d: nat)
    requires !Hopeless(piece)
    ensures Scan(FixPiece(piece), d) == Scan(piece, d)
  {
    if !Braced(piece) {
      hide Scan, FixPiece, Wrapped;
      var a, b, post := piece[0], piece[1], piece[2..];
      FixPieceShape(piece);
      if b != '{' {
        ScanWrapped(a, Wrapped(b, post), d);
        ScanConcat([a], Wrapped(b, post), d);
        ScanConcat([a], piece[1..], d);
        if Scan([a], d).Some? { ScanWrapped(b, post, Scan([a], d).value); }
      } else {
        ScanWrapped(a, piece[1..], d);
      }
    }
  }

  lemma {:induction false} ScanJoin(parts: seq<string>, fixed: seq<string>, sep: string, d: nat)
    requires |parts| == |fixed|
    requires forall k, e: nat :: 0 <= k < |parts| ==> Scan(fixed[k], e) == Scan(parts[k], e)
    ensures Scan(Join(fixed, sep), d) == Scan(Join(parts, sep), d)
  {
    if |parts| == 1 {
      assert Scan(fixed[0], d) == Scan(parts[0], d);
    } else if |parts| > 1 {
      assert parts[0] + sep + Join(parts[1..], sep) == parts[0] + (sep + Join(parts[1..], sep));
      assert fixed[0] + sep + Join(fixed[1..], sep) == fixed[0] + (sep + Join(fixed[1..], sep));
      ScanConcat(parts[0], sep + Join(parts[1..], sep), d);
      ScanConcat(fixed[0], sep + Join(fixed[1..], sep), d);
      assert Scan(fixed[0], d) == Scan(parts[0], d);
      if Scan(parts[0], d).Some? {
        var e := Scan(parts[0], d).value;
        ScanConcat(sep, Join(parts[1..], sep), e);
        ScanConcat(sep, Join(fixed[1..], sep), e);
        if Scan(sep, e).Some? {
          forall k, e: nat | 0 <= k < |parts[1..]| ensures Scan(fixed[1..][k], e) == Scan(parts[1..][k], e) {
            assert Scan(fixed[k + 1], e) == Scan(parts[k + 1], e);
          }
          ScanJoin(parts[1..], fixed[1..], sep, Scan(sep, e).value);
        }
      }
    }
  }

  /** Output and input nest alike from every depth; in particular the output is
      balanced exactly when the input is. */
  lemma FixKeepsNesting(s: string, d: nat)
    ensures Scan(Fixed(s), d) == Scan(s, d)
  {
    if Repairable(s) {
      hide Scan, FixPiece, Split, Join, Repairable, FixedParts, Hopeless;
      var pieces := Split(s, FRAC);
      forall k, e: nat | 0 <= k < |pieces| ensures Scan(FixedParts(s)[k], e) == Scan(pieces[k], e) {
        FixedPartAt(s, k);
        if k > 0 { ScanFixPiece(pieces[k], e); }
      }
      ScanJoin(pieces, FixedParts(s), FRAC, d);
      JoinSplit(s, FRAC);
    }
  }

  /* ---------- which fractions mean the same ---------- */

  predicate Blank(c: char) { c == ' ' || c == '\t' || c == '\n' || c == '\r' }

  predicate Letter(c: char) { 'a' <= c <= 'z' || 'A' <= c <= 'Z' }

  function SkipBlanks(s: string): (r: string)
    ensures |r| <= |s| && (r == [] || !Blank(r[0]))
    ensures s != [] && Blank(s[0]) ==> |r| < |s|
  {
    if s != [] && Blank(s[0]) then SkipBlanks(s[1..]) else s
  }

  function LeadingLetters(s: string): (n: nat)
    ensures n <= |s| && (s != [] && Letter(s[0]) ==> n >= 1)
  {
    if s != [] && Letter(s[0]) then 1 + LeadingLetters(s[1..]) else 0
  }

  /** The length of the control sequence at the start: a backslash with the letters
      after it, or with one other symbol. */
  function ControlLength(s: string): (n: nat)
    requires |s| >= 2
    ensures 2 <= n <= |s|
  {
    if Letter(s[1]) then 1 + LeadingLetters(s[1..]) else 2
  }

  /** The index of the brace that closes a group with `n` more groups open in it; a
      brace after a backslash is a symbol and neither opens nor closes. */
  function GroupEnd(s: string, n: nat): (r: Option<nat>)
    ensures r.Some? ==> r.value < |s|
  {
    if s == [] then None
    else if s[0] == '\\' then (if |s| == 1 then None else Shift(GroupEnd(s[2..], n), 2))
    else if s[0] == '{' then Shift(GroupEnd(s[1..], n + 1), 1)
    else if s[0] != '}' then Shift(GroupEnd(s[1..], n), 1)
    else if n == 0 then Some(0)
    else Shift(GroupEnd(s[1..], n - 1), 1)
  }

  function Shift(i: Option<nat>, d: nat): Option<nat> {
    match i case None => None case Some(k) => Some(k + d)
  }

  /** An argument as LaTeX reads it, and what follows it: after any blanks, a brace
      group without its braces, a control sequence, or a single symbol. */
  function ReadArgument(s: string): (r: Option<(string, string)>)
    ensures r.Some? ==> |r.value.1| < |SkipBlanks(s)|
  {
    var t := SkipBlanks(s);
    if t == [] || t[0] == '}' then None
    else if t[0] == '\\' then
      if |t| == 1 then None else Some((t[..ControlLength(t)], t[ControlLength(t)..]))
    else if t[0] != '{' then Some(([t[0]], t[1..]))
    else match GroupEnd(t[1..], 0)
      case None => None
      case Some(i) => Some((t[1..][..i], t[1..][i + 1..]))
  }

  /** Numerator, denominator and the rest of the text after a `\frac`. */
  function ReadFraction(s: string): Option<(string, string, string)> {
    match ReadArgument(s)
    case None => None
    case Some(first) =>
      match ReadArgument(first.1)
      case None => None
      case Some(second) => Some((first.0, second.0, second.1))
  }

  /** The symbol is an argument by itself. */
  predicate Plain(c: char) { !Blank(c) && c != '\\' }

  /** The two symbols to be wrapped are plain.  The one escaped symbol that survives
      as a denominator is the escaped closing brace. */
  predicate Wrappable(piece: string)
    requires |piece| >= 2
  {
    Plain(piece[0]) && (Plain(piece[1]) || "\\}" <= piece[1..])
  }

  lemma ReadWrapped(c: char, rest: string)
    requires c != '{' && c != '}' && c != '\\'
    ensures ReadArgument(Wrapped(c, rest)) == Some(([c], rest))
  {
    var s := Wrapped(c, rest);
    var t := [c] + "}" + rest;
    assert s[1..] == t;
    assert t[1..] == "}" + rest;
    assert GroupEnd("}" + rest, 0) == Some(0);
    assert GroupEnd(t, 0) == Some(1);
    assert t[..1] == [c] && t[2..] == rest;
  }

  lemma ReadSymbol(c: char, rest: string)
    requires c != '{' && c != '}' && Plain(c)
    ensures ReadArgument([c] + rest) == Some(([c], rest))
  {
    assert ([c] + rest)[1..] == rest;
  }

  lemma ReadBlank(c: char, rest: string)
    requires Blank(c)
    ensures ReadArgument([c] + rest) == ReadArgument(rest)
  {
    assert ([c] + rest)[1..] == rest;
  }

  lemma ReadControl(s: string)
    requires |s| >= 2 && s[0] == '\\'
    ensures ReadArgument(s) == Some((s[..ControlLength(s)], s[ControlLength(s)..]))
  {
  }

  /** A wrapped backslash escapes the brace meant to close its group. */
  lemma ReadWrappedBackslash(rest: string)
    ensures ReadArgument(Wrapped('\\', rest)) ==
              match GroupEnd(rest, 0)
              case None => None
              case Some(i) => Some(("\\}" + rest[..i], rest[i + 1..]))
  {
    hide ReadArgument, GroupEnd;
    var t := "\\}" + rest;
    assert Wrapped('\\', rest) == "{" + t;
    hide Wrapped;
    ReadGroup(t);
    EscapedStart(rest);
    match GroupEnd(rest, 0)
    case None =>
    case Some(i) =>
      assert t[..i + 2] == "\\}" + rest[..i] && t[i + 2 + 1..] == rest[i + 1..];
  }

  lemma ReadGroup(t: string)
    ensures ReadArgument("{" + t) ==
              match GroupEnd(t, 0) case None => None case Some(i) => Some((t[..i], t[i + 1..]))
  {
    assert ("{" + t)[1..] == t;
  }

  lemma EscapedStart(rest: string)
    ensures GroupEnd("\\}" + rest, 0) == Shift(GroupEnd(rest, 0), 2)
  {
    assert ("\\}" + rest)[2..] == rest;
  }

  /** The second argument, when the first is a plain symbol. */
  lemma DenominatorKept(b: char, post: string)
    requires b != '{' && ReadArgument([b] + post).Some?
    ensures ReadArgument(Wrapped(b, post)) == ReadArgument([b] + post)
        <==> Plain(b) || (b == '\\' && post != [] && post[0] == '}')
  {
    hide ReadArgument, Wrapped;
    var s := [b] + post;
    if Blank(b) {
      ReadBlank(b, post);
      ReadWrapped(b, post);
    } else if b == '\\' {
      assert post != [] by { EmptyArguments(); }
      ReadControl(s);
      ReadWrappedBackslash(post);
      assert s[1] == post[0] && s[..ControlLength(s)][1] == post[0];
      if post[0] == '}' {
        assert GroupEnd(post, 0) == Some(0);
        assert s[..2] == "\\}" + post[..0] && s[2..] == post[1..];
      }
    } else {
      assert b != '}' by { ReadClosing(post); }
      ReadWrapped(b, post);
      ReadSymbol(b, post);
    }
  }

  lemma EmptyArguments()
    ensures ReadArgument("\\" + []) == None && ReadArgument([]) == None
  {
    assert "\\" + [] == "\\";
  }

  lemma ReadClosing(rest: string)
    ensures ReadArgument("}" + rest) == None
  {
  }

  /** A numerator that is a control sequence is torn. */
  lemma BackslashTorn(piece: string)
    requires !Hopeless(piece) && piece[0] == '\\'
    ensures ReadFraction(piece).Some? ==> ReadFraction(FixPiece(piece)) != ReadFraction(piece)
  {
    hide FixPiece, ReadArgument, Wrapped;
    FixPieceShape(piece);
    ReadControl(piece);
    var b, post := piece[1], piece[2..];
    var rest := if b != '{' then Wrapped(b, post) else piece[1..];
    ReadWrappedBackslash(rest);
    var numerator := piece[..ControlLength(piece)];
    assert numerator[1] == b;
    if GroupEnd(rest, 0).Some? {
      var i := GroupEnd(rest, 0).value;
      assert ("\\}" + rest[..i])[1] == '}';
      if b == '}' {
        WrappedOpens(b, post);
        assert |numerator| == 2;
      }
    }
  }

  lemma WrappedOpens(c: char, rest: string)
    ensures GroupEnd(Wrapped(c, rest), 0) != Some(0)
  {
  }

  /** A blank taken for the numerator moves everything else along. */
  lemma BlankTorn(piece: string)
    requires !Hopeless(piece) && Blank(piece[0])
    ensures ReadFraction(piece).Some? ==> ReadFraction(FixPiece(piece)) != ReadFraction(piece)
  {
    hide FixPiece, ReadArgument, Wrapped, SkipBlanks;
    FixPieceShape(piece);
    var a, b, post := piece[0], piece[1], piece[2..];
    ReadBlank(a, piece[1..]);
    if b == '{' {
      ReadWrapped(a, piece[1..]);
    } else if b == '\\' {
      ReadWrapped(a, Wrapped(b, post));
      if post != [] { ReadControl(piece[1..]); } else { EmptyArguments(); }
    } else {
      ReadWrapped(a, Wrapped(b, post));
      if b == '}' { ReadClosing(post); } else { ReadWrapped(b, post); }
    }
  }

  lemma PlainNumerator(piece: string)
    requires !Hopeless(piece) && !Braced(piece) && Plain(piece[0]) && ReadFraction(piece).Some?
    ensures ReadFraction(FixPiece(piece)) == ReadFraction(piece) <==> Wrappable(piece)
  {
    hide FixPiece, ReadArgument, Wrapped;
    FixPieceShape(piece);
    var a, b, post := piece[0], piece[1], piece[2..];
    assert a != '}' by { ReadClosing(piece[1..]); }
    ReadSymbol(a, piece[1..]);
    if b != '{' {
      ReadWrapped(a, Wrapped(b, post));
      DenominatorKept(b, post);
      assert "\\}" <= piece[1..] <==> b == '\\' && post != [] && post[0] == '}';
    } else {
      ReadWrapped(a, piece[1..]);
    }
  }

  lemma PieceKeepsFraction(piece: string)
    requires !Hopeless(piece) && ReadFraction(piece).Some?
    ensures ReadFraction(FixPiece(piece)) == ReadFraction(piece) <==> Braced(piece) || Wrappable(piece)
  {
    hide ReadFraction;
    if !Braced(piece) {
      hide FixPiece;
      if Plain(piece[0]) { PlainNumerator(piece); }
      else if piece[0] == '\\' { BackslashTorn(piece); }
      else { BlankTorn(piece); }
    }
  }

  /* ---------- which commands are fractions ---------- */

  /** The control sequence at the start of a text. */
  function Command(text: string): string
    requires |text| >= 2
  {
    text[..ControlLength(text)]
  }

  /** What follows the separator makes it the command `\frac` and no longer word. */
  predicate IsFrac(piece: string) { Command(FRAC + piece) == FRAC }

  predicate Word(s: string) { forall k :: 0 <= k < |s| ==> Letter(s[k]) }

  lemma {:induction false} LettersAfter(word: string, rest: string)
    requires Word(word)
    ensures LeadingLetters(word + rest) == |word| + LeadingLetters(rest)
  {
    if word == [] {
      assert word + rest == rest;
    } else {
      assert (word + rest)[1..] == word[1..] + rest;
      LettersAfter(word[1..], rest);
    }
  }

  lemma ControlWord(word: string, rest: string)
    requires word != [] && Word(word)
    ensures ControlLength("\\" + word + rest) == 1 + |word| + LeadingLetters(rest)
  {
    LettersAfter(word, rest);
    hide LeadingLetters;
    var text := "\\" + word + rest;
    assert text[1] == word[0] && text[1..] == word + rest;
  }

  lemma FracIsWord()
    ensures FRAC == "\\" + "frac" && Word("frac")
  {
  }

  lemma CommandIs(piece: string)
    ensures |Command(FRAC + piece)| == |FRAC| + LeadingLetters(piece)
    ensures IsFrac(piece) <==> piece == [] || !Letter(piece[0])
  {
    FracIsWord();
    hide Word, ControlLength;
    ControlWord("frac", piece);
    var text := FRAC + piece;
    assert ControlLength(text) == |FRAC| + LeadingLetters(piece);
    if LeadingLetters(piece) == 0 { assert text[..|FRAC|] == FRAC; }
    if piece == [] || !Letter(piece[0]) { NoLetters(piece); }
  }

  lemma NoLetters(s: string)
    requires s == [] || !Letter(s[0])
    ensures LeadingLetters(s) == 0
  {
  }

  predicate Backslashes(s: string) { forall k :: 0 <= k < |s| ==> s[k] == '\\' }

  /** How many backslashes a text ends with. */
  function Trail(s: string): nat {
    if s == [] || s[|s| - 1] != '\\' then 0 else 1 + Trail(s[..|s| - 1])
  }

  /** A `\frac` after an odd number of backslashes is a line break and four letters. */
  predicate Escapes(before: string) { Trail(before) % 2 == 1 }

  lemma {:induction false} TrailConcat(a: string, b: string)
    ensures Trail(a + b) == if Backslashes(b) then |b| + Trail(a) else Trail(b)
  {
    if b == [] {
      assert a + b == a;
    } else {
      var m := |b| - 1;
      assert (a + b)[..|a + b| - 1] == a + b[..m];
      assert b == b[..m] + [b[m]];
      if b[m] == '\\' { TrailConcat(a, b[..m]); }
    }
  }

  /** The wrapping takes no single backslash away from the end of the piece. */
  predicate KeepsTrail(piece: string) {
    Braced(piece) || |piece| < 2 || piece[1] != '\\' || piece[0] == '\\' || !Backslashes(piece[2..])
  }

  lemma TrailOfWrapped(c: char, rest: string)
    ensures Trail(Wrapped(c, rest)) == if Backslashes(rest) then |rest| else Trail(rest)
  {
    TrailConcat("{" + [c] + "}", rest);
  }

  lemma TrailOfTwo(a: char, b: char)
    ensures Trail([a, b]) == if b != '\\' then 0 else if a != '\\' then 1 else 2
  {
    assert [a, b][..1] == [a] && [a][..0] == [];
    assert Trail([a]) == if a == '\\' then 1 else 0;
  }

  lemma TrailOfPiece(piece: string)
    requires |piece| >= 2
    ensures var post, inner := piece[2..], if piece[1] != '\\' then 0 else if piece[0] != '\\' then 1 else 2;
            Trail(piece) == if Backslashes(post) then |post| + inner else Trail(post)
  {
    hide Trail;
    assert piece == [piece[0], piece[1]] + piece[2..];
    TrailConcat([piece[0], piece[1]], piece[2..]);
    TrailOfTwo(piece[0], piece[1]);
  }

  lemma TrailOfFixed(piece: string)
    requires !Hopeless(piece) && !Braced(piece)
    ensures var post := piece[2..]; Trail(FixPiece(piece)) == if Backslashes(post) then |post| else Trail(post)
  {
    hide FixPiece, Wrapped, Trail;
    FixPieceShape(piece);
    var b, post := piece[1], piece[2..];
    var rest := if b != '{' then Wrapped(b, post) else piece[1..];
    WrappedStarts(b, post);
    assert rest[0] == '{';
    assert !Backslashes(rest);
    TrailOfWrapped(piece[0], rest);
    if b != '{' {
      TrailOfWrapped(b, post);
    } else {
      TrailConcat("{", post);
      assert Trail("{") == 0 by { TrailOfBrace(); }
    }
  }

  lemma TrailOfBrace()
    ensures Trail("{") == 0
  {
  }

  lemma Parity(n: nat)
    ensures (n + 1) % 2 != n % 2 && (n + 2) % 2 == n % 2
  {
  }

  lemma EscapesKept(piece: string)
    requires !Hopeless(piece)
    ensures Escapes(FixPiece(piece)) == Escapes(piece) <==> KeepsTrail(piece)
  {
    if !Braced(piece) {
      hide FixPiece, Trail, Backslashes;
      TrailOfPiece(piece);
      TrailOfFixed(piece);
      Parity(|piece[2..]|);
    }
  }

  lemma WrappedStarts(c: char, rest: string)
    ensures Wrapped(c, rest) != [] && Wrapped(c, rest)[0] == '{'
  {
  }

  /** What LaTeX reads at the `\frac` before piece `k`: nothing when that is part of a
      longer command or of an escape, else its arguments and the rest of the piece. */
  function FractionAt(pieces: seq<string>, k: nat): Option<(string, string, string)>
    requires 1 <= k < |pieces|
  {
    if IsFrac(pieces[k]) && !Escapes(pieces[k - 1]) then ReadFraction(pieces[k]) else None
  }

  lemma FixedIsFrac(piece: string)
    requires !Hopeless(piece)
    ensures Braced(FixPiece(piece)) && IsFrac(FixPiece(piece))
  {
    hide IsFrac;
    CommandIs(FixPiece(piece));
  }

  lemma FixedBefore(s: string, k: nat)
    requires Repairable(s) && 1 <= k < |Split(s, FRAC)|
    ensures var before := Split(s, FRAC)[k - 1];
            Escapes(FixedParts(s)[k - 1]) == Escapes(before) <==> k == 1 || KeepsTrail(before)
  {
    hide Split, FixPiece, Escapes, KeepsTrail, FixedParts;
    FixedPartAt(s, k - 1);
    if k > 1 { EscapesKept(Split(s, FRAC)[k - 1]); }
  }

  /** A fraction has the same numerator and denominator, and the same text after it,
      in the result exactly when it had its numerator in braces already or its first
      two symbols are plain, neither a backslash nor a blank, except that an escaped
      closing brace may be the denominator; and the wrapping of the fraction before
      it has not torn an escape at its end. */
  lemma FixKeepsFractions(s: string, k: nat)
    requires Repairable(s) && 1 <= k < |Split(s, FRAC)| && FractionAt(Split(s, FRAC), k).Some?
    ensures |Split(Fixed(s), FRAC)| == |Split(s, FRAC)|
    ensures FractionAt(Split(Fixed(s), FRAC), k) == FractionAt(Split(s, FRAC), k) <==>
              && (Braced(Split(s, FRAC)[k]) || Wrappable(Split(s, FRAC)[k]))
              && (k == 1 || KeepsTrail(Split(s, FRAC)[k - 1]))
  {
    hide ReadFraction, FixPiece, Split, Fixed, Wrappable, IsFrac, Escapes, KeepsTrail, FixedParts;
    SplitFixed(s);
    FixedPartAt(s, k);
    var piece := Split(s, FRAC)[k];
    FixedIsFrac(piece);
    FixedBefore(s, k);
    PieceKeepsFraction(piece);
  }

  /** A longer command is torn: before the repair it is no `\frac`, after it it is
      one, whose numerator is the first letter that belonged to the command. */
  lemma LongerCommandsTorn(s: string, k: nat)
    requires Repairable(s) && 1 <= k < |Split(s, FRAC)|
    requires Split(s, FRAC)[k] != [] && Letter(Split(s, FRAC)[k][0])
    ensures |Command(FRAC + Split(s, FRAC)[k])| > |FRAC| && FractionAt(Split(s, FRAC), k) == None
    ensures |Split(Fixed(s), FRAC)| == |Split(s, FRAC)| && Command(FRAC + Split(Fixed(s), FRAC)[k]) == FRAC
    ensures var r := ReadArgument(Split(Fixed(s), FRAC)[k]); r.Some? && r.value.0 == [Split(s, FRAC)[k][0]]
  {
    hide FixPiece, Split, Fixed, ReadArgument, FixedParts, Command, Wrapped;
    SplitFixed(s);
    FixedPartAt(s, k);
    var piece := Split(s, FRAC)[k];
    FixedIsFrac(piece);
    CommandIs(piece);
    FixPieceShape(piece);
    ReadWrapped(piece[0], if piece[1] != '{' then Wrapped(piece[1], piece[2..]) else piece[1..]);
  }

  /** For instance, a word that begins like the command. */
  lemma TornCommand()
    ensures Fixed("\\fraction") == "\\frac{t}{i}on"
    ensures Command("\\fraction") == "\\fraction"
    ensures IsFrac("{t}{i}on") && ReadFraction("{t}{i}on") == Some(("t", "i", "on"))
  {
    hide Fixed, ReadArgument, IsFrac, Command;
    ShortIsFree("tion", FRAC);
    FixedOne("tion");
    assert "tion"[2..] == "on" && FixPiece("tion") == "{t}{i}on";
    assert FRAC + "tion" == "\\fraction" && FRAC + "{t}{i}on" == "\\frac{t}{i}on";
    WholeWord();
    CommandIs("{t}{i}on");
    assert "{t}{i}on" == Wrapped('t', "{i}on") && "{i}on" == Wrapped('i', "on");
    ReadWrapped('t', "{i}on");
    ReadWrapped('i', "on");
  }

  lemma WholeWord()
    ensures Command("\\fraction") == "\\fraction"
  {
    assert Word("fraction");
    hide Word, ControlLength;
    ControlWord("fraction", "");
    var text := "\\fraction";
    assert "\\" + "fraction" + "" == text && text[..9] == text;
  }

  /** The numerator pi is torn, and the result has no readable fraction. */
  lemma TornControlSequence()
    ensures Fixed("\\frac\\pi2") == "\\frac{\\}{p}i2"
    ensures ReadFraction("\\pi2") == Some(("\\pi", "2", "")) && ReadFraction("{\\}{p}i2") == None
  {
    hide Fixed, ReadArgument, GroupEnd;
    ShortIsFree("\\pi2", FRAC);
    FixedOne("\\pi2");
    assert "\\pi2"[2..] == "i2";
    assert FixPiece("\\pi2") == "{\\}{p}i2";
    assert FRAC + "\\pi2" == "\\frac\\pi2" && FRAC + "{\\}{p}i2" == "\\frac{\\}{p}i2";
    ReadPi();
    ReadWrappedBackslash("{p}i2");
    assert Wrapped('\\', "{p}i2") == "{\\}{p}i2";
    NeverClosed();
  }

  lemma ReadPi()
    ensures ReadFraction("\\pi2") == Some(("\\pi", "2", ""))
  {
    assert LeadingLetters("pi2") == 2 by { assert "pi2"[1..] == "i2" && "i2"[1..] == "2" && LeadingLetters("2") == 0; }
    hide ReadArgument, LeadingLetters;
    assert "\\pi2"[1..] == "pi2" && "\\pi2"[..3] == "\\pi" && "\\pi2"[3..] == "2" && "2" == "2" + "";
    ReadControl("\\pi2");
    ReadSymbol('2', "");
  }

  lemma NeverClosed()
    ensures GroupEnd("{p}i2", 0) == None
  {
    assert "{p}i2"[1..] == "p}i2" && "p}i2"[1..] == "}i2" && "}i2"[1..] == "i2" && "i2"[1..] == "2" && "2"[1..] == [];
    assert GroupEnd("2", 0) == None;
    assert GroupEnd("i2", 0) == None;
    assert GroupEnd("}i2", 1) == None;
  }

  /** A blank becomes the numerator. */
  lemma TornByBlank()
    ensures Fixed("\\frac 12") == "\\frac{ }{1}2"
    ensures ReadFraction(" 12") == Some(("1", "2", "")) && ReadFraction("{ }{1}2") == Some((" ", "1", "2"))
  {
    hide Fixed, ReadArgument;
    ShortIsFree(" 12", FRAC);
    FixedOne(" 12");
    assert " 12"[2..] == "2" && " 12" == " " + "12" && "12" == "1" + "2" && "2" == "2" + "";
    assert FixPiece(" 12") == "{ }{1}2";
    assert FRAC + " 12" == "\\frac 12" && FRAC + "{ }{1}2" == "\\frac{ }{1}2";
    ReadBlank(' ', "12");
    ReadSymbol('1', "2");
    ReadSymbol('2', "");
    assert "{ }{1}2" == Wrapped(' ', "{1}2") && "{1}2" == Wrapped('1', "2");
    ReadWrapped(' ', "{1}2");
    ReadWrapped('1', "2");
  }

  /** A string that is one fraction. */
  lemma FixedOne(piece: string)
    requires !Hopeless(piece) && Free(piece, FRAC)
    ensures Fixed(FRAC + piece) == FRAC + FixPiece(piece)
  {
    hide FixPiece, Split;
    hide Free;
    ShortIsFree("", FRAC);
    FracIsUnbordered();
    SplitFirst("", FRAC, piece);
    SplitWhole(piece, FRAC);
    var s := FRAC + piece;
    assert "" + FRAC + piece == s;
    assert Split(s, FRAC) == ["", piece];
    assert Split(s, FRAC)[1..] == [piece];
    assert FixedParts(s) == ["", FixPiece(piece)];
    assert ["", FixPiece(piece)][1..] == [FixPiece(piece)];
    assert Join([FixPiece(piece)], FRAC) == FixPiece(piece);
    assert "" + FRAC + FixPiece(piece) == FRAC + FixPiece(piece);
  }

  /* ---------- every fraction is repaired, once ---------- */

  lemma FreeWrapped(c: char, rest: string)
    requires Free(rest, FRAC)
    ensures Free(Wrapped(c, rest), FRAC)
  {
    ShortIsFree([], FRAC);
    ShortIsFree([c], FRAC);
    hide Free;
    FreeAround([c], '}', rest, FRAC);
    FreeAround([], '{', [c] + "}" + rest, FRAC);
    assert [] + "{" + ([c] + "}" + rest) == Wrapped(c, rest);
  }

  lemma FreeFixPiece(piece: string)
    requires !Hopeless(piece) && Free(piece, FRAC)
    ensures Free(FixPiece(piece), FRAC)
  {
    if !Braced(piece) {
      hide Free, FixPiece, Wrapped;
      FixPieceShape(piece);
      FreeSuffix(piece, 2, FRAC);
      FreeSuffix(piece, 1, FRAC);
      if piece[1] != '{' {
        FreeWrapped(piece[1], piece[2..]);
        FreeWrapped(piece[0], Wrapped(piece[1], piece[2..]));
      } else {
        FreeWrapped(piece[0], piece[1..]);
      }
    }
  }

  /** No `\frac` appears or disappears: the result splits into the fixed pieces. */
  lemma SplitFixed(s: string)
    requires Repairable(s)
    ensures Split(Fixed(s), FRAC) == FixedParts(s)
  {
    hide FixPiece, Split, Join, Free, Hopeless, Repairable, FixedParts;
    JoinSplit(s, FRAC);
    var pieces := Split(s, FRAC);
    forall k | 0 <= k < |FixedParts(s)| ensures Free(FixedParts(s)[k], FRAC) {
      FixedPartAt(s, k);
      if k > 0 { FreeFixPiece(pieces[k]); }
    }
    SplitJoin(FixedParts(s), FRAC);
  }

  lemma FixedPartsBraced(s: string, k: nat)
    requires Repairable(s) && 1 <= k < |FixedParts(s)|
    ensures Braced(FixedParts(s)[k])
  {
    hide Split;
    FixedPartAt(s, k);
  }

  /** Repairing twice is repairing once. */
  lemma FixIsIdempotent(s: string)
    ensures Fixed(Fixed(s)) == Fixed(s)
  {
    if Repairable(s) {
      var t := Fixed(s);
      hide Split, Fixed, FixedParts;
      SplitFixed(s);
      forall k | 1 <= k < |Split(t, FRAC)| ensures Braced(Split(t, FRAC)[k]) { FixedPartsBraced(s, k); }
      BracedIsFixed(t);
    }
  }

  /** A string whose fractions all have braces is left alone. */
  lemma BracedIsFixed(s: string)
    requires forall k :: 1 <= k < |Split(s, FRAC)| ==> Braced(Split(s, FRAC)[k])
    ensures Repairable(s) && Fixed(s) == s
  {
    hide Split, Join, FixedParts;
    var pieces := Split(s, FRAC);
    assert Repairable(s);
    JoinSplit(s, FRAC);
    forall k | 0 <= k < |pieces| ensures FixedParts(s)[k] == pieces[k] {
      FixedPartAt(s, k);
    }
    assert FixedParts(s) == pieces;
  }

  /** A brace follows the `\frac` at position `i`. */
  predicate BracedAt(s: string, i: int) { 0 <= i && i + |FRAC| < |s| && s[i + |FRAC|] == '{' }

  /** Every `\frac` in the string is followed by an opening brace. */
  ghost predicate AllBraced(s: string) {
    forall i :: OccursAt(s, i, FRAC) ==> BracedAt(s, i)
  }

  ghost predicate PiecesBraced(pieces: seq<string>) {
    forall k :: 0 <= k < |pieces| ==> Braced(pieces[k])
  }

  lemma {:induction false} AllBracedPieces(s: string)
    ensures AllBraced(s) <==> PiecesBraced(Split(s, FRAC)[1..])
    decreases |s|
  {
    match IndexOf(s, FRAC)
    case None =>
    case Some(p) =>
      var rest := s[p + |FRAC|..];
      var tail := Split(rest, FRAC);
      assert Split(s, FRAC)[1..] == tail;
      AllBracedPieces(rest);
      FirstPieceBraced(rest);
      hide Split;
      assert tail == [tail[0]] + tail[1..];
      assert PiecesBraced(tail) <==> Braced(tail[0]) && PiecesBraced(tail[1..]);
      hide PiecesBraced;
      AllBracedRest(s, p, rest);
  }

  lemma BracedInRest(s: string, n: nat, i: int)
    requires n <= |s| && n <= i
    ensures BracedAt(s, i) <==> BracedAt(s[n..], i - n)
  {
  }

  lemma BracedAfter(s: string, p: nat)
    requires p + |FRAC| <= |s|
    ensures BracedAt(s, p) <==> Braced(s[p + |FRAC|..])
  {
  }

  lemma AllBracedRest(s: string, p: nat, rest: string)
    requires IndexOf(s, FRAC) == Some(p) && rest == s[p + |FRAC|..]
    ensures AllBraced(s) <==> Braced(rest) && AllBraced(rest)
  {
    var n := p + |FRAC|;
    assert OccursAt(s, p, FRAC) && n <= |s|;
    hide OccursAt, IndexOf, Unbordered, BracedAt, Braced;
    FracIsUnbordered();
    LaterOccurrences(s, FRAC, p, rest);
    BracedAfter(s, p);
    if AllBraced(s) {
      forall i | OccursAt(rest, i, FRAC) ensures BracedAt(rest, i) {
        assert OccursAt(s, i + p + |FRAC|, FRAC);
        BracedInRest(s, n, i + n);
      }
    }
    if Braced(rest) && AllBraced(rest) {
      forall i | OccursAt(s, i, FRAC) ensures BracedAt(s, i) {
        if i != p { BracedInRest(s, n, i); }
      }
    }
  }

  lemma FracIsUnbordered()
    ensures Unbordered(FRAC)
  {
  }

  /** A string begins with a brace exactly when its first piece does. */
  lemma FirstPieceBraced(s: string)
    ensures Braced(Split(s, FRAC)[0]) <==> Braced(s)
  {
    assert FRAC[0] == '\\';
    match IndexOf(s, FRAC)
    case None =>
    case Some(p) => if p == 0 { assert s[0..|FRAC|][0] == s[0]; }
  }

  /** The result has every `\frac` followed by a brace exactly when each of them had
      at least two symbols, or a brace, after it. */
  lemma FixBracesAll(s: string)
    ensures AllBraced(Fixed(s)) <==> Repairable(s)
  {
    AllBracedPieces(Fixed(s));
    if Repairable(s) {
      SplitFixed(s);
      forall k | 0 <= k < |FixedParts(s)[1..]| ensures Braced(FixedParts(s)[1..][k]) { FixedPartsBraced(s, k + 1); }
    } else {
      var pieces := Split(s, FRAC);
      var k :| 1 <= k < |pieces| && Hopeless(pieces[k]);
      assert !Braced(pieces[1..][k - 1]);
    }
  }

  /** Exactly the hopeless and the already repaired strings are left as they are. */
  lemma FixUnchangedIff(s: string)
    ensures Fixed(s) == s <==> !Repairable(s) || AllBraced(s)
  {
    FixBracesAll(s);
    if Repairable(s) && AllBraced(s) {
      hide Split, Fixed, AllBraced, Repairable;
      AllBracedPieces(s);
      var pieces := Split(s, FRAC);
      forall k | 1 <= k < |pieces| ensures Braced(pieces[k]) { assert Braced(pieces[1..][k - 1]); }
      BracedIsFixed(s);
    }
  }
}
