/** The repair of fractions in the whole text after a `\frac`, with fractions inside
    arguments (`_fix_fracs` in benchmark/reasoning_benchmark/answer_extraction.py). */
module FracNesting {
  import opened Sequences
  import opened Text
  import opened Fracs

  /* ---------- a repair that follows the text ---------- */

  predicate Symbol(c: char) { Plain(c) && c != '}' }

  /** What follows a `\frac` can be wrapped safely: a brace, or two symbols that are
      arguments by themselves. */
  predicate GoodStart(y: string) {
    y != [] && (y[0] == '{' || (|y| >= 2 && Symbol(y[0]) && Symbol(y[1])))
  }

  /** Every `\frac` in the text is followed by something good. */
  ghost predicate GoodText(x: string) {
    forall i :: OccursAt(x, i, FRAC) ==> GoodStart(x[i + |FRAC|..])
  }

  /** The repair as a walk over the text. */
  function Repair(x: string): string
    decreases |x|, 0
  {
    if x == [] then []
    else if FRAC <= x then FRAC + RepairArguments(x[|FRAC|..])
    else [x[0]] + Repair(x[1..])
  }

  function RepairArguments(y: string): string
    decreases |y|, 1
  {
    if !GoodStart(y) || y[0] == '{' then Repair(y)
    else if y[1] != '{' then Wrapped(y[0], Wrapped(y[1], Repair(y[2..])))
    else Wrapped(y[0], Repair(y[1..]))
  }

  lemma GoodSuffix(x: string, n: nat)
    requires GoodText(x) && n <= |x|
    ensures GoodText(x[n..])
  {
    forall i | OccursAt(x[n..], i, FRAC) ensures GoodStart(x[n..][i + |FRAC|..]) {
      OccursInRest(x, FRAC, n, i + n);
      assert x[n..][i + |FRAC|..] == x[i + n + |FRAC|..];
    }
  }

  lemma GoodHead(x: string)
    requires GoodText(x) && FRAC <= x
    ensures GoodStart(x[|FRAC|..]) && GoodText(x[|FRAC|..])
  {
    assert x[0..0 + |FRAC|] == FRAC;
    assert OccursAt(x, 0, FRAC);
    GoodSuffix(x, |FRAC|);
  }

  lemma RepairLetter(c: char, rest: string)
    requires !OccursAt([c] + rest, 0, FRAC)
    ensures Repair([c] + rest) == [c] + Repair(rest)
  {
    var s := [c] + rest;
    StartsAt(s, 0, FRAC);
    assert s[0..] == s && s[1..] == rest;
  }

  /** Text in which no `\frac` starts is copied. */
  lemma {:induction false} RepairPrefix(a: string, b: string)
    requires forall i :: 0 <= i < |a| ==> !OccursAt(a + b, i, FRAC)
    ensures Repair(a + b) == a + Repair(b)
  {
    hide OccursAt, Repair;
    if a == [] {
      assert a + b == b;
    } else {
      var rest := a[1..];
      assert a + b == [a[0]] + (rest + b);
      RepairLetter(a[0], rest + b);
      assert (a + b)[1..] == rest + b;
      forall i | 0 <= i < |rest| ensures !OccursAt(rest + b, i, FRAC) {
        OccursInRest(a + b, FRAC, 1, i + 1);
      }
      RepairPrefix(rest, b);
    }
  }

  lemma RepairSymbol(c: char, rest: string)
    requires c != '\\'
    ensures Repair([c] + rest) == [c] + Repair(rest)
  {
    assert FRAC[0] == '\\' && ([c] + rest)[1..] == rest;
  }

  /* ---------- the repair and groups ---------- */

  lemma FracBeforeBrace(x: string, y: string)
    ensures FRAC <= x + "}" + y <==> FRAC <= x
  {
    var s := x + "}" + y;
    assert s[|x|] == '}';
    if |x| < |FRAC| {
      assert FRAC[|x|] != '}' by { assert '}' !in FRAC; }
    } else {
      assert s[..|FRAC|] == x[..|FRAC|];
    }
  }

  lemma GoodStartBeforeBrace(x: string, y: string)
    requires GoodStart(x + "}" + y)
    ensures GoodStart(x) && (x[0] == '{' || |x| >= 2)
  {
    assert (x + "}" + y)[|x|] == '}';
  }

  /** A closing brace separates what is repaired. */
  lemma {:induction false} RepairClose(x: string, y: string)
    requires GoodText(x + "}" + y)
    ensures Repair(x + "}" + y) == Repair(x) + "}" + Repair(y)
    decreases |x|, 0
  {
    var s := x + "}" + y;
    FracBeforeBrace(x, y);
    if x == [] {
      RepairSymbol('}', y);
      assert s == "}" + y;
    } else if FRAC <= x {
      var z := x[|FRAC|..];
      GoodHead(s);
      assert s[|FRAC|..] == z + "}" + y;
      RepairArgumentsClose(z, y);
    } else {
      GoodSuffix(s, 1);
      assert s[1..] == x[1..] + "}" + y;
      RepairClose(x[1..], y);
    }
  }

  lemma {:induction false} RepairArgumentsClose(z: string, y: string)
    requires GoodStart(z + "}" + y) && GoodText(z + "}" + y)
    ensures RepairArguments(z + "}" + y) == RepairArguments(z) + "}" + Repair(y)
    decreases |z|, 1
  {
    hide Repair, GoodText;
    var s := z + "}" + y;
    GoodStartBeforeBrace(z, y);
    if z[0] == '{' {
      RepairClose(z, y);
    } else if z[1] != '{' {
      GoodSuffix(s, 2);
      assert s[2..] == z[2..] + "}" + y;
      RepairClose(z[2..], y);
    } else {
      GoodSuffix(s, 1);
      assert s[1..] == z[1..] + "}" + y;
      RepairClose(z[1..], y);
    }
  }

  lemma GoodBeforeBrace(x: string, y: string)
    requires GoodText(x + "}" + y)
    ensures GoodText(x) && GoodText(y)
  {
    var s := x + "}" + y;
    GoodSuffix(s, |x| + 1);
    assert s[|x| + 1..] == y;
    forall i | OccursAt(x, i, FRAC) ensures GoodStart(x[i + |FRAC|..]) {
      OccursInPart(x, "}" + y, i, FRAC);
      assert x + ("}" + y) == s;
      assert s[i + |FRAC|..] == x[i + |FRAC|..] + "}" + y;
      GoodStartBeforeBrace(x[i + |FRAC|..], y);
    }
  }

  /** The nesting depth after a text, and whether it ends within an escape. */
  function Walk(x: string, d: nat, escaped: bool): Option<(nat, bool)> {
    if x == [] then Some((d, escaped))
    else if escaped then Walk(x[1..], d, false)
    else if x[0] == '\\' then Walk(x[1..], d, true)
    else if x[0] == '{' then Walk(x[1..], d + 1, false)
    else if x[0] != '}' then Walk(x[1..], d, false)
    else if d == 0 then None
    else Walk(x[1..], d - 1, false)
  }

  lemma {:induction false} WalkConcat(a: string, b: string, d: nat, e: bool)
    ensures Walk(a + b, d, e) == match Walk(a, d, e) case None => None case Some(r) => Walk(b, r.0, r.1)
  {
    if a == [] {
      assert a + b == b;
    } else {
      assert (a + b)[1..] == a[1..] + b;
      if e { WalkConcat(a[1..], b, d, false); }
      else if a[0] == '\\' { WalkConcat(a[1..], b, d, true); }
      else if a[0] == '{' { WalkConcat(a[1..], b, d + 1, false); }
      else if a[0] != '}' { WalkConcat(a[1..], b, d, false); }
      else if d > 0 { WalkConcat(a[1..], b, d - 1, false); }
    }
  }

  predicate NoMarks(s: string) { '\\' !in s && '{' !in s && '}' !in s }

  lemma {:induction false} WalkOrdinary(s: string, d: nat)
    requires NoMarks(s)
    ensures Walk(s, d, false) == Some((d, false))
  {
    if s != [] {
      assert s[0] in s && NoMarks(s[1..]);
      WalkOrdinary(s[1..], d);
    }
  }

  /** After a `\frac` no escape is open, whatever stood before it. */
  lemma WalkFrac(d: nat, e: bool)
    ensures Walk(FRAC, d, e) == Some((d, false))
  {
    assert FRAC[1..] == "frac" && "frac"[1..] == "rac";
    WalkOrdinary("frac", d);
    WalkOrdinary("rac", d);
  }

  lemma WalkSymbol(c: char, rest: string, d: nat)
    requires c != '\\' && c != '{' && c != '}'
    ensures Walk([c] + rest, d, false) == Walk(rest, d, false)
  {
    assert ([c] + rest)[1..] == rest;
  }

  lemma WalkWrapped(c: char, rest: string, d: nat)
    requires c != '\\' && c != '{' && c != '}'
    ensures Walk(Wrapped(c, rest), d, false) == Walk(rest, d, false)
  {
    var s := Wrapped(c, rest);
    assert s[1..] == [c] + ("}" + rest);
    WalkSymbol(c, "}" + rest, d + 1);
    assert ("}" + rest)[1..] == rest;
  }

  lemma {:induction false} RepairWalk(x: string, d: nat, e: bool)
    requires GoodText(x)
    ensures Walk(Repair(x), d, e) == Walk(x, d, e)
    decreases |x|, 0
  {
    if x != [] && FRAC <= x {
      GoodHead(x);
      var y := x[|FRAC|..];
      assert x == FRAC + y;
      WalkFrac(d, e);
      WalkConcat(FRAC, y, d, e);
      WalkConcat(FRAC, RepairArguments(y), d, e);
      RepairArgumentsWalk(y, d);
    } else if x != [] {
      GoodSuffix(x, 1);
      var c, rest := x[0], x[1..];
      assert Repair(x)[0] == c && Repair(x)[1..] == Repair(rest);
      hide Repair, GoodText;
      if e { RepairWalk(rest, d, false); }
      else if c == '\\' { RepairWalk(rest, d, true); }
      else if c == '{' { RepairWalk(rest, d + 1, false); }
      else if c != '}' { RepairWalk(rest, d, false); }
      else if d > 0 { RepairWalk(rest, d - 1, false); }
    }
  }

  lemma {:induction false} RepairArgumentsWalk(y: string, d: nat)
    requires GoodStart(y) && GoodText(y)
    ensures Walk(RepairArguments(y), d, false) == Walk(y, d, false)
    decreases |y|, 1
  {
    hide Repair, GoodText, Walk, Wrapped;
    if y[0] == '{' {
      RepairWalk(y, d, false);
    } else {
      var a, b := y[0], y[1];
      assert y == [a] + y[1..] && y[1..] == [b] + y[2..];
      WalkSymbol(a, y[1..], d);
      if b != '{' {
        GoodSuffix(y, 2);
        WalkSymbol(b, y[2..], d);
        WalkWrapped(a, Wrapped(b, Repair(y[2..])), d);
        WalkWrapped(b, Repair(y[2..]), d);
        RepairWalk(y[2..], d, false);
      } else {
        GoodSuffix(y, 1);
        WalkWrapped(a, Repair(y[1..]), d);
        RepairWalk(y[1..], d, false);
      }
    }
  }

  /** The brace that ends a group, and the walk up to it. */
  lemma {:induction false} EndOfWalk(t: string, n: nat)
    requires GroupEnd(t, n).Some?
    ensures var i := GroupEnd(t, n).value; t[i] == '}' && Walk(t[..i], n, false) == Some((0, false))
  {
    var i := GroupEnd(t, n).value;
    if t[0] == '\\' {
      EndOfWalk(t[2..], n);
      assert t[..i][1..][1..] == t[2..][..i - 2];
    } else if i > 0 {
      EndOfWalk(t[1..], if t[0] == '{' then n + 1 else if t[0] == '}' then n - 1 else n);
      assert t[..i][1..] == t[1..][..i - 1];
    }
  }

  lemma {:induction false} WalkEnds(x: string, y: string, n: nat)
    requires Walk(x, n, false) == Some((0, false))
    ensures GroupEnd(x + "}" + y, n) == Some(|x|)
    decreases |x|
  {
    var s := x + "}" + y;
    if x == [] {
      assert s[0] == '}';
    } else if x[0] == '\\' {
      assert x[1..] != [];
      assert x[1..][1..] == x[2..] && s[2..] == x[2..] + "}" + y;
      WalkEnds(x[2..], y, n);
    } else {
      assert s[1..] == x[1..] + "}" + y;
      WalkEnds(x[1..], y, if x[0] == '{' then n + 1 else if x[0] == '}' then n - 1 else n);
    }
  }

  /* ---------- arguments ---------- */

  /** A group is read as its repaired content, followed by the repaired rest. */
  lemma RepairGroup(t: string)
    requires GoodText("{" + t) && ReadArgument("{" + t).Some?
    ensures var r := ReadArgument("{" + t).value;
            ReadArgument(Repair("{" + t)) == Some((Repair(r.0), Repair(r.1))) && GoodText(r.0) && GoodText(r.1)
  {
    hide ReadArgument, Repair, GoodText, Walk;
    ReadGroup(t);
    var i := GroupEnd(t, 0).value;
    var x, y := t[..i], t[i + 1..];
    EndOfWalk(t, 0);
    assert t == x + "}" + y;
    GoodSuffix("{" + t, 1);
    assert ("{" + t)[1..] == t;
    GoodBeforeBrace(x, y);
    RepairSymbol('{', t);
    RepairClose(x, y);
    RepairWalk(x, 0, false);
    WalkEnds(Repair(x), Repair(y), 0);
    var u := Repair(x) + "}" + Repair(y);
    ReadGroup(u);
    assert u[..|Repair(x)|] == Repair(x) && u[|Repair(x)| + 1..] == Repair(y);
  }

  lemma {:induction false} LeadingWord(s: string)
    ensures var n := LeadingLetters(s); Word(s[..n]) && (n == |s| || !Letter(s[n]))
  {
    if s != [] && Letter(s[0]) {
      LeadingWord(s[1..]);
      var n := LeadingLetters(s);
      assert s[..n] == [s[0]] + s[1..][..n - 1];
    }
  }

  lemma RepairStart(r: string)
    ensures r == [] ==> Repair(r) == []
    ensures r != [] ==> Repair(r) != [] && Repair(r)[0] == r[0]
  {
    if r != [] && FRAC <= r { assert r[0] == FRAC[0]; }
  }

  /** The control sequence at the start of a text does not depend on the repair of
      what follows it. */
  lemma SameControl(t: string)
    requires |t| >= 2
    ensures var n := ControlLength(t); |t[..n] + Repair(t[n..])| >= 2 && ControlLength(t[..n] + Repair(t[n..])) == n
  {
    hide Repair;
    var n := ControlLength(t);
    var u := t[..n] + Repair(t[n..]);
    assert u[1] == t[1];
    if Letter(t[1]) {
      LeadingWord(t[1..]);
      var word := t[1..][..n - 1];
      assert u[1..] == word + Repair(t[n..]);
      LettersAfter(word, Repair(t[n..]));
      RepairStart(t[n..]);
      NoLetters(Repair(t[n..]));
    }
  }

  predicate ClearStart(t: string)
    requires t != []
  {
    !(FRAC <= t) && !(FRAC <= t[1..])
  }

  /** A denominator that is a control sequence is not the next `\frac`. */
  predicate StandsAlone(v: string) {
    var t := SkipBlanks(v);
    t == [] || t[0] != '\\' || ClearStart(t)
  }

  lemma ControlIsClear(t: string, i: nat)
    requires |t| >= 2 && t[0] == '\\' && ClearStart(t) && i < ControlLength(t)
    ensures !OccursAt(t, i, FRAC) && !OccursAt(t[..ControlLength(t)], i, FRAC)
  {
    StartsAt(t, i, FRAC);
    if i == 0 {
      assert t[0..] == t;
    } else if i >= 2 {
      LeadingWord(t[1..]);
      var n := LeadingLetters(t[1..]);
      assert Letter(t[1..][..n][i - 1]);
      assert t[i..][0] == t[i];
    }
    var d := t[..ControlLength(t)];
    assert t == d + t[ControlLength(t)..];
    OccursInPart(d, t[ControlLength(t)..], i, FRAC);
  }

  lemma RepairCopied(t: string, d: string, r: string)
    requires t == d + r && forall i :: 0 <= i < |d| ==> !OccursAt(t, i, FRAC) && !OccursAt(d, i, FRAC)
    ensures Repair(t) == d + Repair(r) && Repair(d) == d
  {
    hide Repair, OccursAt;
    RepairPrefix(d, r);
    assert d + [] == d;
    RepairPrefix(d, []);
    RepairStart([]);
  }

  lemma RepairControl(t: string)
    requires |t| >= 2 && t[0] == '\\' && ClearStart(t)
    ensures var n := ControlLength(t); Repair(t) == t[..n] + Repair(t[n..]) && Repair(t[..n]) == t[..n]
  {
    hide Repair, ControlLength, OccursAt, ClearStart;
    var n := ControlLength(t);
    forall i | 0 <= i < n ensures !OccursAt(t, i, FRAC) && !OccursAt(t[..n], i, FRAC) { ControlIsClear(t, i); }
    RepairCopied(t, t[..n], t[n..]);
  }

  /** An argument of the repaired text is the repaired argument. */
  lemma {:induction false} RepairArgument(v: string)
    requires GoodText(v) && StandsAlone(v) && ReadArgument(v).Some?
    ensures var r := ReadArgument(v).value;
            ReadArgument(Repair(v)) == Some((Repair(r.0), Repair(r.1))) && GoodText(r.0) && GoodText(r.1)
    decreases |v|
  {
    assert v != [] by { EmptyArguments(); }
    var c, rest := v[0], v[1..];
    assert v == [c] + rest;
    if Blank(c) {
      BlankStandsAlone(c, rest);
      hide ReadArgument, Repair, GoodText, StandsAlone;
      GoodSuffix(v, 1);
      RepairSymbol(c, rest);
      ReadBlank(c, rest);
      ReadBlank(c, Repair(rest));
      RepairArgument(rest);
    } else if c == '{' {
      hide ReadArgument, Repair, GoodText, StandsAlone;
      RepairGroup(rest);
    } else if c == '\\' {
      hide ReadArgument, Repair, GoodText, StandsAlone;
      ControlArgument(v);
    } else {
      hide ReadArgument, Repair, GoodText, StandsAlone;
      SymbolArgument(c, rest);
    }
  }

  lemma BlankStandsAlone(c: char, rest: string)
    requires Blank(c)
    ensures StandsAlone([c] + rest) <==> StandsAlone(rest)
  {
    assert ([c] + rest)[1..] == rest;
  }

  lemma ShortIsGood(x: string)
    requires |x| < |FRAC|
    ensures GoodText(x)
  {
  }

  lemma SymbolArgument(c: char, rest: string)
    requires Plain(c) && c != '{' && GoodText([c] + rest) && ReadArgument([c] + rest).Some?
    ensures var r := ReadArgument([c] + rest).value;
            ReadArgument(Repair([c] + rest)) == Some((Repair(r.0), Repair(r.1))) && GoodText(r.0) && GoodText(r.1)
  {
    hide ReadArgument, Repair, GoodText;
    ShortIsGood([c]);
    GoodSuffix([c] + rest, 1);
    assert ([c] + rest)[1..] == rest && [c] + [] == [c];
    assert c != '}' by { ReadClosing(rest); }
    ReadSymbol(c, rest);
    RepairSymbol(c, rest);
    ReadSymbol(c, Repair(rest));
    RepairSymbol(c, []);
    RepairStart([]);
  }

  lemma ControlIsGood(t: string)
    requires |t| >= 2 && t[0] == '\\' && ClearStart(t)
    ensures GoodText(t[..ControlLength(t)])
  {
    var d := t[..ControlLength(t)];
    forall i | 0 <= i < |d| ensures !OccursAt(d, i, FRAC) {
      ControlIsClear(t, i);
    }
  }

  lemma ControlArgument(t: string)
    requires t != [] && t[0] == '\\' && StandsAlone(t) && GoodText(t) && ReadArgument(t).Some?
    ensures var r := ReadArgument(t).value;
            ReadArgument(Repair(t)) == Some((Repair(r.0), Repair(r.1))) && GoodText(r.0) && GoodText(r.1)
  {
    assert SkipBlanks(t) == t;
    assert |t| >= 2;
    ControlIsGood(t);
    hide ReadArgument, Repair, ControlLength, GoodText;
    GoodSuffix(t, ControlLength(t));
    ReadControl(t);
    RepairControl(t);
    SameControl(t);
    var n := ControlLength(t);
    var u := t[..n] + Repair(t[n..]);
    assert u[0] == '\\';
    ReadControl(u);
    assert u[..n] == t[..n] && u[n..] == Repair(t[n..]);
  }

  /* ---------- the repair of the source ---------- */

  /** What follows the first piece of a joined text. */
  function Rest(pieces: seq<string>): string { if pieces == [] then [] else FRAC + Join(pieces, FRAC) }

  lemma JoinFirst(p: string, pieces: seq<string>)
    ensures Join([p] + pieces, FRAC) == p + Rest(pieces)
  {
    if pieces != [] { assert ([p] + pieces)[1..] == pieces; }
  }

  /** Cutting symbols off the first piece. */
  lemma SplitSuffix(y: string, n: nat)
    requires n <= |Split(y, FRAC)[0]|
    ensures n <= |y| && Split(y[n..], FRAC) == [Split(y, FRAC)[0][n..]] + Split(y, FRAC)[1..]
  {
    hide Split, Join, Free;
    var pieces := Split(y, FRAC);
    JoinSplit(y, FRAC);
    JoinFirst(pieces[0], pieces[1..]);
    assert [pieces[0]] + pieces[1..] == pieces;
    var cut := [pieces[0][n..]] + pieces[1..];
    JoinFirst(pieces[0][n..], pieces[1..]);
    assert y[n..] == pieces[0][n..] + Rest(pieces[1..]);
    FracIsUnbordered();
    forall k | 0 <= k < |cut| ensures Free(cut[k], FRAC) {
      if k == 0 { FreeSuffix(pieces[0], n, FRAC); } else { assert cut[k] == pieces[k]; }
    }
    SplitJoin(cut, FRAC);
  }

  /** The repaired text of the pieces after the first, on any suffix of that. */
  lemma FixedSuffix(y: string, n: nat)
    requires Repairable(y) && n <= |Split(y, FRAC)[0]|
    ensures n <= |y| && Repairable(y[n..])
    ensures Fixed(y[n..]) == Split(y, FRAC)[0][n..] + Rest(FixPieces(Split(y, FRAC)[1..]))
  {
    hide Split, Join, FixPiece, Hopeless;
    SplitSuffix(y, n);
    var pieces, cut := Split(y, FRAC), Split(y[n..], FRAC);
    assert cut[1..] == pieces[1..];
    assert forall k :: 1 <= k < |cut| ==> cut[k] == pieces[k];
    JoinFirst(cut[0], FixPieces(cut[1..]));
  }

  /** The text after a `\frac` as the source repairs it. */
  function FixedArguments(y: string): string
    requires Repairable(y) && !Hopeless(Split(y, FRAC)[0])
  {
    FixPiece(Split(y, FRAC)[0]) + Rest(FixPieces(Split(y, FRAC)[1..]))
  }

  lemma FirstPiecePrefix(y: string)
    ensures Split(y, FRAC)[0] <= y
    ensures |Split(y, FRAC)[0]| < |y| ==> y[|Split(y, FRAC)[0]|] == '\\'
  {
    match IndexOf(y, FRAC)
    case None =>
    case Some(i) => assert y[i..i + |FRAC|][0] == y[i];
  }

  /** A good start is in the first piece. */
  lemma GoodStartPiece(y: string)
    requires GoodStart(y)
    ensures var q := Split(y, FRAC)[0];
            !Hopeless(q) && (Braced(q) <==> y[0] == '{') && (!Braced(q) ==> q[0] == y[0] && q[1] == y[1])
  {
    hide Split;
    FirstPiecePrefix(y);
  }

  /** The wrapped symbols can be taken off the text before repairing the rest. */
  lemma ArgumentsTakenOff(y: string)
    requires Repairable(y) && !Hopeless(Split(y, FRAC)[0])
    ensures y != []
    ensures var q := Split(y, FRAC)[0];
            if Braced(q) then y[0] == '{' && FixedArguments(y) == Fixed(y)
            else |y| >= 2 && q[0] == y[0] && q[1] == y[1] &&
                 if y[1] != '{' then FixedArguments(y) == Wrapped(y[0], Wrapped(y[1], Fixed(y[2..])))
                 else FixedArguments(y) == Wrapped(y[0], Fixed(y[1..]))
  {
    hide Split, Fixed, Wrapped, FixPieces, Rest, FixPiece;
    var q := Split(y, FRAC)[0];
    FirstPiecePrefix(y);
    var tail := Rest(FixPieces(Split(y, FRAC)[1..]));
    hide Repairable;
    if Braced(q) {
      FixedSuffix(y, 0);
      assert y[0..] == y && q[0..] == q;
      BracedPiece(q);
    } else {
      FixPieceShape(q);
      if q[1] != '{' {
        FixedSuffix(y, 2);
        WrappedConcat(q[0], Wrapped(q[1], q[2..]), tail);
        WrappedConcat(q[1], q[2..], tail);
      } else {
        FixedSuffix(y, 1);
        WrappedConcat(q[0], q[1..], tail);
      }
    }
  }

  lemma BracedPiece(q: string)
    requires Braced(q)
    ensures FixPiece(q) == q
  {
  }

  lemma WrappedConcat(c: char, a: string, b: string)
    ensures Wrapped(c, a) + b == Wrapped(c, a + b)
  {
  }

  /** On good text the source's repair is the walk. */
  lemma {:induction false} FixedIsRepair(x: string)
    requires GoodText(x)
    ensures Repairable(x) && Fixed(x) == Repair(x)
    decreases |x|, 0
  {
    hide Fixed, Repair, Repairable, IndexOf, Free, GoodText;
    match IndexOf(x, FRAC)
    case None =>
      NothingToRepair(x);
    case Some(i) =>
      FreeBeforeFirst(x, FRAC, i);
      var p, y := x[..i], x[i + |FRAC|..];
      assert x == p + FRAC + y;
      FixedAfterFirst(p, y);
  }

  lemma {:induction false} FixedAfterFirst(p: string, y: string)
    requires GoodText(p + FRAC + y) && Free(p, FRAC)
    ensures Repairable(p + FRAC + y) && Fixed(p + FRAC + y) == Repair(p + FRAC + y)
    decreases |p + FRAC + y|, 0, 1
  {
    hide Fixed, Repair, Repairable, Free, GoodText, RepairArguments, FixedArguments, Split;
    var x := p + FRAC + y;
    GoodAfterFrac(p, y);
    FixedArgumentsAreRepaired(y);
    FixedFirst(p, y);
    RepairFirst(p, y);
  }

  lemma GoodAfterFrac(p: string, y: string)
    requires GoodText(p + FRAC + y)
    ensures GoodStart(y) && GoodText(y)
  {
    var x := p + FRAC + y;
    GoodSuffix(x, |p|);
    assert x[|p|..] == FRAC + y && (FRAC + y)[|FRAC|..] == y;
    GoodHead(FRAC + y);
  }

  lemma NothingToRepair(x: string)
    requires IndexOf(x, FRAC) == None
    ensures Repairable(x) && Fixed(x) == x == Repair(x)
  {
    assert Split(x, FRAC) == [x];
    assert FixedParts(x) == [x];
    assert x + [] == x;
    RepairPrefix(x, []);
  }

  lemma RepairAtFrac(y: string)
    ensures Repair(FRAC + y) == FRAC + RepairArguments(y)
  {
    assert (FRAC + y)[|FRAC|..] == y && FRAC <= FRAC + y;
  }

  /** The first `\frac` in both repairs. */
  lemma RepairFirst(p: string, y: string)
    requires Free(p, FRAC)
    ensures Repair(p + FRAC + y) == p + (FRAC + RepairArguments(y))
  {
    hide Repair, RepairArguments, Free;
    FracIsUnbordered();
    NextSeparator(p, FRAC, y);
    assert forall k :: 0 <= k < |p| ==> !OccursAt(p + FRAC + y, k, FRAC);
    hide IndexOf, Unbordered, OccursAt;
    assert p + FRAC + y == p + (FRAC + y);
    RepairPrefix(p, FRAC + y);
    RepairAtFrac(y);
  }

  lemma FixPiecesFirst(pieces: seq<string>)
    requires pieces != [] && forall k :: 0 <= k < |pieces| ==> !Hopeless(pieces[k])
    ensures FixPieces(pieces) == [FixPiece(pieces[0])] + FixPieces(pieces[1..])
    ensures Join(FixPieces(pieces), FRAC) == FixPiece(pieces[0]) + Rest(FixPieces(pieces[1..]))
  {
    hide FixPiece, Hopeless, Join;
    JoinFirst(FixPiece(pieces[0]), FixPieces(pieces[1..]));
  }

  lemma FixedFirst(p: string, y: string)
    requires Free(p, FRAC) && Repairable(y) && !Hopeless(Split(y, FRAC)[0])
    ensures Repairable(p + FRAC + y) && Fixed(p + FRAC + y) == p + (FRAC + FixedArguments(y))
  {
    hide Split, FixPiece, Hopeless, Join, Free;
    var x, pieces := p + FRAC + y, Split(y, FRAC);
    FracIsUnbordered();
    SplitFirst(p, FRAC, y);
    hide Unbordered;
    assert Split(x, FRAC)[1..] == pieces;
    assert forall k :: 0 <= k < |pieces| ==> !Hopeless(pieces[k]);
    assert forall k :: 1 <= k < |Split(x, FRAC)| ==> Split(x, FRAC)[k] == pieces[k - 1];
    assert Repairable(x);
    assert FixedParts(x) == [p] + FixPieces(pieces);
    JoinFirst(p, FixPieces(pieces));
    FixPiecesFirst(pieces);
  }

  lemma {:induction false} FixedArgumentsAreRepaired(y: string)
    requires GoodText(y) && GoodStart(y)
    ensures Repairable(y) && !Hopeless(Split(y, FRAC)[0]) && FixedArguments(y) == RepairArguments(y)
    decreases |y|, 1
  {
    hide Split, Repair, Hopeless, GoodText, Fixed, Repairable, Wrapped;
    GoodStartPiece(y);
    FixedIsRepair(y);
    ArgumentsTakenOff(y);
    hide FixedArguments;
    if y[0] != '{' {
      GoodSuffix(y, 2);
      GoodSuffix(y, 1);
      FixedIsRepair(y[2..]);
      FixedIsRepair(y[1..]);
    }
  }

  /* ---------- the fraction in the whole text ---------- */

  /** The text after the separator before piece `k`. */
  function TextAfter(s: string, k: nat): string
    requires k <= |Split(s, FRAC)|
  {
    Join(Split(s, FRAC)[k..], FRAC)
  }

  lemma FixedSymbol(x: string)
    requires |x| < |FRAC|
    ensures Fixed(x) == x
  {
    hide Fixed;
    ShortIsFree(x, FRAC);
    NothingToRepair(x);
  }

  /** The numerator is a group. */
  lemma GroupRead(u: string)
    requires u != [] && u[0] == '{' && GoodText(u)
    requires ReadFraction(u).Some? && StandsAlone(ReadArgument(u).value.1)
    ensures var r := ReadFraction(u).value;
            ReadFraction(Fixed(u)) == Some((Fixed(r.0), Fixed(r.1), Fixed(r.2)))
  {
    hide ReadArgument, Fixed, Repair, GoodText, StandsAlone, Repairable;
    assert u == "{" + u[1..];
    RepairGroup(u[1..]);
    var first := ReadArgument(u).value;
    RepairArgument(first.1);
    var second := ReadArgument(first.1).value;
    FixedIsRepair(u);
    FixedIsRepair(first.0);
    FixedIsRepair(second.0);
    FixedIsRepair(second.1);
  }

  /** The numerator is a symbol and the denominator a group. */
  lemma SymbolGroupRead(u: string)
    requires |u| >= 2 && Plain(u[0]) && u[0] != '{' && u[1] == '{' && GoodText(u) && ReadFraction(u).Some?
    ensures var r := ReadFraction(u).value;
            ReadFraction(Wrapped(u[0], Fixed(u[1..]))) == Some((Fixed(r.0), Fixed(r.1), Fixed(r.2)))
  {
    hide ReadArgument, Fixed, Repair, GoodText, Repairable, Wrapped;
    var a, v := u[0], u[1..];
    assert u == [a] + v && v == "{" + u[2..];
    assert a != '}' by { ReadClosing(v); }
    ReadSymbol(a, v);
    ReadWrapped(a, Fixed(v));
    FixedSymbol([a]);
    GoodSuffix(u, 1);
    RepairGroup(u[2..]);
    var second := ReadArgument(v).value;
    FixedIsRepair(v);
    FixedIsRepair(second.0);
    FixedIsRepair(second.1);
  }

  /** Both are symbols. */
  lemma SymbolsRead(u: string)
    requires |u| >= 2 && Plain(u[0]) && u[0] != '{' && Plain(u[1]) && u[1] != '{' && ReadFraction(u).Some?
    ensures var r := ReadFraction(u).value;
            ReadFraction(Wrapped(u[0], Wrapped(u[1], Fixed(u[2..])))) == Some((Fixed(r.0), Fixed(r.1), Fixed(r.2)))
  {
    hide ReadArgument, Fixed, Wrapped;
    var a, b, w := u[0], u[1], u[2..];
    assert u == [a] + u[1..] && u[1..] == [b] + w;
    assert a != '}' by { ReadClosing(u[1..]); }
    ReadSymbol(a, u[1..]);
    assert b != '}' by { ReadClosing(w); }
    ReadSymbol(b, w);
    ReadWrapped(a, Wrapped(b, Fixed(w)));
    ReadWrapped(b, Fixed(w));
    FixedSymbol([a]);
    FixedSymbol([b]);
  }

  /** The denominator is an escaped closing brace. */
  lemma EscapedBraceRead(u: string)
    requires |u| >= 3 && Plain(u[0]) && u[0] != '{' && u[1] == '\\' && u[2] == '}'
    requires GoodText(u) && ReadFraction(u).Some?
    ensures var r := ReadFraction(u).value;
            ReadFraction(Wrapped(u[0], Wrapped(u[1], Fixed(u[2..])))) == Some((Fixed(r.0), Fixed(r.1), Fixed(r.2)))
  {
    hide ReadArgument, Fixed, Repair, GoodText, Repairable, Wrapped;
    var a, v, r := u[0], u[1..], u[3..];
    assert u == [a] + v && v[..2] == "\\}" && v[2..] == r && u[2..] == "}" + r;
    assert a != '}' by { ReadClosing(v); }
    ReadSymbol(a, v);
    ReadControl(v);
    GoodSuffix(u, 2);
    GoodSuffix(u, 3);
    FixedIsRepair(u[2..]);
    FixedIsRepair(r);
    RepairSymbol('}', r);
    var rest := "}" + Fixed(r);
    assert Fixed(u[2..]) == rest && rest[..0] == "" && rest[1..] == Fixed(r);
    ReadWrapped(a, Wrapped('\\', rest));
    ReadWrappedBackslash(rest);
    assert GroupEnd(rest, 0) == Some(0);
    assert "\\}" + "" == "\\}";
    FixedSymbol([a]);
    FixedSymbol("\\}");
  }

  lemma ArgumentsRead(u: string)
    requires GoodText(u) && Repairable(u)
    requires var q := Split(u, FRAC)[0]; !Hopeless(q) && (Braced(q) || Wrappable(q))
    requires ReadFraction(u).Some? && StandsAlone(ReadArgument(u).value.1)
    ensures var r := ReadFraction(u).value;
            ReadFraction(FixedArguments(u)) == Some((Fixed(r.0), Fixed(r.1), Fixed(r.2)))
  {
    hide ReadFraction, ReadArgument, Fixed, GoodText, StandsAlone, FixedArguments, Repairable, Split, Wrapped;
    var q := Split(u, FRAC)[0];
    ArgumentsTakenOff(u);
    FirstPiecePrefix(u);
    if Braced(q) {
      GroupRead(u);
    } else if u[1] == '{' {
      SymbolGroupRead(u);
    } else if Plain(u[1]) {
      SymbolsRead(u);
    } else {
      assert q[1..][1] == '}' && q[2] == u[2];
      EscapedBraceRead(u);
    }
  }

  lemma TextAfterSplits(s: string, k: nat)
    requires k < |Split(s, FRAC)|
    ensures Split(TextAfter(s, k), FRAC) == Split(s, FRAC)[k..]
  {
    hide Split, Join, Free;
    JoinSplit(s, FRAC);
    FracIsUnbordered();
    SplitJoin(Split(s, FRAC)[k..], FRAC);
  }

  lemma FixedTextAfter(s: string, k: nat)
    requires Repairable(s) && 1 <= k < |Split(s, FRAC)|
    ensures Repairable(TextAfter(s, k)) && Split(TextAfter(s, k), FRAC)[0] == Split(s, FRAC)[k]
    ensures !Hopeless(Split(s, FRAC)[k]) && |Split(Fixed(s), FRAC)| == |Split(s, FRAC)|
    ensures TextAfter(Fixed(s), k) == FixedArguments(TextAfter(s, k))
  {
    hide Split, FixPiece, Hopeless, Join, Fixed;
    TextAfterSplits(s, k);
    SplitFixed(s);
    var pieces := Split(s, FRAC)[k..];
    assert forall j :: 0 <= j < |pieces| ==> pieces[j] == Split(s, FRAC)[k + j];
    assert FixedParts(s)[k..] == FixPieces(pieces);
    FixPiecesFirst(pieces);
  }

  /** A `\frac` whose arguments may contain others: when it can be wrapped, and each
      `\frac` after it is followed by a brace or two symbols, and its denominator is
      not the next `\frac` itself, then numerator, denominator and rest of the whole
      text after it are the repaired ones of the input. */
  lemma FixKeepsNestedFractions(s: string, k: nat)
    requires Repairable(s) && 1 <= k < |Split(s, FRAC)|
    requires Braced(Split(s, FRAC)[k]) || (|Split(s, FRAC)[k]| >= 2 && Wrappable(Split(s, FRAC)[k]))
    requires var u := TextAfter(s, k);
             GoodText(u) && ReadFraction(u).Some? && StandsAlone(ReadArgument(u).value.1)
    ensures |Split(Fixed(s), FRAC)| == |Split(s, FRAC)|
    ensures var r := ReadFraction(TextAfter(s, k)).value;
            ReadFraction(TextAfter(Fixed(s), k)) == Some((Fixed(r.0), Fixed(r.1), Fixed(r.2)))
  {
    hide Split, Fixed, ReadArgument, ReadFraction, GoodText, StandsAlone, Wrappable, TextAfter, FixedArguments;
    FixedTextAfter(s, k);
    ArgumentsRead(TextAfter(s, k));
  }
}
