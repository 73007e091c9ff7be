/** When users are handed out, and what their prompts and the statistics are made of:
    laws of the round scheduler stated over its operations. */
module RoundLaws {
  import opened Sequences
  import opened RoundScheduler

  /* ---------- one operation ---------- */

  /** The user popped was there before exactly when the queue's head is due, and then
      it is the head; else it is a new one and the queue is left alone. */
  lemma PopHandsOutDue(c: Config, s: State, now: real, rand: nat, sample: Sample, tokens: int)
    requires Shaped(c, s)
    ensures var r := Pop(c, s, now, rand, sample, tokens);
            && (r.1 < |s.users| <==> s.queue != [] && s.users[s.queue[0]].start < now)
            && (r.1 < |s.users| ==> r.1 == s.queue[0] && r.0.queue == s.queue[1..] && r.0.users == s.users)
            && (r.1 >= |s.users| ==>
                  r.1 == |s.users| && r.0.queue == s.queue && |r.0.users| == |s.users| + 1 && s.users <= r.0.users)
  {
    hide Decimal, SelectRounds;
  }

  /** What a push leaves in the user's record, in plain terms. */
  lemma PushSets(c: Config, s: State, id: nat, reply: string, itl: nat, d: Draw)
    requires Shaped(c, s) && HasRoundsLeft(s, id) && s.users[id].current + 1 < s.users[id].total
    ensures var u, v := s.users[id], Push(c, s, id, reply, itl, d).users[id];
            && v.current == u.current + 1 && v.total == u.total
            && v.prompt == u.prompt + reply + d.sample.text
            && (d.interval > 0.0 ==> v.start == d.now + d.interval)
            && (d.interval <= 0.0 ==> v.start == d.now + c.intervals[v.current])
            && (d.tokens > 0 ==> v.returnTokens == d.tokens)
            && (d.tokens <= 0 ==> v.returnTokens == c.returnTokens[v.current])
  {
    hide InsertPosition, InsertAt, Starts;
  }

  /** Before the first queued user that starts later, or before the last one if there
      is none. */
  predicate Slot(s: State, start: real, p: nat)
    requires forall k :: 0 <= k < |s.queue| ==> s.queue[k] < |s.users|
  {
    if exists k :: 0 <= k < |s.queue| && start < s.users[s.queue[k]].start then
      && p < |s.queue| && start < s.users[s.queue[p]].start
      && forall k :: 0 <= k < p ==> s.users[s.queue[k]].start <= start
    else
      p == if s.queue == [] then 0 else |s.queue| - 1
  }

  lemma PositionIsSlot(s: State, start: real)
    requires forall k :: 0 <= k < |s.queue| ==> s.queue[k] < |s.users|
    ensures Slot(s, start, InsertPosition(Starts(s.users, s.queue), start))
  {
    hide InsertPosition;
    var starts := Starts(s.users, s.queue);
    if k :| 0 <= k < |s.queue| && start < s.users[s.queue[k]].start { assert start < starts[k]; }
  }

  /** Where a push puts the user; the others keep their order. */
  lemma PushInserts(c: Config, s: State, id: nat, reply: string, itl: nat, d: Draw)
    requires Shaped(c, s) && HasRoundsLeft(s, id) && s.users[id].current + 1 < s.users[id].total
    ensures var t := Push(c, s, id, reply, itl, d);
            exists p :: 0 <= p < |t.queue| && Slot(s, t.users[id].start, p)
                     && t.queue[p] == id && RemoveAt(t.queue, p) == s.queue
  {
    hide InsertPosition, Slot, Starts, Bump;
    var t := Push(c, s, id, reply, itl, d);
    var start := t.users[id].start;
    var p := InsertPosition(Starts(s.users, s.queue), start);
    PositionIsSlot(s, start);
    assert t.queue == InsertAt(s.queue, p, id);
    hide Push;
    assert RemoveAt(t.queue, p) == s.queue;
  }

  /** A new user waits for nothing and may generate a positive number of tokens if the
      configured means are positive. */
  lemma GenSets(c: Config, s: State, rand: nat, sample: Sample, tokens: int)
    requires Shaped(c, s)
    ensures var t := Gen(c, s, rand, sample, tokens); var u := t.users[|s.users|];
            && u.current == 0 && u.start == 0.0 && u.prompt == Decimal(|s.users|) + " " + sample.text
            && 1 <= u.total <= |c.ratios| && Prefix(c.ratios, u.total - 1) <= rand
            && (rand < Prefix(c.ratios, u.total) || u.total == |c.ratios|)
            && (tokens > 0 ==> u.returnTokens == tokens)
            && (tokens <= 0 ==> u.returnTokens == c.returnTokens[0])
  {
    hide Decimal, SelectRounds;
    SelectMeaning(c.ratios, rand, SelectRounds(c.ratios, rand));
  }

  /** Reading the number at the start of a prompt. */
  function Value(s: string): nat
    requires forall k :: 0 <= k < |s| ==> '0' <= s[k] <= '9'
  {
    if s == [] then 0 else 10 * Value(s[..|s| - 1]) + (s[|s| - 1] - '0') as int
  }

  lemma {:induction false} DecimalValue(n: nat)
    ensures Value(Decimal(n)) == n
  {
    var s := Decimal(n);
    var digit := "0123456789"[n % 10];
    assert s[|s| - 1] == digit && (digit - '0') as int == n % 10 by { DigitValue(n % 10); }
    if n < 10 {
      assert s[..|s| - 1] == [];
    } else {
      assert s[..|s| - 1] == Decimal(n / 10);
      DecimalValue(n / 10);
    }
  }

  lemma DigitValue(d: nat)
    requires d < 10
    ensures '0' <= "0123456789"[d] && ("0123456789"[d] - '0') as int == d
  {
  }

  /* ---------- a whole run ---------- */

  /** Over every run: a user that is handed out is either new or in a later round, and
      in a later round only after its start. */
  lemma NobodyIsEarly(c: Config, ops: seq<Op>, s: State, now: real, rand: nat, sample: Sample, tokens: int)
    requires ValidConfig(c) && Reaches(c, Init(|c.ratios|), ops, s) && Shaped(c, s)
    ensures var r := Pop(c, s, now, rand, sample, tokens);
            && r.1 < |r.0.users|
            && (r.0.users[r.1].current == 0 <==> r.1 == |s.users|)
            && (r.0.users[r.1].current > 0 ==> r.0.users[r.1].start < now)
  {
    InitInv(c);
    RunKeepsInv(c, Init(|c.ratios|), ops, s);
    hide StatsInv, Decimal, SelectRounds;
    PopHandsOutDue(c, s, now, rand, sample, tokens);
    if s.queue != [] { assert 0 < s.users[s.queue[0]].current; }
  }

  /** Computed along the operations: the texts that make up each user's prompt, and
      per round the tokens of the prompts issued and of the answers. */
  datatype Log = Log(texts: seq<seq<string>>, issued: seq<int>, answered: seq<int>)

  predicate Sized(c: Config, s: State, g: Log) {
    |g.texts| == |s.users| && |g.issued| == |g.answered| == |c.ratios|
  }

  function Add(sums: seq<int>, r: nat, x: int): seq<int>
    requires r < |sums|
  {
    sums[r := sums[r] + x]
  }

  function NoteOp(c: Config, s: State, op: Op, g: Log): Log
    requires Shaped(c, s) && Enabled(s, op) && Sized(c, s, g)
  {
    match op
    case PopUser(now, _, sample, _) =>
      if s.queue != [] && s.users[s.queue[0]].start < now then g
      else g.(texts := g.texts + [[sample.text]], issued := Add(g.issued, 0, sample.len))
    case PushUser(id, reply, itl, draw) =>
      var u := s.users[id];
      var h := g.(answered := Add(g.answered, u.current, itl + 1));
      if u.current + 1 >= u.total then h
      else h.(texts := g.texts[id := g.texts[id] + [reply, draw.sample.text]],
              issued := Add(g.issued, u.current + 1, draw.sample.len))
  }

  function Flat(parts: seq<string>): string {
    if parts == [] then "" else Flat(parts[..|parts| - 1]) + parts[|parts| - 1]
  }

  lemma FlatTwo(parts: seq<string>, a: string, b: string)
    ensures Flat(parts + [a, b]) == Flat(parts) + a + b
  {
    var s := parts + [a, b];
    assert s[..|s| - 1] == parts + [a] && (parts + [a])[..|parts|] == parts;
  }

  ghost predicate LogInv(c: Config, s: State, g: Log) {
    && Sized(c, s, g) && |s.inputs| == |s.outputs| == |c.ratios|
    && (forall i :: 0 <= i < |s.users| ==> s.users[i].prompt == Decimal(i) + " " + Flat(g.texts[i]))
    && (forall r :: 0 <= r < |c.ratios| ==>
          s.inputs[r].tokens == g.issued[r] && s.outputs[r].tokens == g.answered[r])
  }

  lemma FlatOne(text: string)
    ensures Flat([text]) == text
  {
    assert Flat([text][..0]) == "";
  }

  lemma PopKeepsLog(c: Config, s: State, op: Op, g: Log)
    requires Shaped(c, s) && op.PopUser? && LogInv(c, s, g)
    ensures LogInv(c, Apply(c, s, op), NoteOp(c, s, op, g))
  {
    hide Decimal, SelectRounds, Flat;
    FlatOne(op.sample.text);
  }

  lemma PushKeepsLog(c: Config, s: State, op: Op, g: Log)
    requires Shaped(c, s) && op.PushUser? && Enabled(s, op) && LogInv(c, s, g)
    ensures LogInv(c, Apply(c, s, op), NoteOp(c, s, op, g))
  {
    hide Decimal, Flat, InsertPosition, InsertAt, Starts;
    FlatTwo(g.texts[op.id], op.reply, op.draw.sample.text);
    PromptParts(Decimal(op.id) + " ", Flat(g.texts[op.id]), op.reply, op.draw.sample.text);
  }

  lemma PromptParts(head: string, body: string, reply: string, text: string)
    ensures head + body + reply + text == head + (body + reply + text)
  {
  }

  ghost function LogAfter(c: Config, s: State, ops: seq<Op>, t: State, g: Log): Log
    requires Reaches(c, s, ops, t) && LogInv(c, s, g)
    decreases |ops|
  {
    if ops == [] then g
    else
      OpKeepsLog(c, s, ops[0], g);
      LogAfter(c, Apply(c, s, ops[0]), ops[1..], t, NoteOp(c, s, ops[0], g))
  }

  lemma OpKeepsLog(c: Config, s: State, op: Op, g: Log)
    requires Shaped(c, s) && Enabled(s, op) && LogInv(c, s, g)
    ensures LogInv(c, Apply(c, s, op), NoteOp(c, s, op, g))
  {
    hide LogInv, NoteOp, Apply;
    if op.PopUser? { PopKeepsLog(c, s, op, g); } else { PushKeepsLog(c, s, op, g); }
  }

  lemma {:induction false} RunKeepsLog(c: Config, s: State, ops: seq<Op>, t: State, g: Log)
    requires Reaches(c, s, ops, t) && LogInv(c, s, g)
    ensures LogInv(c, t, LogAfter(c, s, ops, t, g))
    decreases |ops|
  {
    if ops != [] {
      OpKeepsLog(c, s, ops[0], g);
      hide LogInv, NoteOp, Apply;
      RunKeepsLog(c, Apply(c, s, ops[0]), ops[1..], t, NoteOp(c, s, ops[0], g));
    }
  }

  function EmptyLog(n: nat): Log { Log([], seq(n, _ => 0), seq(n, _ => 0)) }

  lemma InitLog(c: Config)
    ensures LogInv(c, Init(|c.ratios|), EmptyLog(|c.ratios|))
  {
  }

  /** Over every run: a user's prompt is its number followed by the samples and the
      replies in the order in which they came, and the token statistics are the sums
      over the prompts issued and the answers pushed. */
  lemma StatisticsAddUp(c: Config, ops: seq<Op>, s: State)
    requires ValidConfig(c) && Reaches(c, Init(|c.ratios|), ops, s)
    ensures LogInv(c, Init(|c.ratios|), EmptyLog(|c.ratios|))
    ensures var g := LogAfter(c, Init(|c.ratios|), ops, s, EmptyLog(|c.ratios|));
            && Sized(c, s, g) && |s.inputs| == |s.outputs| == |c.ratios|
            && (forall i :: 0 <= i < |s.users| ==> s.users[i].prompt == Decimal(i) + " " + Flat(g.texts[i]))
            && (forall r :: 0 <= r < |c.ratios| ==>
                  s.inputs[r].tokens == g.issued[r] && s.outputs[r].tokens == g.answered[r])
  {
    InitLog(c);
    RunKeepsLog(c, Init(|c.ratios|), ops, s, EmptyLog(|c.ratios|));
  }
}
