/** What the server answers is what later posts carry: a log kept along the schedule
    of the conversation benchmark, against which posts and queue order are stated. */
module RequeueReplies {
  import opened Sequences
  import opened Requeue
  import opened RequeueProofs

  /** Computed along a schedule: the replies given to each conversation, and the
      conversations in the order in which they were put on the queue and taken. */
  datatype Log = Log(given: seq<seq<Reply>>, put: seq<nat>, taken: seq<nat>)

  predicate Sized(input: seq<seq<Turn>>, s: State, g: Log) { |g.given| == |s.convs| == |input| }

  function Note(input: seq<seq<Turn>>, s: State, a: Action, g: Log): (r: Log)
    requires Shaped(s) && Applicable(s, a) && Sized(input, s, g)
    ensures |r.given| == |g.given|
  {
    match a
    case Get => g.(taken := g.taken + [s.queue[0]])
    case Finish(k, reply) =>
      var j := s.running[k];
      Log(g.given[j := g.given[j] + [reply]],
          if |g.given[j]| + 1 < |input[j]| then g.put + [j] else g.put, g.taken)
    case _ => g
  }

  lemma StepKeepsSize(capacity: nat, s: State, a: Action)
    requires Shaped(s) && Applicable(s, a)
    ensures Shaped(Step(capacity, s, a)) && |Step(capacity, s, a).convs| == |s.convs|
  {
    StepShaped(capacity, s, a);
    hide Shaped, Posted, Replied;
  }

  ghost function LogAfter(input: seq<seq<Turn>>, limit: Option<nat>, s: State, actions: seq<Action>, g: Log): (r: Log)
    requires Shaped(s) && Runs(TotalTurns(input), |input|, limit, s, actions) && Sized(input, s, g)
    ensures |r.given| == |input|
    decreases |actions|
  {
    if actions == [] then g
    else (StepKeepsSize(|input|, s, actions[0]);
          LogAfter(input, limit, Step(|input|, s, actions[0]), actions[1..], Note(input, s, actions[0], g)))
  }

  /** The replies recorded are those given, and the queue is first in, first out. */
  ghost predicate LogInv(input: seq<seq<Turn>>, s: State, g: Log) {
    && Sized(input, s, g)
    && (forall j :: 0 <= j < |input| ==> s.convs[j].replies == g.given[j])
    && g.put == g.taken + s.queue
  }

  lemma LastTurnIs(input: seq<seq<Turn>>, s: State, k: nat)
    requires Inv(input, s) && k < |s.running|
    ensures s.running[k] < |s.convs| == |input| && |s.queue| < |input|
    ensures var j := s.running[k]; s.convs[j].finished == |s.convs[j].replies| && |s.convs[j].prompts| == |input[j]|
  {
    RunningPlace(input, s, k);
    EntriesFit(input, s);
    hide Transcript, ExpectedPost;
  }

  lemma FinishKeepsLog(input: seq<seq<Turn>>, s: State, k: nat, r: Reply, g: Log)
    requires Inv(input, s) && k < |s.running| && LogInv(input, s, g)
    ensures LogInv(input, Step(|input|, s, Finish(k, r)), Note(input, s, Finish(k, r), g))
  {
    hide PlacesInv, ConvsInv, Active, Idle, TotalTurns;
    LastTurnIs(input, s, k);
    var t := Step(|input|, s, Finish(k, r));
    assert g.taken + (s.queue + [s.running[k]]) == g.taken + s.queue + [s.running[k]];
  }

  lemma StartKeepsLog(input: seq<seq<Turn>>, s: State, k: nat, g: Log)
    requires Shaped(s) && k < |s.waiting| && LogInv(input, s, g)
    ensures LogInv(input, Step(|input|, s, Start(k)), Note(input, s, Start(k), g))
  {
  }

  lemma GetKeepsLog(input: seq<seq<Turn>>, s: State, g: Log)
    requires Shaped(s) && s.queue != [] && LogInv(input, s, g)
    ensures LogInv(input, Step(|input|, s, Get), Note(input, s, Get, g))
  {
    assert s.queue == [s.queue[0]] + s.queue[1..];
  }

  lemma StepKeepsLog(input: seq<seq<Turn>>, limit: Option<nat>, s: State, a: Action, g: Log)
    requires Inv(input, s) && Enabled(TotalTurns(input), limit, s, a) && LogInv(input, s, g)
    ensures LogInv(input, Step(|input|, s, a), Note(input, s, a, g))
  {
    hide PlacesInv, ConvsInv, Active, Idle, TotalTurns, AllOpen, Below;
    match a {
      case Get => GetKeepsLog(input, s, g);
      case Start(k) => StartKeepsLog(input, s, k, g);
      case Finish(k, r) => FinishKeepsLog(input, s, k, r, g);
      case _ =>
    }
  }

  lemma EnabledApplies(total: int, limit: Option<nat>, s: State, a: Action)
    requires Enabled(total, limit, s, a)
    ensures Applicable(s, a)
  {
  }

  lemma {:induction false} RunKeepsLog(input: seq<seq<Turn>>, limit: Option<nat>, s: State,
                                       actions: seq<Action>, g: Log)
    requires Inv(input, s) && Runs(TotalTurns(input), |input|, limit, s, actions) && LogInv(input, s, g)
    ensures LogInv(input, After(TotalTurns(input), |input|, limit, s, actions), LogAfter(input, limit, s, actions, g))
    decreases |actions|
  {
    hide PlacesInv, ConvsInv, Active, Idle, TotalTurns, AllOpen, Below, Step, Note;
    if actions != [] {
      EnabledApplies(TotalTurns(input), limit, s, actions[0]);
      hide Enabled;
      StepKeepsInv(input, limit, s, actions[0]);
      StepKeepsSize(|input|, s, actions[0]);
      StepKeepsLog(input, limit, s, actions[0], g);
      hide LogInv;
      RunKeepsLog(input, limit, Step(|input|, s, actions[0]), actions[1..], Note(input, s, actions[0], g));
    }
  }

  function FirstLog(input: seq<seq<Turn>>): Log { Log(seq(|input|, _ => []), Init(input).queue, []) }

  /** The log of a whole run. */
  ghost function RunLog(input: seq<seq<Turn>>, limit: Option<nat>, actions: seq<Action>): (g: Log)
    requires Shaped(Init(input)) && Runs(TotalTurns(input), |input|, limit, Init(input), actions)
    ensures |g.given| == |input|
  {
    LogAfter(input, limit, Init(input), actions, FirstLog(input))
  }

  /** Over every run: the posts of a conversation are its first turns, each once and
      in order, carrying all turns before and the replies the server gave to them;
      and conversations are taken from the queue in the order in which they were put
      on it. */
  lemma PostsCarryReplies(input: seq<seq<Turn>>, limit: Option<nat>, actions: seq<Action>, j: nat)
    requires ValidInput(input) && j < |input|
    requires Shaped(Init(input)) && Runs(TotalTurns(input), |input|, limit, Init(input), actions)
    ensures var s := After(TotalTurns(input), |input|, limit, Init(input), actions);
            var g := RunLog(input, limit, actions);
            && |s.convs| == |input| && g.put == g.taken + s.queue
            && |g.given[j]| <= |s.convs[j].posts| <= |input[j]| && |s.convs[j].posts| <= |g.given[j]| + 1
            && forall t :: 0 <= t < |s.convs[j].posts| ==> s.convs[j].posts[t] == ExpectedPost(input[j], g.given[j], t)
  {
    InitInv(input);
    assert LogInv(input, Init(input), FirstLog(input));
    hide Inv, LogInv, Init, Runs, After;
    RunKeepsLog(input, limit, Init(input), actions, FirstLog(input));
    RunPosts(input, limit, actions, j);
  }

  lemma RunPosts(input: seq<seq<Turn>>, limit: Option<nat>, actions: seq<Action>, j: nat)
    requires ValidInput(input) && j < |input|
    requires Shaped(Init(input)) && Runs(TotalTurns(input), |input|, limit, Init(input), actions)
    requires LogInv(input, After(TotalTurns(input), |input|, limit, Init(input), actions),
                    RunLog(input, limit, actions))
    ensures var s := After(TotalTurns(input), |input|, limit, Init(input), actions);
            var g := RunLog(input, limit, actions);
            && |s.convs| == |input| && g.put == g.taken + s.queue
            && |g.given[j]| <= |s.convs[j].posts| <= |input[j]| && |s.convs[j].posts| <= |g.given[j]| + 1
            && forall t :: 0 <= t < |s.convs[j].posts| ==> s.convs[j].posts[t] == ExpectedPost(input[j], g.given[j], t)
  {
    hide Init, Runs, After, RunLog, ExpectedPost, Shaped, TotalTurns;
    var s := After(TotalTurns(input), |input|, limit, Init(input), actions);
    assert Reachable(input, limit, s);
    hide Reachable;
    AtMostOnceInOrder(input, limit, s, j);
  }

  /* ---------- the contents of a post, in plain terms ---------- */

  lemma {:induction false} TranscriptIs(turns: seq<Turn>, replies: seq<Reply>, t: nat)
    requires t <= |turns| && t <= |replies|
    ensures |Transcript(turns, replies, t)| == 2 * t
    ensures forall i :: 0 <= i < t ==>
              && Transcript(turns, replies, t)[2 * i] == User(turns[i].prompt)
              && Transcript(turns, replies, t)[2 * i + 1] == Assistant(replies[i].text)
  {
    if t > 0 { TranscriptIs(turns, replies, t - 1); }
  }

  function InputLengths(turns: seq<Turn>, t: nat): (r: seq<int>)
    requires t <= |turns|
    ensures |r| == t && forall i :: 0 <= i < t ==> r[i] == turns[i].inputLen
  {
    seq(t, i requires 0 <= i < t => turns[i].inputLen)
  }

  function OutputLengths(replies: seq<Reply>, t: nat): (r: seq<int>)
    requires t <= |replies|
    ensures |r| == t && forall i :: 0 <= i < t ==> r[i] == replies[i].outputLen
  {
    seq(t, i requires 0 <= i < t => replies[i].outputLen)
  }

  lemma {:induction false} TokensUsedIs(turns: seq<Turn>, replies: seq<Reply>, t: nat)
    requires t <= |turns| && t <= |replies|
    ensures TokensUsed(turns, replies, t) == Sum(InputLengths(turns, t)) + Sum(OutputLengths(replies, t))
  {
    if t > 0 {
      TokensUsedIs(turns, replies, t - 1);
      var a, b := InputLengths(turns, t), OutputLengths(replies, t);
      assert a == InputLengths(turns, t - 1) + [turns[t - 1].inputLen];
      assert b == OutputLengths(replies, t - 1) + [replies[t - 1].outputLen];
      SumAppend(InputLengths(turns, t - 1), [turns[t - 1].inputLen]);
      SumAppend(OutputLengths(replies, t - 1), [replies[t - 1].outputLen]);
    }
  }

  /** The post of turn `t`: prompts and replies by turns, then the new prompt; the
      turn's own limit on the output; and as length all inputs up to this one and all
      outputs before it. */
  lemma ExpectedPostIs(turns: seq<Turn>, replies: seq<Reply>, t: nat)
    requires t < |turns| && t <= |replies|
    ensures var p := ExpectedPost(turns, replies, t);
            && |p.messages| == 2 * t + 1
            && (forall i :: 0 <= i <= t ==> p.messages[2 * i] == User(turns[i].prompt))
            && (forall i :: 0 <= i < t ==> p.messages[2 * i + 1] == Assistant(replies[i].text))
            && p.maxTokens == turns[t].outputLen
            && p.promptLen == Sum(InputLengths(turns, t + 1)) + Sum(OutputLengths(replies, t))
  {
    TranscriptIs(turns, replies, t);
    TokensUsedIs(turns, replies, t);
    hide Transcript, TokensUsed;
    assert InputLengths(turns, t + 1) == InputLengths(turns, t) + [turns[t].inputLen];
    SumAppend(InputLengths(turns, t), [turns[t].inputLen]);
  }

  /* ---------- the concurrency limit ---------- */

  lemma {:induction false} RunKeepsLimit(total: int, capacity: nat, limit: Option<nat>, s: State, actions: seq<Action>)
    requires Shaped(s) && Runs(total, capacity, limit, s, actions)
    requires limit.Some? ==> |s.running| + |s.blocked| <= limit.value
    ensures var t := After(total, capacity, limit, s, actions);
            limit.Some? ==> |t.running| + |t.blocked| <= limit.value
    decreases |actions|
  {
    if actions != [] {
      StepShaped(capacity, s, actions[0]);
      LimitStep(total, capacity, limit, s, actions[0]);
      hide Step, Enabled, Shaped;
      RunKeepsLimit(total, capacity, limit, Step(capacity, s, actions[0]), actions[1..]);
    }
  }

  lemma LimitStep(total: int, capacity: nat, limit: Option<nat>, s: State, a: Action)
    requires Shaped(s) && Enabled(total, limit, s, a)
    requires limit.Some? ==> |s.running| + |s.blocked| <= limit.value
    ensures var t := Step(capacity, s, a); limit.Some? ==> |t.running| + |t.blocked| <= limit.value
  {
    hide Posted, Replied;
  }

  /** Never more requests run at once than the limit allows. */
  lemma LimitHolds(input: seq<seq<Turn>>, limit: nat, s: State)
    requires Reachable(input, Some(limit), s)
    ensures |s.running| <= limit
  {
    var actions :| Runs(TotalTurns(input), |input|, Some(limit), Init(input), actions)
                && s == After(TotalTurns(input), |input|, Some(limit), Init(input), actions);
    RunKeepsLimit(TotalTurns(input), |input|, Some(limit), Init(input), actions);
  }
}
