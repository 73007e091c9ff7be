/** The conversation benchmark as a state machine
    (benchmark/hicache/bench_serving.py).

    A loop with a fixed number of iterations takes conversations from a bounded
    queue and starts one task per iteration, which sends the conversation's
    next turn and, when answered, puts the conversation back on the queue. */
module Requeue {
  import opened Sequences

  datatype Message = User(text: string) | Assistant(text: string)

  /** A turn: its prompt, the prompt's length, and the output length, which the
      reply overwrites. */
  datatype Turn = Turn(prompt: string, inputLen: nat, outputLen: nat)

  datatype Reply = Reply(text: string, outputLen: nat)

  /** One POST as the server sees it. */
  datatype Post = Post(messages: seq<Message>, maxTokens: nat, promptLen: nat)

  /** The request object of one conversation, with the posts made for it and the
      replies received. */
  datatype Conversation = Conversation(
    prompts: seq<Turn>,
    messages: seq<Message>,      // prev_messages
    finished: nat,               // finished_prompts
    posts: seq<Post>,
    replies: seq<Reply>)

  datatype State = State(
    queue: seq<nat>,
    waiting: seq<nat>,           // tasks that have not got the semaphore
    running: seq<nat>,
    blocked: seq<nat>,           // tasks stuck in `queue.put`
    failed: seq<nat>,
    convs: seq<Conversation>,
    yielded: nat,
    gaveUp: bool)                // the loop was left after a timeout

  datatype Action =
    | Get                        // take the queue's head and create its task
    | GiveUp                     // the wait for the queue timed out
    | Start(k: nat)              // a task gets the semaphore and posts
    | Finish(k: nat, reply: Reply)
    | Fail(k: nat)

  function Lengths(input: seq<seq<Turn>>): (r: seq<int>)
    ensures |r| == |input| && forall i :: 0 <= i < |r| ==> r[i] == |input[i]|
  {
    seq(|input|, i requires 0 <= i < |input| => |input[i]|)
  }

  /** `num_actual_requests` */
  function TotalTurns(input: seq<seq<Turn>>): int { Sum(Lengths(input)) }

  function Init(input: seq<seq<Turn>>): State {
    State(seq(|input|, i => i), [], [], [], [],
          seq(|input|, i requires 0 <= i < |input| => Conversation(input[i], [], 0, [], [])), 0, false)
  }

  /** `sum(input_len + output_len)` over the first `k` turns as they stand. */
  function TokensBefore(prompts: seq<Turn>, k: nat): nat
    requires k <= |prompts|
  {
    if k == 0 then 0 else TokensBefore(prompts, k - 1) + prompts[k - 1].inputLen + prompts[k - 1].outputLen
  }

  /** Post the next turn of a conversation. */
  function Posted(v: Conversation): Conversation
    requires v.finished < |v.prompts|
  {
    var turn := v.prompts[v.finished];
    var messages := v.messages + [User(turn.prompt)];
    v.(messages := messages,
       posts := v.posts + [Post(messages, turn.outputLen, TokensBefore(v.prompts, v.finished) + turn.inputLen)])
  }

  /** Record the reply to the posted turn; the last turn leaves `finished` alone. */
  function Replied(v: Conversation, r: Reply): Conversation
    requires v.finished < |v.prompts|
  {
    v.(prompts := v.prompts[v.finished := v.prompts[v.finished].(outputLen := r.outputLen)],
       messages := v.messages + [Assistant(r.text)],
       finished := if v.finished + 1 < |v.prompts| then v.finished + 1 else v.finished,
       replies := v.replies + [r])
  }

  predicate Below(ids: seq<nat>, n: nat) { forall i :: 0 <= i < |ids| ==> ids[i] < n }

  /** Every conversation has a turn at its position. */
  predicate AllOpen(convs: seq<Conversation>) {
    forall j :: 0 <= j < |convs| ==> convs[j].finished < |convs[j].prompts|
  }

  predicate Shaped(s: State) {
    && Below(s.queue, |s.convs|) && Below(s.waiting, |s.convs|) && Below(s.running, |s.convs|)
    && Below(s.failed, |s.convs|) && Below(s.blocked, |s.convs|)
    && AllOpen(s.convs)
  }

  predicate Enabled(total: int, limit: Option<nat>, s: State, a: Action) {
    match a
    case Get => !s.gaveUp && s.yielded < total && s.queue != []
    case GiveUp => !s.gaveUp && s.yielded < total && s.queue == []
    case Start(k) => k < |s.waiting| && (limit.None? || |s.running| + |s.blocked| < limit.value)
    case Finish(k, _) => k < |s.running|
    case Fail(k) => k < |s.running|
  }

  predicate Applicable(s: State, a: Action) {
    && (a.Get? ==> s.queue != [])
    && (a.Start? ==> a.k < |s.waiting|)
    && (a.Finish? || a.Fail? ==> a.k < |s.running|)
  }

  function Step(capacity: nat, s: State, a: Action): State
    requires Shaped(s) && Applicable(s, a)
  {
    match a
    case Get => s.(queue := s.queue[1..], waiting := s.waiting + [s.queue[0]], yielded := s.yielded + 1)
    case GiveUp => s.(gaveUp := true)
    case Start(k) =>
      var j := s.waiting[k];
      s.(waiting := RemoveAt(s.waiting, k), running := s.running + [j],
         convs := s.convs[j := Posted(s.convs[j])])
    case Finish(k, reply) =>
      var j := s.running[k];
      var t := s.(running := RemoveAt(s.running, k), convs := s.convs[j := Replied(s.convs[j], reply)]);
      if s.convs[j].finished + 1 >= |s.convs[j].prompts| then t
      else if |s.queue| < capacity then t.(queue := s.queue + [j])
      else t.(blocked := s.blocked + [j])
    case Fail(k) => s.(running := RemoveAt(s.running, k), failed := s.failed + [s.running[k]])
  }

  lemma UpdateShaped(convs: seq<Conversation>, j: nat, v: Conversation)
    requires AllOpen(convs) && j < |convs| && v.finished < |v.prompts|
    ensures AllOpen(convs[j := v])
  {
  }

  lemma FinishShaped(capacity: nat, s: State, k: nat, r: Reply)
    requires Shaped(s) && k < |s.running|
    ensures Shaped(Step(capacity, s, Finish(k, r)))
  {
    UpdateShaped(s.convs, s.running[k], Replied(s.convs[s.running[k]], r));
    hide Replied, AllOpen;
  }

  lemma StartShaped(capacity: nat, s: State, k: nat)
    requires Shaped(s) && k < |s.waiting|
    ensures Shaped(Step(capacity, s, Start(k)))
  {
    UpdateShaped(s.convs, s.waiting[k], Posted(s.convs[s.waiting[k]]));
    hide Posted, AllOpen;
  }

  lemma StepShaped(capacity: nat, s: State, a: Action)
    requires Shaped(s) && Applicable(s, a)
    ensures Shaped(Step(capacity, s, a))
  {
    match a {
      case Start(k) => StartShaped(capacity, s, k);
      case Finish(k, r) => FinishShaped(capacity, s, k, r);
      case _ => hide AllOpen;
    }
  }

  ghost predicate Runs(total: int, capacity: nat, limit: Option<nat>, s: State, actions: seq<Action>)
    requires Shaped(s)
    decreases |actions|
  {
    actions == [] ||
    (Enabled(total, limit, s, actions[0]) &&
     (StepShaped(capacity, s, actions[0]);
      Runs(total, capacity, limit, Step(capacity, s, actions[0]), actions[1..])))
  }

  ghost function After(total: int, capacity: nat, limit: Option<nat>, s: State, actions: seq<Action>): State
    requires Shaped(s) && Runs(total, capacity, limit, s, actions)
    decreases |actions|
  {
    if actions == [] then s
    else (StepShaped(capacity, s, actions[0]);
          After(total, capacity, limit, Step(capacity, s, actions[0]), actions[1..]))
  }
}
