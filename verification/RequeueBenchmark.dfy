/** The conversation benchmark in the form of the source: a queue and request
    objects changed in place, each method one step of the state machine. */
module RequeueBenchmark {
  import opened Sequences
  import opened Requeue

  class Benchmark {
    const total: int
    const capacity: nat
    const limit: Option<nat>
    var queue: seq<nat>
    var waiting: seq<nat>
    var running: seq<nat>
    var blocked: seq<nat>
    var failed: seq<nat>
    var conversations: seq<Conversation>
    var yielded: nat
    var gaveUp: bool

    ghost function Snapshot(): State
      reads this
    {
      State(queue, waiting, running, blocked, failed, conversations, yielded, gaveUp)
    }

    ghost predicate Valid()
      reads this
    {
      Shaped(Snapshot())
    }

    /** Fill the bounded queue; a concurrency of 0 means no limit. */
    constructor (input: seq<seq<Turn>>, maxConcurrency: nat)
      ensures Snapshot() == Init(input)
      ensures (forall j :: 0 <= j < |input| ==> input[j] != []) ==> Valid()
      ensures total == TotalTurns(input) && capacity == |input|
      ensures limit == if maxConcurrency == 0 then None else Some(maxConcurrency)
    {
      var turns := 0;
      for i := 0 to |input|
        invariant turns + Sum(Lengths(input)[i..]) == TotalTurns(input)
      {
        assert Lengths(input)[i..][1..] == Lengths(input)[i + 1..];
        turns := turns + |input[i]|;
      }
      var ids: seq<nat>, objects := [], [];
      for i := 0 to |input|
        invariant |ids| == |objects| == i
        invariant forall k :: 0 <= k < i ==> ids[k] == k && objects[k] == Conversation(input[k], [], 0, [], [])
      {
        objects := objects + [Conversation(input[i], [], 0, [], [])];
        ids := ids + [i];
      }
      assert ids == Init(input).queue && objects == Init(input).convs;
      total, capacity := turns, |input|;
      limit := if maxConcurrency == 0 then None else Some(maxConcurrency);
      queue, conversations := ids, objects;
      waiting, running, blocked, failed := [], [], [], [];
      yielded, gaveUp := 0, false;
    }

    /** One iteration of the request loop: take a conversation and start its task,
        or leave the loop when none arrives in time. */
    method NextRequest()
      requires Valid() && !gaveUp && yielded < total
      modifies this
      ensures Valid()
      ensures var a := if old(queue) == [] then GiveUp else Get;
              old(Enabled(total, limit, Snapshot(), a)) && Snapshot() == old(Step(capacity, Snapshot(), a))
    {
      StepShaped(capacity, Snapshot(), if queue == [] then GiveUp else Get);
      if queue == [] {
        gaveUp := true;
      } else {
        waiting := waiting + [queue[0]];
        queue := queue[1..];
        yielded := yielded + 1;
      }
    }

    /** A task that got the semaphore builds its payload and posts it. */
    method PostTurn(k: nat)
      requires Valid() && k < |waiting| && (limit.None? || |running| + |blocked| < limit.value)
      modifies this
      ensures Valid() && old(Enabled(total, limit, Snapshot(), Start(k)))
      ensures Snapshot() == old(Step(capacity, Snapshot(), Start(k)))
    {
      StepShaped(capacity, Snapshot(), Start(k));
      var j := waiting[k];
      var v := conversations[j];
      var promptLen: nat := 0;
      for i := 0 to v.finished
        invariant promptLen == TokensBefore(v.prompts, i)
      {
        promptLen := promptLen + v.prompts[i].inputLen + v.prompts[i].outputLen;
      }
      var turn := v.prompts[v.finished];
      var messages := v.messages + [User(turn.prompt)];
      var post := Post(messages, turn.outputLen, promptLen + turn.inputLen);
      conversations := conversations[j := v.(messages := messages, posts := v.posts + [post])];
      waiting := RemoveAt(waiting, k);
      running := running + [j];
    }

    /** A posted turn is answered; the conversation goes back to the queue unless
        this was its last turn. */
    method FinishTurn(k: nat, reply: Reply)
      requires Valid() && k < |running|
      modifies this
      ensures Valid() && Snapshot() == old(Step(capacity, Snapshot(), Finish(k, reply)))
    {
      StepShaped(capacity, Snapshot(), Finish(k, reply));
      var j := running[k];
      var v := conversations[j];
      var index := v.finished;
      var prompts := v.prompts[index := v.prompts[index].(outputLen := reply.outputLen)];
      index := index + 1;
      var messages := v.messages + [Assistant(reply.text)];
      running := RemoveAt(running, k);
      if index < |prompts| {
        conversations := conversations[j := Conversation(prompts, messages, index, v.posts, v.replies + [reply])];
        if |queue| < capacity {
          queue := queue + [j];
        } else {
          blocked := blocked + [j];
        }
      } else {
        conversations := conversations[j := Conversation(prompts, messages, v.finished, v.posts, v.replies + [reply])];
      }
    }

    /** A posted turn fails: the conversation is dropped. */
    method FailTurn(k: nat)
      requires Valid() && k < |running|
      modifies this
      ensures Valid() && Snapshot() == old(Step(capacity, Snapshot(), Fail(k)))
    {
      StepShaped(capacity, Snapshot(), Fail(k));
      failed := failed + [running[k]];
      running := RemoveAt(running, k);
    }
  }
}
