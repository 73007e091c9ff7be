/** Leaving the two loops of the multi-turn benchmark: failures that keep both
    threads polling for ever, and the responses lost when the handler leaves. */
module MultiturnExit {
  import opened Sequences
  import opened Multiturn
  import opened MultiturnInvariant
  import opened MultiturnTheorems
  import opened MultiturnProgress

  /* ---------- failures that make the benchmark hang ---------- */

  lemma HeadHasNotFailed(c: Config, q: Queues, clients: seq<Client>, i: nat)
    requires PlacesInv(c, q, clients) && q.responses != [] && i < |q.failed|
    ensures q.failed[i] != q.responses[0].client
  {
    HeadIsAlone(q);
    hide PlacesInv;
    EntriesArePlaced(TakeHead(q));
    hide Served, Waiting;
    assert TakeHead(q).failed[i] in Served(TakeHead(q));
  }

  /** A failed client stays failed, in the round it failed in. */
  lemma StepKeepsFailure(c: Config, first: seq<Sample>, s: State, a: Action, i: nat)
    requires Inv(c, first, s) && Enabled(c, s, a) && i < |s.q.failed|
    ensures var t := Step(c, s, a);
            && i < |t.q.failed| && t.q.failed[i] == s.q.failed[i]
            && s.q.failed[i] < |s.clients| == |t.clients|
            && t.clients[s.q.failed[i]].round == s.clients[s.q.failed[i]].round
  {
    hide PlacesInv, CountersInv, SupplyInv, MetricsInv, BarrierInv, ChainInv;
    if a.Handle? { HeadHasNotFailed(c, s.q, s.clients, i); }
    hide CountAbove, ReplyItems, QuestionItems;
  }

  lemma {:induction false} RunKeepsFailure(c: Config, first: seq<Sample>, s: State, actions: seq<Action>, i: nat)
    requires Inv(c, first, s) && Runs(c, s, actions) && i < |s.q.failed|
    ensures var t := After(c, s, actions);
            && i < |t.q.failed| && t.q.failed[i] == s.q.failed[i]
            && s.q.failed[i] < |s.clients| == |t.clients|
            && t.clients[s.q.failed[i]].round == s.clients[s.q.failed[i]].round
    decreases |actions|
  {
    hide PlacesInv, CountersInv, SupplyInv, MetricsInv, BarrierInv, ChainInv, Enabled, Step;
    if actions != [] {
      StepKeepsInv(c, first, s, actions[0]);
      StepKeepsFailure(c, first, s, actions[0], i);
      RunKeepsFailure(c, first, Step(c, s, actions[0]), actions[1..], i);
    }
  }

  lemma StepKeepsEscapes(c: Config, s: State, a: Action)
    requires Shaped(c, s) && Enabled(c, s, a)
    ensures Step(c, s, a).n.escaped >= s.n.escaped
  {
    hide ReplyItems, QuestionItems, TakeHead, Requeue, QueuesBelow;
  }

  lemma {:induction false} RunKeepsEscapes(c: Config, s: State, actions: seq<Action>)
    requires Shaped(c, s) && Runs(c, s, actions)
    ensures After(c, s, actions).n.escaped >= s.n.escaped
    decreases |actions|
  {
    if actions != [] {
      StepShaped(c, s, actions[0]);
      StepKeepsEscapes(c, s, actions[0]);
      hide Step, Enabled, Shaped;
      RunKeepsEscapes(c, Step(c, s, actions[0]), actions[1..]);
    }
  }

  lemma FullBarNeedsGoodEnd(c: Config, first: seq<Sample>, s: State)
    requires Inv(c, first, s) && s.n.finished >= Total(c)
    ensures s.n.finished == Total(c) && FailuresOnlyAtEnd(c, s) && s.n.escaped == 0
  {
    hide PlacesInv, CountersInv, SupplyInv, MetricsInv, BarrierInv, ChainInv, QueuesBelow;
    FullBarMeansFailuresAtEnd(c, first, s);
    FinishedMeansDone(c, first, s);
  }

  /** After a failure anywhere but at the end of the workload, or an exception
      escaping from a request, no continuation fills the progress bar: neither
      thread ever leaves its loop, although the work is bounded. */
  lemma EarlyFailureNeverEnds(c: Config, first: seq<Sample>, questions: seq<Sample>, s: State, actions: seq<Action>)
    requires Reachable(c, first, questions, s) && Shaped(c, s)
    requires !FailuresOnlyAtEnd(c, s) || s.n.escaped > 0
    requires Runs(c, s, actions)
    ensures var t := After(c, s, actions);
            && t.n.finished < Total(c) && t.sending && !t.phase.Stopped?
            && !Enabled(c, t, StopSending)
  {
    hide PlacesInv, CountersInv, SupplyInv, MetricsInv, BarrierInv, ChainInv, QueuesBelow;
    ReachableStoppedMeansFull(c, first, questions, s);
    ReachableInv(c, first, questions, s);
    hide Reachable;
    var t := After(c, s, actions);
    RunKeepsInv(c, first, s, actions);
    RunKeepsEscapes(c, s, actions);
    StoppedMeansFull(c, first, s, actions);
    hide Runs;
    if t.n.finished >= Total(c) {
      FullBarNeedsGoodEnd(c, first, t);
      FailuresStay(c, first, s, actions);
      assert false;
    }
  }

  lemma FailuresStay(c: Config, first: seq<Sample>, s: State, actions: seq<Action>)
    requires Inv(c, first, s) && Runs(c, s, actions) && |After(c, s, actions).clients| == |c.totals|
    requires FailuresOnlyAtEnd(c, After(c, s, actions))
    ensures FailuresOnlyAtEnd(c, s)
  {
    hide PlacesInv, CountersInv, SupplyInv, MetricsInv, BarrierInv, ChainInv, QueuesBelow, Runs, After;
    forall i | 0 <= i < |s.q.failed|
      ensures s.q.failed[i] < |c.totals|
      ensures s.clients[s.q.failed[i]].round + 1 == c.totals[s.q.failed[i]]
      ensures c.barrier ==> forall k :: 0 <= k < |c.totals| ==> c.totals[k] <= c.totals[s.q.failed[i]]
    {
      RunKeepsFailure(c, first, s, actions, i);
    }
  }

  /* ---------- the handler's exit ---------- */

  /** Once the handler has stopped the bar is full; the bar stays full. */
  lemma {:induction false} StoppedMeansFull(c: Config, first: seq<Sample>, s: State, actions: seq<Action>)
    requires Inv(c, first, s) && Runs(c, s, actions)
    requires s.phase.Stopped? ==> s.n.finished == Total(c)
    ensures After(c, s, actions).phase.Stopped? ==> After(c, s, actions).n.finished == Total(c)
    decreases |actions|
  {
    hide PlacesInv, CountersInv, SupplyInv, MetricsInv, BarrierInv, ChainInv, QueuesBelow;
    if actions != [] {
      StepKeepsInv(c, first, s, actions[0]);
      StoppedStep(c, first, s, actions[0]);
      hide Step, Enabled;
      StoppedMeansFull(c, first, Step(c, s, actions[0]), actions[1..]);
    }
  }

  lemma StoppedStep(c: Config, first: seq<Sample>, s: State, a: Action)
    requires Inv(c, first, s) && Enabled(c, s, a) && (s.phase.Stopped? ==> s.n.finished == Total(c))
    ensures Step(c, s, a).phase.Stopped? ==> Step(c, s, a).n.finished == Total(c)
  {
    hide PlacesInv, CountersInv, SupplyInv, MetricsInv, BarrierInv, ChainInv, Placed;
    hide ReplyItems, QuestionItems, TakeHead, Requeue;
    if s.phase.Stopped? { FinishedMeansDone(c, first, s); }
  }

  lemma ReachableStoppedMeansFull(c: Config, first: seq<Sample>, questions: seq<Sample>, s: State)
    requires Reachable(c, first, questions, s)
    ensures s.phase.Stopped? ==> s.n.finished == Total(c)
  {
    var s0 := Init(c, first, questions);
    var actions :| Runs(c, s0, actions) && s == After(c, s0, actions);
    InitInv(c, first, questions);
    hide Inv, ValidConfig, ValidSamples;
    StoppedMeansFull(c, first, s0, actions);
  }

  /** When the handler has left its loop every request has been sent and counted
      by the bar.  The responses it has not handled are in the queue or about to
      be put there; the sender can leave its loop exactly when they are all queued
      and fewer than the requests that may run in parallel. */
  lemma HandlerExit(c: Config, first: seq<Sample>, questions: seq<Sample>, s: State)
    requires Reachable(c, first, questions, s) && s.phase.Stopped?
    ensures s.n.finished == Total(c) && s.n.sent == Total(c) && s.n.escaped == 0
    ensures s.n.completed + |s.q.delivering| + |s.q.responses| == Total(c)
    ensures s.sending ==>
              (Enabled(c, s, StopSending) <==> s.q.delivering == [] && |s.q.responses| < c.maxParallel)
  {
    hide PlacesInv, SupplyInv, MetricsInv, BarrierInv, ChainInv, QueuesBelow;
    ReachableStoppedMeansFull(c, first, questions, s);
    hide Reachable;
    ReachableInv(c, first, questions, s);
    FinishedMeansDone(c, first, s);
  }

  lemma StepWithoutHandling(c: Config, s: State, a: Action)
    requires Shaped(c, s) && Enabled(c, s, a) && !a.Handle?
    ensures Step(c, s, a).n.completed == s.n.completed
  {
    hide QueuesBelow;
  }

  lemma {:induction false} NothingHandled(c: Config, s: State, actions: seq<Action>)
    requires Shaped(c, s) && Runs(c, s, actions) && Handle !in actions
    ensures After(c, s, actions).n.completed == s.n.completed
    decreases |actions|
  {
    if actions != [] {
      StepShaped(c, s, actions[0]);
      StepWithoutHandling(c, s, actions[0]);
      hide Step, Enabled, Shaped;
      assert Handle !in actions[1..];
      NothingHandled(c, Step(c, s, actions[0]), actions[1..]);
    }
  }

  lemma HandledAtTimeout(c: Config, first: seq<Sample>, s: State)
    requires Inv(c, first, s) && s.n.escaped == 0 && s.q.responses == []
    ensures s.n.completed == Total(c) <==> s.n.finished == Total(c) && s.q.delivering == []
  {
    hide PlacesInv, SupplyInv, MetricsInv, BarrierInv, ChainInv, QueuesBelow;
    CompletedWithinTotal(c, first, s);
  }

  /** From the time-out that ends in the handler's exit nothing is handled any
      more.  So everything has been handled exactly when, at the moment the queue
      was found empty, the bar was already full and no response was on its way
      from the bar to the queue; else responses are lost, whatever happens later. */
  lemma ExitHandlesAll(c: Config, first: seq<Sample>, questions: seq<Sample>, s: State, actions: seq<Action>)
    requires Reachable(c, first, questions, s) && Shaped(c, s) && Enabled(c, s, Timeout)
    requires Runs(c, s, actions) && Handle !in actions && After(c, s, actions).phase.Stopped?
    ensures After(c, s, actions).n.completed == Total(c) <==> s.n.finished == Total(c) && s.q.delivering == []
  {
    hide PlacesInv, CountersInv, SupplyInv, MetricsInv, BarrierInv, ChainInv, QueuesBelow, Reachable;
    ReachableInv(c, first, questions, s);
    ReachableStoppedMeansFull(c, first, questions, s);
    NothingHandled(c, s, actions);
    RunKeepsEscapes(c, s, actions);
    RunKeepsInv(c, first, s, actions);
    StoppedMeansFull(c, first, s, actions);
    hide Runs;
    FullBarNeedsGoodEnd(c, first, After(c, s, actions));
    HandledAtTimeout(c, first, s);
  }

  /* ---------- every exit follows such a time-out ---------- */

  lemma {:induction false} RunSplits(c: Config, s: State, front: seq<Action>, rest: seq<Action>)
    requires Shaped(c, s) && Runs(c, s, front + rest)
    ensures Runs(c, s, front) && Shaped(c, After(c, s, front)) && Runs(c, After(c, s, front), rest)
    ensures After(c, s, front + rest) == After(c, After(c, s, front), rest)
    decreases |front|
  {
    if front == [] {
      assert front + rest == rest;
    } else {
      assert (front + rest)[1..] == front[1..] + rest;
      StepShaped(c, s, front[0]);
      hide Step, Enabled, Shaped;
      RunSplits(c, Step(c, s, front[0]), front[1..], rest);
    }
  }

  lemma PhaseStep(c: Config, s: State, a: Action)
    requires Shaped(c, s) && Enabled(c, s, a)
    ensures s.phase.Stopped? ==> Step(c, s, a).phase.Stopped? && !a.Timeout? && !a.Handle?
    ensures Step(c, s, a).phase.TimedOut? ==> a.Timeout? || (s.phase.TimedOut? && !a.Handle?)
    ensures Step(c, s, a).phase.Stopped? && !s.phase.Stopped? ==> s.phase.TimedOut? && a.CheckDone?
  {
    hide QueuesBelow, ReplyItems, QuestionItems, TakeHead, Requeue;
  }

  predicate NoTurns(actions: seq<Action>) { Timeout !in actions && Handle !in actions }

  lemma {:induction false} StoppedForGood(c: Config, s: State, actions: seq<Action>)
    requires Shaped(c, s) && Runs(c, s, actions) && s.phase.Stopped?
    ensures NoTurns(actions)
    decreases |actions|
  {
    if actions != [] {
      StepShaped(c, s, actions[0]);
      PhaseStep(c, s, actions[0]);
      hide Step, Enabled, Shaped;
      StoppedForGood(c, Step(c, s, actions[0]), actions[1..]);
      assert actions == [actions[0]] + actions[1..];
    }
  }

  /** The run ends with a time-out after which the handler takes no further turn. */
  ghost predicate LastTurn(actions: seq<Action>, i: nat) {
    i < |actions| && actions[i] == Timeout && NoTurns(actions[i + 1..])
  }

  lemma {:induction false} ExitHasTimeout(c: Config, s: State, actions: seq<Action>)
    requires Shaped(c, s) && Runs(c, s, actions) && After(c, s, actions).phase.Stopped? && !s.phase.Stopped?
    ensures (exists i: nat :: LastTurn(actions, i)) || (s.phase.TimedOut? && NoTurns(actions))
    decreases |actions|
  {
    StepShaped(c, s, actions[0]);
    PhaseStep(c, s, actions[0]);
    hide Step, Enabled, Shaped;
    var t, rest := Step(c, s, actions[0]), actions[1..];
    assert actions == [actions[0]] + rest;
    if t.phase.Stopped? {
      StoppedForGood(c, t, rest);
    } else {
      ExitHasTimeout(c, t, rest);
      if i: nat :| LastTurn(rest, i) {
        assert rest[i + 1..] == actions[i + 2..];
        assert LastTurn(actions, i + 1);
      } else if actions[0].Timeout? {
        assert LastTurn(actions, 0);
      }
    }
  }

  /** Every run in which the handler leaves: its last turn is a time-out, and it
      has handled everything exactly when the bar was full and nothing on its way
      to the queue at that time-out. */
  lemma ExitOutcome(c: Config, first: seq<Sample>, questions: seq<Sample>, actions: seq<Action>)
    requires ValidConfig(c) && ValidSamples(c, first, questions)
    requires Shaped(c, Init(c, first, questions)) && Runs(c, Init(c, first, questions), actions)
    requires After(c, Init(c, first, questions), actions).phase.Stopped?
    ensures exists i: nat :: LastTurn(actions, i) && Runs(c, Init(c, first, questions), actions[..i])
              && var s := After(c, Init(c, first, questions), actions[..i]);
                 (After(c, Init(c, first, questions), actions).n.completed == Total(c)
                  <==> s.n.finished == Total(c) && s.q.delivering == [])
  {
    var s0 := Init(c, first, questions);
    assert s0.phase.Polling?;
    hide Init, ValidConfig, ValidSamples, Shaped, Step;
    ExitHasTimeout(c, s0, actions);
    var i: nat :| LastTurn(actions, i);
    var rest := actions[i..];
    assert actions == actions[..i] + rest;
    RunSplits(c, s0, actions[..i], rest);
    var s := After(c, s0, actions[..i]);
    assert rest[0] == Timeout && rest == [Timeout] + actions[i + 1..];
    assert Enabled(c, s, Timeout);
    hide Enabled;
    assert Reachable(c, first, questions, s);
    ExitHandlesAll(c, first, questions, s, rest);
  }

  /* ---------- the sender after the handler's exit ---------- */

  /** The handler has left; every request has been sent and counted. */
  ghost predicate HandlerGone(c: Config, first: seq<Sample>, s: State) {
    Inv(c, first, s) && s.phase.Stopped? && s.n.finished == Total(c)
  }

  lemma GoneMeans(c: Config, first: seq<Sample>, s: State)
    requires HandlerGone(c, first, s)
    ensures s.n.sent == Total(c) && s.n.sent - s.n.completed == |s.q.delivering| + |s.q.responses|
  {
    hide PlacesInv, SupplyInv, MetricsInv, BarrierInv, ChainInv, QueuesBelow, Total;
    FinishedMeansDone(c, first, s);
  }

  lemma GoneStep(c: Config, first: seq<Sample>, s: State, a: Action)
    requires HandlerGone(c, first, s) && Enabled(c, s, a)
    ensures HandlerGone(c, first, Step(c, s, a)) && Step(c, s, a).n.completed == s.n.completed
    ensures a.StopSending? ==> Total(c) - s.n.completed < c.maxParallel
    ensures !a.StopSending? ==> Step(c, s, a).sending == s.sending
  {
    hide PlacesInv, CountersInv, SupplyInv, MetricsInv, BarrierInv, ChainInv, QueuesBelow;
    StepKeepsInv(c, first, s, a);
    StoppedStep(c, first, s, a);
    GoneMeans(c, first, s);
    hide Inv, Total;
  }

  lemma {:induction false} SenderStays(c: Config, first: seq<Sample>, s: State, actions: seq<Action>)
    requires HandlerGone(c, first, s) && s.sending && Runs(c, s, actions)
    requires Total(c) - s.n.completed >= c.maxParallel
    ensures After(c, s, actions).sending
    decreases |actions|
  {
    hide PlacesInv, CountersInv, SupplyInv, MetricsInv, BarrierInv, ChainInv, QueuesBelow, Step, Enabled, Total;
    if actions != [] {
      GoneStep(c, first, s, actions[0]);
      SenderStays(c, first, Step(c, s, actions[0]), actions[1..]);
    }
  }

  /** The sender delivers what is on its way, and leaves. */
  lemma SenderLeaves(c: Config, first: seq<Sample>, s: State)
    requires HandlerGone(c, first, s) && s.sending && Total(c) - s.n.completed < c.maxParallel
    ensures exists actions :: Runs(c, s, actions) && !After(c, s, actions).sending
  {
    hide PlacesInv, CountersInv, SupplyInv, MetricsInv, BarrierInv, ChainInv, QueuesBelow, Runs, After, Total;
    if s.q.delivering == [] {
      LeavesAtOnce(c, first, s);
    } else {
      var t := Step(c, s, Deliver);
      GoneStep(c, first, s, Deliver);
      LeavesAtOnce(c, first, t);
      hide Step, Inv;
      TwoSteps(c, s, Deliver, StopSending);
    }
  }

  lemma LeavesAtOnce(c: Config, first: seq<Sample>, s: State)
    requires HandlerGone(c, first, s) && s.sending && s.q.delivering == [] && Total(c) - s.n.completed < c.maxParallel
    ensures Shaped(c, s) && Enabled(c, s, StopSending)
    ensures Runs(c, s, [StopSending]) && !After(c, s, [StopSending]).sending
  {
    hide PlacesInv, CountersInv, SupplyInv, MetricsInv, BarrierInv, ChainInv, QueuesBelow, Runs, After, Total;
    GoneMeans(c, first, s);
    OneStep(c, s, StopSending);
  }

  lemma TwoSteps(c: Config, s: State, a: Action, b: Action)
    requires Shaped(c, s) && Enabled(c, s, a) && Shaped(c, Step(c, s, a)) && Runs(c, Step(c, s, a), [b])
    ensures Runs(c, s, [a, b]) && After(c, s, [a, b]) == After(c, Step(c, s, a), [b])
  {
    hide Step, Enabled, Shaped;
    assert [a, b][1..] == [b];
  }

  lemma OneStep(c: Config, s: State, a: Action)
    requires Shaped(c, s) && Enabled(c, s, a)
    ensures Shaped(c, Step(c, s, a)) && Runs(c, s, [a]) && After(c, s, [a]) == Step(c, s, a)
  {
    StepShaped(c, s, a);
    hide Step, Enabled, Shaped;
    assert [a][1..] == [];
  }

  /** Once the handler has left, the sender can still leave its loop in some
      continuation exactly when fewer responses than requests may run in parallel are
      unhandled; else it stays in its loop whatever happens. */
  lemma SenderExitIff(c: Config, first: seq<Sample>, questions: seq<Sample>, s: State)
    requires Reachable(c, first, questions, s) && Shaped(c, s) && s.phase.Stopped? && s.sending
    ensures (exists actions :: Runs(c, s, actions) && !After(c, s, actions).sending) <==>
              Total(c) - s.n.completed < c.maxParallel
  {
    ReachableStoppedMeansFull(c, first, questions, s);
    ReachableInv(c, first, questions, s);
    hide Reachable, Inv, Total, Shaped;
    if Total(c) - s.n.completed < c.maxParallel {
      SenderLeaves(c, first, s);
    } else {
      forall actions | Runs(c, s, actions) ensures After(c, s, actions).sending {
        SenderStays(c, first, s, actions);
      }
    }
  }
}
