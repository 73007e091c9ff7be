/** Runs of the multi-turn benchmark that lose responses or never end, step by step. */
module MultiturnRuns {
  import opened Sequences
  import opened Multiturn
  import opened MultiturnTheorems
  import opened MultiturnProgress
  import opened MultiturnExit

  /* ---------- runs step by step ---------- */

  ghost predicate Takes(c: Config, s: State, a: Action, t: State) {
    Shaped(c, s) && Enabled(c, s, a) && Step(c, s, a) == t
  }

  ghost predicate Reaches(c: Config, s: State, actions: seq<Action>, t: State) {
    Shaped(c, s) && Runs(c, s, actions) && After(c, s, actions) == t
  }

  lemma Prepend(c: Config, s: State, a: Action, t: State, rest: seq<Action>, u: State)
    requires Takes(c, s, a, t) && Reaches(c, t, rest, u)
    ensures Reaches(c, s, [a] + rest, u)
  {
    hide Step, Enabled, Shaped;
    assert ([a] + rest)[1..] == rest;
  }

  lemma Arrive(c: Config, s: State, a: Action, t: State)
    requires Takes(c, s, a, t)
    ensures Reaches(c, s, [a], t)
  {
    hide Shaped, Step, Enabled;
    OneStep(c, s, a);
  }

  lemma ReachedIsReachable(c: Config, first: seq<Sample>, questions: seq<Sample>, actions: seq<Action>, s: State)
    requires ValidConfig(c) && ValidSamples(c, first, questions)
    requires Reaches(c, Init(c, first, questions), actions, s)
    ensures Reachable(c, first, questions, s)
  {
    hide ValidConfig, ValidSamples, Shaped, Init, Runs, After;
  }

  /* ---------- three ways to lose a response ---------- */

  const RaceConfig := Config(Sglang, [1], 1, [1], 1, false, Fifo)
  const RaceSample := Sample([7], "")
  const RaceReply := Response(true, "", [8])

  /** The state of one client with one round whose request has been sent. */
  function RaceState(flight: seq<Request>, delivering: seq<Delivery>, responses: seq<Delivery>,
                     finished: nat, phase: Phase): State {
    State(Queues([], flight, delivering, responses, [], []), Counters(1, 0, finished, 0),
          [Client(0, [Token(7)], [[Token(7)]], [], [])], [RaceSample], Barrier(0, 0, [0]), phase, true)
  }

  const RaceRequest := Request(0, Owned([Token(7)]))
  const RaceDelivery := Delivery(0, RaceReply)

  /** The only response is queued and nobody will take it. */
  function RaceLost(): State { RaceState([], [], [RaceDelivery], 1, Stopped) }

  function RaceStart(): State { Init(RaceConfig, [RaceSample], [RaceSample]) }

  lemma RaceIsValid()
    ensures ValidConfig(RaceConfig) && ValidSamples(RaceConfig, [RaceSample], [RaceSample])
  {
    assert CountAbove([1], 0) == 1;
    assert Needed([1], Zeros(1)) == [0];
  }

  lemma RaceStartIs()
    ensures RaceStart() ==
              State(Queues([RaceRequest], [], [], [], [], []), Counters(0, 0, 0, 0),
                    [Client(0, [Token(7)], [], [], [])], [RaceSample], Barrier(0, 0, [0]), Polling, true)
  {
    assert TokenItems([7]) == [Token(7)];
    var s := RaceStart();
    assert s.q.ready == [RaceRequest];
    assert s.clients == [Client(0, [Token(7)], [], [], [])];
    assert s.b.perRound == [0];
  }

  lemma RaceBegins()
    ensures Takes(RaceConfig, RaceStart(), Send(0), RaceState([RaceRequest], [], [], 0, Polling))
  {
    RaceStartIs();
    hide RaceStart;
    var s := RaceStart();
    var t, u := Step(RaceConfig, s, Send(0)), RaceState([RaceRequest], [], [], 0, Polling);
    assert RemoveAt(s.q.ready, 0) == [];
    assert t.q == u.q && t.n == u.n;
    assert [] + [[Token(7)]] == [[Token(7)]];
    assert t.clients == u.clients;
  }

  lemma RaceAdvances(phase: Phase)
    ensures Takes(RaceConfig, RaceState([RaceRequest], [], [], 0, phase), Advance(0, RaceReply),
                  RaceState([], [RaceDelivery], [], 1, phase))
  {
    var s, t := RaceState([RaceRequest], [], [], 0, phase), RaceState([], [RaceDelivery], [], 1, phase);
    assert RemoveAt(s.q.flight, 0) == [];
    assert AdvanceAt(s, 0, RaceReply).q == t.q;
  }

  lemma RaceDelivers(phase: Phase)
    ensures Takes(RaceConfig, RaceState([], [RaceDelivery], [], 1, phase), Deliver,
                  RaceState([], [], [RaceDelivery], 1, phase))
  {
  }

  lemma RaceExits(delivering: seq<Delivery>, responses: seq<Delivery>)
    requires forall i :: 0 <= i < |delivering| ==> delivering[i].client == 0
    requires forall i :: 0 <= i < |responses| ==> responses[i].client == 0
    ensures Takes(RaceConfig, RaceState([], delivering, responses, 1, TimedOut), CheckDone,
                  RaceState([], delivering, responses, 1, Stopped))
  {
    assert Sum([1]) == 1;
  }

  lemma RaceTimesOut(flight: seq<Request>, delivering: seq<Delivery>, finished: nat)
    requires forall i :: 0 <= i < |flight| ==> flight[i].client == 0
    requires forall i :: 0 <= i < |delivering| ==> delivering[i].client == 0
    ensures Takes(RaceConfig, RaceState(flight, delivering, [], finished, Polling), Timeout,
                  RaceState(flight, delivering, [], finished, TimedOut))
  {
  }

  lemma RaceOver()
    ensures var s := RaceLost();
            && s.phase.Stopped? && s.q.failed == [] && s.n.completed < Total(RaceConfig)
            && s.sending && !Enabled(RaceConfig, s, StopSending)
  {
    assert Sum([1]) == 1;
  }

  /** The bar fills and the response is queued after the time-out. */
  const QueuedLate := [Send(0), Timeout, Advance(0, RaceReply), Deliver, CheckDone]

  /** The bar fills after the time-out; the queue still is empty when it is read. */
  const QueuedAfterExit := [Send(0), Timeout, Advance(0, RaceReply), CheckDone, Deliver]

  /** The bar is full at the time-out, but the response is not queued yet. */
  const DeliveryOvertaken := [Send(0), Advance(0, RaceReply), Timeout, CheckDone, Deliver]

  lemma FiveSteps(s0: State, a0: Action, s1: State, a1: Action, s2: State, a2: Action, s3: State, a3: Action,
                  s4: State, a4: Action, s5: State)
    requires Takes(RaceConfig, s0, a0, s1) && Takes(RaceConfig, s1, a1, s2) && Takes(RaceConfig, s2, a2, s3)
    requires Takes(RaceConfig, s3, a3, s4) && Takes(RaceConfig, s4, a4, s5)
    ensures Reaches(RaceConfig, s0, [a0, a1, a2, a3, a4], s5)
  {
    hide Takes, Reaches;
    Arrive(RaceConfig, s4, a4, s5);
    Prepend(RaceConfig, s3, a3, s4, [a4], s5);
    Prepend(RaceConfig, s2, a2, s3, [a3] + [a4], s5);
    Prepend(RaceConfig, s1, a1, s2, [a2] + ([a3] + [a4]), s5);
    Prepend(RaceConfig, s0, a0, s1, [a1] + ([a2] + ([a3] + [a4])), s5);
    assert [a0, a1, a2, a3, a4] == [a0] + ([a1] + ([a2] + ([a3] + [a4])));
  }

  /** The races happen, with one client, one round and one request at a time.  In
      each the only response, a success, is lost and the sender is stuck. */
  lemma ExitRaceExists()
    ensures ValidConfig(RaceConfig) && ValidSamples(RaceConfig, [RaceSample], [RaceSample])
    ensures Reaches(RaceConfig, RaceStart(), QueuedLate, RaceLost())
    ensures Reaches(RaceConfig, RaceStart(), QueuedAfterExit, RaceLost())
    ensures Reaches(RaceConfig, RaceStart(), DeliveryOvertaken, RaceLost())
    ensures var s := RaceLost();
            && s.phase.Stopped? && s.q.failed == [] && s.n.completed < Total(RaceConfig)
            && s.sending && !Enabled(RaceConfig, s, StopSending)
  {
    RaceIsValid();
    RaceBegins();
    RaceOver();
    hide Takes, Reaches, RaceStart, RaceState, ValidConfig, ValidSamples, Enabled;
    var answer := Advance(0, RaceReply);
    var sent, idle := RaceState([RaceRequest], [], [], 0, Polling), RaceState([RaceRequest], [], [], 0, TimedOut);
    var counted := RaceState([], [RaceDelivery], [], 1, TimedOut);
    var queued := RaceState([], [], [RaceDelivery], 1, TimedOut);
    var early, left := RaceState([], [RaceDelivery], [], 1, Polling), RaceState([], [RaceDelivery], [], 1, Stopped);
    RaceTimesOut([RaceRequest], [], 0);
    RaceTimesOut([], [RaceDelivery], 1);
    RaceAdvances(TimedOut);
    RaceAdvances(Polling);
    RaceDelivers(TimedOut);
    RaceDelivers(Stopped);
    RaceExits([], [RaceDelivery]);
    RaceExits([RaceDelivery], []);
    FiveSteps(RaceStart(), Send(0), sent, Timeout, idle, answer, counted, Deliver, queued, CheckDone, RaceLost());
    FiveSteps(RaceStart(), Send(0), sent, Timeout, idle, answer, counted, CheckDone, left, Deliver, RaceLost());
    FiveSteps(RaceStart(), Send(0), sent, answer, early, Timeout, counted, CheckDone, left, Deliver, RaceLost());
  }

  /* ---------- runs that never end ---------- */

  /** The exception of the only request goes past the progress bar. */
  lemma EscapeHappens()
    ensures var s := EscapedState();
            && Reaches(RaceConfig, RaceStart(), [Send(0), Escape(0)], s)
            && Reachable(RaceConfig, [RaceSample], [RaceSample], s) && s.n.escaped > 0
  {
    RaceBegins();
    RaceEscapes();
    RaceIsValid();
    hide Takes, RaceState, ValidConfig, ValidSamples, Reaches, Reachable;
    var sent := RaceState([RaceRequest], [], [], 0, Polling);
    Arrive(RaceConfig, sent, Escape(0), EscapedState());
    Prepend(RaceConfig, RaceStart(), Send(0), sent, [Escape(0)], EscapedState());
    assert [Send(0)] + [Escape(0)] == [Send(0), Escape(0)];
    ReachedIsReachable(RaceConfig, [RaceSample], [RaceSample], [Send(0), Escape(0)], EscapedState());
  }

  function EscapedState(): State {
    RaceState([], [], [Delivery(0, NoResponse)], 0, Polling).(n := Counters(1, 0, 0, 1))
  }

  lemma RaceEscapes()
    ensures Takes(RaceConfig, RaceState([RaceRequest], [], [], 0, Polling), Escape(0), EscapedState())
  {
    var s := RaceState([RaceRequest], [], [], 0, Polling);
    assert RemoveAt(s.q.flight, 0) == [];
    assert EscapeAt(s, 0).q == EscapedState().q;
  }

  /** One client with two rounds, the first of which fails. */
  const FailConfig := Config(Sglang, [2], 2, [1, 1], 1, false, Fifo)
  const FailDelivery := Delivery(0, NoResponse)

  function FailStart(): State { Init(FailConfig, [RaceSample], [RaceSample]) }

  function FailState(flight: seq<Request>, delivering: seq<Delivery>, responses: seq<Delivery>, failed: seq<nat>,
                     completed: nat, finished: nat): State {
    State(Queues([], flight, delivering, responses, [], failed), Counters(1, completed, finished, 0),
          [Client(0, [Token(7)], [[Token(7)]], [], [])], [RaceSample], Barrier(0, 0, [0, 0]), Polling, true)
  }

  lemma FailIsValid()
    ensures ValidConfig(FailConfig) && ValidSamples(FailConfig, [RaceSample], [RaceSample])
  {
    assert CountAbove([2], 0) == 1 && CountAbove([2], 1) == 1;
    assert Needed([2], Zeros(1)) == [1];
    assert Sum([1]) == 1;
  }

  lemma FailStartIs()
    ensures FailStart() ==
              State(Queues([RaceRequest], [], [], [], [], []), Counters(0, 0, 0, 0),
                    [Client(0, [Token(7)], [], [], [])], [RaceSample], Barrier(0, 0, [0, 0]), Polling, true)
  {
    assert TokenItems([7]) == [Token(7)];
    var s := FailStart();
    assert s.q.ready == [RaceRequest];
    assert s.clients == [Client(0, [Token(7)], [], [], [])];
    assert s.b.perRound == [0, 0];
  }

  lemma FailBegins()
    ensures Takes(FailConfig, FailStart(), Send(0), FailState([RaceRequest], [], [], [], 0, 0))
  {
    FailStartIs();
    hide FailStart;
    var s := FailStart();
    var t, u := Step(FailConfig, s, Send(0)), FailState([RaceRequest], [], [], [], 0, 0);
    assert RemoveAt(s.q.ready, 0) == [];
    assert t.q == u.q && t.n == u.n;
    assert [] + [[Token(7)]] == [[Token(7)]];
    assert t.clients == u.clients;
  }

  lemma FailAdvances()
    ensures Takes(FailConfig, FailState([RaceRequest], [], [], [], 0, 0), Advance(0, NoResponse),
                  FailState([], [FailDelivery], [], [], 0, 1))
  {
    var s := FailState([RaceRequest], [], [], [], 0, 0);
    assert RemoveAt(s.q.flight, 0) == [];
    assert AdvanceAt(s, 0, NoResponse).q == FailState([], [FailDelivery], [], [], 0, 1).q;
  }

  lemma FailDelivers()
    ensures Takes(FailConfig, FailState([], [FailDelivery], [], [], 0, 1), Deliver,
                  FailState([], [], [FailDelivery], [], 0, 1))
  {
  }

  lemma FailIsHandled()
    ensures Takes(FailConfig, FailState([], [], [FailDelivery], [], 0, 1), Handle, FailState([], [], [], [0], 1, 1))
  {
    assert [FailDelivery][1..] == [] && [] + [0] == [0];
  }

  lemma FailedEarly()
    ensures var s := FailState([], [], [], [0], 1, 1);
            |s.clients| == |FailConfig.totals| && !FailuresOnlyAtEnd(FailConfig, s)
  {
    assert FailState([], [], [], [0], 1, 1).q.failed[0] == 0;
  }

  /** The only client fails in the first of its two rounds. */
  lemma EarlyFailureHappens()
    ensures var s, actions := FailState([], [], [], [0], 1, 1), [Send(0), Advance(0, NoResponse), Deliver, Handle];
            && Reaches(FailConfig, FailStart(), actions, s)
            && Reachable(FailConfig, [RaceSample], [RaceSample], s)
            && |s.clients| == |FailConfig.totals| && !FailuresOnlyAtEnd(FailConfig, s)
  {
    hide Takes, FailState, ValidConfig, ValidSamples, FailuresOnlyAtEnd, Reaches, Reachable;
    FailIsValid();
    FailBegins();
    FailAdvances();
    FailDelivers();
    FailIsHandled();
    FailedEarly();
    var s := FailState([], [], [], [0], 1, 1);
    var sent, counted := FailState([RaceRequest], [], [], [], 0, 0), FailState([], [FailDelivery], [], [], 0, 1);
    var queued := FailState([], [], [FailDelivery], [], 0, 1);
    var fails := Advance(0, NoResponse);
    Arrive(FailConfig, queued, Handle, s);
    Prepend(FailConfig, counted, Deliver, queued, [Handle], s);
    Prepend(FailConfig, sent, fails, counted, [Deliver] + [Handle], s);
    Prepend(FailConfig, FailStart(), Send(0), sent, [fails] + ([Deliver] + [Handle]), s);
    var actions := [Send(0), fails, Deliver, Handle];
    assert actions == [Send(0)] + ([fails] + ([Deliver] + [Handle]));
    ReachedIsReachable(FailConfig, [RaceSample], [RaceSample], actions, s);
  }
}
