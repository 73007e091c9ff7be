/** Termination of the multi-turn benchmark: the work is bounded, what a run can
    end in, which failures make it hang, and the race at the handler's exit. */
module MultiturnProgress {
  import opened Sequences
  import opened Multiturn
  import opened MultiturnInvariant
  import opened MultiturnSteps
  import opened MultiturnHandle
  import opened MultiturnTheorems

  /* ---------- the entries of clients_per_round sum to the total ---------- */

  function Counts(totals: seq<nat>, m: nat): (r: seq<int>)
    ensures |r| == m && forall i :: 0 <= i < m ==> r[i] == CountAbove(totals, i)
  {
    seq(m, i requires 0 <= i < m => CountAbove(totals, i))
  }

  /** `t` ones followed by zeros. */
  function Staircase(t: nat, m: nat): (r: seq<int>)
    requires t <= m
    ensures |r| == m && forall i :: 0 <= i < m ==> r[i] == if t > i then 1 else 0
  {
    seq(m, i requires 0 <= i < m => if t > i then 1 else 0)
  }

  lemma {:induction false} SumStaircase(t: nat, m: nat)
    requires t <= m
    ensures Sum(Staircase(t, m)) == t
  {
    if t == 0 {
      SumZeros(Staircase(t, m));
    } else {
      assert Staircase(t, m)[1..] == Staircase(t - 1, m - 1);
      SumStaircase(t - 1, m - 1);
    }
  }

  /** Counting requests round by round or client by client gives the same total. */
  lemma {:induction false} RoundsSumToTotal(totals: seq<nat>, m: nat)
    requires forall j :: 0 <= j < |totals| ==> totals[j] <= m
    ensures Sum(Counts(totals, m)) == Sum(totals)
  {
    if totals == [] {
      SumZeros(Counts(totals, m));
    } else {
      RoundsSumToTotal(totals[1..], m);
      SumStaircase(totals[0], m);
      SumPointwise(Staircase(totals[0], m), Counts(totals[1..], m), Counts(totals, m));
    }
  }

  lemma ClientsPerRoundSumToTotal(c: Config)
    requires ValidConfig(c)
    ensures Sum(c.clientsPerRound) == Total(c)
  {
    assert c.clientsPerRound == Counts(c.totals, c.maxRounds);
    RoundsSumToTotal(c.totals, c.maxRounds);
  }

  /* ---------- work left ---------- */

  /** Rounds each client still has to complete. */
  ghost function Remaining(c: Config, clients: seq<Client>): (r: seq<int>)
    requires |clients| == |c.totals|
    ensures |r| == |clients| && forall j :: 0 <= j < |r| ==> r[j] == c.totals[j] - clients[j].round
  {
    seq(|clients|, j requires 0 <= j < |clients| => c.totals[j] - clients[j].round)
  }

  ghost function Work(c: Config, clients: seq<Client>): int { Total(c) - Sum(Rounds(clients)) }

  lemma WorkIsSumOfRemaining(c: Config, clients: seq<Client>)
    requires |clients| == |c.totals|
    ensures Work(c, clients) == Sum(Remaining(c, clients))
  {
    SumPointwise(Remaining(c, clients), Rounds(clients), c.totals);
  }

  lemma PlacedSize(q: Queues)
    ensures |Placed(q)| == |q.ready| + |q.held| + |q.flight| + |q.delivering| + |q.responses| + |q.failed|
  {
  }

  /** Every placed client has a round to do, so the work covers the places; when it
      covers them exactly, each placed client is in its last round. */
  lemma WorkCoversPlaces(c: Config, q: Queues, clients: seq<Client>)
    requires PlacesInv(c, q, clients)
    ensures Work(c, clients) >= |q.ready| + |q.held| + |q.flight| + |q.delivering| + |q.responses| + |q.failed|
    ensures Work(c, clients) == |q.ready| + |q.held| + |q.flight| + |q.delivering| + |q.responses| + |q.failed| ==>
              forall j :: 0 <= j < |clients| ==> c.totals[j] - clients[j].round == if j in Placed(q) then 1 else 0
  {
    WorkIsSumOfRemaining(c, clients);
    PlacedSize(q);
    hide Placed;
    forall j | j in Placed(q) ensures j < |clients| && Placed(q)[j] == 1 && Remaining(c, clients)[j] >= 1 {
    }
    SumCoversDistinct(Remaining(c, clients), Placed(q));
  }

  /** Converse: distinct clients with one round each, and nothing elsewhere. */
  lemma {:induction false} SumOfLastRounds(s: seq<int>, ids: multiset<nat>)
    requires forall j :: 0 <= j < |s| ==> s[j] == if j in ids then 1 else 0
    requires forall j :: j in ids ==> j < |s| && ids[j] == 1
    ensures Sum(s) == |ids|
    decreases |ids|
  {
    if ids == multiset{} {
      SumZeros(s);
    } else {
      var k :| k in ids;
      var rest, t := ids - multiset{k}, s[k := 0];
      SumUpdate(s, k, 0);
      assert |ids| == |rest| + 1;
      forall j | 0 <= j < |t| ensures t[j] == if j in rest then 1 else 0 {
        assert j != k ==> (j in rest <==> j in ids);
      }
      SumOfLastRounds(t, rest);
    }
  }

  /* ---------- bounded work ---------- */

  predicate Productive(a: Action) { !(a.StopSending? || a.Timeout? || a.CheckDone?) }

  /** Steps still to be made for the work that is left. */
  ghost function Rank(c: Config, s: State): int {
    5 * Work(c, s.clients) - |s.q.ready| - 2 * |s.q.flight| - 3 * |s.q.delivering| - 4 * |s.q.responses|
    - 5 * |s.q.failed|
    + c.maxRounds - s.b.round
  }

  lemma RankNonNegative(c: Config, first: seq<Sample>, s: State)
    requires Inv(c, first, s)
    ensures Rank(c, s) >= 0
  {
    hide CountersInv, SupplyInv, MetricsInv, ChainInv, PlacesInv, BarrierQueues;
    WorkCoversPlaces(c, s.q, s.clients);
  }

  lemma SuccessLowersRank(c: Config, first: seq<Sample>, s: State)
    requires Handling(c, first, s)
    ensures Rank(c, HandleSuccess(c, s)) < Rank(c, s)
  {
    SuccessIsSafe(c, first, s);
    hide PlacesInv, CountersInv, SupplyInv, MetricsInv, BarrierInv, ChainInv, HandleSuccess;
    SuccessOutcome(c, s);
    var cl := if More(c, s) then NewRecord(c, s) else FinalRecord(c, s);
    RoundsUpdate(s.clients, Head(s), cl);
    SumUpdate(Rounds(s.clients), Head(s), cl.round);
  }

  lemma SendLowersRank(c: Config, s: State, k: nat)
    requires k < |s.q.ready| && s.q.ready[k].client < |s.clients|
    ensures Rank(c, SendAt(s, k)) < Rank(c, s)
  {
    SameRoundsEqual(s.clients, SendAt(s, k).clients);
  }

  lemma StepLowersRank(c: Config, first: seq<Sample>, s: State, a: Action)
    requires Inv(c, first, s) && Enabled(c, s, a)
    ensures Productive(a) ==> Rank(c, Step(c, s, a)) < Rank(c, s)
    ensures !Productive(a) ==> Rank(c, Step(c, s, a)) == Rank(c, s)
  {
    hide PlacesInv, CountersInv, SupplyInv, MetricsInv, BarrierInv, ChainInv, HandleSuccess;
    match a {
      case Send(k) => SendLowersRank(c, s, k);
      case Handle => if s.q.responses[0].response.success { SuccessLowersRank(c, first, s); }
      case _ =>
    }
  }

  function CountProductive(actions: seq<Action>): nat {
    if actions == [] then 0 else (if Productive(actions[0]) then 1 else 0) + CountProductive(actions[1..])
  }

  lemma {:induction false} RunBoundedByRank(c: Config, first: seq<Sample>, s: State, actions: seq<Action>)
    requires Inv(c, first, s) && Runs(c, s, actions)
    ensures CountProductive(actions) <= Rank(c, s) - Rank(c, After(c, s, actions))
    decreases |actions|
  {
    hide PlacesInv, CountersInv, SupplyInv, MetricsInv, BarrierInv, ChainInv, QueuesBelow;
    hide Enabled, Step, Rank, Productive;
    if actions != [] {
      var t := Step(c, s, actions[0]);
      StepKeepsInv(c, first, s, actions[0]);
      StepLowersRank(c, first, s, actions[0]);
      RunBoundedByRank(c, first, t, actions[1..]);
    }
  }

  /** No schedule, whatever the server answers, keeps the threads busy for more
      than about five steps per request: all further steps are idle polling. */
  lemma BoundedWork(c: Config, first: seq<Sample>, questions: seq<Sample>, actions: seq<Action>)
    requires ValidConfig(c) && ValidSamples(c, first, questions)
    requires Shaped(c, Init(c, first, questions)) && Runs(c, Init(c, first, questions), actions)
    ensures CountProductive(actions) <= 5 * Total(c) - |c.totals| + c.maxRounds
  {
    var s0 := Init(c, first, questions);
    assert Rank(c, s0) == 5 * Total(c) - |c.totals| + c.maxRounds by { SumZeros(Rounds(s0.clients)); }
    hide PlacesInv, CountersInv, SupplyInv, MetricsInv, BarrierInv, ChainInv, QueuesBelow, Rank, Init;
    InitInv(c, first, questions);
    RunBoundedByRank(c, first, s0, actions);
    RunKeepsInv(c, first, s0, actions);
    RankNonNegative(c, first, After(c, s0, actions));
  }

  /* ---------- what a run can end in ---------- */

  /** Nothing but idle polling can happen. */
  ghost predicate Quiescent(c: Config, s: State) {
    forall a :: Enabled(c, s, a) ==> !Productive(a)
  }

  /** All requests have ended: then nothing waits or is held back, and every
      client that failed or has an unhandled response is in its last round. */
  lemma FinishedMeansDone(c: Config, first: seq<Sample>, s: State)
    requires Inv(c, first, s) && s.n.finished + s.n.escaped >= Total(c)
    ensures s.n.finished + s.n.escaped == Total(c)
    ensures s.q.ready == [] && s.q.held == [] && s.q.flight == []
    ensures forall j :: 0 <= j < |s.clients| ==>
              c.totals[j] - s.clients[j].round == if j in Placed(s.q) then 1 else 0
  {
    hide SupplyInv, MetricsInv, BarrierInv, ChainInv, PlacesInv, Placed;
    WorkCoversPlaces(c, s.q, s.clients);
  }

  /** Nothing can be sent, is on its way or waits to be handled. */
  predicate NothingMoves(q: Queues) {
    q.ready == [] && q.flight == [] && q.delivering == [] && q.responses == []
  }

  lemma QuiescentQueues(c: Config, first: seq<Sample>, s: State)
    requires Inv(c, first, s) && Quiescent(c, s)
    requires s.phase.Polling? || s.phase.Releasing?
    requires c.maxParallel >= 1 && !c.policy.Unknown?
    ensures s.phase.Polling? && NothingMoves(s.q)
    ensures s.n.completed == s.n.finished + s.n.escaped == s.n.sent
  {
    hide SupplyInv, MetricsInv, BarrierInv, ChainInv, PlacesInv, Shaped, ValidConfig;
    assert !Enabled(c, s, ReleaseOne) && !Enabled(c, s, ReleaseDone) && !Enabled(c, s, Handle);
    assert !Enabled(c, s, Deliver);
    if s.sending {
      assert !Enabled(c, s, Escape(0));
      assert !Enabled(c, s, Send(0));
    } else {
      FinishedMeansDone(c, first, s);
    }
  }

  /** A held request waits for somebody who failed. */
  lemma HeldMeansFailed(c: Config, s: State)
    requires ValidConfig(c) && PlacesInv(c, s.q, s.clients) && BarrierInv(c, s.q, s.clients, s.b, s.phase)
    requires s.phase.Polling? && NothingMoves(s.q)
    requires s.q.held != []
    ensures s.q.failed != []
    ensures c.barrier && s.clients[s.q.held[0].client].round == s.b.round + 1 < c.totals[s.q.held[0].client]
  {
    HeldIsPlaced(c, s.q, s.clients, s.b);
    if s.q.failed == [] {
      NobodyBehind(c, s.q, s.clients, s.b);
      RoundsWithinTotals(c, s.q, s.clients);
      CountAboveMonotone(Rounds(s.clients), c.totals, s.b.round);
      CountAbovePositive(c.totals, s.b.round, s.q.held[0].client);
      hide PlacesInv, BarrierQueues, CountAbove;
      assert false;
    }
  }

  lemma HeldIsPlaced(c: Config, q: Queues, clients: seq<Client>, b: Barrier)
    requires PlacesInv(c, q, clients) && AllAt(q.held, clients, b.round + 1) && q.held != []
    ensures q.held[0].client < |clients| && clients[q.held[0].client].round == b.round + 1 < c.totals[q.held[0].client]
  {
    EntriesArePlaced(q);
    assert q.held[0].client in Placed(q);
  }

  lemma NobodyBehind(c: Config, q: Queues, clients: seq<Client>, b: Barrier)
    requires PlacesInv(c, q, clients) && AllAt(q.held, clients, b.round + 1)
    requires NothingMoves(q) && q.failed == []
    ensures forall j :: 0 <= j < |clients| && clients[j].round < c.totals[j] ==> clients[j].round == b.round + 1
  {
    forall j | 0 <= j < |clients| && clients[j].round < c.totals[j]
      ensures clients[j].round == b.round + 1
    {
      HeldHasEntry(q, j);
    }
  }

  lemma HeldHasEntry(q: Queues, j: nat)
    requires NothingMoves(q) && q.failed == [] && j in Placed(q)
    ensures exists i :: 0 <= i < |q.held| && q.held[i].client == j
  {
    IdHasEntry(q.held, Requester, j);
  }

  /** Every failure so far hit its client's last round and, with the barrier on,
      a round after which no client has another. */
  ghost predicate FailuresOnlyAtEnd(c: Config, s: State)
    requires |s.clients| == |c.totals|
  {
    forall i :: 0 <= i < |s.q.failed| ==>
      && s.q.failed[i] < |c.totals|
      && s.clients[s.q.failed[i]].round + 1 == c.totals[s.q.failed[i]]
      && (c.barrier ==> forall k :: 0 <= k < |c.totals| ==> c.totals[k] <= c.totals[s.q.failed[i]])
  }

  lemma PlacedRound(q: Queues, clients: seq<Client>, b: Barrier, phase: Phase, k: nat)
    requires BarrierQueues(q, clients, b, phase) && !phase.Releasing?
    requires q.ready == [] && q.held == [] && k in Placed(q)
    ensures k < |clients| && clients[k].round == b.round
  {
    ServedRound(q, clients, b, phase, k);
  }

  /** All requests can only have ended if every failure hit the end of the workload. */
  lemma FullBarMeansFailuresAtEnd(c: Config, first: seq<Sample>, s: State)
    requires Inv(c, first, s) && s.n.finished + s.n.escaped >= Total(c)
    ensures FailuresOnlyAtEnd(c, s)
  {
    hide SupplyInv, MetricsInv, ChainInv, BarrierRounds, QueuesBelow, CountersInv;
    FinishedMeansDone(c, first, s);
    EntriesArePlaced(s.q);
    assert forall i :: 0 <= i < |s.q.failed| ==> s.q.failed[i] in Placed(s.q);
    hide Placed, Waiting, Served;
    forall i | 0 <= i < |s.q.failed|
      ensures s.q.failed[i] < |c.totals| && s.clients[s.q.failed[i]].round + 1 == c.totals[s.q.failed[i]]
      ensures c.barrier ==> forall k :: 0 <= k < |c.totals| ==> c.totals[k] <= c.totals[s.q.failed[i]]
    {
      FailedInRange(c, s, i);
      if c.barrier {
        FullBarLastRound(c, s, i);
      }
    }
  }

  lemma FullBarLastRound(c: Config, s: State, i: nat)
    requires c.barrier && BarrierInv(c, s.q, s.clients, s.b, s.phase) && PlacesInv(c, s.q, s.clients)
    requires i < |s.q.failed| && s.q.failed[i] < |c.totals| && s.q.ready == [] && s.q.held == []
    requires s.clients[s.q.failed[i]].round + 1 == c.totals[s.q.failed[i]]
    requires forall j :: 0 <= j < |s.clients| ==>
               c.totals[j] - s.clients[j].round == if j in Placed(s.q) then 1 else 0
    ensures forall k :: 0 <= k < |c.totals| ==> c.totals[k] <= c.totals[s.q.failed[i]]
  {
    if s.phase.Releasing? { NoneFailedDuringRelease(c, s); }
    hide Placed, CountAbove;
    var f := s.q.failed[i];
    assert s.clients[f].round == s.b.round;
    forall k | 0 <= k < |c.totals| ensures c.totals[k] <= c.totals[f] {
      if k in Placed(s.q) { PlacedRound(s.q, s.clients, s.b, s.phase, k); }
    }
  }

  lemma FailedInRange(c: Config, s: State, i: nat)
    requires Shaped(c, s) && i < |s.q.failed|
    ensures s.q.failed[i] < |c.totals|
  {
  }

  lemma PlacedHasFailed(q: Queues, j: nat)
    requires NothingMoves(q) && q.held == [] && j in Placed(q)
    ensures exists i :: 0 <= i < |q.failed| && q.failed[i] == j
  {
    assert j in q.failed;
  }

  lemma FailuresAtEndMeanComplete(c: Config, first: seq<Sample>, s: State)
    requires Inv(c, first, s) && s.phase.Polling? && FailuresOnlyAtEnd(c, s)
    requires NothingMoves(s.q)
    ensures s.n.completed == Total(c)
  {
    hide SupplyInv, MetricsInv, ChainInv;
    if s.q.held != [] {
      HeldMeansFailed(c, s);
      assert false;
    }
    var rest := Remaining(c, s.clients);
    forall j | 0 <= j < |rest| ensures rest[j] == if j in Placed(s.q) then 1 else 0 {
      if j in Placed(s.q) { PlacedHasFailed(s.q, j); }
    }
    SumOfLastRounds(rest, Placed(s.q));
    WorkIsSumOfRemaining(c, s.clients);
    PlacedSize(s.q);
  }

  /** The outcome of every run.  Once only idle polling is left, all requests have
      been handled exactly when every failure hit the end of the workload; and the
      progress bar, which both loops wait for, is full exactly when moreover no
      exception escaped from the request function. */
  lemma QuiescentOutcome(c: Config, first: seq<Sample>, questions: seq<Sample>, s: State)
    requires Reachable(c, first, questions, s) && Quiescent(c, s)
    requires s.phase.Polling? || s.phase.Releasing?
    requires c.maxParallel >= 1 && !c.policy.Unknown?
    ensures |s.clients| == |c.totals|
    ensures s.n.completed == Total(c) <==> FailuresOnlyAtEnd(c, s)
    ensures s.n.finished == Total(c) <==> FailuresOnlyAtEnd(c, s) && s.n.escaped == 0
    ensures s.n.completed == s.n.finished + s.n.escaped == s.n.sent
  {
    hide PlacesInv, CountersInv, SupplyInv, MetricsInv, BarrierInv, ChainInv, FailuresOnlyAtEnd, Quiescent, Reachable;
    ReachableInv(c, first, questions, s);
    QuiescentQueues(c, first, s);
    if s.n.completed >= Total(c) { FullBarMeansFailuresAtEnd(c, first, s); }
    if FailuresOnlyAtEnd(c, s) { FailuresAtEndMeanComplete(c, first, s); }
  }

  /** Progress: in a run without failures some step is possible until all
      requests are handled, and then every client has done all its rounds and the
      per-round metrics have one entry per participating client. */
  lemma FailureFreeProgress(c: Config, first: seq<Sample>, questions: seq<Sample>, s: State)
    requires Reachable(c, first, questions, s) && s.q.failed == []
    requires s.phase.Polling? || s.phase.Releasing?
    requires c.maxParallel >= 1 && !c.policy.Unknown?
    ensures s.n.completed < Total(c) ==> exists a :: Productive(a) && Enabled(c, s, a)
    ensures s.n.completed <= Total(c)
    ensures s.n.completed == Total(c) ==> Rounds(s.clients) == c.totals
    ensures s.n.completed == Total(c) && c.barrier ==> s.b.perRound == c.clientsPerRound
  {
    hide SupplyInv, BarrierInv, ChainInv, PlacesInv, CountersInv, MetricsInv, Reachable, Productive, Enabled;
    ReachableInv(c, first, questions, s);
    if Quiescent(c, s) {
      QuiescentOutcome(c, first, questions, s);
    }
    CompletedWithinTotal(c, first, s);
    if s.n.completed == Total(c) { CompletedMeansAllRounds(c, first, s); }
  }

  lemma CompletedWithinTotal(c: Config, first: seq<Sample>, s: State)
    requires Inv(c, first, s)
    ensures s.n.completed <= s.n.finished + s.n.escaped <= Total(c)
  {
    hide SupplyInv, BarrierInv, ChainInv, PlacesInv, MetricsInv;
    WorkCoversPlaces(c, s.q, s.clients);
  }

  lemma CompletedMeansAllRounds(c: Config, first: seq<Sample>, s: State)
    requires Inv(c, first, s) && s.n.completed == Total(c) && s.q.failed == []
    ensures Rounds(s.clients) == c.totals
    ensures c.barrier ==> s.b.perRound == c.clientsPerRound
  {
    hide SupplyInv, BarrierInv, ChainInv, PlacesInv;
    CompletedWithinTotal(c, first, s);
    FinishedMeansDone(c, first, s);
    RoundsMatch(c, s);
    hide CountAbove;
  }

  lemma RoundsMatch(c: Config, s: State)
    requires |s.clients| == |c.totals| && Placed(s.q) == multiset{}
    requires forall j :: 0 <= j < |s.clients| ==>
               c.totals[j] - s.clients[j].round == if j in Placed(s.q) then 1 else 0
    ensures Rounds(s.clients) == c.totals
  {
    hide Placed;
    assert forall j :: 0 <= j < |s.clients| ==> Rounds(s.clients)[j] == c.totals[j];
  }
}
