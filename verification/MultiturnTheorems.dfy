/** What the multi-turn benchmark guarantees over every run. */
module MultiturnTheorems {
  import opened Sequences
  import opened Multiturn
  import opened MultiturnInvariant
  import opened MultiturnSteps
  import opened MultiturnHandle

  /* ---------- the invariant holds in every reachable state ---------- */

  lemma InitPlaces(c: Config, first: seq<Sample>, questions: seq<Sample>)
    requires ValidConfig(c) && ValidSamples(c, first, questions)
    ensures var s := Init(c, first, questions);
            PlacesInv(c, s.q, s.clients) && forall j :: Served(s.q)[j] == 0
  {
    var s := Init(c, first, questions);
    Identities(Ids(s.q.ready, Requester));
    assert forall j: nat :: Placed(s.q)[j] == multiset(Ids(s.q.ready, Requester))[j];
  }

  lemma InitBarrier(c: Config, first: seq<Sample>, questions: seq<Sample>)
    requires ValidConfig(c) && ValidSamples(c, first, questions)
    ensures var s := Init(c, first, questions);
            BarrierInv(c, s.q, s.clients, s.b, s.phase) && MetricsInv(c, s.clients, s.b.perRound)
  {
    var s := Init(c, first, questions);
    forall r | 0 <= r <= c.maxRounds ensures CountAbove(Rounds(s.clients), r) == 0 {
      CountAboveNone(Rounds(s.clients), r);
    }
    hide CountAbove;
  }

  lemma InitChain(c: Config, first: seq<Sample>, questions: seq<Sample>)
    requires ValidConfig(c) && ValidSamples(c, first, questions)
    requires forall j :: Served(Init(c, first, questions).q)[j] == 0
    ensures ChainInv(c, first, Init(c, first, questions).q, Init(c, first, questions).clients)
  {
    hide QuestionItems, Served;
  }

  lemma InitCounts(c: Config, first: seq<Sample>, questions: seq<Sample>)
    requires ValidSamples(c, first, questions)
    ensures var s := Init(c, first, questions);
            CountersInv(c, s.q, s.n, s.clients) && SupplyInv(c, s.clients, s.questions)
  {
    var s := Init(c, first, questions);
    SumZeros(Rounds(s.clients));
    assert Rounds(s.clients) == Zeros(|c.totals|);
  }

  lemma InitInv(c: Config, first: seq<Sample>, questions: seq<Sample>)
    requires ValidConfig(c) && ValidSamples(c, first, questions)
    ensures Inv(c, first, Init(c, first, questions))
  {
    hide PlacesInv, BarrierInv, MetricsInv, ChainInv, CountersInv, SupplyInv, QuestionItems;
    InitPlaces(c, first, questions);
    InitBarrier(c, first, questions);
    InitChain(c, first, questions);
    InitCounts(c, first, questions);
  }

  lemma IdleKeepsInv(c: Config, first: seq<Sample>, s: State, a: Action)
    requires Inv(c, first, s) && Enabled(c, s, a) && (a.StopSending? || a.Timeout? || a.CheckDone?)
    ensures Inv(c, first, Step(c, s, a))
  {
    hide PlacesInv, CountersInv, SupplyInv, MetricsInv, ChainInv, QueuesBelow;
    StepShaped(c, s, a);
    hide BarrierQueues, BarrierRounds;
    IdleKeepsBarrier(c, s, Step(c, s, a).phase);
  }

  lemma IdleKeepsBarrier(c: Config, s: State, phase: Phase)
    requires BarrierInv(c, s.q, s.clients, s.b, s.phase)
    requires s.phase == phase || (!s.phase.Releasing? && !phase.Releasing?)
    ensures BarrierInv(c, s.q, s.clients, s.b, phase)
  {
    hide CountAbove;
  }

  /** Every step of either thread keeps the invariant. */
  lemma StepKeepsInv(c: Config, first: seq<Sample>, s: State, a: Action)
    requires Inv(c, first, s) && Enabled(c, s, a)
    ensures Inv(c, first, Step(c, s, a))
  {
    hide PlacesInv, CountersInv, SupplyInv, MetricsInv, BarrierInv, ChainInv, QueuesBelow;
    hide SendAt, AdvanceAt, EscapeAt, HandleSuccess, HandleFailure, CanPop;
    match a {
      case Send(k) => SendKeepsInv(c, first, s, k);
      case Advance(k, r) => AdvanceKeepsInv(c, first, s, k, r);
      case Deliver => DeliverKeepsInv(c, first, s);
      case Escape(k) => EscapeKeepsInv(c, first, s, k);
      case Handle =>
        if s.q.responses[0].response.success { SuccessKeepsInv(c, first, s); } else { FailureKeepsInv(c, first, s); }
      case ReleaseOne => ReleaseOneKeepsInv(c, first, s);
      case ReleaseDone => ReleaseDoneKeepsInv(c, first, s);
      case _ => IdleKeepsInv(c, first, s, a);
    }
  }

  lemma {:induction false} RunKeepsInv(c: Config, first: seq<Sample>, s: State, actions: seq<Action>)
    requires Inv(c, first, s) && Runs(c, s, actions)
    ensures Inv(c, first, After(c, s, actions))
    decreases |actions|
  {
    hide PlacesInv, CountersInv, SupplyInv, MetricsInv, BarrierInv, ChainInv, QueuesBelow, Enabled, Step;
    if actions != [] {
      StepKeepsInv(c, first, s, actions[0]);
      RunKeepsInv(c, first, Step(c, s, actions[0]), actions[1..]);
    }
  }

  /** `s` is reached by some interleaving of the two threads and the server. */
  ghost predicate Reachable(c: Config, first: seq<Sample>, questions: seq<Sample>, s: State) {
    && ValidConfig(c) && ValidSamples(c, first, questions)
    && Shaped(c, Init(c, first, questions))
    && exists actions ::
         Runs(c, Init(c, first, questions), actions) && s == After(c, Init(c, first, questions), actions)
  }

  lemma ReachableInv(c: Config, first: seq<Sample>, questions: seq<Sample>, s: State)
    requires Reachable(c, first, questions, s)
    ensures Inv(c, first, s)
  {
    var s0 := Init(c, first, questions);
    var actions :| Runs(c, s0, actions) && s == After(c, s0, actions);
    InitInv(c, first, questions);
    hide Inv;
    RunKeepsInv(c, first, s0, actions);
  }

  /* ---------- one outstanding request per client ---------- */

  /** Each client occurs at most once over all queues, requests on their way and
      failures; the requests on their way are exactly `sent - completed` and stay
      within the parallelism limit; the handler never dies of an exception. */
  lemma OneOutstandingRequest(c: Config, first: seq<Sample>, questions: seq<Sample>, s: State)
    requires Reachable(c, first, questions, s)
    ensures forall j :: Placed(s.q)[j] <= 1
    ensures s.n.sent - s.n.completed == |s.q.flight| + |s.q.delivering| + |s.q.responses|
    ensures s.n.sent - s.n.completed <= if c.maxParallel > 0 then c.maxParallel else 0
    ensures forall j :: 0 <= j < |s.clients| ==>
              |s.clients[j].replies| <= |s.clients[j].prompts| <= |s.clients[j].replies| + 1
    ensures !s.phase.Crashed?
  {
    ReachableInv(c, first, questions, s);
    hide SupplyInv, MetricsInv, BarrierInv, Reachable;
  }

  /** The sub-questions left always cover the rounds still to be started, so the
      stack is never popped when empty. */
  lemma SubQuestionSupply(c: Config, first: seq<Sample>, questions: seq<Sample>, s: State)
    requires Reachable(c, first, questions, s)
    ensures |s.clients| == |c.totals| && |s.questions| >= Sum(Needed(c.totals, Rounds(s.clients)))
    ensures s.q.responses != [] && s.q.responses[0].response.success ==>
              var j := s.q.responses[0].client;
              j < |c.totals| && (s.clients[j].round + 1 < c.totals[j] ==> s.questions != [])
  {
    hide MetricsInv, BarrierInv, CountersInv, ChainInv, PlacesInv, Reachable;
    ReachableInv(c, first, questions, s);
    if s.q.responses != [] {
      var j := s.q.responses[0].client;
      if s.clients[j].round + 1 < c.totals[j] { SupplySuffices(c, s.clients, s.questions, j); }
    }
  }

  /* ---------- the round barrier ---------- */

  lemma IdHasEntry<T>(s: seq<T>, owner: T -> nat, j: nat)
    requires j in multiset(Ids(s, owner))
    ensures exists i :: 0 <= i < |s| && owner(s[i]) == j
  {
    assert j in Ids(s, owner);
    var i :| 0 <= i < |s| && Ids(s, owner)[i] == j;
    assert owner(s[i]) == j;
  }

  lemma ServedHasEntry(q: Queues, j: nat)
    requires j in Served(q)
    ensures (exists i :: 0 <= i < |q.flight| && q.flight[i].client == j)
         || (exists i :: 0 <= i < |q.delivering| && q.delivering[i].client == j)
         || (exists i :: 0 <= i < |q.responses| && q.responses[i].client == j)
         || (exists i :: 0 <= i < |q.failed| && q.failed[i] == j)
  {
    if j in multiset(Ids(q.flight, Requester)) {
      IdHasEntry(q.flight, Requester, j);
    } else if j in multiset(Ids(q.delivering, Addressee)) {
      IdHasEntry(q.delivering, Addressee, j);
    } else if j in multiset(Ids(q.responses, Addressee)) {
      IdHasEntry(q.responses, Addressee, j);
    } else {
      assert j in q.failed;
    }
  }

  /** A served client is in the active round, or has failed in the barrier's round. */
  lemma ServedRound(q: Queues, clients: seq<Client>, b: Barrier, phase: Phase, j: nat)
    requires BarrierQueues(q, clients, b, phase) && j in Served(q)
    ensures j < |clients| && (clients[j].round == ActiveRound(b, phase) || clients[j].round == b.round)
  {
    ServedHasEntry(q, j);
  }

  /** With the round barrier on, whatever fails and however the threads
      interleave: everything sendable, on its way or unhandled belongs to the
      active round; and before a client's round-`r` prompt (its prompt number
      `r + 1`) is sent, or even becomes sendable, every client has completed all
      its first `r` rounds. */
  lemma BarrierSafety(c: Config, first: seq<Sample>, questions: seq<Sample>, s: State)
    requires Reachable(c, first, questions, s) && c.barrier
    ensures var r := ActiveRound(s.b, s.phase);
            && AllAt(s.q.ready, s.clients, r) && AllAt(s.q.flight, s.clients, r)
            && DeliveriesAt(s.q.delivering, s.clients, r) && DeliveriesAt(s.q.responses, s.clients, r)
            && |s.clients| == |c.totals|
            && forall k :: 0 <= k < |c.totals| ==>
                 |s.clients[k].replies| >= r || |s.clients[k].replies| == c.totals[k]
    ensures forall j, k :: 0 <= j < |c.totals| && 0 <= k < |c.totals| ==>
              |s.clients[k].replies| >= |s.clients[j].prompts| - 1 || |s.clients[k].replies| == c.totals[k]
  {
    ReachableInv(c, first, questions, s);
    hide SupplyInv, MetricsInv, CountersInv, Reachable, Served, CountAbove, Conversation;
    forall j | 0 <= j < |c.totals| ensures |s.clients[j].prompts| - 1 <= ActiveRound(s.b, s.phase) {
      PromptsWithinActiveRound(c, first, s, j);
    }
    assert forall k :: 0 <= k < |c.totals| ==> |s.clients[k].replies| == s.clients[k].round;
    hide ChainInv, AllAt, DeliveriesAt, FailedAt;
  }

  lemma PromptsWithinActiveRound(c: Config, first: seq<Sample>, s: State, j: nat)
    requires Inv(c, first, s) && c.barrier && j < |c.totals|
    ensures |s.clients[j].prompts| - 1 <= ActiveRound(s.b, s.phase)
  {
    hide SupplyInv, MetricsInv, CountersInv, PlacesInv, CountAbove, Conversation, Served;
    if j in Served(s.q) { ServedRound(s.q, s.clients, s.b, s.phase, j); }
  }

  /* ---------- the prompt chain ---------- */

  /** Every prompt the server sees of a client is the client's previous prompt
      followed by the reply to it and one sub-question; the first is the client's
      first sample. */
  lemma PromptChain(c: Config, first: seq<Sample>, questions: seq<Sample>, s: State, j: nat, k: nat)
    requires Reachable(c, first, questions, s)
    requires j < |s.clients| && k < |s.clients[j].prompts|
    ensures j < |first| && k <= |s.clients[j].replies| && k <= |s.clients[j].asked|
    ensures var cl := s.clients[j];
            cl.prompts[k] == if k == 0 then QuestionItems(c.format, first[j])
                             else cl.prompts[k - 1] + cl.replies[k - 1] + cl.asked[k - 1]
  {
    ReachableInv(c, first, questions, s);
    hide SupplyInv, MetricsInv, CountersInv, PlacesInv, BarrierInv, Reachable, QuestionItems, Served;
    var cl := s.clients[j];
    if k > 0 {
      assert cl.prompts[k - 1] == Conversation(QuestionItems(c.format, first[j]), cl.replies, cl.asked, k - 1);
    }
  }

  /** A step changes no history but that of the client whose response it handles. */
  lemma OtherHistoriesKept(c: Config, s: State, a: Action, i: nat)
    requires Shaped(c, s) && Enabled(c, s, a) && i < |s.clients|
    requires a.Handle? ==> s.q.responses[0].client != i
    ensures |Step(c, s, a).clients| == |s.clients|
    ensures Step(c, s, a).clients[i].history == s.clients[i].history
  {
    hide ReplyItems, QuestionItems, TakeHead, Requeue, CountAbove;
  }

  lemma HeadIsNot(c: Config, q: Queues, clients: seq<Client>, r: Request)
    requires PlacesInv(c, q, clients) && q.responses != []
    requires r in q.ready || r in q.flight || r in q.held
    ensures r.client != q.responses[0].client
  {
    HeadIsAlone(q);
    hide PlacesInv;
    TakeMoves(q);
    EntryClient(TakeHead(q), r);
    hide Served, Waiting;
  }

  lemma PayloadIsHistory(rs: seq<Request>, clients: seq<Client>, r: Request)
    requires PayloadsCurrent(rs, clients) && r in rs
    ensures r.client < |clients| && Prompt(clients, r) == clients[r.client].history
  {
    var i :| 0 <= i < |rs| && rs[i] == r;
  }

  /** The history list shared with a request that waits or is on its way is not
      changed by any step, so the payload can be serialized at any moment. */
  lemma SharedHistoryIsStable(c: Config, first: seq<Sample>, questions: seq<Sample>, s: State, a: Action, r: Request)
    requires Reachable(c, first, questions, s) && Shaped(c, s) && Enabled(c, s, a)
    requires r in s.q.ready || r in s.q.flight || r in s.q.held
    ensures r.client < |s.clients| == |Step(c, s, a).clients|
    ensures Prompt(s.clients, r) == s.clients[r.client].history
    ensures Step(c, s, a).clients[r.client].history == s.clients[r.client].history
  {
    hide SupplyInv, MetricsInv, CountersInv, BarrierInv, PlacesInv, Reachable, ClientInv, QuestionItems, Step,
      PayloadsCurrent, Prompt, QueuesBelow;
    ReachableInv(c, first, questions, s);
    if r in s.q.ready { PayloadIsHistory(s.q.ready, s.clients, r); }
    else if r in s.q.flight { PayloadIsHistory(s.q.flight, s.clients, r); }
    else { PayloadIsHistory(s.q.held, s.clients, r); }
    if a.Handle? { HeadIsNot(c, s.q, s.clients, r); }
    OtherHistoriesKept(c, s, a, r.client);
  }

  lemma EntryClient(q: Queues, r: Request)
    requires r in q.ready || r in q.flight || r in q.held
    ensures r.client in Waiting(q) || r.client in Served(q)
  {
    EntriesArePlaced(q);
    if r in q.ready {
      var i :| 0 <= i < |q.ready| && q.ready[i] == r;
      assert q.ready[i].client in Waiting(q);
    } else if r in q.held {
      var i :| 0 <= i < |q.held| && q.held[i] == r;
      assert q.held[i].client in Waiting(q);
    } else {
      var i :| 0 <= i < |q.flight| && q.flight[i] == r;
      assert q.flight[i].client in Served(q);
    }
  }
}
