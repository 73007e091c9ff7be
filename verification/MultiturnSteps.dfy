/** Every step of the multi-turn protocol keeps the invariant. */
module MultiturnSteps {
  import opened Sequences
  import opened Multiturn
  import opened MultiturnInvariant

  /* ---------- sending ---------- */

  ghost predicate SameRounds(a: seq<Client>, b: seq<Client>) {
    |a| == |b| && forall j :: 0 <= j < |a| ==> a[j].round == b[j].round
  }

  lemma SameRoundsEqual(a: seq<Client>, b: seq<Client>)
    requires SameRounds(a, b)
    ensures Rounds(a) == Rounds(b)
  {
  }

  lemma SendKeepsPlaces(c: Config, s: State, k: nat)
    requires PlacesInv(c, s.q, s.clients) && k < |s.q.ready| && s.q.ready[k].client < |s.clients|
    ensures PlacesInv(c, SendAt(s, k).q, SendAt(s, k).clients)
  {
    hide Waiting, Served;
    SendMoves(s, k);
    var t := SendAt(s, k);
    assert Placed(t.q) == Placed(s.q);
    assert SameRounds(s.clients, t.clients);
    hide SendAt, Placed;
  }

  lemma SendKeepsBarrier(c: Config, s: State, k: nat)
    requires k < |s.q.ready| && s.q.ready[k].client < |s.clients|
    requires BarrierInv(c, s.q, s.clients, s.b, s.phase)
    ensures BarrierInv(c, SendAt(s, k).q, SendAt(s, k).clients, s.b, s.phase)
  {
    var t := SendAt(s, k);
    SameRoundsEqual(s.clients, t.clients);
  }

  lemma SendKeepsCounts(c: Config, s: State, k: nat)
    requires k < |s.q.ready| && s.q.ready[k].client < |s.clients|
    requires s.n.sent - s.n.completed < c.maxParallel
    requires CountersInv(c, s.q, s.n, s.clients)
    requires SupplyInv(c, s.clients, s.questions) && MetricsInv(c, s.clients, s.b.perRound)
    ensures var t := SendAt(s, k);
            && CountersInv(c, t.q, t.n, t.clients)
            && SupplyInv(c, t.clients, t.questions) && MetricsInv(c, t.clients, t.b.perRound)
  {
    SameRoundsEqual(s.clients, SendAt(s, k).clients);
  }

  lemma SentClient(total: nat, first: seq<Item>, cl: Client)
    requires ClientInv(total, first, cl, 0) && cl.round < total
    ensures ClientInv(total, first, cl.(prompts := cl.prompts + [cl.history]), 1)
  {
  }

  lemma WaitingIsNotServed(c: Config, q: Queues, clients: seq<Client>, k: nat)
    requires PlacesInv(c, q, clients) && k < |q.ready|
    ensures var j := q.ready[k].client;
            j < |clients| && Served(q)[j] == 0 && clients[j].round < c.totals[j]
  {
    EntriesArePlaced(q);
    var j := q.ready[k].client;
    assert Placed(q)[j] == Waiting(q)[j] + Served(q)[j];
  }

  lemma SendKeepsPayloads(rs: seq<Request>, clients: seq<Client>, j: nat, prompts: seq<seq<Item>>)
    requires PayloadsCurrent(rs, clients) && j < |clients|
    ensures PayloadsCurrent(rs, clients[j := clients[j].(prompts := prompts)])
  {
  }

  /** Only client `j` and its place among the served ones change. */
  lemma ChainAfterUpdate(c: Config, first: seq<Sample>, q: Queues, t: Queues, clients: seq<Client>, j: nat, cl: Client)
    requires ChainInv(c, first, q, clients) && j < |clients|
    requires forall i :: i != j ==> Served(t)[i] == Served(q)[i]
    requires ClientInv(c.totals[j], QuestionItems(c.format, first[j]), cl, Served(t)[j])
    requires var u := clients[j := cl];
             PayloadsCurrent(t.ready, u) && PayloadsCurrent(t.flight, u) && PayloadsCurrent(t.held, u)
    ensures ChainInv(c, first, t, clients[j := cl])
  {
    hide Served, QuestionItems, ClientInv, PayloadsCurrent;
  }

  lemma SendKeepsAllPayloads(s: State, k: nat)
    requires k < |s.q.ready| && s.q.ready[k].client < |s.clients|
    requires PayloadsCurrent(s.q.ready, s.clients) && PayloadsCurrent(s.q.flight, s.clients)
    requires PayloadsCurrent(s.q.held, s.clients)
    ensures var t := SendAt(s, k);
            && PayloadsCurrent(t.q.ready, t.clients) && PayloadsCurrent(t.q.flight, t.clients)
            && PayloadsCurrent(t.q.held, t.clients)
  {
    var t := SendAt(s, k);
    var j := s.q.ready[k].client;
    SendKeepsPayloads(t.q.ready, s.clients, j, t.clients[j].prompts);
    SendKeepsPayloads(t.q.flight, s.clients, j, t.clients[j].prompts);
    SendKeepsPayloads(t.q.held, s.clients, j, t.clients[j].prompts);
  }

  function Sent(cl: Client): Client { cl.(prompts := cl.prompts + [cl.history]) }

  /** The record of the client whose request is sent. */
  lemma SentRecord(c: Config, first: seq<Sample>, s: State, k: nat)
    requires k < |s.q.ready| && s.q.ready[k].client < |s.clients|
    requires PlacesInv(c, s.q, s.clients) && ChainInv(c, first, s.q, s.clients)
    ensures var j := s.q.ready[k].client;
            && SendAt(s, k).clients == s.clients[j := Sent(s.clients[j])]
            && ClientInv(c.totals[j], QuestionItems(c.format, first[j]), Sent(s.clients[j]), 1)
  {
    hide Served, QuestionItems, ClientInv, PlacesInv, Conversation;
    var r := s.q.ready[k];
    WaitingIsNotServed(c, s.q, s.clients, k);
    SentClient(c.totals[r.client], QuestionItems(c.format, first[r.client]), s.clients[r.client]);
    assert Prompt(s.clients, r) == s.clients[r.client].history;
  }

  lemma SentIsServed(c: Config, s: State, k: nat)
    requires k < |s.q.ready| && s.q.ready[k].client < |s.clients| && PlacesInv(c, s.q, s.clients)
    ensures var t, j := SendAt(s, k).q, s.q.ready[k].client;
            Served(t)[j] == 1 && forall i :: i != j ==> Served(t)[i] == Served(s.q)[i]
  {
    hide Served, Waiting, PlacesInv;
    SendMoves(s, k);
    WaitingIsNotServed(c, s.q, s.clients, k);
  }

  lemma SendKeepsChain(c: Config, first: seq<Sample>, s: State, k: nat)
    requires k < |s.q.ready|
    requires PlacesInv(c, s.q, s.clients) && ChainInv(c, first, s.q, s.clients)
    requires s.q.ready[k].client < |s.clients|
    ensures ChainInv(c, first, SendAt(s, k).q, SendAt(s, k).clients)
  {
    hide Served, QuestionItems, ClientInv, PlacesInv, PayloadsCurrent, SendAt, Sent;
    SentRecord(c, first, s, k);
    SentIsServed(c, s, k);
    SendKeepsAllPayloads(s, k);
    var j := s.q.ready[k].client;
    ChainAfterUpdate(c, first, s.q, SendAt(s, k).q, s.clients, j, Sent(s.clients[j]));
  }

  lemma SendKeepsInv(c: Config, first: seq<Sample>, s: State, k: nat)
    requires Inv(c, first, s) && Enabled(c, s, Send(k))
    ensures Inv(c, first, SendAt(s, k))
  {
    hide PlacesInv, CountersInv, SupplyInv, MetricsInv, BarrierInv, ChainInv;
    StepShaped(c, s, Send(k));
    SendKeepsPlaces(c, s, k);
    SendKeepsBarrier(c, s, k);
    SendKeepsCounts(c, s, k);
    SendKeepsChain(c, first, s, k);
  }

  /* ---------- ending, delivering, failing and releasing ---------- */

  /** Moving entries between queues without changing who waits and who is served. */
  lemma MoveKeepsPlaces(c: Config, first: seq<Sample>, q: Queues, t: Queues, clients: seq<Client>)
    requires Waiting(t) == Waiting(q) && Served(t) == Served(q)
    requires PlacesInv(c, q, clients) && ChainInv(c, first, q, clients)
    requires PayloadsCurrent(t.ready, clients) && PayloadsCurrent(t.flight, clients) && PayloadsCurrent(t.held, clients)
    ensures PlacesInv(c, t, clients) && ChainInv(c, first, t, clients)
  {
    hide Waiting, Served, ClientInv, PayloadsCurrent, QuestionItems;
    assert Placed(t) == Placed(q);
  }

  lemma EndKeepsBarrier(c: Config, s: State, k: nat, r: Response)
    requires k < |s.q.flight| && BarrierInv(c, s.q, s.clients, s.b, s.phase)
    ensures BarrierInv(c, AdvanceAt(s, k, r).q, s.clients, s.b, s.phase)
    ensures BarrierInv(c, EscapeAt(s, k).q, s.clients, s.b, s.phase)
  {
    hide BarrierRounds;
  }

  lemma AdvanceKeepsInv(c: Config, first: seq<Sample>, s: State, k: nat, r: Response)
    requires Inv(c, first, s) && Enabled(c, s, Advance(k, r))
    ensures Inv(c, first, AdvanceAt(s, k, r))
  {
    hide PlacesInv, SupplyInv, MetricsInv, BarrierInv, Waiting, Served, ClientInv;
    StepShaped(c, s, Advance(k, r));
    AdvanceMoves(s, k, r);
    EndKeepsBarrier(c, s, k, r);
    MoveKeepsPlaces(c, first, s.q, AdvanceAt(s, k, r).q, s.clients);
  }

  lemma EscapeKeepsInv(c: Config, first: seq<Sample>, s: State, k: nat)
    requires Inv(c, first, s) && Enabled(c, s, Escape(k))
    ensures Inv(c, first, EscapeAt(s, k))
  {
    hide PlacesInv, SupplyInv, MetricsInv, BarrierInv, Waiting, Served, ClientInv;
    StepShaped(c, s, Escape(k));
    EscapeMoves(s, k);
    EndKeepsBarrier(c, s, k, NoResponse);
    MoveKeepsPlaces(c, first, s.q, EscapeAt(s, k).q, s.clients);
  }

  lemma DeliverKeepsBarrier(c: Config, s: State)
    requires BarrierInv(c, s.q, s.clients, s.b, s.phase)
    ensures BarrierInv(c, DeliverAll(s.q), s.clients, s.b, s.phase)
  {
    hide BarrierRounds;
  }

  lemma DeliverKeepsInv(c: Config, first: seq<Sample>, s: State)
    requires Inv(c, first, s) && Enabled(c, s, Deliver)
    ensures Inv(c, first, Step(c, s, Deliver))
  {
    hide PlacesInv, SupplyInv, MetricsInv, BarrierInv, Waiting, Served, ClientInv;
    StepShaped(c, s, Deliver);
    DeliverMoves(s.q);
    DeliverKeepsBarrier(c, s);
    MoveKeepsPlaces(c, first, s.q, DeliverAll(s.q), s.clients);
  }

  lemma FailureKeepsBarrier(c: Config, s: State)
    requires s.q.responses != [] && s.phase.Polling? && BarrierInv(c, s.q, s.clients, s.b, s.phase)
    ensures BarrierInv(c, HandleFailure(s).q, s.clients, s.b, s.phase)
  {
    hide BarrierRounds;
  }

  lemma FailureKeepsInv(c: Config, first: seq<Sample>, s: State)
    requires s.q.responses != [] && !s.q.responses[0].response.success && s.phase.Polling? && Inv(c, first, s)
    ensures Inv(c, first, HandleFailure(s))
  {
    hide PlacesInv, SupplyInv, MetricsInv, BarrierInv, Waiting, Served, ClientInv;
    StepShaped(c, s, Handle);
    FailureMoves(s);
    FailureKeepsBarrier(c, s);
    MoveKeepsPlaces(c, first, s.q, HandleFailure(s).q, s.clients);
  }

  lemma ReleaseOneKeepsBarrier(c: Config, s: State)
    requires s.q.held != [] && s.phase.Releasing? && BarrierInv(c, s.q, s.clients, s.b, s.phase)
    ensures BarrierInv(c, ReleaseHead(s.q), s.clients, s.b, s.phase)
  {
    hide BarrierRounds;
  }

  lemma ReleaseOneKeepsInv(c: Config, first: seq<Sample>, s: State)
    requires Inv(c, first, s) && Enabled(c, s, ReleaseOne)
    ensures Inv(c, first, Step(c, s, ReleaseOne))
  {
    hide PlacesInv, SupplyInv, MetricsInv, BarrierInv, Waiting, Served, ClientInv;
    StepShaped(c, s, ReleaseOne);
    ReleaseMoves(s.q);
    ReleaseOneKeepsBarrier(c, s);
    MoveKeepsPlaces(c, first, s.q, ReleaseHead(s.q), s.clients);
  }

  /** While the barrier is being released no client is out of the running. */
  lemma NoneFailedDuringRelease(c: Config, s: State)
    requires PlacesInv(c, s.q, s.clients) && BarrierInv(c, s.q, s.clients, s.b, s.phase)
    requires s.phase.Releasing?
    ensures s.q.failed == []
  {
    EntriesArePlaced(s.q);
    if s.q.failed != [] {
      assert false;
    }
  }

  lemma ReleaseDoneKeepsRounds(c: Config, clients: seq<Client>, b: Barrier)
    requires ValidConfig(c) && BarrierRounds(c, clients, b, Releasing)
    ensures BarrierRounds(c, clients, b.(round := b.round + 1, done := 0), Polling)
  {
    CountAboveNone(Rounds(clients), b.round + 1);
    hide CountAbove;
  }

  lemma ReleaseDoneKeepsBarrier(c: Config, s: State)
    requires ValidConfig(c) && PlacesInv(c, s.q, s.clients) && BarrierInv(c, s.q, s.clients, s.b, s.phase)
    requires s.phase.Releasing? && s.q.held == []
    ensures BarrierInv(c, s.q, s.clients, s.b.(round := s.b.round + 1, done := 0), Polling)
  {
    hide PlacesInv, BarrierRounds, ValidConfig;
    NoneFailedDuringRelease(c, s);
    ReleaseDoneKeepsRounds(c, s.clients, s.b);
  }

  lemma ReleaseDoneKeepsInv(c: Config, first: seq<Sample>, s: State)
    requires Inv(c, first, s) && Enabled(c, s, ReleaseDone)
    ensures Inv(c, first, Step(c, s, ReleaseDone))
  {
    hide PlacesInv, CountersInv, SupplyInv, MetricsInv, BarrierInv, ChainInv;
    StepShaped(c, s, ReleaseDone);
    ReleaseDoneKeepsBarrier(c, s);
  }
}
