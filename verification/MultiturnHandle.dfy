/** Handling a successful response keeps the invariant of the multi-turn
    protocol: the handler's long branch, taken apart. */
module MultiturnHandle {
  import opened Sequences
  import opened Multiturn
  import opened MultiturnInvariant
  import opened MultiturnSteps

  ghost predicate Handling(c: Config, first: seq<Sample>, s: State) {
    Inv(c, first, s) && s.phase.Polling? && s.q.responses != [] && s.q.responses[0].response.success
  }

  function Head(s: State): nat
    requires s.q.responses != []
  {
    s.q.responses[0].client
  }

  predicate More(c: Config, s: State)
    requires Shaped(c, s) && s.q.responses != []
  {
    s.clients[Head(s)].round + 1 < c.totals[Head(s)]
  }

  function NewQueues(c: Config, s: State): Queues
    requires Shaped(c, s) && s.q.responses != []
  {
    if More(c, s) then Requeue(c.barrier, TakeHead(s.q), Head(s)) else TakeHead(s.q)
  }

  function NewRecord(c: Config, s: State): Client
    requires Shaped(c, s) && s.q.responses != [] && s.questions != []
  {
    var answered := Answered(s.clients[Head(s)], ReplyItems(c.format, s.q.responses[0].response));
    if More(c, s) then Asked(answered, QuestionItems(c.format, s.questions[|s.questions| - 1])) else answered
  }

  function FinalRecord(c: Config, s: State): Client
    requires Shaped(c, s) && s.q.responses != []
  {
    Answered(s.clients[Head(s)], ReplyItems(c.format, s.q.responses[0].response))
  }

  lemma HeadHasRoundsLeft(c: Config, q: Queues, clients: seq<Client>)
    requires PlacesInv(c, q, clients) && q.responses != []
    ensures q.responses[0].client < |clients| && clients[q.responses[0].client].round < c.totals[q.responses[0].client]
  {
    HeadIsAlone(q);
  }

  /** The stack of sub-questions is not empty when one is popped. */
  lemma SupplySuffices(c: Config, clients: seq<Client>, questions: seq<Sample>, j: nat)
    requires SupplyInv(c, clients, questions) && j < |clients| && clients[j].round + 1 < c.totals[j]
    ensures questions != []
  {
    SumNonNegative(Needed(c.totals, Rounds(clients)));
    assert Needed(c.totals, Rounds(clients))[j] >= 1;
  }

  lemma SupplyAfter(c: Config, clients: seq<Client>, questions: seq<Sample>, j: nat, cl: Client)
    requires SupplyInv(c, clients, questions) && j < |clients|
    requires cl.round == clients[j].round + 1 <= c.totals[j]
    ensures cl.round < c.totals[j] ==> questions != [] && SupplyInv(c, clients[j := cl], questions[..|questions| - 1])
    ensures cl.round == c.totals[j] ==> SupplyInv(c, clients[j := cl], questions)
  {
    var before := Needed(c.totals, Rounds(clients));
    var after := Needed(c.totals, Rounds(clients[j := cl]));
    if cl.round < c.totals[j] { SupplySuffices(c, clients, questions, j); }
    assert after == before[j := after[j]];
    SumUpdate(before, j, after[j]);
  }

  lemma CountersAfter(c: Config, s: State, t: Queues, j: nat, cl: Client)
    requires CountersInv(c, s.q, s.n, s.clients) && j < |s.clients| && s.q.responses != []
    requires cl.round == s.clients[j].round + 1
    requires |t.flight| == |s.q.flight| && t.delivering == s.q.delivering
    requires |t.responses| == |s.q.responses| - 1 && t.failed == s.q.failed
    ensures CountersInv(c, t, s.n.(completed := s.n.completed + 1), s.clients[j := cl])
  {
    RoundsUpdate(s.clients, j, cl);
    SumUpdate(Rounds(s.clients), j, cl.round);
  }

  lemma MetricsAfter(c: Config, clients: seq<Client>, perRound: seq<nat>, j: nat, cl: Client)
    requires MetricsInv(c, clients, perRound) && j < |clients|
    requires cl.round == clients[j].round + 1 <= c.maxRounds
    ensures var round := clients[j].round;
            MetricsInv(c, clients[j := cl], if c.barrier then perRound[round := perRound[round] + 1] else perRound)
  {
    var round := clients[j].round;
    RoundsUpdate(clients, j, cl);
    forall r | 0 <= r < c.maxRounds
      ensures CountAbove(Rounds(clients[j := cl]), r) == CountAbove(Rounds(clients), r) + (if r == round then 1 else 0)
    {
      CountAboveUpdate(Rounds(clients), j, cl.round, r);
    }
  }

  lemma PlacesAfter(c: Config, q: Queues, t: Queues, clients: seq<Client>, j: nat, cl: Client)
    requires PlacesInv(c, q, clients) && j < |clients| && j in Placed(q)
    requires cl.round == clients[j].round + 1 <= c.totals[j]
    requires Placed(t) == if cl.round < c.totals[j] then Placed(q) else Placed(q) - multiset{j}
    ensures PlacesInv(c, t, clients[j := cl])
  {
    hide Placed;
    var u := clients[j := cl];
    assert forall i :: Placed(t)[i] <= Placed(q)[i];
    forall i | 0 <= i < |u|
      ensures u[i].round <= c.totals[i] && (u[i].round < c.totals[i] <==> i in Placed(t))
    {
      if i != j { assert Placed(t)[i] == Placed(q)[i]; }
    }
  }

  /* ---------- the barrier ---------- */

  /** The barrier's counter and phase after one more completed round. */
  function NewPhase(c: Config, b: Barrier): Phase
    requires b.round < |c.clientsPerRound|
  {
    if b.done + 1 == c.clientsPerRound[b.round] then Releasing else Polling
  }

  lemma BarrierRoundsAfter(c: Config, clients: seq<Client>, b: Barrier, j: nat, cl: Client)
    requires ValidConfig(c) && BarrierRounds(c, clients, b, Polling) && j < |clients|
    requires forall i :: 0 <= i < |clients| ==> clients[i].round <= c.totals[i]
    requires clients[j].round == b.round < c.totals[j] && cl.round == b.round + 1
    ensures b.round < c.maxRounds
    ensures BarrierRounds(c, clients[j := cl], b.(done := b.done + 1), NewPhase(c, b))
  {
    var u := clients[j := cl];
    RoundsUpdate(clients, j, cl);
    CountAboveUpdate(Rounds(clients), j, cl.round, b.round);
    CountAboveMonotone(Rounds(u), c.totals, b.round);
    CountAbovePositive(c.totals, b.round, j);
    hide CountAbove;
    assert c.clientsPerRound[b.round] == CountAbove(c.totals, b.round);
  }

  /** The client being handled occurs at no other entry. */
  ghost predicate Elsewhere(q: Queues, j: nat) {
    && (forall i :: 0 <= i < |q.ready| ==> q.ready[i].client != j)
    && (forall i :: 0 <= i < |q.flight| ==> q.flight[i].client != j)
    && (forall i :: 0 <= i < |q.held| ==> q.held[i].client != j)
    && (forall i :: 0 <= i < |q.delivering| ==> q.delivering[i].client != j)
    && (forall i :: 0 <= i < |q.responses| ==> q.responses[i].client != j)
    && (forall i :: 0 <= i < |q.failed| ==> q.failed[i] != j)
  }

  lemma OthersElsewhere(c: Config, q: Queues, clients: seq<Client>)
    requires PlacesInv(c, q, clients) && q.responses != []
    ensures Elsewhere(TakeHead(q), q.responses[0].client)
  {
    HeadIsAlone(q);
    hide PlacesInv;
    TakeMoves(q);
    EntriesArePlaced(TakeHead(q));
    hide Waiting, Served;
  }

  lemma RoundsWithinTotals(c: Config, q: Queues, clients: seq<Client>)
    requires PlacesInv(c, q, clients)
    ensures |clients| == |c.totals| && forall i :: 0 <= i < |clients| ==> clients[i].round <= c.totals[i]
  {
  }

  predicate HasRound(c: Config, j: nat, round: nat) { j < |c.totals| && round < c.totals[j] }

  /** All outstanding requests belong to a round their client still has to do. */
  ghost predicate RoundsLeft(c: Config, q: Queues, round: nat) {
    && (forall i :: 0 <= i < |q.ready| ==> HasRound(c, q.ready[i].client, round))
    && (forall i :: 0 <= i < |q.flight| ==> HasRound(c, q.flight[i].client, round))
    && (forall i :: 0 <= i < |q.delivering| ==> HasRound(c, q.delivering[i].client, round))
    && (forall i :: 0 <= i < |q.responses| ==> HasRound(c, q.responses[i].client, round))
  }

  lemma OutstandingHaveRoundsLeft(c: Config, q: Queues, clients: seq<Client>, b: Barrier)
    requires PlacesInv(c, q, clients) && BarrierQueues(q, clients, b, Polling)
    ensures RoundsLeft(c, q, b.round)
  {
    EntriesArePlaced(q);
    hide Waiting, Served;
  }

  lemma OthersKeepRounds(q: Queues, clients: seq<Client>, b: Barrier, j: nat, cl: Client)
    requires BarrierQueues(q, clients, b, Polling) && Elsewhere(q, j) && j < |clients|
    ensures BarrierQueues(q, clients[j := cl], b, Polling)
  {
  }

  /** When the barrier opens, nobody with rounds left still is in the old round. */
  lemma NobodyBehindAtRelease(c: Config, q: Queues, clients: seq<Client>, b: Barrier)
    requires BarrierRounds(c, clients, b, Releasing)
    requires BarrierQueues(q, clients, b, Polling) && RoundsLeft(c, q, b.round)
    ensures BarrierQueues(q, clients, b, Releasing)
  {
    hide CountAbove;
  }

  lemma BarrierQueuesAfter(c: Config, q: Queues, clients: seq<Client>, b: Barrier, j: nat, cl: Client)
    requires BarrierQueues(q, clients, b, Polling) && Elsewhere(q, j) && RoundsLeft(c, q, b.round)
    requires j < |clients| && cl.round == b.round + 1 && b.round < |c.clientsPerRound|
    requires BarrierRounds(c, clients[j := cl], b.(done := b.done + 1), NewPhase(c, b))
    ensures BarrierQueues(q, clients[j := cl], b, NewPhase(c, b))
    ensures BarrierQueues(Requeue(true, q, j), clients[j := cl], b, NewPhase(c, b))
  {
    var u := clients[j := cl];
    OthersKeepRounds(q, clients, b, j, cl);
    hide BarrierRounds, RoundsLeft, Elsewhere;
    if NewPhase(c, b).Releasing? { NobodyBehindAtRelease(c, q, u, b.(done := b.done + 1)); }
  }

  /* ---------- the conversation ---------- */

  lemma {:induction false} ConversationExtends(first: seq<Item>, replies: seq<seq<Item>>, asked: seq<seq<Item>>,
                                               replies': seq<seq<Item>>, asked': seq<seq<Item>>, k: nat)
    requires k <= |replies| && k <= |asked| && replies <= replies' && asked <= asked'
    ensures Conversation(first, replies', asked', k) == Conversation(first, replies, asked, k)
  {
    if k > 0 { ConversationExtends(first, replies, asked, replies', asked', k - 1); }
  }

  lemma ConversationsExtend(first: seq<Item>, cl: Client, replies: seq<seq<Item>>, asked: seq<seq<Item>>)
    requires cl.replies <= replies && cl.asked <= asked && |cl.asked| <= |cl.replies|
    ensures forall k :: 0 <= k <= |cl.asked| ==>
              Conversation(first, replies, asked, k) == Conversation(first, cl.replies, cl.asked, k)
  {
    forall k | 0 <= k <= |cl.asked|
      ensures Conversation(first, replies, asked, k) == Conversation(first, cl.replies, cl.asked, k)
    {
      ConversationExtends(first, cl.replies, cl.asked, replies, asked, k);
    }
  }

  /** A client record stays its conversation when the last reply is appended. */
  lemma AnsweredClient(total: nat, first: seq<Item>, cl: Client, reply: seq<Item>)
    requires ClientInv(total, first, cl, 1) && cl.round + 1 == total
    ensures ClientInv(total, first, Answered(cl, reply), 0)
  {
    ConversationsExtend(first, cl, cl.replies + [reply], cl.asked);
  }

  /** Likewise when a reply and the next sub-question are appended. */
  lemma AskedClient(total: nat, first: seq<Item>, cl: Client, reply: seq<Item>, question: seq<Item>)
    requires ClientInv(total, first, cl, 1) && cl.round + 1 < total
    ensures ClientInv(total, first, Asked(Answered(cl, reply), question), 0)
  {
    var replies, asked := cl.replies + [reply], cl.asked + [question];
    ConversationsExtend(first, cl, replies, asked);
    assert Conversation(first, replies, asked, cl.round + 1)
        == Conversation(first, replies, asked, cl.round) + reply + question;
    hide Conversation;
  }

  lemma OthersKeepPayloads(rs: seq<Request>, clients: seq<Client>, j: nat, cl: Client)
    requires PayloadsCurrent(rs, clients) && j < |clients|
    requires forall i :: 0 <= i < |rs| ==> rs[i].client != j
    ensures PayloadsCurrent(rs, clients[j := cl])
    ensures PayloadsCurrent(rs + [Request(j, SharedHistory)], clients[j := cl])
  {
  }

  lemma ChainAfter(c: Config, first: seq<Sample>, q: Queues, t: Queues, clients: seq<Client>, j: nat, cl: Client)
    requires ChainInv(c, first, q, clients) && j < |clients|
    requires Served(q) == Served(t) + multiset{j} && Served(t)[j] == 0
    requires ClientInv(c.totals[j], QuestionItems(c.format, first[j]), cl, 0)
    requires q.responses != [] && Elsewhere(TakeHead(q), j)
    requires t == TakeHead(q) || t == Requeue(c.barrier, TakeHead(q), j)
    ensures ChainInv(c, first, t, clients[j := cl])
  {
    hide Served, ClientInv, QuestionItems, PayloadsCurrent;
    OthersKeepPayloads(q.ready, clients, j, cl);
    OthersKeepPayloads(q.flight, clients, j, cl);
    OthersKeepPayloads(q.held, clients, j, cl);
    ChainAfterUpdate(c, first, q, t, clients, j, cl);
  }

  /* ---------- putting it together ---------- */

  /** Neither exception of the handler is reached. */
  lemma SuccessIsSafe(c: Config, first: seq<Sample>, s: State)
    requires Handling(c, first, s)
    ensures More(c, s) ==> s.questions != []
    ensures s.clients[Head(s)].round < c.totals[Head(s)] <= c.maxRounds
    ensures c.barrier ==> s.clients[Head(s)].round == s.b.round < |c.clientsPerRound|
  {
    hide CountersInv, MetricsInv, ChainInv, PlacesInv, SupplyInv, BarrierRounds;
    HeadHasRoundsLeft(c, s.q, s.clients);
    if More(c, s) { SupplySuffices(c, s.clients, s.questions, Head(s)); }
  }

  lemma SuccessOutcome(c: Config, s: State)
    requires Shaped(c, s) && s.phase.Polling? && s.q.responses != []
    requires More(c, s) ==> s.questions != []
    requires s.clients[Head(s)].round < c.totals[Head(s)] <= c.maxRounds
    requires c.barrier ==> s.clients[Head(s)].round == s.b.round < |c.clientsPerRound|
    ensures var t, j := HandleSuccess(c, s), Head(s);
            && t.q == NewQueues(c, s)
            && t.n == s.n.(completed := s.n.completed + 1)
            && t.clients == s.clients[j := if More(c, s) then NewRecord(c, s) else FinalRecord(c, s)]
            && t.questions == (if More(c, s) then s.questions[..|s.questions| - 1] else s.questions)
            && t.sending == s.sending
            && t.b == (if c.barrier
                       then s.b.(done := s.b.done + 1,
                                 perRound := s.b.perRound[s.b.round := s.b.perRound[s.b.round] + 1])
                       else s.b)
            && t.phase == (if c.barrier then NewPhase(c, s.b) else s.phase)
  {
    hide ReplyItems, QuestionItems, Answered, Asked, TakeHead, Requeue, QueuesBelow;
  }

  lemma SuccessKeepsBarrier(c: Config, s: State, cl: Client)
    requires Shaped(c, s) && s.q.responses != [] && s.phase.Polling?
    requires ValidConfig(c) && PlacesInv(c, s.q, s.clients) && BarrierInv(c, s.q, s.clients, s.b, s.phase)
    requires cl.round == s.clients[Head(s)].round + 1
    requires c.barrier && s.clients[Head(s)].round == s.b.round < |c.clientsPerRound|
    ensures BarrierInv(c, NewQueues(c, s), s.clients[Head(s) := cl], s.b.(done := s.b.done + 1), NewPhase(c, s.b))
  {
    hide BarrierRounds, BarrierQueues, PlacesInv, ValidConfig, QueuesBelow;
    OthersElsewhere(c, s.q, s.clients);
    HeadHasRoundsLeft(c, s.q, s.clients);
    RoundsWithinTotals(c, s.q, s.clients);
    OutstandingHaveRoundsLeft(c, s.q, s.clients, s.b);
    TakeKeepsBarrierQueues(c, s.q, s.clients, s.b);
    hide Elsewhere, RoundsLeft;
    BarrierRoundsAfter(c, s.clients, s.b, Head(s), cl);
    hide NewPhase, TakeHead, Requeue;
    BarrierQueuesAfter(c, TakeHead(s.q), s.clients, s.b, Head(s), cl);
    SameQueuesOtherDone(NewQueues(c, s), s.clients[Head(s) := cl], s.b, NewPhase(c, s.b));
  }

  lemma SuccessKeepsNoBarrier(c: Config, s: State, clients: seq<Client>)
    requires Shaped(c, s) && s.q.responses != []
    requires !c.barrier && BarrierInv(c, s.q, s.clients, s.b, s.phase)
    ensures BarrierInv(c, NewQueues(c, s), clients, s.b, s.phase)
  {
    hide QueuesBelow, BarrierRounds, BarrierQueues;
  }

  lemma TakeKeepsBarrierQueues(c: Config, q: Queues, clients: seq<Client>, b: Barrier)
    requires q.responses != [] && BarrierQueues(q, clients, b, Polling) && RoundsLeft(c, q, b.round)
    ensures BarrierQueues(TakeHead(q), clients, b, Polling) && RoundsLeft(c, TakeHead(q), b.round)
  {
  }

  lemma SameQueuesOtherDone(q: Queues, clients: seq<Client>, b: Barrier, phase: Phase)
    requires BarrierQueues(q, clients, b, phase)
    ensures BarrierQueues(q, clients, b.(done := b.done + 1), phase)
  {
  }

  lemma SameBarrierOtherMetrics(c: Config, q: Queues, clients: seq<Client>, b: Barrier, phase: Phase,
                                perRound: seq<nat>)
    requires BarrierInv(c, q, clients, b, phase)
    ensures BarrierInv(c, q, clients, b.(perRound := perRound), phase)
  {
    hide CountAbove;
  }

  lemma NewQueuesPlaced(c: Config, s: State)
    requires Shaped(c, s) && s.q.responses != []
    ensures Placed(NewQueues(c, s)) == if More(c, s) then Placed(s.q) else Placed(s.q) - multiset{Head(s)}
  {
    hide QueuesBelow, TakeHead, Requeue;
    TakeMoves(s.q);
    RequeueMoves(c.barrier, TakeHead(s.q), Head(s));
    hide Waiting, Served;
    var q := NewQueues(c, s);
    if More(c, s) {
      assert Placed(q) == Placed(s.q);
    } else {
      assert Placed(s.q) == Placed(q) + multiset{Head(s)};
    }
  }

  lemma SuccessKeepsPlaces(c: Config, s: State, cl: Client)
    requires Shaped(c, s) && s.q.responses != [] && PlacesInv(c, s.q, s.clients)
    requires cl.round == s.clients[Head(s)].round + 1
    ensures PlacesInv(c, NewQueues(c, s), s.clients[Head(s) := cl])
  {
    HeadHasRoundsLeft(c, s.q, s.clients);
    HeadIsAlone(s.q);
    hide PlacesInv, NewQueues, Placed, Waiting, Served, TakeHead, QueuesBelow;
    NewQueuesPlaced(c, s);
    PlacesAfter(c, s.q, NewQueues(c, s), s.clients, Head(s), cl);
  }

  lemma HeadIsServedOnce(c: Config, first: seq<Sample>, s: State)
    requires Handling(c, first, s)
    ensures Served(s.q)[Head(s)] == 1 && Served(TakeHead(s.q))[Head(s)] == 0
  {
    hide CountersInv, SupplyInv, MetricsInv, ChainInv, BarrierInv;
    HeadIsAlone(s.q);
    TakeMoves(s.q);
  }

  lemma SuccessKeepsChain(c: Config, first: seq<Sample>, s: State)
    requires Handling(c, first, s) && (More(c, s) ==> s.questions != [])
    ensures ChainInv(c, first, NewQueues(c, s),
              s.clients[Head(s) := if More(c, s) then NewRecord(c, s) else FinalRecord(c, s)])
  {
    hide CountersInv, SupplyInv, MetricsInv, BarrierInv;
    var j := Head(s);
    HeadHasRoundsLeft(c, s.q, s.clients);
    OthersElsewhere(c, s.q, s.clients);
    HeadIsServedOnce(c, first, s);
    TakeMoves(s.q);
    RequeueMoves(c.barrier, TakeHead(s.q), j);
    hide PlacesInv, Waiting, Served, Elsewhere, ClientInv, QuestionItems, ReplyItems;
    var opening, reply := QuestionItems(c.format, first[j]), ReplyItems(c.format, s.q.responses[0].response);
    assert ClientInv(c.totals[j], opening, s.clients[j], 1);
    if More(c, s) {
      AskedClient(c.totals[j], opening, s.clients[j], reply, QuestionItems(c.format, s.questions[|s.questions| - 1]));
      ChainAfter(c, first, s.q, NewQueues(c, s), s.clients, j, NewRecord(c, s));
    } else {
      AnsweredClient(c.totals[j], opening, s.clients[j], reply);
      ChainAfter(c, first, s.q, NewQueues(c, s), s.clients, j, FinalRecord(c, s));
    }
  }

  lemma SuccessKeepsInv(c: Config, first: seq<Sample>, s: State)
    requires Handling(c, first, s)
    ensures Inv(c, first, HandleSuccess(c, s))
  {
    hide PlacesInv, CountersInv, SupplyInv, MetricsInv, BarrierInv, ChainInv;
    SuccessIsSafe(c, first, s);
    SuccessOutcome(c, s);
    HandleSuccessShaped(c, s);
    var t, j := HandleSuccess(c, s), Head(s);
    var cl := if More(c, s) then NewRecord(c, s) else FinalRecord(c, s);
    assert cl.round == s.clients[j].round + 1;
    hide HandleSuccess;
    SupplyAfter(c, s.clients, s.questions, j, cl);
    CountersAfter(c, s, t.q, j, cl);
    MetricsAfter(c, s.clients, s.b.perRound, j, cl);
    SuccessKeepsPlaces(c, s, cl);
    SuccessKeepsChain(c, first, s);
    if !c.barrier {
      SuccessKeepsNoBarrier(c, s, t.clients);
    } else {
      SuccessKeepsBarrier(c, s, cl);
      SameBarrierOtherMetrics(c, t.q, t.clients, s.b.(done := s.b.done + 1), t.phase, t.b.perRound);
    }
  }
}
