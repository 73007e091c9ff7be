/** Over every run of the multi-turn benchmark: histories and prompts are made of the
    responses the schedule gives and of sub-questions used once each, and requests
    and responses keep their order. */
module MultiturnDialogue {
  import opened Sequences
  import opened Multiturn
  import opened MultiturnInvariant
  import opened MultiturnHandle
  import opened MultiturnTheorems
  import opened MultiturnLedger

  /* ---------- the ledger and the state ---------- */

  /** A client's log against the responses given to it and the samples asked. */
  ghost predicate RecordInv(f: ApiFormat, samples: seq<Sample>, cl: Client, given: seq<Response>, asked: seq<nat>) {
    && |cl.replies| <= |given|
    && (forall k :: 0 <= k < |cl.replies| ==> given[k].success && IsReply(f, given[k], cl.replies[k]))
    && |cl.asked| == |asked|
    && (forall k :: 0 <= k < |asked| ==> asked[k] < |samples| && IsQuestion(f, samples[asked[k]], cl.asked[k]))
  }

  ghost predicate Records(f: ApiFormat, samples: seq<Sample>, clients: seq<Client>,
                          given: seq<seq<Response>>, asked: seq<seq<nat>>) {
    && |clients| == |given| == |asked|
    && forall j :: 0 <= j < |clients| ==> RecordInv(f, samples, clients[j], given[j], asked[j])
  }

  /** All responses given to the client have been credited. */
  predicate Settled(j: nat, clients: seq<Client>, given: seq<seq<Response>>) {
    j < |clients| == |given| && |given[j]| == |clients[j].replies|
  }

  /** The response on its way is the last one given to its client. */
  predicate Owed(d: Delivery, clients: seq<Client>, given: seq<seq<Response>>) {
    && d.client < |clients| == |given|
    && (d.response.success ==>
          var n := |clients[d.client].replies|;
          |given[d.client]| == n + 1 && given[d.client][n] == d.response)
  }

  predicate AllSettled(rs: seq<Request>, clients: seq<Client>, given: seq<seq<Response>>) {
    forall i :: 0 <= i < |rs| ==> Settled(rs[i].client, clients, given)
  }

  predicate AllOwed(ds: seq<Delivery>, clients: seq<Client>, given: seq<seq<Response>>) {
    forall i :: 0 <= i < |ds| ==> Owed(ds[i], clients, given)
  }

  ghost predicate Entries(q: Queues, clients: seq<Client>, given: seq<seq<Response>>) {
    && AllSettled(q.ready, clients, given) && AllSettled(q.flight, clients, given) && AllSettled(q.held, clients, given)
    && AllOwed(q.delivering, clients, given) && AllOwed(q.responses, clients, given)
  }

  /** The sub-questions left are the first ones, and the others were used once each. */
  ghost predicate Supply(samples: seq<Sample>, left: seq<Sample>, asked: seq<seq<nat>>) {
    && left <= samples
    && (forall j, k :: 0 <= j < |asked| && 0 <= k < |asked[j]| ==> |left| <= asked[j][k] < |samples|)
    && (forall j, k, m, n :: 0 <= j < |asked| && 0 <= k < |asked[j]| && 0 <= m < |asked| && 0 <= n < |asked[m]| ==>
          asked[j][k] != asked[m][n] || (j == m && k == n))
  }

  ghost predicate LedgerInv(c: Config, samples: seq<Sample>, s: State, g: Ledger) {
    && Sized(c, g)
    && EndOrder(s.q, g) && (c.policy.Fifo? ==> SendOrder(c, s.q, g))
    && Records(c.format, samples, s.clients, g.given, g.asked)
    && Entries(s.q, s.clients, g.given)
    && Supply(samples, s.questions, g.asked)
  }

  /* ---------- sending ---------- */

  lemma SendKeepsOrder(c: Config, s: State, g: Ledger)
    requires Shaped(c, s) && Sized(c, g) && Enabled(c, s, Send(0))
    requires SendOrder(c, s.q, g)
    ensures SendOrder(c, SendAt(s, 0).q, Note(c, s, Send(0), g))
  {
    var q, t, j := s.q, SendAt(s, 0).q, s.q.ready[0].client;
    assert t.ready == q.ready[1..] && t.held == q.held;
    hide SendAt, QueuesBelow;
    assert Ids(q.ready, Requester) == [j] + Ids(t.ready, Requester);
    hide Ids;
    HeadMoves(g.sent, j, Ids(t.ready, Requester), Ids(q.held, Requester));
  }

  lemma HeadMoves(a: seq<nat>, x: nat, b: seq<nat>, d: seq<nat>)
    ensures a + ([x] + b) + d == a + [x] + b + d
  {
  }

  lemma SendKeepsLedger(c: Config, samples: seq<Sample>, s: State, k: nat, g: Ledger)
    requires Shaped(c, s) && Enabled(c, s, Send(k)) && LedgerInv(c, samples, s, g)
    ensures LedgerInv(c, samples, SendAt(s, k), Note(c, s, Send(k), g))
  {
    if c.policy.Fifo? { SendKeepsOrder(c, s, g); }
    hide SendOrder, Supply, IsReply, IsQuestion;
    var j := s.q.ready[k].client;
    var t := SendAt(s, k);
    assert forall i :: 0 <= i < |s.clients| ==>
      t.clients[i].replies == s.clients[i].replies && t.clients[i].asked == s.clients[i].asked;
  }

  /* ---------- ending and delivering ---------- */

  /** The client of a request on its way occurs at no other entry. */
  lemma FlightIsAlone(c: Config, q: Queues, clients: seq<Client>, k: nat)
    requires PlacesInv(c, q, clients) && k < |q.flight|
    ensures Elsewhere(q.(flight := RemoveAt(q.flight, k)), q.flight[k].client)
  {
    var j, t := q.flight[k].client, q.(flight := RemoveAt(q.flight, k));
    LeavingFlight(q, k);
    hide Waiting, Served;
    assert Placed(q)[j] == Waiting(t)[j] + Served(t)[j] + 1;
    assert Placed(q)[j] <= 1;
    hide PlacesInv;
    EntriesArePlaced(t);
  }

  lemma LeavingFlight(q: Queues, k: nat)
    requires k < |q.flight|
    ensures var t := q.(flight := RemoveAt(q.flight, k));
            Waiting(t) == Waiting(q) && Served(q) == Served(t) + multiset{q.flight[k].client}
  {
    IdsRemove(q.flight, Requester, k);
  }

  lemma OthersSettled(rs: seq<Request>, clients: seq<Client>, given: seq<seq<Response>>, j: nat, more: seq<Response>)
    requires AllSettled(rs, clients, given) && j < |given| && forall i :: 0 <= i < |rs| ==> rs[i].client != j
    ensures AllSettled(rs, clients, given[j := more])
  {
  }

  lemma OthersOwed(ds: seq<Delivery>, clients: seq<Client>, given: seq<seq<Response>>, j: nat, more: seq<Response>)
    requires AllOwed(ds, clients, given) && j < |given| && forall i :: 0 <= i < |ds| ==> ds[i].client != j
    ensures AllOwed(ds, clients, given[j := more])
  {
  }

  lemma AdvanceKeepsEntries(c: Config, s: State, k: nat, r: Response, given: seq<seq<Response>>)
    requires k < |s.q.flight| && s.q.delivering == [] && s.q.flight[k].client < |given|
    requires PlacesInv(c, s.q, s.clients) && Entries(s.q, s.clients, given)
    ensures var j := s.q.flight[k].client;
            Entries(AdvanceAt(s, k, r).q, s.clients, given[j := given[j] + [r]])
  {
    hide PlacesInv;
    var j := s.q.flight[k].client;
    var rest, more := RemoveAt(s.q.flight, k), given[j] + [r];
    FlightIsAlone(c, s.q, s.clients, k);
    assert Settled(j, s.clients, given);
    assert AllSettled(rest, s.clients, given);
    assert Owed(Delivery(j, r), s.clients, given[j := more]);
    hide Settled, Owed;
    OthersSettled(s.q.ready, s.clients, given, j, more);
    OthersSettled(rest, s.clients, given, j, more);
    OthersSettled(s.q.held, s.clients, given, j, more);
    OthersOwed(s.q.responses, s.clients, given, j, more);
    hide Elsewhere;
  }

  lemma MoreGiven(f: ApiFormat, samples: seq<Sample>, clients: seq<Client>,
                  given: seq<seq<Response>>, asked: seq<seq<nat>>, j: nat, r: Response)
    requires Records(f, samples, clients, given, asked) && j < |clients|
    ensures Records(f, samples, clients, given[j := given[j] + [r]], asked)
  {
    hide IsReply, IsQuestion;
  }

  lemma SameSendOrder(c: Config, q: Queues, t: Queues, g: Ledger, h: Ledger)
    requires t.ready == q.ready && t.held == q.held && h.turns == g.turns && h.sent == g.sent
    ensures SendOrder(c, t, h) == SendOrder(c, q, g)
  {
  }

  lemma AdvanceKeepsEndOrder(c: Config, s: State, k: nat, r: Response, g: Ledger)
    requires Shaped(c, s) && Enabled(c, s, Advance(k, r)) && Sized(c, g) && EndOrder(s.q, g)
    ensures EndOrder(AdvanceAt(s, k, r).q, Note(c, s, Advance(k, r), g))
  {
    hide QueuesBelow;
    assert g.handled + s.q.responses + [] == g.handled + s.q.responses;
  }

  lemma AdvanceKeepsLedger(c: Config, samples: seq<Sample>, s: State, k: nat, r: Response, g: Ledger)
    requires Shaped(c, s) && Enabled(c, s, Advance(k, r)) && Sized(c, g)
    requires LedgerInv(c, samples, s, g) && PlacesInv(c, s.q, s.clients)
    ensures LedgerInv(c, samples, AdvanceAt(s, k, r), Note(c, s, Advance(k, r), g))
  {
    hide PlacesInv, Records, Entries, Supply, SendOrder, EndOrder;
    var j := s.q.flight[k].client;
    assert j < |s.clients|;
    hide QueuesBelow;
    AdvanceKeepsEntries(c, s, k, r, g.given);
    MoreGiven(c.format, samples, s.clients, g.given, g.asked, j, r);
    AdvanceKeepsEndOrder(c, s, k, r, g);
    SameSendOrder(c, s.q, AdvanceAt(s, k, r).q, g, Note(c, s, Advance(k, r), g));
  }

  lemma EscapeKeepsLedger(c: Config, samples: seq<Sample>, s: State, k: nat, g: Ledger)
    requires Shaped(c, s) && Enabled(c, s, Escape(k)) && LedgerInv(c, samples, s, g)
    ensures LedgerInv(c, samples, EscapeAt(s, k), Note(c, s, Escape(k), g))
  {
    hide Records, Supply;
    var d := Delivery(s.q.flight[k].client, NoResponse);
    assert Settled(s.q.flight[k].client, s.clients, g.given);
    assert Owed(d, s.clients, g.given);
    hide QueuesBelow, Settled, Owed;
    assert g.handled + s.q.responses + [] + [d] == g.handled + (s.q.responses + [d]) + [];
  }

  lemma DeliverKeepsLedger(c: Config, samples: seq<Sample>, s: State, g: Ledger)
    requires Shaped(c, s) && Enabled(c, s, Deliver) && LedgerInv(c, samples, s, g)
    ensures LedgerInv(c, samples, Step(c, s, Deliver), Note(c, s, Deliver, g))
  {
    hide Records, Supply, QueuesBelow, Owed, Settled;
    assert g.handled + s.q.responses + s.q.delivering == g.handled + (s.q.responses + s.q.delivering) + [];
  }

  lemma ReleaseKeepsOrder(c: Config, q: Queues, g: Ledger)
    requires q.held != [] && SendOrder(c, q, g)
    ensures SendOrder(c, ReleaseHead(q), g)
  {
    var t, j := ReleaseHead(q), q.held[0].client;
    assert Ids(q.held, Requester) == [j] + Ids(t.held, Requester);
    assert Ids(t.ready, Requester) == Ids(q.ready, Requester) + [j];
    hide Ids, ReleaseHead;
    SameConcat(g.sent, Ids(q.ready, Requester), j, Ids(t.held, Requester));
  }

  lemma SameConcat(a: seq<nat>, b: seq<nat>, x: nat, d: seq<nat>)
    ensures a + b + ([x] + d) == a + (b + [x]) + d
  {
  }

  lemma ReleaseKeepsEntries(q: Queues, clients: seq<Client>, given: seq<seq<Response>>)
    requires q.held != [] && Entries(q, clients, given)
    ensures Entries(ReleaseHead(q), clients, given)
  {
    hide Settled, Owed;
  }

  lemma ReleaseKeepsLedger(c: Config, samples: seq<Sample>, s: State, g: Ledger)
    requires Shaped(c, s) && Enabled(c, s, ReleaseOne) && LedgerInv(c, samples, s, g)
    ensures LedgerInv(c, samples, Step(c, s, ReleaseOne), Note(c, s, ReleaseOne, g))
  {
    hide Records, Supply, QueuesBelow, Entries, SendOrder;
    if c.policy.Fifo? { ReleaseKeepsOrder(c, s.q, g); }
    ReleaseKeepsEntries(s.q, s.clients, g.given);
  }

  /* ---------- handling ---------- */

  lemma HandleKeepsEndOrder(q: Queues, t: Queues, ended: seq<Delivery>, handled: seq<Delivery>)
    requires ended == handled + q.responses + q.delivering && q.responses != []
    requires t.responses == q.responses[1..] && t.delivering == q.delivering
    ensures ended == handled + [q.responses[0]] + t.responses + t.delivering
  {
    assert q.responses == [q.responses[0]] + t.responses;
  }

  lemma FailureKeepsLedger(c: Config, samples: seq<Sample>, s: State, g: Ledger)
    requires Shaped(c, s) && s.q.responses != [] && !s.q.responses[0].response.success && s.phase.Polling?
    requires LedgerInv(c, samples, s, g)
    ensures LedgerInv(c, samples, HandleFailure(s), Note(c, s, Handle, g))
  {
    hide Records, Supply, Settled, Owed, QueuesBelow;
    HandleKeepsEndOrder(s.q, HandleFailure(s).q, g.ended, g.handled);
  }

  lemma SuccessKeepsOrder(c: Config, s: State, g: Ledger)
    requires Shaped(c, s) && s.q.responses != [] && Sized(c, g) && s.phase.Polling?
    requires s.q.responses[0].response.success && (More(c, s) ==> s.questions != [])
    requires SendOrder(c, s.q, g) && (!c.barrier ==> s.q.held == [])
    ensures SendOrder(c, NewQueues(c, s), Note(c, s, Handle, g))
  {
    assert Head(s) < |s.clients|;
    hide QueuesBelow;
    var j, q, t := Head(s), s.q, NewQueues(c, s);
    if More(c, s) {
      if c.barrier {
        assert Ids(t.held, Requester) == Ids(q.held, Requester) + [j];
      } else {
        assert Ids(t.ready, Requester) == Ids(q.ready, Requester) + [j];
        assert Ids(q.held, Requester) == [] && Ids(t.held, Requester) == [];
      }
      hide Ids;
      assert Numbers(|c.totals|) + (g.turns + [j]) == Numbers(|c.totals|) + g.turns + [j];
    }
  }

  /** The exchange of the client being handled. */
  lemma CreditKeepsRecord(c: Config, samples: seq<Sample>, s: State, given: seq<Response>, asked: seq<nat>)
    requires Shaped(c, s) && s.q.responses != [] && (More(c, s) ==> s.questions != []) && s.questions <= samples
    requires RecordInv(c.format, samples, s.clients[Head(s)], given, asked)
    requires var cl, r := s.clients[Head(s)], s.q.responses[0].response;
             r.success && |given| == |cl.replies| + 1 && given[|cl.replies|] == r
    ensures if More(c, s)
            then RecordInv(c.format, samples, NewRecord(c, s), given, asked + [|s.questions| - 1])
            else RecordInv(c.format, samples, FinalRecord(c, s), given, asked)
  {
    assert Head(s) < |s.clients|;
    hide QueuesBelow, ReplyItems, QuestionItems, IsReply, IsQuestion;
    ReplyItemsAre(c.format, s.q.responses[0].response);
    if More(c, s) { QuestionItemsAre(c.format, s.questions[|s.questions| - 1]); }
  }

  lemma SupplyAfterAsking(samples: seq<Sample>, left: seq<Sample>, asked: seq<seq<nat>>, j: nat)
    requires Supply(samples, left, asked) && left != [] && j < |asked|
    ensures Supply(samples, left[..|left| - 1], asked[j := asked[j] + [|left| - 1]])
  {
  }

  lemma OthersKeepEntries(rs: seq<Request>, ds: seq<Delivery>, clients: seq<Client>, given: seq<seq<Response>>,
                          j: nat, cl: Client)
    requires AllSettled(rs, clients, given) && AllOwed(ds, clients, given) && j < |clients|
    requires forall i :: 0 <= i < |rs| ==> rs[i].client != j
    requires forall i :: 0 <= i < |ds| ==> ds[i].client != j
    ensures AllSettled(rs, clients[j := cl], given) && AllOwed(ds, clients[j := cl], given)
  {
  }

  lemma SettledAppended(rs: seq<Request>, clients: seq<Client>, given: seq<seq<Response>>, j: nat)
    requires AllSettled(rs, clients, given) && Settled(j, clients, given)
    ensures AllSettled(rs + [Request(j, SharedHistory)], clients, given)
  {
  }

  lemma SuccessKeepsEntries(c: Config, s: State, given: seq<seq<Response>>, cl: Client)
    requires Shaped(c, s) && s.q.responses != [] && s.q.responses[0].response.success
    requires Elsewhere(TakeHead(s.q), Head(s)) && Entries(s.q, s.clients, given)
    requires |cl.replies| == |s.clients[Head(s)].replies| + 1
    ensures Entries(NewQueues(c, s), s.clients[Head(s) := cl], given)
  {
    var j, q := Head(s), TakeHead(s.q);
    var u := s.clients[j := cl];
    assert Owed(s.q.responses[0], s.clients, given);
    assert AllOwed(q.responses, s.clients, given);
    OthersKeepEntries(q.ready, q.responses, s.clients, given, j, cl);
    OthersKeepEntries(q.flight, q.delivering, s.clients, given, j, cl);
    OthersKeepEntries(q.held, [], s.clients, given, j, cl);
    assert Settled(j, u, given);
    hide Owed, Settled, Elsewhere, QueuesBelow, AllOwed, AllSettled;
    SettledAppended(q.ready, u, given, j);
    SettledAppended(q.held, u, given, j);
  }

  lemma SuccessKeepsRecords(c: Config, samples: seq<Sample>, s: State, given: seq<seq<Response>>, asked: seq<seq<nat>>)
    requires Shaped(c, s) && s.q.responses != [] && s.q.responses[0].response.success
    requires More(c, s) ==> s.questions != []
    requires Records(c.format, samples, s.clients, given, asked) && s.questions <= samples
    requires Owed(s.q.responses[0], s.clients, given)
    ensures Records(c.format, samples,
                    s.clients[Head(s) := if More(c, s) then NewRecord(c, s) else FinalRecord(c, s)], given,
                    if More(c, s) then asked[Head(s) := asked[Head(s)] + [|s.questions| - 1]] else asked)
  {
    assert Head(s) < |s.clients|;
    hide QueuesBelow, RecordInv, NewRecord, FinalRecord;
    CreditKeepsRecord(c, samples, s, given[Head(s)], asked[Head(s)]);
  }

  lemma SuccessNote(c: Config, s: State, g: Ledger)
    requires Shaped(c, s) && s.q.responses != [] && s.q.responses[0].response.success && s.phase.Polling?
    requires Sized(c, g) && (More(c, s) ==> s.questions != [])
    ensures var r := Note(c, s, Handle, g);
            && r.given == g.given && r.ended == g.ended && r.handled == g.handled + [s.q.responses[0]]
            && r.asked == if More(c, s) then g.asked[Head(s) := g.asked[Head(s)] + [|s.questions| - 1]] else g.asked
  {
  }

  /** What the invariant says about a success to be handled. */
  predicate Safe(c: Config, s: State)
    requires Shaped(c, s) && s.q.responses != []
  {
    && (More(c, s) ==> s.questions != [])
    && s.clients[Head(s)].round < c.totals[Head(s)] <= c.maxRounds
    && (c.barrier ==> s.clients[Head(s)].round == s.b.round < |c.clientsPerRound|)
    && (!c.barrier ==> s.q.held == [])
  }

  lemma SuccessSafe(c: Config, first: seq<Sample>, s: State)
    requires Shaped(c, s) && s.q.responses != [] && s.q.responses[0].response.success && s.phase.Polling?
    requires Inv(c, first, s)
    ensures Safe(c, s) && Elsewhere(TakeHead(s.q), Head(s))
  {
    hide PlacesInv, CountersInv, SupplyInv, MetricsInv, ChainInv, BarrierRounds, BarrierQueues, QueuesBelow;
    SuccessIsSafe(c, first, s);
    OthersElsewhere(c, s.q, s.clients);
    hide Elsewhere;
  }

  lemma OwedHead(q: Queues, clients: seq<Client>, given: seq<seq<Response>>)
    requires Entries(q, clients, given) && q.responses != []
    ensures Owed(q.responses[0], clients, given)
  {
  }

  lemma SuccessKeepsLedger(c: Config, samples: seq<Sample>, s: State, g: Ledger)
    requires Shaped(c, s) && s.q.responses != [] && s.q.responses[0].response.success && s.phase.Polling?
    requires Safe(c, s) && Elsewhere(TakeHead(s.q), Head(s)) && Sized(c, g) && LedgerInv(c, samples, s, g)
    ensures LedgerInv(c, samples, HandleSuccess(c, s), Note(c, s, Handle, g))
  {
    hide Elsewhere, QueuesBelow, Records, Supply, SendOrder, Entries, HandleSuccess, Note, NewRecord, FinalRecord;
    OwedHead(s.q, s.clients, g.given);
    SupplyLeft(samples, s.questions, g.asked);
    SuccessOutcome(c, s);
    SuccessNote(c, s, g);
    RepliesGrow(c, s);
    var cl := if More(c, s) then NewRecord(c, s) else FinalRecord(c, s);
    if c.policy.Fifo? { SuccessKeepsOrder(c, s, g); }
    SuccessTakes(c, s);
    HandleKeepsEndOrder(s.q, NewQueues(c, s), g.ended, g.handled);
    SuccessKeepsRecords(c, samples, s, g.given, g.asked);
    SuccessKeepsEntries(c, s, g.given, cl);
    if More(c, s) { SupplyAfterAsking(samples, s.questions, g.asked, Head(s)); }
    hide NewQueues, Owed;
  }

  lemma SupplyLeft(samples: seq<Sample>, left: seq<Sample>, asked: seq<seq<nat>>)
    requires Supply(samples, left, asked)
    ensures left <= samples
  {
  }

  lemma RepliesGrow(c: Config, s: State)
    requires Shaped(c, s) && s.q.responses != []
    ensures |FinalRecord(c, s).replies| == |s.clients[Head(s)].replies| + 1
    ensures s.questions != [] && More(c, s) ==> |NewRecord(c, s).replies| == |s.clients[Head(s)].replies| + 1
  {
  }

  lemma SuccessTakes(c: Config, s: State)
    requires Shaped(c, s) && s.q.responses != []
    ensures var t := NewQueues(c, s); t.responses == s.q.responses[1..] && t.delivering == s.q.delivering
  {
  }

  /* ---------- every run ---------- */

  lemma InitLedger(c: Config, first: seq<Sample>, questions: seq<Sample>)
    requires |first| == |c.totals|
    ensures LedgerInv(c, questions, Init(c, first, questions), EmptyLedger(|c.totals|))
  {
    hide QuestionItems;
    var s, g := Init(c, first, questions), EmptyLedger(|c.totals|);
    assert Ids(s.q.ready, Requester) == Numbers(|c.totals|);
    assert Ids(s.q.held, Requester) == [];
    hide Ids, Numbers;
    assert SendOrder(c, s.q, g);
  }

  lemma InvPlaces(c: Config, first: seq<Sample>, s: State)
    requires Inv(c, first, s)
    ensures PlacesInv(c, s.q, s.clients)
  {
    hide PlacesInv, CountersInv, SupplyInv, MetricsInv, BarrierInv, ChainInv, Shaped;
  }

  lemma StepKeepsLedger(c: Config, first: seq<Sample>, samples: seq<Sample>, s: State, a: Action, g: Ledger)
    requires Shaped(c, s) && Enabled(c, s, a) && LedgerInv(c, samples, s, g) && Inv(c, first, s)
    ensures LedgerInv(c, samples, Step(c, s, a), Note(c, s, a, g))
  {
    hide Inv, QueuesBelow;
    assert Sized(c, g);
    match a {
      case Send(k) => hide LedgerInv, Note, SendAt; SendKeepsLedger(c, samples, s, k, g);
      case Advance(k, r) =>
        InvPlaces(c, first, s);
        hide LedgerInv, Note, AdvanceAt, PlacesInv;
        AdvanceKeepsLedger(c, samples, s, k, r, g);
      case Deliver => hide LedgerInv, Note, DeliverAll; DeliverKeepsLedger(c, samples, s, g);
      case Escape(k) => hide LedgerInv, Note, EscapeAt; EscapeKeepsLedger(c, samples, s, k, g);
      case Handle =>
        hide LedgerInv, Note, HandleSuccess, HandleFailure;
        if s.q.responses[0].response.success {
          SuccessSafe(c, first, s);
          hide Elsewhere, Safe;
          SuccessKeepsLedger(c, samples, s, g);
        } else {
          FailureKeepsLedger(c, samples, s, g);
        }
      case ReleaseOne => hide LedgerInv, Note, ReleaseHead; ReleaseKeepsLedger(c, samples, s, g);
      case _ => hide EndOrder, SendOrder, Records, Entries, Supply;
    }
  }

  lemma {:induction false} RunKeepsLedger(c: Config, first: seq<Sample>, samples: seq<Sample>, s: State,
                                          actions: seq<Action>, g: Ledger)
    requires Shaped(c, s) && Runs(c, s, actions) && LedgerInv(c, samples, s, g) && Inv(c, first, s)
    ensures LedgerInv(c, samples, After(c, s, actions), LedgerAfter(c, s, actions, g))
    decreases |actions|
  {
    if actions != [] {
      StepKeepsInv(c, first, s, actions[0]);
      StepShaped(c, s, actions[0]);
      assert Sized(c, g);
      hide Inv, Step, Enabled, Shaped, LedgerInv, Note;
      StepKeepsLedger(c, first, samples, s, actions[0], g);
      RunKeepsLedger(c, first, samples, Step(c, s, actions[0]), actions[1..], Note(c, s, actions[0], g));
    }
  }

  /** The ledger of a whole run. */
  ghost function RunLedger(c: Config, first: seq<Sample>, questions: seq<Sample>, actions: seq<Action>): (g: Ledger)
    requires |first| == |c.totals| && Shaped(c, Init(c, first, questions))
    requires Runs(c, Init(c, first, questions), actions)
    ensures Sized(c, g)
  {
    LedgerAfter(c, Init(c, first, questions), actions, EmptyLedger(|c.totals|))
  }

  lemma WholeRun(c: Config, first: seq<Sample>, questions: seq<Sample>, actions: seq<Action>)
    requires ValidConfig(c) && ValidSamples(c, first, questions)
    requires Shaped(c, Init(c, first, questions)) && Runs(c, Init(c, first, questions), actions)
    ensures var t := After(c, Init(c, first, questions), actions);
            LedgerInv(c, questions, t, RunLedger(c, first, questions, actions)) && Reachable(c, first, questions, t)
  {
    InitInv(c, first, questions);
    InitLedger(c, first, questions);
    hide Init, Inv, LedgerInv, Shaped;
    RunKeepsLedger(c, first, questions, Init(c, first, questions), actions, EmptyLedger(|c.totals|));
  }

  /** The dialogue the server sees, over every run: the first prompt of a client is
      its first sample; each later one is the prompt before it, the response the
      server gave to that one, which was a success, and one sub-question, item by
      item. */
  lemma ServerDialogue(c: Config, first: seq<Sample>, questions: seq<Sample>, actions: seq<Action>, j: nat, k: nat)
    requires ValidConfig(c) && ValidSamples(c, first, questions)
    requires Shaped(c, Init(c, first, questions)) && Runs(c, Init(c, first, questions), actions)
    requires j < |c.totals|
    ensures var t, g := After(c, Init(c, first, questions), actions), RunLedger(c, first, questions, actions);
            && j < |t.clients|
            && (k < |t.clients[j].prompts| ==>
                  if k == 0 then IsQuestion(c.format, first[j], t.clients[j].prompts[0])
                  else
                    && k <= |g.given[j]| && k <= |g.asked[j]| && g.asked[j][k - 1] < |questions|
                    && g.given[j][k - 1].success
                    && Exchange(c.format, t.clients[j].prompts[k - 1], g.given[j][k - 1], questions[g.asked[j][k - 1]],
                                t.clients[j].prompts[k]))
  {
    hide Runs, ValidConfig;
    WholeRun(c, first, questions, actions);
    var t, g := After(c, Init(c, first, questions), actions), RunLedger(c, first, questions, actions);
    hide Init, After, RunLedger, EndOrder, SendOrder, Entries, Supply, Shaped, IsReply, IsQuestion, Exchange, Reachable;
    assert RecordInv(c.format, questions, t.clients[j], g.given[j], g.asked[j]);
    if k < |t.clients[j].prompts| {
      PromptChain(c, first, questions, t, j, k);
      var cl := t.clients[j];
      if k == 0 {
        QuestionItemsAre(c.format, first[j]);
      } else {
        ExchangeIs(c.format, cl.prompts[k - 1], g.given[j][k - 1], questions[g.asked[j][k - 1]],
                   cl.replies[k - 1], cl.asked[k - 1]);
      }
    }
  }

  /** Over every run: each sub-question is used at most once, the last ones first;
      responses are handled in the order in which the requests ended; and with the
      fifo policy requests are sent in the order in which they came up. */
  lemma OrdersKept(c: Config, first: seq<Sample>, questions: seq<Sample>, actions: seq<Action>)
    requires ValidConfig(c) && ValidSamples(c, first, questions)
    requires Shaped(c, Init(c, first, questions)) && Runs(c, Init(c, first, questions), actions)
    ensures var t, g := After(c, Init(c, first, questions), actions), RunLedger(c, first, questions, actions);
            && Supply(questions, t.questions, g.asked)
            && g.ended == g.handled + t.q.responses + t.q.delivering
            && (c.policy.Fifo? ==> SendOrder(c, t.q, g))
  {
    WholeRun(c, first, questions, actions);
    hide Init, After, RunLedger, Runs, SendOrder, Entries, Records, Supply, Shaped, Reachable;
  }
}
