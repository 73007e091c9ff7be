/** The invariant of the multi-turn protocol, kept by every step of every thread
    whatever the server answers. */
module MultiturnInvariant {
  import opened Sequences
  import opened Multiturn

  /* ---------- where a client is ---------- */

  /** The clients the entries of a queue belong to. */
  function Ids<T>(entries: seq<T>, owner: T -> nat): (r: seq<nat>)
    ensures |r| == |entries| && forall i :: 0 <= i < |entries| ==> r[i] == owner(entries[i])
  {
    seq(|entries|, i requires 0 <= i < |entries| => owner(entries[i]))
  }

  function Requester(r: Request): nat { r.client }

  function Addressee(d: Delivery): nat { d.client }

  /** Occurrences of each client id as waiting to be sent. */
  function Waiting(q: Queues): multiset<nat> {
    multiset(Ids(q.ready, Requester)) + multiset(Ids(q.held, Requester))
  }

  /** Occurrences of each client id with a prompt sent and not yet credited. */
  function Served(q: Queues): multiset<nat> {
    multiset(Ids(q.flight, Requester)) + multiset(Ids(q.delivering, Addressee))
    + multiset(Ids(q.responses, Addressee)) + multiset(q.failed)
  }

  function Placed(q: Queues): multiset<nat> { Waiting(q) + Served(q) }

  lemma IdsRemove<T>(s: seq<T>, owner: T -> nat, k: nat)
    requires k < |s|
    ensures multiset(Ids(s, owner)) == multiset(Ids(RemoveAt(s, k), owner)) + multiset{owner(s[k])}
  {
    assert Ids(RemoveAt(s, k), owner) == RemoveAt(Ids(s, owner), k);
    RemoveAtMultiset(Ids(s, owner), k);
  }

  lemma IdsAppend<T>(s: seq<T>, owner: T -> nat, x: T)
    ensures multiset(Ids(s + [x], owner)) == multiset(Ids(s, owner)) + multiset{owner(x)}
  {
    assert Ids(s + [x], owner) == Ids(s, owner) + [owner(x)];
  }

  lemma IdsConcat<T>(s: seq<T>, t: seq<T>, owner: T -> nat)
    ensures multiset(Ids(s + t, owner)) == multiset(Ids(s, owner)) + multiset(Ids(t, owner))
  {
    assert Ids(s + t, owner) == Ids(s, owner) + Ids(t, owner);
  }

  lemma IdsHead<T>(s: seq<T>, owner: T -> nat)
    requires s != []
    ensures multiset(Ids(s, owner)) == multiset(Ids(s[1..], owner)) + multiset{owner(s[0])}
  {
    assert Ids(s, owner) == [owner(s[0])] + Ids(s[1..], owner);
  }

  /** How a step moves clients between the queues. */
  lemma SendMoves(s: State, k: nat)
    requires k < |s.q.ready| && s.q.ready[k].client < |s.clients|
    ensures Waiting(s.q) == Waiting(SendAt(s, k).q) + multiset{s.q.ready[k].client}
    ensures Served(SendAt(s, k).q) == Served(s.q) + multiset{s.q.ready[k].client}
  {
    IdsRemove(s.q.ready, Requester, k);
    IdsAppend(s.q.flight, Requester, s.q.ready[k]);
  }

  lemma AdvanceMoves(s: State, k: nat, r: Response)
    requires k < |s.q.flight|
    ensures Waiting(AdvanceAt(s, k, r).q) == Waiting(s.q)
    ensures Served(AdvanceAt(s, k, r).q) == Served(s.q)
  {
    IdsRemove(s.q.flight, Requester, k);
    IdsAppend(s.q.delivering, Addressee, Delivery(s.q.flight[k].client, r));
  }

  lemma DeliverMoves(q: Queues)
    ensures Waiting(DeliverAll(q)) == Waiting(q) && Served(DeliverAll(q)) == Served(q)
  {
    IdsConcat(q.responses, q.delivering, Addressee);
  }

  lemma EscapeMoves(s: State, k: nat)
    requires k < |s.q.flight|
    ensures Waiting(EscapeAt(s, k).q) == Waiting(s.q)
    ensures Served(EscapeAt(s, k).q) == Served(s.q)
  {
    IdsRemove(s.q.flight, Requester, k);
    IdsAppend(s.q.responses, Addressee, Delivery(s.q.flight[k].client, NoResponse));
  }

  lemma FailureMoves(s: State)
    requires s.q.responses != []
    ensures Waiting(HandleFailure(s).q) == Waiting(s.q)
    ensures Served(HandleFailure(s).q) == Served(s.q)
  {
    IdsHead(s.q.responses, Addressee);
  }

  lemma ReleaseMoves(q: Queues)
    requires q.held != []
    ensures Waiting(ReleaseHead(q)) == Waiting(q) && Served(ReleaseHead(q)) == Served(q)
  {
    IdsAppend(q.ready, Requester, q.held[0]);
    IdsHead(q.held, Requester);
  }

  lemma TakeMoves(q: Queues)
    requires q.responses != []
    ensures Waiting(TakeHead(q)) == Waiting(q)
    ensures Served(q) == Served(TakeHead(q)) + multiset{q.responses[0].client}
  {
    IdsHead(q.responses, Addressee);
  }

  lemma RequeueMoves(barrier: bool, q: Queues, j: nat)
    ensures Waiting(Requeue(barrier, q, j)) == Waiting(q) + multiset{j}
    ensures Served(Requeue(barrier, q, j)) == Served(q)
  {
    IdsAppend(q.ready, Requester, Request(j, SharedHistory));
    IdsAppend(q.held, Requester, Request(j, SharedHistory));
  }

  lemma EntriesCounted<T>(s: seq<T>, owner: T -> nat)
    ensures forall i :: 0 <= i < |s| ==> owner(s[i]) in multiset(Ids(s, owner))
  {
    forall i | 0 <= i < |s| ensures owner(s[i]) in multiset(Ids(s, owner)) {
      assert Ids(s, owner)[i] in Ids(s, owner);
    }
  }

  /** Every entry of a queue is counted. */
  lemma EntriesArePlaced(q: Queues)
    ensures forall i :: 0 <= i < |q.ready| ==> q.ready[i].client in Waiting(q)
    ensures forall i :: 0 <= i < |q.held| ==> q.held[i].client in Waiting(q)
    ensures forall i :: 0 <= i < |q.flight| ==> q.flight[i].client in Served(q)
    ensures forall i :: 0 <= i < |q.delivering| ==> q.delivering[i].client in Served(q)
    ensures forall i :: 0 <= i < |q.responses| ==> q.responses[i].client in Served(q)
    ensures forall i :: 0 <= i < |q.failed| ==> q.failed[i] in Served(q)
  {
    EntriesCounted(q.ready, Requester);
    EntriesCounted(q.held, Requester);
    EntriesCounted(q.flight, Requester);
    EntriesCounted(q.delivering, Addressee);
    EntriesCounted(q.responses, Addressee);
    forall i | 0 <= i < |q.failed| ensures q.failed[i] in Served(q) { assert q.failed[i] in q.failed; }
  }

  /** The entry being handled occurs nowhere else. */
  lemma HeadIsAlone(q: Queues)
    requires forall j :: Placed(q)[j] <= 1
    requires q.responses != []
    ensures var j := q.responses[0].client;
            && j !in Waiting(q) && j !in Served(TakeHead(q)) && j in Placed(q)
  {
    var j := q.responses[0].client;
    TakeMoves(q);
    assert Placed(q)[j] == Waiting(q)[j] + Served(TakeHead(q))[j] + 1;
  }

  /* ---------- the invariant ---------- */

  /** One place per client, and exactly the clients with rounds left have one. */
  ghost predicate PlacesInv(c: Config, q: Queues, clients: seq<Client>) {
    && |clients| == |c.totals|
    && (forall j :: Placed(q)[j] <= 1)
    && (forall j :: j in Placed(q) ==> j < |clients|)
    && (forall j :: 0 <= j < |clients| ==>
          clients[j].round <= c.totals[j] && (clients[j].round < c.totals[j] <==> j in Placed(q)))
  }

  ghost predicate CountersInv(c: Config, q: Queues, n: Counters, clients: seq<Client>) {
    && n.sent == n.completed + |q.flight| + |q.delivering| + |q.responses|
    && n.finished + n.escaped == n.completed + |q.delivering| + |q.responses|
    && n.completed == Sum(Rounds(clients)) + |q.failed|
    && (n.sent - n.completed <= c.maxParallel || n.sent == n.completed)
  }

  /** The sub-questions left cover all rounds still to be started. */
  ghost predicate SupplyInv(c: Config, clients: seq<Client>, questions: seq<Sample>) {
    && |clients| == |c.totals|
    && |questions| >= Sum(Needed(c.totals, Rounds(clients)))
  }

  /** With the barrier on, one metrics entry per completed round and client. */
  ghost predicate MetricsInv(c: Config, clients: seq<Client>, perRound: seq<nat>) {
    && |perRound| == c.maxRounds
    && (c.barrier ==> forall r :: 0 <= r < c.maxRounds ==> perRound[r] == CountAbove(Rounds(clients), r))
  }

  predicate AllAt(rs: seq<Request>, clients: seq<Client>, round: nat) {
    forall i :: 0 <= i < |rs| ==> rs[i].client < |clients| && clients[rs[i].client].round == round
  }

  predicate DeliveriesAt(ds: seq<Delivery>, clients: seq<Client>, round: nat) {
    forall i :: 0 <= i < |ds| ==> ds[i].client < |clients| && clients[ds[i].client].round == round
  }

  predicate FailedAt(fs: seq<nat>, clients: seq<Client>, round: nat) {
    forall i :: 0 <= i < |fs| ==> fs[i] < |clients| && clients[fs[i]].round == round
  }

  /** The round whose requests may be outstanding. */
  function ActiveRound(b: Barrier, phase: Phase): nat {
    if phase.Releasing? then b.round + 1 else b.round
  }

  ghost predicate NoBarrierInv(q: Queues, b: Barrier, phase: Phase) {
    q.held == [] && b.round == 0 && b.done == 0 && !phase.Releasing?
  }

  ghost predicate BarrierRounds(c: Config, clients: seq<Client>, b: Barrier, phase: Phase) {
    && |clients| == |c.totals| && |c.clientsPerRound| == c.maxRounds
    && b.round <= c.maxRounds
    && (forall j :: 0 <= j < |clients| ==>
          && clients[j].round <= b.round + 1
          && (clients[j].round >= b.round || clients[j].round >= c.totals[j]))
    && b.done == CountAbove(Rounds(clients), b.round)
    && (phase.Releasing? ==>
          && b.round < c.maxRounds
          && forall j :: 0 <= j < |clients| && c.totals[j] > b.round ==> clients[j].round > b.round)
    && (!phase.Releasing? && b.round < c.maxRounds ==>
          b.done < c.clientsPerRound[b.round] || c.clientsPerRound[b.round] == 0)
  }

  ghost predicate BarrierQueues(q: Queues, clients: seq<Client>, b: Barrier, phase: Phase) {
    var active := ActiveRound(b, phase);
    && AllAt(q.ready, clients, active) && AllAt(q.flight, clients, active)
    && DeliveriesAt(q.delivering, clients, active) && DeliveriesAt(q.responses, clients, active)
    && AllAt(q.held, clients, b.round + 1)
    && FailedAt(q.failed, clients, b.round)
  }

  ghost predicate BarrierInv(c: Config, q: Queues, clients: seq<Client>, b: Barrier, phase: Phase) {
    if c.barrier then BarrierRounds(c, clients, b, phase) && BarrierQueues(q, clients, b, phase)
    else NoBarrierInv(q, b, phase)
  }

  /** The conversation up to and including the prompt of round `k`. */
  function Conversation(first: seq<Item>, replies: seq<seq<Item>>, asked: seq<seq<Item>>, k: nat): seq<Item>
    requires k <= |replies| && k <= |asked|
  {
    if k == 0 then first
    else Conversation(first, replies, asked, k - 1) + replies[k - 1] + asked[k - 1]
  }

  /** A client record is its conversation so far; `extra` is 1 while a prompt has
      been sent whose reply has not been credited. */
  ghost predicate ClientInv(total: nat, first: seq<Item>, cl: Client, extra: nat) {
    && cl.round <= total && 1 <= total
    && |cl.replies| == cl.round
    && |cl.asked| == (if cl.round < total then cl.round else total - 1)
    && |cl.prompts| == cl.round + extra
    && extra <= 1 && (cl.round == total ==> extra == 0)
    && (forall k :: 0 <= k < |cl.prompts| ==>
          cl.prompts[k] == Conversation(first, cl.replies, cl.asked, k))
    && cl.history == if cl.round < total
                     then Conversation(first, cl.replies, cl.asked, cl.round)
                     else Conversation(first, cl.replies, cl.asked, total - 1) + cl.replies[total - 1]
  }

  /** Whoever reads a waiting or travelling payload finds the client's history. */
  predicate PayloadsCurrent(rs: seq<Request>, clients: seq<Client>) {
    forall i :: 0 <= i < |rs| ==> rs[i].client < |clients| && Prompt(clients, rs[i]) == clients[rs[i].client].history
  }

  ghost predicate ChainInv(c: Config, first: seq<Sample>, q: Queues, clients: seq<Client>) {
    && |clients| == |c.totals| == |first|
    && (forall j :: 0 <= j < |clients| ==>
          ClientInv(c.totals[j], QuestionItems(c.format, first[j]), clients[j], Served(q)[j]))
    && PayloadsCurrent(q.ready, clients) && PayloadsCurrent(q.flight, clients) && PayloadsCurrent(q.held, clients)
  }

  ghost predicate Inv(c: Config, first: seq<Sample>, s: State) {
    && ValidConfig(c)
    && Shaped(c, s)
    && PlacesInv(c, s.q, s.clients)
    && CountersInv(c, s.q, s.n, s.clients)
    && SupplyInv(c, s.clients, s.questions)
    && MetricsInv(c, s.clients, s.b.perRound)
    && BarrierInv(c, s.q, s.clients, s.b, s.phase)
    && ChainInv(c, first, s.q, s.clients)
    && !s.phase.Crashed?
    && (!s.sending ==> s.n.finished == Total(c) && s.q.delivering == [])
  }

  lemma RoundsUpdate(clients: seq<Client>, j: nat, cl: Client)
    requires j < |clients|
    ensures Rounds(clients[j := cl]) == Rounds(clients)[j := cl.round]
  {
  }
}
