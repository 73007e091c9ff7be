/** What the multi-turn benchmark makes of the server's answers: a ledger kept along
    the schedule, against which histories, prompts and queue orders are stated. */
module MultiturnLedger {
  import opened Multiturn
  import opened MultiturnInvariant
  import opened MultiturnHandle
  import opened MultiturnTheorems

  /* ---------- what an exchange adds to a history ---------- */

  predicate Tokens(ids: seq<int>, items: seq<Item>) {
    |items| == |ids| && forall i :: 0 <= i < |ids| ==> items[i] == Token(ids[i])
  }

  /** The items a response adds: its output ids, or a message with its text. */
  predicate IsReply(f: ApiFormat, r: Response, items: seq<Item>) {
    if f.OpenAi? then items == (if r.text == "" then [] else [Assistant(r.text)]) else Tokens(r.outputIds, items)
  }

  /** The items a sample adds. */
  predicate IsQuestion(f: ApiFormat, q: Sample, items: seq<Item>) {
    if f.OpenAi? then items == [User(q.text)] else Tokens(q.prompt, items)
  }

  /** `after` is `before`, the response and the sample, item by item. */
  predicate Exchange(f: ApiFormat, before: seq<Item>, r: Response, q: Sample, after: seq<Item>) {
    if f.OpenAi? then
      after == before + (if r.text == "" then [] else [Assistant(r.text)]) + [User(q.text)]
    else
      && |after| == |before| + |r.outputIds| + |q.prompt|
      && (forall i :: 0 <= i < |before| ==> after[i] == before[i])
      && (forall i :: 0 <= i < |r.outputIds| ==> after[|before| + i] == Token(r.outputIds[i]))
      && (forall i :: 0 <= i < |q.prompt| ==> after[|before| + |r.outputIds| + i] == Token(q.prompt[i]))
  }

  lemma ReplyItemsAre(f: ApiFormat, r: Response)
    ensures IsReply(f, r, ReplyItems(f, r))
  {
  }

  lemma QuestionItemsAre(f: ApiFormat, q: Sample)
    ensures IsQuestion(f, q, QuestionItems(f, q))
  {
  }

  lemma ExchangeIs(f: ApiFormat, before: seq<Item>, r: Response, q: Sample, reply: seq<Item>, question: seq<Item>)
    requires IsReply(f, r, reply) && IsQuestion(f, q, question)
    ensures Exchange(f, before, r, q, before + reply + question)
  {
  }

  /** The history after an exchange, or after the last reply. */
  predicate Credited(c: Config, s: State, t: State)
    requires Shaped(c, s) && s.q.responses != [] && |t.clients| == |s.clients|
  {
    var j, r := Head(s), s.q.responses[0].response;
    var before, after := s.clients[j].history, t.clients[j].history;
    if s.clients[j].round + 1 < c.totals[j] then
      && s.questions != [] && t.questions == s.questions[..|s.questions| - 1]
      && Exchange(c.format, before, r, s.questions[|s.questions| - 1], after)
    else
      && t.questions == s.questions
      && |before| <= |after| && after[..|before|] == before && IsReply(c.format, r, after[|before|..])
  }

  lemma NewHistory(c: Config, s: State)
    requires Shaped(c, s) && s.q.responses != [] && More(c, s) && s.questions != []
    ensures Exchange(c.format, s.clients[Head(s)].history, s.q.responses[0].response,
                     s.questions[|s.questions| - 1], NewRecord(c, s).history)
  {
    assert Head(s) < |s.clients|;
    hide ReplyItems, QuestionItems, Exchange, QueuesBelow;
    var r, q := s.q.responses[0].response, s.questions[|s.questions| - 1];
    ReplyItemsAre(c.format, r);
    QuestionItemsAre(c.format, q);
    ExchangeIs(c.format, s.clients[Head(s)].history, r, q, ReplyItems(c.format, r), QuestionItems(c.format, q));
  }

  lemma FinalHistory(c: Config, s: State)
    requires Shaped(c, s) && s.q.responses != []
    ensures var before, after := s.clients[Head(s)].history, FinalRecord(c, s).history;
            |before| <= |after| && after[..|before|] == before
            && IsReply(c.format, s.q.responses[0].response, after[|before|..])
  {
    assert Head(s) < |s.clients|;
    hide ReplyItems, QueuesBelow;
    var before, reply := s.clients[Head(s)].history, ReplyItems(c.format, s.q.responses[0].response);
    ReplyItemsAre(c.format, s.q.responses[0].response);
    assert (before + reply)[..|before|] == before && (before + reply)[|before|..] == reply;
  }

  lemma SuccessExtendsHistory(c: Config, s: State)
    requires Shaped(c, s) && s.phase.Polling? && s.q.responses != []
    requires More(c, s) ==> s.questions != []
    requires s.clients[Head(s)].round < c.totals[Head(s)] <= c.maxRounds
    requires c.barrier ==> s.clients[Head(s)].round == s.b.round < |c.clientsPerRound|
    ensures var t := HandleSuccess(c, s);
            && |t.clients| == |s.clients| && Credited(c, s, t)
            && forall i :: 0 <= i < |s.clients| && i != Head(s) ==> t.clients[i].history == s.clients[i].history
  {
    assert Head(s) < |s.clients|;
    hide QueuesBelow, HandleSuccess, NewRecord, FinalRecord, NewQueues, Exchange, IsReply;
    SuccessOutcome(c, s);
    if More(c, s) { NewHistory(c, s); } else { FinalHistory(c, s); }
  }

  /** Handling a successful response: the history of its client is extended by the
      response and, unless that was the client's last round, by the last of the
      sub-questions left; no other history changes. */
  lemma HandlingExtendsHistory(c: Config, first: seq<Sample>, questions: seq<Sample>, s: State)
    requires Reachable(c, first, questions, s) && Shaped(c, s) && Enabled(c, s, Handle)
    requires s.q.responses[0].response.success
    ensures var t := Step(c, s, Handle);
            && |t.clients| == |s.clients| && Credited(c, s, t)
            && forall i :: 0 <= i < |s.clients| && i != Head(s) ==> t.clients[i].history == s.clients[i].history
  {
    hide Reachable, Credited, HandleSuccess;
    hide PlacesInv, CountersInv, SupplyInv, MetricsInv, BarrierInv, ChainInv, QueuesBelow, ValidConfig;
    ReachableInv(c, first, questions, s);
    SuccessIsSafe(c, first, s);
    SuccessExtendsHistory(c, s);
  }

  /* ---------- the ledger ---------- */

  /** Computed along a schedule: the responses the server gave to each client, which
      sub-questions each client was asked, all answers and failures in the order in
      which requests ended, those handled, the clients in the order in which they
      were asked again, and in the order in which their requests were sent. */
  datatype Ledger = Ledger(
    given: seq<seq<Response>>,
    asked: seq<seq<nat>>,
    ended: seq<Delivery>,
    handled: seq<Delivery>,
    turns: seq<nat>,
    sent: seq<nat>)

  predicate Sized(c: Config, g: Ledger) { |g.given| == |g.asked| == |c.totals| }

  function Note(c: Config, s: State, a: Action, g: Ledger): (r: Ledger)
    requires Shaped(c, s) && Enabled(c, s, a) && Sized(c, g)
    ensures Sized(c, r)
  {
    match a
    case Send(k) => g.(sent := g.sent + [s.q.ready[k].client])
    case Advance(k, r) =>
      var j := s.q.flight[k].client;
      g.(given := g.given[j := g.given[j] + [r]], ended := g.ended + [Delivery(j, r)])
    case Escape(k) => g.(ended := g.ended + [Delivery(s.q.flight[k].client, NoResponse)])
    case Handle =>
      var d := s.q.responses[0];
      var h := g.(handled := g.handled + [d]);
      if d.response.success && s.clients[d.client].round + 1 < c.totals[d.client] && s.questions != [] then
        h.(asked := g.asked[d.client := g.asked[d.client] + [|s.questions| - 1]], turns := g.turns + [d.client])
      else h
    case _ => g
  }

  ghost function LedgerAfter(c: Config, s: State, actions: seq<Action>, g: Ledger): (r: Ledger)
    requires Shaped(c, s) && Runs(c, s, actions) && Sized(c, g)
    ensures Sized(c, r)
    decreases |actions|
  {
    if actions == [] then g
    else (StepShaped(c, s, actions[0]);
          LedgerAfter(c, Step(c, s, actions[0]), actions[1..], Note(c, s, actions[0], g)))
  }

  function EmptyLedger(n: nat): Ledger {
    Ledger(seq(n, _ => []), seq(n, _ => []), [], [], [], [])
  }

  /* ---------- queue orders ---------- */

  function Numbers(n: nat): seq<nat> { seq(n, i => i) }

  /** Responses are handled in the order in which the requests ended. */
  ghost predicate EndOrder(q: Queues, g: Ledger) {
    g.ended == g.handled + q.responses + q.delivering
  }

  /** With the fifo policy requests are sent in the order in which they came up: the
      first requests of all clients, then one for each sub-question asked. */
  ghost predicate SendOrder(c: Config, q: Queues, g: Ledger) {
    Numbers(|c.totals|) + g.turns == g.sent + Ids(q.ready, Requester) + Ids(q.held, Requester)
  }
}
