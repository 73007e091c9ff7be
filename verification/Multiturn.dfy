/** The multi-turn cache benchmark as a state machine
    (benchmark/hicache/bench_multiturn.py).

    Two threads share the state: the sender, which also runs the event loop that
    performs the requests, and the response handler.  Every step below is one
    uninterruptible piece of one of the two threads; a run is an arbitrary
    interleaving of steps, and the server may answer anything in any order.

    A request ends in two steps of the sender's thread: first the progress bar
    advances, then the response is put on the queue.  The event loop does nothing
    else in between, but the handler may run there. */
module Multiturn {
  import opened Sequences

  datatype ApiFormat = Sglang | OpenAi

  /** An element of a client's history: a token id, or a chat message. */
  datatype Item = Token(id: int) | User(text: string) | Assistant(text: string)

  /** A sampled prompt; `text` is its decoding by the tokenizer. */
  datatype Sample = Sample(prompt: seq<int>, text: string)

  /** A request holds its own copy of the prompt, or refers to the very list
      that also is its client's history record. */
  datatype Payload = Owned(items: seq<Item>) | SharedHistory

  datatype Request = Request(client: nat, payload: Payload)

  datatype Response = Response(success: bool, text: string, outputIds: seq<int>)

  datatype Delivery = Delivery(client: nat, response: Response)

  datatype Policy = Random | Fifo | Unknown

  datatype Config = Config(
    format: ApiFormat,
    totals: seq<nat>,            // client_total_rounds
    maxRounds: nat,
    clientsPerRound: seq<nat>,
    maxParallel: int,
    barrier: bool,
    policy: Policy)

  datatype Queues = Queues(
    ready: seq<Request>,
    flight: seq<Request>,
    delivering: seq<Delivery>,   // counted by the progress bar, not yet queued: at most one
    responses: seq<Delivery>,
    held: seq<Request>,          // next_round_reqs not yet appended to the ready queue
    failed: seq<nat>)            // clients whose request failed

  datatype Counters = Counters(
    sent: nat,
    completed: nat,
    finished: nat,               // pbar.n
    escaped: nat)                // requests ended by an exception the request function let through

  /** One client record, together with what an observer at the server sees of
      this client: the prompts as sent, and the history extensions made for the
      replies and for the sub-questions. */
  datatype Client = Client(
    round: nat,
    history: seq<Item>,
    prompts: seq<seq<Item>>,
    replies: seq<seq<Item>>,
    asked: seq<seq<Item>>)

  datatype Barrier = Barrier(
    round: nat,                  // current_barrier_round
    done: nat,                   // barrier_round_completed
    perRound: seq<nat>)          // lengths of the round_<r> metric lists

  /** What the response handler is doing: waiting for a response, appending the
      held requests one by one, having seen an empty queue but not yet read the
      progress bar, finished, or dead after an uncaught exception. */
  datatype Phase = Polling | Releasing | TimedOut | Stopped | Crashed

  datatype State = State(
    q: Queues,
    n: Counters,
    clients: seq<Client>,
    questions: seq<Sample>,      // sub_question_inputs, popped from the end
    b: Barrier,
    phase: Phase,
    sending: bool)               // the sender loop has not been left

  datatype Action =
    | Send(k: nat)                       // pop entry k and create its task
    | Advance(k: nat, response: Response) // the request answers or fails; the bar advances
    | Deliver                            // its response is put on the queue
    | Escape(k: nat)                     // an exception ends the request past the bar
    | StopSending
    | Handle
    | ReleaseOne
    | ReleaseDone
    | Timeout
    | CheckDone

  function Total(c: Config): int { Sum(c.totals) }

  function TokenItems(ids: seq<int>): (r: seq<Item>)
    ensures |r| == |ids|
  {
    seq(|ids|, i requires 0 <= i < |ids| => Token(ids[i]))
  }

  /** The history extension for a sampled prompt. */
  function QuestionItems(f: ApiFormat, q: Sample): seq<Item> {
    if f.OpenAi? then [User(q.text)] else TokenItems(q.prompt)
  }

  /** The history extension for a reply; an empty chat reply adds no message. */
  function ReplyItems(f: ApiFormat, r: Response): seq<Item> {
    if f.OpenAi? then (if r.text == "" then [] else [Assistant(r.text)])
    else TokenItems(r.outputIds)
  }

  /** What the server reads when it receives the request now. */
  function Prompt(clients: seq<Client>, r: Request): seq<Item>
    requires r.client < |clients|
  {
    if r.payload.Owned? then r.payload.items else clients[r.client].history
  }

  /* ---------- configuration and initial state ---------- */

  predicate ValidConfig(c: Config) {
    && (forall j :: 0 <= j < |c.totals| ==> 1 <= c.totals[j] <= c.maxRounds)
    && |c.clientsPerRound| == c.maxRounds
    && (forall r :: 0 <= r < c.maxRounds ==> c.clientsPerRound[r] == CountAbove(c.totals, r))
  }

  function Rounds(clients: seq<Client>): (r: seq<nat>)
    ensures |r| == |clients|
    ensures forall j :: 0 <= j < |clients| ==> r[j] == clients[j].round
  {
    seq(|clients|, j requires 0 <= j < |clients| => clients[j].round)
  }

  /** Sub-questions each client may still need after `rounds` rounds. */
  function Needed(totals: seq<nat>, rounds: seq<nat>): (r: seq<int>)
    requires |totals| == |rounds|
    ensures |r| == |totals|
    ensures forall j :: 0 <= j < |r| ==>
              r[j] == if totals[j] > rounds[j] + 1 then totals[j] - rounds[j] - 1 else 0
  {
    seq(|totals|, j requires 0 <= j < |totals| =>
      if totals[j] > rounds[j] + 1 then totals[j] - rounds[j] - 1 else 0)
  }

  function Zeros(n: nat): (r: seq<nat>)
    ensures |r| == n && forall i :: 0 <= i < n ==> r[i] == 0
  {
    seq(n, _ => 0)
  }

  /** The sampler is taken at its word: it returns as many prompts as asked. */
  predicate ValidSamples(c: Config, first: seq<Sample>, questions: seq<Sample>) {
    && |first| == |c.totals|
    && |questions| >= Sum(Needed(c.totals, Zeros(|c.totals|)))
  }

  function FirstRequest(f: ApiFormat, i: nat, sample: Sample): Request {
    Request(i, if f.OpenAi? then SharedHistory else Owned(QuestionItems(f, sample)))
  }

  function Init(c: Config, first: seq<Sample>, questions: seq<Sample>): (s: State)
    requires |first| == |c.totals|
  {
    var n := |c.totals|;
    State(
      Queues(seq(n, i requires 0 <= i < n => FirstRequest(c.format, i, first[i])), [], [], [], [], []),
      Counters(0, 0, 0, 0),
      seq(n, i requires 0 <= i < n => Client(0, QuestionItems(c.format, first[i]), [], [], [])),
      questions,
      Barrier(0, 0, Zeros(c.maxRounds)),
      Polling,
      true)
  }

  /* ---------- steps ---------- */

  predicate RequestsBelow(rs: seq<Request>, n: nat) {
    forall i :: 0 <= i < |rs| ==> rs[i].client < n
  }

  /** Every queued or failed client has a record. */
  predicate QueuesBelow(q: Queues, n: nat) {
    && RequestsBelow(q.ready, n) && RequestsBelow(q.flight, n) && RequestsBelow(q.held, n)
    && (forall i :: 0 <= i < |q.delivering| ==> q.delivering[i].client < n)
    && (forall i :: 0 <= i < |q.responses| ==> q.responses[i].client < n)
    && (forall i :: 0 <= i < |q.failed| ==> q.failed[i] < n)
  }

  predicate Shaped(c: Config, s: State) {
    && |c.clientsPerRound| == c.maxRounds
    && |s.clients| == |c.totals|
    && |s.b.perRound| == c.maxRounds
    && QueuesBelow(s.q, |c.totals|)
  }

  predicate CanPop(p: Policy, k: nat) {
    match p
    case Random => true
    case Fifo => k == 0
    case Unknown => false
  }

  /** The sender's thread is between two pieces of work. */
  predicate SenderFree(s: State) { s.sending && s.q.delivering == [] }

  predicate Enabled(c: Config, s: State, a: Action) {
    match a
    case Send(k) =>
      SenderFree(s) && s.n.sent - s.n.completed < c.maxParallel && k < |s.q.ready| && CanPop(c.policy, k)
    case Advance(k, _) => SenderFree(s) && k < |s.q.flight|
    case Deliver => s.q.delivering != []
    case Escape(k) => SenderFree(s) && k < |s.q.flight|
    case StopSending => SenderFree(s) && s.n.sent - s.n.completed < c.maxParallel && s.n.finished == Total(c)
    case Handle => s.phase.Polling? && s.q.responses != []
    case ReleaseOne => s.phase.Releasing? && s.q.held != []
    case ReleaseDone => s.phase.Releasing? && s.q.held == []
    case Timeout => s.phase.Polling? && s.q.responses == []
    case CheckDone => s.phase.TimedOut?
  }

  /** The client record after a reply has been appended to it. */
  function Answered(cl: Client, reply: seq<Item>): Client {
    cl.(round := cl.round + 1, history := cl.history + reply, replies := cl.replies + [reply])
  }

  /** The client record after a sub-question has been appended to it. */
  function Asked(cl: Client, question: seq<Item>): Client {
    cl.(history := cl.history + question, asked := cl.asked + [question])
  }

  function TakeHead(q: Queues): Queues
    requires q.responses != []
  {
    q.(responses := q.responses[1..])
  }

  /** Hand over a client's next request: hold it back or make it sendable. */
  function Requeue(barrier: bool, q: Queues, j: nat): Queues {
    var next := Request(j, SharedHistory);
    if barrier then q.(held := q.held + [next]) else q.(ready := q.ready + [next])
  }

  function ReleaseHead(q: Queues): Queues
    requires q.held != []
  {
    q.(ready := q.ready + [q.held[0]], held := q.held[1..])
  }

  function CountAtBarrier(c: Config, s: State): (t: State)
    requires |c.clientsPerRound| == c.maxRounds
  {
    if c.barrier && s.b.round < c.maxRounds then
      s.(b := s.b.(done := s.b.done + 1),
         phase := if s.b.done + 1 == c.clientsPerRound[s.b.round] then Releasing else s.phase)
    else s
  }

  /** The handler's work for the successful response at the head of the queue. */
  function HandleSuccess(c: Config, s: State): (t: State)
    requires Shaped(c, s) && s.q.responses != []
  {
    var j, reply := s.q.responses[0].client, ReplyItems(c.format, s.q.responses[0].response);
    var round := s.clients[j].round;
    var taken := TakeHead(s.q);
    var answered := Answered(s.clients[j], reply);
    if c.barrier && round >= c.maxRounds then    // KeyError: no round_<r> metrics
      s.(q := taken, clients := s.clients[j := answered], phase := Crashed)
    else
      var n := s.n.(completed := s.n.completed + 1);
      var b := if c.barrier then s.b.(perRound := s.b.perRound[round := s.b.perRound[round] + 1]) else s.b;
      if round + 1 >= c.totals[j] then
        CountAtBarrier(c, s.(q := taken, n := n, clients := s.clients[j := answered], b := b))
      else if s.questions == [] then             // IndexError: pop from empty list
        s.(q := taken, n := n, clients := s.clients[j := answered], b := b, phase := Crashed)
      else
        var last := |s.questions| - 1;
        var asked := Asked(answered, QuestionItems(c.format, s.questions[last]));
        CountAtBarrier(c, s.(
          q := Requeue(c.barrier, taken, j), n := n,
          clients := s.clients[j := asked], questions := s.questions[..last], b := b))
  }

  function HandleFailure(s: State): (t: State)
    requires s.q.responses != []
  {
    s.(q := TakeHead(s.q).(failed := s.q.failed + [s.q.responses[0].client]),
       n := s.n.(completed := s.n.completed + 1))
  }

  function SendAt(s: State, k: nat): (t: State)
    requires k < |s.q.ready| && s.q.ready[k].client < |s.clients|
  {
    var r := s.q.ready[k];
    var cl := s.clients[r.client];
    s.(q := s.q.(ready := RemoveAt(s.q.ready, k), flight := s.q.flight + [r]),
       n := s.n.(sent := s.n.sent + 1),
       clients := s.clients[r.client := cl.(prompts := cl.prompts + [Prompt(s.clients, r)])])
  }

  function AdvanceAt(s: State, k: nat, response: Response): (t: State)
    requires k < |s.q.flight|
  {
    s.(q := s.q.(flight := RemoveAt(s.q.flight, k),
                 delivering := s.q.delivering + [Delivery(s.q.flight[k].client, response)]),
       n := s.n.(finished := s.n.finished + 1))
  }

  function DeliverAll(q: Queues): (t: Queues) {
    q.(delivering := [], responses := q.responses + q.delivering)
  }

  /** The response put for a request that ended in an exception. */
  const NoResponse := Response(false, "", [])

  function EscapeAt(s: State, k: nat): (t: State)
    requires k < |s.q.flight|
  {
    s.(q := s.q.(flight := RemoveAt(s.q.flight, k),
                 responses := s.q.responses + [Delivery(s.q.flight[k].client, NoResponse)]),
       n := s.n.(escaped := s.n.escaped + 1))
  }

  function Step(c: Config, s: State, a: Action): (t: State)
    requires Shaped(c, s) && Enabled(c, s, a)
  {
    match a
    case Send(k) => SendAt(s, k)
    case Advance(k, response) => AdvanceAt(s, k, response)
    case Deliver => s.(q := DeliverAll(s.q))
    case Escape(k) => EscapeAt(s, k)
    case StopSending => s.(sending := false)
    case Handle => if s.q.responses[0].response.success then HandleSuccess(c, s) else HandleFailure(s)
    case ReleaseOne => s.(q := ReleaseHead(s.q))
    case ReleaseDone => s.(b := s.b.(round := s.b.round + 1, done := 0), phase := Polling)
    case Timeout => s.(phase := TimedOut)
    case CheckDone => s.(phase := if s.n.finished == Total(c) then Stopped else Polling)
  }

  lemma HandleSuccessShaped(c: Config, s: State)
    requires Shaped(c, s) && s.q.responses != []
    ensures Shaped(c, HandleSuccess(c, s))
  {
  }

  lemma StepShaped(c: Config, s: State, a: Action)
    requires Shaped(c, s) && Enabled(c, s, a)
    ensures Shaped(c, Step(c, s, a))
  {
    if a.Handle? { HandleSuccessShaped(c, s); }
  }

  /* ---------- runs ---------- */

  /** The schedule `actions` can be executed from `s`. */
  ghost predicate Runs(c: Config, s: State, actions: seq<Action>)
    requires Shaped(c, s)
    decreases |actions|
  {
    actions == [] ||
    (Enabled(c, s, actions[0]) && (StepShaped(c, s, actions[0]); Runs(c, Step(c, s, actions[0]), actions[1..])))
  }

  ghost function After(c: Config, s: State, actions: seq<Action>): State
    requires Shaped(c, s) && Runs(c, s, actions)
    decreases |actions|
  {
    if actions == [] then s else (StepShaped(c, s, actions[0]); After(c, Step(c, s, actions[0]), actions[1..]))
  }
}
