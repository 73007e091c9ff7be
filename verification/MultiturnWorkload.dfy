/** The workload generator as the object it is in the source: its methods update
    the queues, counters and client records in place, and each is proved to be
    the corresponding step of the state machine. */
module MultiturnWorkload {
  import opened Sequences
  import opened Multiturn

  datatype RoundsError = MinTooSmall | MinAboveMax

  /** Resolve the round-count options; 0 stands for an option left at its default. */
  method ResolveRounds(minRounds: int, maxRounds: int, numRounds: int) returns (r: Result<(nat, nat), RoundsError>)
    ensures r.Ok? ==> 1 <= r.value.0 <= r.value.1
    ensures r.Ok? && minRounds != 0 && maxRounds != 0 ==> r.value == (minRounds, maxRounds)
    ensures r.Ok? && minRounds == 0 && maxRounds == 0 ==> r.value == (numRounds, numRounds)
    ensures r.Ok? && minRounds == 0 && maxRounds != 0 ==> r.value == (maxRounds, maxRounds)
    ensures r.Ok? && minRounds != 0 && maxRounds == 0 ==> r.value == (minRounds, minRounds)
    ensures r == Err(MinAboveMax) <==> minRounds >= 1 && maxRounds != 0 && minRounds > maxRounds
    ensures r == Err(MinTooSmall) <==>
              minRounds < 0 || (minRounds == 0 && (if maxRounds == 0 then numRounds else maxRounds) < 1)
  {
    var lo, hi := minRounds, maxRounds;
    if lo == 0 && hi == 0 {
      lo, hi := numRounds, numRounds;
    } else if lo == 0 {
      lo := hi;
    } else if hi == 0 {
      hi := lo;
    }
    if lo < 1 { return Err(MinTooSmall); }
    if lo > hi { return Err(MinAboveMax); }
    return Ok((lo, hi));
  }

  /** `clients_per_round`: for each round, how many clients take part in it. */
  method CountClientsPerRound(totals: seq<nat>, maxRounds: nat) returns (counts: seq<nat>)
    ensures |counts| == maxRounds
    ensures forall r :: 0 <= r < maxRounds ==> counts[r] == CountAbove(totals, r)
  {
    counts := [];
    for r := 0 to maxRounds
      invariant |counts| == r
      invariant forall q :: 0 <= q < r ==> counts[q] == CountAbove(totals, q)
    {
      var n: nat := 0;
      for j := 0 to |totals|
        invariant n + CountAbove(totals[j..], r) == CountAbove(totals, r)
      {
        assert totals[j..][1..] == totals[j + 1..];
        if totals[j] > r { n := n + 1; }
      }
      counts := counts + [n];
    }
  }

  /** How many sub-questions to sample: one per round after a client's first. */
  method CountSubQuestions(totals: seq<nat>) returns (n: int)
    ensures n == Sum(Needed(totals, Zeros(|totals|)))
  {
    n := 0;
    ghost var needed := Needed(totals, Zeros(|totals|));
    for j := 0 to |totals|
      invariant n + Sum(needed[j..]) == Sum(needed)
    {
      assert needed[j..][1..] == needed[j + 1..];
      n := n + if totals[j] > 1 then totals[j] - 1 else 0;
    }
  }

  class ReadyQueue {
    var requests: seq<Request>
    const policy: Policy

    constructor (initial: seq<Request>, policy: Policy)
      ensures requests == initial && this.policy == policy
    {
      requests := initial;
      this.policy := policy;
    }

    method Append(item: Request)
      modifies this
      ensures requests == old(requests) + [item]
    {
      requests := requests + [item];
    }

    /** `random` is the index drawn by the random policy; an unknown policy is only
        noticed on a queue that is not empty. */
    method Pop(random: nat) returns (r: Result<Option<Request>, Policy>)
      requires requests != [] ==> random < |requests|
      modifies this
      ensures old(requests) == [] ==> r == Ok(None) && requests == []
      ensures old(requests) != [] && policy.Unknown? ==> r == Err(policy) && requests == old(requests)
      ensures old(requests) != [] && !policy.Unknown? ==>
                var k := if policy.Fifo? then 0 else random;
                r == Ok(Some(old(requests)[k])) && requests == RemoveAt(old(requests), k)
    {
      if requests == [] { return Ok(None); }
      match policy {
        case Random =>
          var item := requests[random];
          requests := RemoveAt(requests, random);
          return Ok(Some(item));
        case Fifo =>
          var item := requests[0];
          requests := requests[1..];
          return Ok(Some(item));
        case Unknown =>
          return Err(policy);
      }
    }
  }

  class WorkloadGenerator {
    const config: Config
    const readyQueue: ReadyQueue
    var flight: seq<Request>
    var delivering: seq<Delivery>
    var responseQueue: seq<Delivery>
    var sentRequests: nat
    var completedRequests: nat
    var finishedRequests: nat
    var escapedRequests: nat
    var clientRecords: seq<Client>
    var subQuestionInputs: seq<Sample>
    var roundMetrics: seq<nat>
    var nextRoundRequests: seq<Request>
    var currentBarrierRound: nat
    var barrierRoundCompleted: nat
    var failedClients: seq<nat>
    var phase: Phase
    var sending: bool

    ghost function Snapshot(): State
      reads this, readyQueue
    {
      State(Queues(readyQueue.requests, flight, delivering, responseQueue, nextRoundRequests, failedClients),
            Counters(sentRequests, completedRequests, finishedRequests, escapedRequests),
            clientRecords, subQuestionInputs,
            Barrier(currentBarrierRound, barrierRoundCompleted, roundMetrics), phase, sending)
    }

    ghost predicate Valid()
      reads this, readyQueue
    {
      Shaped(config, Snapshot()) && readyQueue.policy == config.policy
    }

    constructor (format: ApiFormat, totals: seq<nat>, maxRounds: nat, maxParallel: int, barrier: bool, policy: Policy,
                 first: seq<Sample>, questions: seq<Sample>)
      requires forall j :: 0 <= j < |totals| ==> 1 <= totals[j] <= maxRounds
      requires |first| == |totals|
      ensures Valid() && fresh(readyQueue)
      ensures ValidConfig(config) && config.totals == totals && config.maxRounds == maxRounds
      ensures config.format == format && config.maxParallel == maxParallel
      ensures config.barrier == barrier && config.policy == policy
      ensures Snapshot() == Init(config, first, questions)
    {
      var counts := CountClientsPerRound(totals, maxRounds);
      var c := Config(format, totals, maxRounds, counts, maxParallel, barrier, policy);
      var s := Init(c, first, questions);
      config := c;
      var queue := new ReadyQueue(s.q.ready, policy);
      readyQueue := queue;
      flight, delivering, responseQueue, nextRoundRequests, failedClients := [], [], [], [], [];
      sentRequests, completedRequests, finishedRequests, escapedRequests := 0, 0, 0, 0;
      clientRecords, subQuestionInputs := s.clients, questions;
      currentBarrierRound, barrierRoundCompleted, roundMetrics := 0, 0, Zeros(maxRounds);
      phase, sending := Polling, true;
    }

    /** One turn of the sender loop up to the creation of the request's task. */
    method SendNext(random: nat) returns (r: Result<bool, Policy>)
      requires Valid() && sending && delivering == []
      requires readyQueue.requests != [] ==> random < |readyQueue.requests|
      modifies this, readyQueue
      ensures Valid()
      ensures r == Ok(true) ==>
                var a := Send(if config.policy.Fifo? then 0 else random);
                old(Enabled(config, Snapshot(), a)) && Snapshot() == old(Step(config, Snapshot(), a))
      ensures r != Ok(true) ==> Snapshot() == old(Snapshot())
      ensures r == Ok(false) <==>
                old(sentRequests - completedRequests >= config.maxParallel || readyQueue.requests == [])
      ensures r.Err? <==>
                old(sentRequests - completedRequests < config.maxParallel && readyQueue.requests != [])
                && config.policy.Unknown?
    {
      if sentRequests - completedRequests >= config.maxParallel { return Ok(false); }
      ghost var before := Snapshot();
      var popped := readyQueue.Pop(random);
      if popped.Err? { return Err(popped.error); }
      if popped.value.None? { return Ok(false); }
      var request := popped.value.value;
      flight := flight + [request];
      var record := clientRecords[request.client];
      var prompt := Prompt(clientRecords, request);
      clientRecords := clientRecords[request.client := record.(prompts := record.prompts + [prompt])];
      sentRequests := sentRequests + 1;
      StepShaped(config, before, Send(if config.policy.Fifo? then 0 else random));
      return Ok(true);
    }

    /** The request function returns its response, having advanced the progress bar. */
    method AdvanceBar(k: nat, response: Response)
      requires Valid() && sending && delivering == [] && k < |flight|
      modifies this
      ensures Valid() && Snapshot() == old(Step(config, Snapshot(), Advance(k, response)))
    {
      StepShaped(config, Snapshot(), Advance(k, response));
      var client := flight[k].client;
      flight := RemoveAt(flight, k);
      finishedRequests := finishedRequests + 1;
      delivering := [Delivery(client, response)];
    }

    /** The returned response is put on the response queue. */
    method PutResponse()
      requires Valid() && delivering != []
      modifies this
      ensures Valid() && Snapshot() == old(Step(config, Snapshot(), Deliver))
    {
      StepShaped(config, Snapshot(), Deliver);
      responseQueue := responseQueue + delivering;
      delivering := [];
    }

    /** The request function raises: a failure is queued, the bar stays behind. */
    method CatchException(k: nat)
      requires Valid() && sending && delivering == [] && k < |flight|
      modifies this
      ensures Valid() && Snapshot() == old(Step(config, Snapshot(), Escape(k)))
    {
      StepShaped(config, Snapshot(), Escape(k));
      var client := flight[k].client;
      flight := RemoveAt(flight, k);
      escapedRequests := escapedRequests + 1;
      responseQueue := responseQueue + [Delivery(client, NoResponse)];
    }

    /** Draw the client's next sub-question and queue, or hold back, its request. */
    method AskNext(client: nat)
      requires client < |clientRecords| && subQuestionInputs != []
      modifies this, readyQueue
      ensures var s := old(Snapshot());
              var last := |s.questions| - 1;
              var asked := Asked(s.clients[client], QuestionItems(config.format, s.questions[last]));
              Snapshot() == s.(
                q := Requeue(config.barrier, s.q, client),
                clients := s.clients[client := asked],
                questions := s.questions[..last])
    {
      var last := |subQuestionInputs| - 1;
      var question := QuestionItems(config.format, subQuestionInputs[last]);
      subQuestionInputs := subQuestionInputs[..last];
      clientRecords := clientRecords[client := Asked(clientRecords[client], question)];
      var request := Request(client, SharedHistory);
      if config.barrier {
        nextRoundRequests := nextRoundRequests + [request];
      } else {
        readyQueue.Append(request);
      }
    }

    /** Count a completed round at the barrier and open it after the last one. */
    method CountAtBarrier()
      requires |config.clientsPerRound| == config.maxRounds
      modifies this
      ensures Snapshot() == Multiturn.CountAtBarrier(config, old(Snapshot()))
      ensures readyQueue.requests == old(readyQueue.requests)
    {
      if config.barrier && currentBarrierRound < config.maxRounds {
        barrierRoundCompleted := barrierRoundCompleted + 1;
        if barrierRoundCompleted == config.clientsPerRound[currentBarrierRound] {
          phase := Releasing;
        }
      }
    }

    /** Take a successful response: extend the history, advance the round, record
        the metrics.  Fails on a round without a metrics entry. */
    method Credit(client: nat, response: Response) returns (ok: bool)
      requires responseQueue != [] && client < |clientRecords| && |roundMetrics| == config.maxRounds
      modifies this
      ensures var s := old(Snapshot());
              var round := s.clients[client].round;
              var taken := s.(q := TakeHead(s.q),
                clients := s.clients[client := Answered(s.clients[client], ReplyItems(config.format, response))]);
              && ok == !(config.barrier && round >= config.maxRounds)
              && Snapshot() ==
                  if !ok then taken.(phase := Crashed)
                  else taken.(
                    n := s.n.(completed := s.n.completed + 1),
                    b := if config.barrier
                         then s.b.(perRound := s.b.perRound[round := s.b.perRound[round] + 1]) else s.b)
    {
      hide ReplyItems, Answered;
      responseQueue := responseQueue[1..];
      var currentRound := clientRecords[client].round;
      clientRecords := clientRecords[client := Answered(clientRecords[client], ReplyItems(config.format, response))];
      if config.barrier {
        if currentRound >= |roundMetrics| {
          phase := Crashed;
          return false;
        }
        roundMetrics := roundMetrics[currentRound := roundMetrics[currentRound] + 1];
      }
      completedRequests := completedRequests + 1;
      return true;
    }

    /** The handler's turn for a successful response. */
    method HandleSuccess()
      requires Valid() && phase.Polling? && responseQueue != []
      modifies this, readyQueue
      ensures Snapshot() == Multiturn.HandleSuccess(config, old(Snapshot()))
    {
      hide QuestionItems, ReplyItems, Answered, Asked, Requeue, TakeHead, Multiturn.CountAtBarrier;
      var client, response := responseQueue[0].client, responseQueue[0].response;
      var currentRound := clientRecords[client].round;
      var answered := Answered(clientRecords[client], ReplyItems(config.format, response));
      assert answered == old(Answered(clientRecords[client], ReplyItems(config.format, response)));
      var ok := Credit(client, response);
      if !ok { return; }
      if currentRound + 1 < config.totals[client] {
        if subQuestionInputs == [] {
          phase := Crashed;
          return;
        }
        assert clientRecords[client] == answered;
        AskNext(client);
        assert clientRecords == old(clientRecords)[client := clientRecords[client]];
      }
      CountAtBarrier();
    }

    /** One turn of the handler loop for a queued response. */
    method HandleResponse()
      requires Valid() && phase.Polling? && responseQueue != []
      modifies this, readyQueue
      ensures Valid() && Snapshot() == old(Step(config, Snapshot(), Handle))
    {
      StepShaped(config, Snapshot(), Handle);
      hide Multiturn.HandleSuccess, QueuesBelow;
      if responseQueue[0].response.success {
        HandleSuccess();
      } else {
        failedClients := failedClients + [responseQueue[0].client];
        responseQueue := responseQueue[1..];
        completedRequests := completedRequests + 1;
      }
    }

    /** One iteration of the loop that releases the held requests. */
    method ReleaseNext()
      requires Valid() && phase.Releasing? && nextRoundRequests != []
      modifies this, readyQueue
      ensures Valid() && Snapshot() == old(Step(config, Snapshot(), ReleaseOne))
    {
      StepShaped(config, Snapshot(), ReleaseOne);
      readyQueue.Append(nextRoundRequests[0]);
      nextRoundRequests := nextRoundRequests[1..];
    }

    method FinishRelease()
      requires Valid() && phase.Releasing? && nextRoundRequests == []
      modifies this
      ensures Valid() && Snapshot() == old(Step(config, Snapshot(), ReleaseDone))
    {
      currentBarrierRound := currentBarrierRound + 1;
      barrierRoundCompleted := 0;
      phase := Polling;
    }

    /** The handler found no response in time. */
    method TimeOut()
      requires Valid() && phase.Polling? && responseQueue == []
      modifies this
      ensures Valid() && Snapshot() == old(Step(config, Snapshot(), Timeout))
    {
      phase := TimedOut;
    }

    method CheckDone()
      requires Valid() && phase.TimedOut?
      modifies this
      ensures Valid() && Snapshot() == old(Step(config, Snapshot(), Multiturn.CheckDone))
    {
      phase := if finishedRequests == Total(config) then Stopped else Polling;
    }

    /** The sender's loop exit test, read after a turn that was not throttled. */
    method CheckSenderDone()
      requires Valid() && sending && delivering == [] && sentRequests - completedRequests < config.maxParallel
      modifies this
      ensures Valid()
      ensures Snapshot() == old(if finishedRequests == Total(config) then Step(config, Snapshot(), StopSending)
                                else Snapshot())
    {
      if finishedRequests == Total(config) { sending := false; }
    }
  }
}
