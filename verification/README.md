# Verified models of the benchmark protocols and data tools

Dafny models of the parts of the repository that carry state or structure of
their own: two request protocols, a redirect resolver and its consumer, a
persistent wheel index, two answer parsers, a round scheduler, and three smaller
cores.  `dafny verify dfyconfig.toml` checks everything.

## How it is organised

**Multi-turn workload** (`Multiturn*.dfy`, from
`benchmark/hicache/bench_multiturn.py`).  A sender thread and a response handler
share a ready queue, the requests on their way, a response queue, client records,
a stack of sub-questions and an optional round barrier.  `Multiturn` is a state
machine whose steps are the pieces each thread runs without being interrupted:
popping and sending, a request's answer or failure advancing the progress bar, the
later delivery of its response to the queue, an exception that ends a request
without advancing the bar, handling a response, appending one held request during
a barrier release, the end of the release, the handler's time-out, its look at the
progress bar, and the sender's exit.  Payloads that share the history list with
the client record are modelled as references.  `MultiturnInvariant`,
`MultiturnSteps` and `MultiturnHandle` prove one invariant kept by every step;
`MultiturnTheorems`, `MultiturnProgress` and `MultiturnExit` derive what holds over
all interleavings, and `MultiturnRuns` has the runs that show what goes wrong.
`MultiturnLedger` and `MultiturnDialogue` follow a schedule with a ledger of the
responses given and the sub-questions asked, and state histories, prompts and queue
orders against it, item by item.
`MultiturnWorkload` is the object of the source, each method proved to be the step
it implements.

Three things the code does that its authors may not have meant:

- a failed request anywhere but at the end of the workload makes both threads
  poll for ever, and so does any exception that escapes from the request function,
  because it bypasses the progress bar (`EarlyFailureNeverEnds`, with runs in
  `EarlyFailureHappens` and `EscapeHappens`);
  `QuiescentOutcome` gives the exact conditions for completing and for ending;
- the handler finds the queue empty and reads the progress bar at two different
  moments, and a response is counted by the bar before it is queued.  Everything
  is handled exactly when at the last time-out the bar was already full and nothing
  was on its way from the bar to the queue (`ExitHandlesAll`, `ExitOutcome`);
  `ExitRaceExists` has three runs that lose a response;
- with as many lost responses as requests may run in parallel the sender never
  leaves its loop either; with fewer it still can (`SenderExitIff`).

**Conversation re-queueing** (`Requeue*.dfy`, from
`benchmark/hicache/bench_serving.py`).  A loop with a fixed number of iterations,
a bounded queue and tasks that put their conversation back.  The loop gives up when
it waits too long for the queue; a conversation put back later is stranded
(`RunOutcome`, `GiveUpStrands`).  `RequeueReplies` states the posts over the replies
of the schedule.

**Redirections** (`Redirects.dfy`, `LineRetrieval.dfy`, from
`benchmark/line_retrieval/`).  The resolver overwrites the values it is still
reading; the consumer truncates the document.  `ReadableIffPathInside` is about a
reader who has only the truncated text and the queried name.

**Wheel index** (`Wheel*.dfy`, from `scripts/update_nightly_whl_index.py`).  Text
in, text out, over any number of runs.  The script's description says that links
are ordered by commit count; the code orders them by run, newest first.
`ListedByCountIff` says exactly when that is the same order, and
`RebuildIsListedFirst` has two runs after which it is not.

**Answer parsers** (`Text.dfy`, `Braces.dfy`, `Fracs.dfy`, `FracNesting.dfy`,
`Boxed.dfy`, from `benchmark/reasoning_benchmark/answer_extraction.py`).  A box within a box and a
percent sign after a box break the extraction of boxed answers; `RoundTripIff`
says that nothing else does.  The repair of fractions tears control sequences,
takes blanks for arguments and takes longer commands for fractions;
`FixKeepsFractions` says exactly which fractions keep their meaning,
`LongerCommandsTorn` what happens to longer commands, and
`FixKeepsNestedFractions` speaks of fractions around fractions.

**Round scheduler** (`RoundScheduler.dfy`, `RoundLaws.dfy`, `UserGenerator.dfy`, from
`benchmark/hicache/bench_mix.py`).  `push` searches for position `i` but inserts
at the loop variable `idx`; `PushKeepsOrderIff` says exactly when the queue stays
ordered.  Users handed out to the senders are tracked, so that losing or duplicating
one can be stated and excluded.  `randint` includes its upper end, which gives the
last round count one outcome too many (`SamplingCounts`).

**Smaller cores**: `ChatFilter.dfy`, `StreamLatency.dfy`, `Sharding.dfy`.

Clocks, random numbers, sampled prompts, token counts and server responses are
parameters; times are reals.

## Model

| member | source | states |
|---|---|---|
| MultiturnWorkload.ResolveRounds | benchmark/hicache/bench_multiturn.py:234-250 | the resolved bounds satisfy 1 <= min <= max, an option left at 0 takes the other's value, and each of the two errors is raised exactly when the options ask for it |
| MultiturnWorkload.CountClientsPerRound | benchmark/hicache/bench_multiturn.py:263-266 | entry r counts the clients with more than r rounds |
| MultiturnProgress.ClientsPerRoundSumToTotal | benchmark/hicache/bench_multiturn.py:263-267 | counting round by round or client by client gives the same total number of requests |
| MultiturnWorkload.CountSubQuestions | benchmark/hicache/bench_multiturn.py:292-297 | the number of sub-questions sampled is the number of rounds after each client's first |
| MultiturnWorkload.ReadyQueue.constructor | benchmark/hicache/bench_multiturn.py:188-191 | the queue starts with the initial requests |
| MultiturnWorkload.ReadyQueue.Append | benchmark/hicache/bench_multiturn.py:193-195 | appending adds at the end |
| MultiturnWorkload.ReadyQueue.Pop | benchmark/hicache/bench_multiturn.py:197-208 | the random policy removes the entry drawn, fifo the first; an empty queue gives nothing; an unknown policy is an error only on a queue that is not empty |
| MultiturnWorkload.WorkloadGenerator.constructor | benchmark/hicache/bench_multiturn.py:263-386 | the object starts in the initial state of the protocol with a consistent round table |
| MultiturnWorkload.WorkloadGenerator.SendNext | benchmark/hicache/bench_multiturn.py:404-412 | one sender turn is the send step, or nothing when throttled or out of requests, or the policy error |
| MultiturnWorkload.WorkloadGenerator.AdvanceBar | python/sglang/test/kits/cache_hit_kit.py:87-89 | the request function advances the progress bar by one and hands back any response, success or failure |
| MultiturnWorkload.WorkloadGenerator.PutResponse | benchmark/hicache/bench_multiturn.py:391-394 | the response handed back is put at the end of the response queue, in a separate step |
| MultiturnWorkload.WorkloadGenerator.CatchException | benchmark/hicache/bench_multiturn.py:395-400 | a request ended by an escaping exception queues a failure and leaves the bar behind |
| MultiturnWorkload.WorkloadGenerator.Credit | benchmark/hicache/bench_multiturn.py:448-482 | a successful response extends the history, advances the round and its metrics, or meets a missing metrics key |
| MultiturnWorkload.WorkloadGenerator.AskNext | benchmark/hicache/bench_multiturn.py:486-516 | the next sub-question is popped, appended to the history and its request queued or held back |
| MultiturnWorkload.WorkloadGenerator.CountAtBarrier | benchmark/hicache/bench_multiturn.py:518-526 | the barrier counts the round and opens after the last participating client |
| MultiturnWorkload.WorkloadGenerator.HandleSuccess | benchmark/hicache/bench_multiturn.py:448-538 | the handler's branch for a success is the model's |
| MultiturnWorkload.WorkloadGenerator.HandleResponse | benchmark/hicache/bench_multiturn.py:441-538 | one handler turn is the handle step; a failure only counts as completed |
| MultiturnWorkload.WorkloadGenerator.ReleaseNext | benchmark/hicache/bench_multiturn.py:534-535 | one iteration of the release loop is the release step |
| MultiturnWorkload.WorkloadGenerator.FinishRelease | benchmark/hicache/bench_multiturn.py:536-538 | the end of a release moves the barrier to the next round |
| MultiturnWorkload.WorkloadGenerator.TimeOut | benchmark/hicache/bench_multiturn.py:439-443 | the handler can find the queue empty |
| MultiturnWorkload.WorkloadGenerator.CheckDone | benchmark/hicache/bench_multiturn.py:539-541 | after a time-out the handler leaves exactly when the progress bar is full |
| MultiturnWorkload.WorkloadGenerator.CheckSenderDone | benchmark/hicache/bench_multiturn.py:414-415 | the sender leaves exactly when the progress bar is full |
| MultiturnTheorems.StepKeepsInv | benchmark/hicache/bench_multiturn.py:388-544 | every step of either thread, with any response, keeps the invariant of places, counters, supply, metrics, barrier and conversations |
| MultiturnTheorems.RunKeepsInv | benchmark/hicache/bench_multiturn.py:388-544 | so does every interleaving |
| MultiturnTheorems.OneOutstandingRequest | benchmark/hicache/bench_multiturn.py:402-427 | in every reachable state each client is in at most one queue, `sent - completed` is the number of requests on their way and within `max_parallel`, and the handler has not died of an exception |
| MultiturnTheorems.SubQuestionSupply | benchmark/hicache/bench_multiturn.py:292-303 | the sub-questions left cover all rounds still to be started, so the stack is never popped when empty |
| MultiturnTheorems.BarrierSafety | benchmark/hicache/bench_multiturn.py:513-538 | with the barrier on and any failures, everything sendable, on its way or unhandled is in the active round, and no prompt of round r is sent or sendable before every client has completed all its first r rounds |
| MultiturnTheorems.PromptChain | benchmark/hicache/bench_multiturn.py:448-516 | in every reachable state each prompt is the client's previous prompt with the two extensions its history got in between; what these are is `ServerDialogue` |
| MultiturnLedger.HandlingExtendsHistory | benchmark/hicache/bench_multiturn.py:448-509 | handling a success extends its client's history by exactly the output ids, or the one assistant message if the text is not empty, and then by the tokens, or the user message, of the last sub-question left; in the last round by the reply only; no other history changes |
| MultiturnDialogue.ServerDialogue | benchmark/hicache/bench_multiturn.py:388-516 | over every schedule: a client's first prompt is its first sample, and prompt k + 1 is prompt k, the response the server gave to it and one sub-question, item by item |
| MultiturnDialogue.OrdersKept | benchmark/hicache/bench_multiturn.py:186-208 | over every schedule: no sub-question is used twice, responses are handled in the order in which requests ended, and with the fifo policy requests are sent in the order in which they came up |
| MultiturnTheorems.SharedHistoryIsStable | benchmark/hicache/bench_multiturn.py:337-355 | the history list shared with a waiting or travelling request is what its payload reads, and no step changes it |
| MultiturnProgress.BoundedWork | benchmark/hicache/bench_multiturn.py:402-538 | no schedule makes more than 5 * total - clients + max_rounds steps that are not idle polling |
| MultiturnProgress.QuiescentOutcome | benchmark/hicache/bench_multiturn.py:402-538 | once only idle polling is left, all requests are handled exactly when every failure hit its client's last round and, with the barrier, a round after which no client has another; the bar is full exactly when moreover no exception escaped |
| MultiturnProgress.FailureFreeProgress | benchmark/hicache/bench_multiturn.py:402-538 | without failures some step is possible until exactly the total is handled; then every client has done its rounds and the per-round metrics match `clients_per_round` |
| MultiturnExit.EarlyFailureNeverEnds | benchmark/hicache/bench_multiturn.py:395-447 | after a failure anywhere else, or an escaped exception, no continuation fills the progress bar: the sender is still in its loop and the handler has not stopped |
| MultiturnRuns.EarlyFailureHappens | benchmark/hicache/bench_multiturn.py:441-447 | a run in which the only client fails in the first of its two rounds reaches such a state |
| MultiturnRuns.EscapeHappens | benchmark/hicache/bench_multiturn.py:395-400 | so does a run in which the only request ends in an escaped exception |
| MultiturnExit.HandlerExit | benchmark/hicache/bench_multiturn.py:539-541 | when the handler has left, all requests are sent and counted by the bar; handled responses, queued ones and one on its way to the queue add up to the total, and the sender can leave iff none is on its way and fewer than `max_parallel` are queued |
| MultiturnExit.SenderExitIff | benchmark/hicache/bench_multiturn.py:402-427 | after the handler's exit the sender leaves its loop in some continuation iff fewer than `max_parallel` responses are unhandled; else it stays in it in every continuation |
| MultiturnExit.ExitHandlesAll | benchmark/hicache/bench_multiturn.py:388-541 | for every run from a time-out to the handler's exit without handling anything: all requests end up handled iff at the time-out the bar was already full and no response was between bar and queue |
| MultiturnExit.ExitOutcome | benchmark/hicache/bench_multiturn.py:435-541 | every run in which the handler leaves has such a last time-out, whose state decides whether everything is handled |
| MultiturnRuns.ExitRaceExists | benchmark/hicache/bench_multiturn.py:388-400 | three runs without failures lose the only response and leave the sender stuck: bar and queue filled after the time-out, the bar filled after it and the response queued after the exit, and the bar full but the response not yet queued at the time-out |
| RequeueBenchmark.Benchmark.constructor | benchmark/hicache/bench_serving.py:414-468 | for any input, the iteration count is the sum of conversation lengths and the queue holds every conversation once |
| RequeueBenchmark.Benchmark.NextRequest | benchmark/hicache/bench_serving.py:263-277 | one iteration takes the queue's head and starts its task, or gives up on a time-out |
| RequeueBenchmark.Benchmark.PostTurn | benchmark/hicache/bench_serving.py:99-116 | a task posts the conversation so far and the next prompt, with the prompt length summed over the turns as they stand |
| RequeueBenchmark.Benchmark.FinishTurn | benchmark/hicache/bench_serving.py:172-190 | an answered turn is recorded and the conversation put back unless it was the last |
| RequeueBenchmark.Benchmark.FailTurn | benchmark/hicache/bench_serving.py:191-197 | a failed turn drops the conversation |
| RequeueProofs.StepKeepsInv | benchmark/hicache/bench_serving.py:172-190 | every step keeps each conversation in at most one place with a transcript matching its turns and replies |
| RequeueProofs.AtMostOnceInOrder | benchmark/hicache/bench_serving.py:99-190 | in every reachable state no put blocks, and the posts of a conversation are its first turns, each once and in order, with the transcript recorded for it |
| RequeueReplies.PostsCarryReplies | benchmark/hicache/bench_serving.py:99-190 | over every schedule: the posts of a conversation are its first turns in order, carrying the replies the schedule's answers gave to the turns before; conversations are taken from the queue in the order in which they were put on it |
| RequeueReplies.ExpectedPostIs | benchmark/hicache/bench_serving.py:99-116 | such a post has user prompts and assistant replies by turns, the turn's own output limit, and as length all inputs so far plus all outputs really generated |
| RequeueReplies.LimitHolds | benchmark/hicache/bench_serving.py:396-412 | never more requests run at once than the concurrency limit allows |
| RequeueProofs.NothingLeftInQueue | benchmark/hicache/bench_serving.py:268-277 | when all iterations are made and all tasks have started, the queue is empty and every turn has been posted |
| RequeueProofs.RunOutcome | benchmark/hicache/bench_serving.py:172-277 | in every run that cannot go on, given-up loops included, each conversation is answered, failed or stranded in the queue with turns left; all turns are posted iff nothing is stranded and every failure hit a last turn; only a loop that gave up strands anything |
| RequeueProofs.ExactlyOnce | benchmark/hicache/bench_serving.py:414-493 | without failures something can go on until the run has ended; then every turn of every conversation is posted and answered exactly once, in order and in exactly `num_actual_requests` iterations, iff the loop did not give up waiting |
| RequeueProofs.GiveUpStrands | benchmark/hicache/bench_serving.py:263-277 | a run without failures in which the loop gives up and a conversation is stranded with a turn never posted |
| RequeueProofs.FlattenKeepsTotal | benchmark/hicache/bench_serving.py:414-421 | the count taken before flattening shared prefixes is still right after it |
| RequeueProofs.FlattenKeepsTurns | benchmark/hicache/bench_serving.py:419-421 | flattening makes one conversation of each turn, in order |
| Redirects.Follow | benchmark/line_retrieval/gen_data.py:63-74 | the walk terminates with the complete redirect path, or with no links when the line never reaches a root |
| Redirects.Resolve | benchmark/line_retrieval/gen_data.py:56-76 | a line is in the ring set iff it never reaches a root; every line ends with the original value of the line its walk ends at, despite overwriting in place |
| Redirects.TrailFindsRoot | benchmark/line_retrieval/gen_data.py:66-74 | a walk ends at a root iff some number of redirections leads to one |
| Redirects.TerminalIsFixed | benchmark/line_retrieval/gen_data.py:75 | the line a walk ends at keeps its own value |
| Redirects.LinksAreThePath | benchmark/line_retrieval/gen_data.py:63-76 | the links chain from the line to its root without repeating a line |
| Redirects.GroupByHops | benchmark/line_retrieval/gen_data.py:78-83 | the groups list, in order, the resolvable lines by path length |
| Redirects.GroupContains | benchmark/line_retrieval/gen_data.py:80-83 | membership in a group is exactly resolvability with that path length |
| LineRetrieval.Generate | benchmark/line_retrieval/gen_data.py:56-83 | the generated object has resolved values, links and groups for every line |
| LineRetrieval.ReadableIffPathInside | benchmark/line_retrieval/bench_sglang.py:42-52 | a resolvable line can be read from the cut document exactly when its whole redirect path is before the cut, and then what is read is its resolved value |
| LineRetrieval.ChooseQuery | benchmark/line_retrieval/bench_sglang.py:41-65 | the query is the one at the given percentage of the answerable lines in line order; the four parts together are the lines 0 to src, or all if there are fewer; a reader of them finds the label in num_hoops - 1 references; each error arises exactly when there is no group or no query |
| LineRetrieval.Parts | benchmark/line_retrieval/bench_sglang.py:54-62 | the four body parts concatenate to the body |
| WheelLinks.LinkHasName | scripts/update_nightly_whl_index.py:96-118 | the name found in a generated link is the wheel's file name iff that has no angle brackets and something before its `.whl` |
| WheelTexts.MatchHereIff | scripts/update_nightly_whl_index.py:113-118 | which text the file name pattern matches |
| WheelTexts.LinkLeadsToWheel | scripts/update_nightly_whl_index.py:54-98 | the address of a generated link is that of the wheel in its release, with its hash |
| WheelLinks.LinkHasNameTag | scripts/update_nightly_whl_index.py:56-118 | for a wheel name and any tag, the name is found iff the tag holds no other link's name and no closing bracket left open |
| WheelLinks.LinkHasHash | scripts/update_nightly_whl_index.py:95-97 | the address of a generated link carries the wheel's hash iff neither tag nor file name contain the mark `#sha256=` |
| WheelLinks.RemoveDuplicates | scripts/update_nightly_whl_index.py:111-121 | the loop keeps the first link of each file name, in order |
| WheelLinks.DedupKeepsNames | scripts/update_nightly_whl_index.py:111-121 | no file name is lost |
| WheelLinks.DedupIsDistinct | scripts/update_nightly_whl_index.py:111-121 | file names are unique |
| WheelLinks.DedupKeepsFirst | scripts/update_nightly_whl_index.py:111-121 | for each file name the first link is the one kept |
| WheelLinks.DedupIncremental | scripts/update_nightly_whl_index.py:108-121 | reducing new links with an already reduced history equals reducing the full history |
| WheelLinks.DedupRepeated | scripts/update_nightly_whl_index.py:108-121 | links published twice count once |
| WheelPages.PageRoundTrip | scripts/update_nightly_whl_index.py:79-87 | parsing a printed page returns the links printed |
| WheelTexts.PageLayout | scripts/update_nightly_whl_index.py:143-150 | the lines of the package page |
| WheelTexts.NewlineIsOne | scripts/update_nightly_whl_index.py:79-84 | reading in text mode makes one newline of either kind of line ending |
| WheelPages.ParsedLinksAreClean | scripts/update_nightly_whl_index.py:79-87 | whatever the old file was, the links read from it are single lines in link form |
| WheelPages.IncrementalIsBatch | scripts/update_nightly_whl_index.py:79-150 | after any sequence of runs the page is the duplicate-free concatenation of all runs, newest first |
| WheelOrder.ListedByCountIff | scripts/update_nightly_whl_index.py:5-121 | the links are listed by commit count, newest first, iff no run that contributes to the page is of an older commit than an earlier one, republished files included |
| WheelOrder.FreshRunsByCountIff | scripts/update_nightly_whl_index.py:5-121 | for runs with file names of their own: iff the counts never fall from one run to the next |
| WheelOrder.RebuildIsListedFirst | scripts/update_nightly_whl_index.py:5-121 | a rebuild of an older commit is listed before the newer commit |
| WheelPages.RepeatedRunChangesNothing | scripts/update_nightly_whl_index.py:79-150 | repeating a run leaves the page as it is |
| WheelPages.RunOutcome | scripts/update_nightly_whl_index.py:108-150 | after a run names are unique, none is lost, and the run's links win |
| WheelRoot.RootRoundTrip | scripts/update_nightly_whl_index.py:123-140 | parsing a printed root page returns the packages printed |
| WheelTexts.RootLayout | scripts/update_nightly_whl_index.py:135-140 | the lines of the root page, one per package |
| WheelTexts.MatchPackageIff | scripts/update_nightly_whl_index.py:125-132 | which text the package pattern matches |
| WheelRoot.SortPackages | scripts/update_nightly_whl_index.py:139-140 | the listing is sorted and has exactly the packages |
| WheelTexts.LessMeaning | scripts/update_nightly_whl_index.py:139-139 | the order of the listing is that of the first character that differs |
| WheelRoot.SortedIsUnique | scripts/update_nightly_whl_index.py:136-140 | a set of packages has one sorted listing |
| WheelIndex.KeepLinks | scripts/update_nightly_whl_index.py:85-87 | the lines that are links, in order |
| WheelTexts.LinkLinesOfOne | scripts/update_nightly_whl_index.py:85-87 | a line counts as a link iff it begins like one |
| WheelIndex.IndexFiles.constructor | scripts/update_nightly_whl_index.py:50-52 | the CUDA version gets its prefix |
| WheelTexts.CudaNameIs | scripts/update_nightly_whl_index.py:50-52 | a version with its prefix is kept, another one gets it |
| WheelTexts.TagParts | scripts/update_nightly_whl_index.py:56-60 | the tag is made of the date, if there is one, and the commit |
| WheelTexts.TagIdentifiesBuild | scripts/update_nightly_whl_index.py:56-60 | date and commit, if without hyphens, can be read back from the tag |
| WheelIndex.IndexFiles.Update | scripts/update_nightly_whl_index.py:28-150 | a run writes the updated page, the package set grows by `sglang` only, and the two error cases leave both files alone |
| WheelIndex.PublishedWheelsAreListed | scripts/update_nightly_whl_index.py:89-121 | every wheel of a run is listed under its name with this run's link, and nothing listed before is lost |
| Fracs.FixFracs | benchmark/reasoning_benchmark/answer_extraction.py:8-37 | the loop with its early return computes the repaired string |
| Fracs.FixKeepsText | benchmark/reasoning_benchmark/answer_extraction.py:8-37 | erasing all braces from input and output gives the same text |
| Fracs.FixKeepsNesting | benchmark/reasoning_benchmark/answer_extraction.py:8-37 | output and input nest alike, so one is balanced iff the other is |
| Fracs.FixKeepsFractions | benchmark/reasoning_benchmark/answer_extraction.py:22-35 | where LaTeX reads a `\frac` command (no letter after it, no escape before it, blanks skipped, control sequences and groups as one argument), numerator, denominator and the text up to the next `\frac` are kept iff the numerator was braced or the first two symbols are neither backslash nor blank, an escaped closing brace as denominator excepted, and the piece before keeps its last escape |
| Fracs.LongerCommandsTorn | benchmark/reasoning_benchmark/answer_extraction.py:9-35 | a command that only begins with `\frac` is no fraction before the repair and becomes one with its next letter as numerator |
| Fracs.TornCommand | benchmark/reasoning_benchmark/answer_extraction.py:9-35 | `\fraction` becomes the fraction of t and i followed by `on` |
| FracNesting.FixKeepsNestedFractions | benchmark/reasoning_benchmark/answer_extraction.py:8-37 | for a `\frac` that can be wrapped, with every later one followed by a brace or two symbols: numerator, denominator and rest of the whole text after it are the repaired ones of the input |
| FracNesting.FixedIsRepair | benchmark/reasoning_benchmark/answer_extraction.py:8-37 | on such text splitting and rejoining is the same as repairing in one walk over the text |
| Fracs.TornControlSequence | benchmark/reasoning_benchmark/answer_extraction.py:22-35 | `\frac\pi2` is torn into something that is no fraction any more |
| Fracs.TornByBlank | benchmark/reasoning_benchmark/answer_extraction.py:22-35 | `\frac 12` becomes a fraction with a blank numerator |
| Fracs.FixIsIdempotent | benchmark/reasoning_benchmark/answer_extraction.py:8-37 | repairing twice is repairing once |
| Fracs.FixBracesAll | benchmark/reasoning_benchmark/answer_extraction.py:15-21 | every `\frac` of the result is followed by a brace iff none was followed by fewer than two symbols |
| Fracs.FixUnchangedIff | benchmark/reasoning_benchmark/answer_extraction.py:8-37 | exactly the hopeless and the already braced strings are returned unchanged |
| Boxed.ExtractBoxedAnswers | benchmark/reasoning_benchmark/answer_extraction.py:182-197 | the outer loop collects the answers of all pieces |
| Boxed.FindAnswer | benchmark/reasoning_benchmark/answer_extraction.py:185-196 | the inner loop finds the brace that closes the box |
| Boxed.AnswerIsBalanced | benchmark/reasoning_benchmark/answer_extraction.py:186-196 | an answer is balanced, apart from the brace kept before a percent sign, and is missing iff the box is never closed |
| Boxed.RoundTripIff | benchmark/reasoning_benchmark/answer_extraction.py:182-197 | extraction from composed texts returns exactly the bodies iff no body contains a box and no box is followed by a percent sign |
| Boxed.SingleBox | benchmark/reasoning_benchmark/answer_extraction.py:192-195 | what a single box yields, with and without a percent sign |
| Boxed.NestedExample | benchmark/reasoning_benchmark/answer_extraction.py:184 | a nested box is not returned whole |
| UserGenerator.Generator.constructor | benchmark/hicache/bench_mix.py:157-193 | the cumulative ratios are prefix sums, all statistics start at zero and nobody is queued or handed out |
| UserGenerator.Generator.DrawRounds | benchmark/hicache/bench_mix.py:199-207 | the loop finds the first cumulative ratio above the number drawn |
| UserGenerator.Generator.Gen | benchmark/hicache/bench_mix.py:195-227 | a new user with its numbered prompt and token count enters round 0, is counted and handed out |
| UserGenerator.Generator.FindPosition | benchmark/hicache/bench_mix.py:262-267 | the search leaves the index at which the source inserts |
| UserGenerator.Generator.EnterNextRound | benchmark/hicache/bench_mix.py:239-257 | the record for the next round: prompt extended by reply and sample, drawn token count and interval replaced by their means unless positive |
| UserGenerator.Generator.Push | benchmark/hicache/bench_mix.py:229-267 | an answered round is counted; the user is given back and, if it has rounds left, queued with extended prompt, token count and start time |
| UserGenerator.Generator.Pop | benchmark/hicache/bench_mix.py:269-276 | the head is handed out when due, else a new user |
| RoundLaws.PopHandsOutDue | benchmark/hicache/bench_mix.py:269-276 | the user popped was there before iff the queue's head starts before now, and then it is the head; else it is new |
| RoundLaws.NobodyIsEarly | benchmark/hicache/bench_mix.py:269-276 | over every run nobody is handed out for a later round before its start |
| RoundLaws.PushSets | benchmark/hicache/bench_mix.py:233-257 | prompt, round, start time and token count after a push, drawn values unless they are not positive |
| RoundLaws.PushInserts | benchmark/hicache/bench_mix.py:259-267 | the user goes before the first that starts later, or before the last if there is none, and the others keep their order |
| RoundLaws.GenSets | benchmark/hicache/bench_mix.py:195-227 | a new user's rounds, prompt and token count |
| RoundLaws.StatisticsAddUp | benchmark/hicache/bench_mix.py:191-276 | over every run prompts are the number, samples and replies in order, and the token statistics are the sums over prompts issued and answers pushed |
| RoundScheduler.SelectRounds | benchmark/hicache/bench_mix.py:199-207 | the number of rounds is between 1 and the number of ratios |
| RoundScheduler.SelectMeaning | benchmark/hicache/bench_mix.py:199-207 | k rounds are selected by the numbers between the sums of the ratios before and up to k |
| RoundScheduler.SamplingCounts | benchmark/hicache/bench_mix.py:157-207 | of the S + 1 outcomes exactly `round_ratios[k-1]` select k rounds, and one more the last |
| RoundScheduler.RunKeepsInv | benchmark/hicache/bench_mix.py:195-276 | every sequence of pops and pushes keeps counters, rounds, places and prompts consistent |
| RoundScheduler.PopulationAccounting | benchmark/hicache/bench_mix.py:191-276 | requests issued less requests answered per round are the users live in it; the planned counts sum to the users created; every user with rounds left is exactly once in the queue or handed out, and every finished one in neither |
| RoundScheduler.HandedOutOnce | benchmark/hicache/bench_mix.py:229-276 | nobody is handed out while out, and nobody is queued while handed out |
| RoundScheduler.PromptsApart | benchmark/hicache/bench_mix.py:212-242 | no user's prompt is ever a prefix of another user's |
| RoundScheduler.PromptsGrow | benchmark/hicache/bench_mix.py:229-242 | each prompt of a user is a prefix of all its later ones |
| RoundScheduler.PushKeepsOrderIff | benchmark/hicache/bench_mix.py:259-267 | an ordered queue stays ordered iff the user pushed does not start after everybody queued |
| RoundScheduler.PushStarts | benchmark/hicache/bench_mix.py:259-267 | a push inserts the new start time at the source's position and changes no other |
| RoundScheduler.LatestUserJumpsAhead | benchmark/hicache/bench_mix.py:262-267 | a concrete queue that is put out of order |
| RoundScheduler.IntendedPositionKeepsOrder | benchmark/hicache/bench_mix.py:262-266 | inserting at the position searched for keeps the order |
| ChatFilter.KeepTurns | benchmark/hicache/data_processing.py:56-84 | the turns within the limits and their token counts |
| ChatFilter.KeepMeaning | benchmark/hicache/data_processing.py:56-84 | the turns kept are exactly those whose lengths are within the limits that are set, in order, with the fixed output length or that of the completion |
| ChatFilter.SurvivorsMeaning | benchmark/hicache/data_processing.py:85-87 | the survivors are the conversations with a turn within the limits, in order |
| ChatFilter.FilterPass | benchmark/hicache/data_processing.py:52-87 | the inner loop is one pass, with the tokens of the conversations it adds |
| ChatFilter.PassAppends | benchmark/hicache/data_processing.py:52-87 | a pass appends the survivors in dataset order, as many as are wanted |
| ChatFilter.PassStallsIff | benchmark/hicache/data_processing.py:51-87 | a pass changes nothing iff the workload is full or nothing survives |
| ChatFilter.LoopEndsIff | benchmark/hicache/data_processing.py:51-87 | the outer loop ends iff nothing is wanted or some conversation survives the limits |
| ChatFilter.CommonFilterChat | benchmark/hicache/data_processing.py:47-91 | entry k is survivor k mod n in dataset order and the totals are the sums over the returned turns |
| ChatFilter.SurvivorsHaveTurns | benchmark/hicache/data_processing.py:85-87 | no conversation returned is empty |
| StreamLatency.MeasureStream | benchmark/hicache/bench_warm_cache.py:118-163 | the chunk loop computes first-token time, inter-token latencies and output length over all chunks, with or without text, the last text, and the time until the last chunk |
| StreamLatency.LatenciesTelescope | benchmark/hicache/bench_warm_cache.py:141-159 | the latencies sum to the time from the first chunk with text to chunk k, the last one that raised the token count, whose count is the final one; their number plus the first chunk's tokens is the output length |
| StreamLatency.LatenciesAreShares | benchmark/hicache/bench_warm_cache.py:148-155 | each single latency is its token's equal share of the time between the chunk that brought it and the chunk counted before |
| StreamLatency.ObserveMeaning | benchmark/hicache/bench_warm_cache.py:145-159 | for one chunk of any stream: one latency per new token, each the gap divided by their number; nothing without new tokens |
| Sharding.ShardsPartition | examples/checkpoint_engine/update.py:69-70 | for every list and world size the ranks' slices concatenate to the whole list |
| Sharding.PerRankIsLeast | examples/checkpoint_engine/update.py:69-78 | the slice length is the least with which the ranks reach the end of the list |
| Sharding.RanksLoadEverything | examples/checkpoint_engine/update.py:74-91 | the results of all ranks together are the weight map, each tensor from its mapped file |
| Sharding.EachWeightLoadedOnce | examples/checkpoint_engine/update.py:78-91 | each weight is loaded by exactly one rank below the world size |
| Sharding.GroupByFile | examples/checkpoint_engine/update.py:80-85 | every weight of the shard is listed under its own file, and nothing else is |
| Sharding.LoadFile | examples/checkpoint_engine/update.py:87-90 | the names listed for a file are loaded from it |
| Sharding.LoadShard | examples/checkpoint_engine/update.py:80-91 | a rank loads the dictionary of its shard: exactly its tensors, each from its mapped file |
| Sharding.OneLeaderPosts | examples/checkpoint_engine/update.py:101-118 | of the clamped slices posted, a handle is in that of exactly one rank, the leader of its group, which is below the world size |
| Sharding.PostsMakeUpHandles | examples/checkpoint_engine/update.py:101-118 | what the ranks post is together the list of handles, each once and in order |

## Left out

- The OpenAI, aiohttp and HTTP clients, heartbeats, sleeps, the drawing of progress bars and profiling calls: the server is an arbitrary responder.
- Interleavings inside one handler turn: handling a response up to the barrier release is one step; the sender reads only the completed counter and the ready queue, so what it can do in between it can also do after the step.
- Interleavings between the sender's throttle test, its pop and its counting: the handler only raises the completed counter and adds to the ready queue, so the three are one step at the moment of the pop.
- Output lengths inside payloads and the values of the latency metrics; only how many metrics entries each round has is modelled.
- The first-come order of the semaphore in the conversation benchmark: any waiting task may start.
- The warm-up request before the conversation benchmark and its metrics.
- Posting a turn of a conversation without turns, an index error in the source; the loaders never produce one (`ChatFilter.SurvivorsHaveTurns`).
- Drawing line names, values and redirect targets, the few-shot suffix and the prompt templates of the line retrieval benchmark; lines are modelled by what they say, not by their wording.
- Computing hashes, directories and the sorting of wheel paths: a run is given its wheels in order.
- WheelLinks.LinkHasName: tags with a closing angle bracket are excluded; for wheel names `WheelLinks.LinkHasNameTag` covers them. Hashes are hexadecimal, as the source computes them.
- WheelLinks.LinkHasHash: a tag or file name with a double quote is excluded; it would end the address.
- WheelIndex.PublishedWheelsAreListed: wheel names with angle brackets or line breaks, and such tags, are excluded.
- Fracs.FixKeepsFractions: reads a fraction within the text up to the next `\frac`; `FracNesting.FixKeepsNestedFractions` reads on, but as a sufficient condition only.
- The removal of blanks before the repair: `\frac ab` reaches it as `\fracab`, which is then read as a longer command.
- `strip_string`, `extract_answer` and symbolic comparison of answers, which rest on regular expressions and outside libraries.
- UserGenerator.Generator.Push: user records are addressed by id instead of by reference; that no record is queued and handed out at once is `RoundScheduler.HandedOutOnce`.
- The sender and handler threads of the mixed benchmark: any order of pops and of pushes of handed-out users is allowed, and a user whose request failed just stays handed out.
- ChatFilter.CommonFilterChat: a positive request with no surviving conversation is excluded by the precondition, as the loop then does not end (`ChatFilter.LoopEndsIff`); token counts are given.
- StreamLatency.MeasureStream: floating-point rounding is not modelled.
- Dataset loaders, `sample_random_requests`, `build_prompts`, kernels, gateways and result printing: straight-line code, or code that would add only easy members.
