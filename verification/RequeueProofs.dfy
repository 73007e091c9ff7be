/** Exactly-once, in-order turns of the conversation benchmark, over every run. */
module RequeueProofs {
  import opened Sequences
  import opened Requeue

  /* ---------- what the posts of a conversation should be ---------- */

  /** The first `t` turns with their replies, as chat messages. */
  function Transcript(turns: seq<Turn>, replies: seq<Reply>, t: nat): seq<Message>
    requires t <= |turns| && t <= |replies|
  {
    if t == 0 then []
    else Transcript(turns, replies, t - 1) + [User(turns[t - 1].prompt)] + [Assistant(replies[t - 1].text)]
  }

  /** Input and actually generated tokens of the first `t` turns. */
  function TokensUsed(turns: seq<Turn>, replies: seq<Reply>, t: nat): nat
    requires t <= |turns| && t <= |replies|
  {
    if t == 0 then 0
    else TokensUsed(turns, replies, t - 1) + turns[t - 1].inputLen + replies[t - 1].outputLen
  }

  function ExpectedPost(turns: seq<Turn>, replies: seq<Reply>, t: nat): Post
    requires t < |turns| && t <= |replies|
  {
    Post(Transcript(turns, replies, t) + [User(turns[t].prompt)], turns[t].outputLen,
         TokensUsed(turns, replies, t) + turns[t].inputLen)
  }

  lemma {:induction false} PrefixStable(turns: seq<Turn>, replies: seq<Reply>, more: seq<Reply>, t: nat)
    requires t <= |turns| && t <= |replies| && replies <= more
    ensures Transcript(turns, more, t) == Transcript(turns, replies, t)
    ensures TokensUsed(turns, more, t) == TokensUsed(turns, replies, t)
  {
    if t > 0 { PrefixStable(turns, replies, more, t - 1); }
  }

  /** The mutable turn list: answered turns carry the reply's length. */
  ghost predicate PromptsInv(turns: seq<Turn>, prompts: seq<Turn>, replies: seq<Reply>) {
    && |prompts| == |turns| && |replies| <= |turns|
    && forall i :: 0 <= i < |turns| ==>
         prompts[i] == if i < |replies| then turns[i].(outputLen := replies[i].outputLen) else turns[i]
  }

  lemma {:induction false} TokensAgree(turns: seq<Turn>, prompts: seq<Turn>, replies: seq<Reply>, t: nat)
    requires PromptsInv(turns, prompts, replies) && t <= |replies|
    ensures TokensBefore(prompts, t) == TokensUsed(turns, replies, t)
  {
    if t > 0 { TokensAgree(turns, prompts, replies, t - 1); }
  }

  /** `posted` is 1 while a turn is posted and not answered; a conversation that is
      nowhere has had all its turns answered. */
  ghost predicate ConvInv(turns: seq<Turn>, v: Conversation, posted: nat, placed: bool) {
    && 1 <= |turns| && posted <= 1 && (posted == 1 ==> placed)
    && PromptsInv(turns, v.prompts, v.replies)
    && v.finished < |turns|
    && (placed ==> |v.replies| == v.finished)
    && (!placed ==> |v.replies| == |turns|)
    && |v.posts| == |v.replies| + posted
    && (forall t :: 0 <= t < |v.posts| ==> v.posts[t] == ExpectedPost(turns, v.replies, t))
    && v.messages == Transcript(turns, v.replies, |v.replies|)
                     + (if posted == 1 then [User(turns[v.finished].prompt)] else [])
  }

  lemma PostedKeeps(turns: seq<Turn>, v: Conversation)
    requires ConvInv(turns, v, 0, true)
    ensures ConvInv(turns, Posted(v), 1, true)
  {
    TokensAgree(turns, v.prompts, v.replies, v.finished);
    hide TokensBefore, TokensUsed, Transcript;
  }

  lemma PostsStable(turns: seq<Turn>, v: Conversation, r: Reply)
    requires ConvInv(turns, v, 1, true)
    ensures forall t :: 0 <= t < |v.posts| ==> v.posts[t] == ExpectedPost(turns, v.replies + [r], t)
    ensures Transcript(turns, v.replies + [r], |v.replies|) == Transcript(turns, v.replies, |v.replies|)
  {
    forall t | 0 <= t < |v.posts| ensures v.posts[t] == ExpectedPost(turns, v.replies + [r], t) {
      PrefixStable(turns, v.replies, v.replies + [r], t);
    }
    PrefixStable(turns, v.replies, v.replies + [r], |v.replies|);
  }

  lemma RepliedKeeps(turns: seq<Turn>, v: Conversation, r: Reply)
    requires ConvInv(turns, v, 1, true)
    ensures ConvInv(turns, Replied(v, r), 0, v.finished + 1 < |turns|)
  {
    PostsStable(turns, v, r);
    var replies, n := v.replies + [r], |v.replies|;
    assert Transcript(turns, replies, n + 1)
        == Transcript(turns, replies, n) + [User(turns[n].prompt)] + [Assistant(r.text)];
    hide Transcript, TokensUsed, ExpectedPost;
    assert PromptsInv(turns, Replied(v, r).prompts, replies);
  }

  /* ---------- the invariant ---------- */

  function Active(s: State): multiset<nat> { multiset(s.running) + multiset(s.failed) }

  function Idle(s: State): multiset<nat> { multiset(s.queue) + multiset(s.waiting) + multiset(s.blocked) }

  function Placed(s: State): multiset<nat> { Idle(s) + Active(s) }

  function PostCounts(convs: seq<Conversation>): (r: seq<int>)
    ensures |r| == |convs| && forall j :: 0 <= j < |r| ==> r[j] == |convs[j].posts|
  {
    seq(|convs|, j requires 0 <= j < |convs| => |convs[j].posts|)
  }

  ghost predicate PlacesInv(n: nat, active: multiset<nat>, idle: multiset<nat>) {
    forall j :: j in active + idle ==> j < n && active[j] + idle[j] == 1
  }

  ghost predicate ConvsInv(input: seq<seq<Turn>>, convs: seq<Conversation>,
                           active: multiset<nat>, idle: multiset<nat>) {
    && |convs| == |input|
    && forall j :: 0 <= j < |input| ==> ConvInv(input[j], convs[j], active[j], j in active + idle)
  }

  ghost predicate Inv(input: seq<seq<Turn>>, s: State) {
    && Shaped(s)
    && PlacesInv(|input|, Active(s), Idle(s))
    && ConvsInv(input, s.convs, Active(s), Idle(s))
    && s.blocked == []
    && s.yielded == Sum(PostCounts(s.convs)) + |s.waiting|
  }

  /** One conversation changes, and with it its place. */
  lemma ConvsUpdate(input: seq<seq<Turn>>, convs: seq<Conversation>, j: nat, v: Conversation,
                    active: multiset<nat>, idle: multiset<nat>, active': multiset<nat>, idle': multiset<nat>)
    requires ConvsInv(input, convs, active, idle) && j < |convs|
    requires forall i :: i != j ==> active'[i] == active[i] && idle'[i] == idle[i]
    requires ConvInv(input[j], v, active'[j], j in active' + idle')
    ensures ConvsInv(input, convs[j := v], active', idle')
  {
    hide ConvInv;
    forall i | 0 <= i < |input|
      ensures ConvInv(input[i], convs[j := v][i], active'[i], i in active' + idle')
    {
      if i != j { assert i in active' + idle' <==> i in active + idle; }
    }
  }

  lemma HeadMultiset(q: seq<nat>)
    requires q != []
    ensures multiset(q) == multiset(q[1..]) + multiset{q[0]}
  {
    assert q == [q[0]] + q[1..];
  }

  /** How each step moves conversations. */
  lemma GetMoves(s: State, capacity: nat)
    requires Shaped(s) && s.queue != []
    ensures var t := Step(capacity, s, Get); Idle(t) == Idle(s) && Active(t) == Active(s)
  {
    HeadMultiset(s.queue);
  }

  lemma StartMoves(s: State, capacity: nat, k: nat)
    requires Shaped(s) && k < |s.waiting|
    ensures var t, j := Step(capacity, s, Start(k)), s.waiting[k];
            Idle(s) == Idle(t) + multiset{j} && Active(t) == Active(s) + multiset{j}
  {
    hide Posted;
    RemoveAtMultiset(s.waiting, k);
  }

  lemma FinishMoves(s: State, capacity: nat, k: nat, r: Reply)
    requires Shaped(s) && k < |s.running|
    ensures var t, j := Step(capacity, s, Finish(k, r)), s.running[k];
            && Active(s) == Active(t) + multiset{j}
            && Idle(t) == Idle(s) + if s.convs[j].finished + 1 < |s.convs[j].prompts| then multiset{j} else multiset{}
  {
    RemoveAtMultiset(s.running, k);
    var j := s.running[k];
    assert j < |s.convs|;
    hide Replied, AllOpen, Below;
    var removed := RemoveAt(s.running, k);
    hide RemoveAt;
    var t := Step(capacity, s, Finish(k, r));
    assert t.running == removed && t.waiting == s.waiting && t.failed == s.failed;
    if s.convs[j].finished + 1 >= |s.convs[j].prompts| {
      assert t.queue == s.queue && t.blocked == s.blocked;
    } else if |s.queue| < capacity {
      assert t.queue == s.queue + [j] && t.blocked == s.blocked;
    } else {
      assert t.queue == s.queue && t.blocked == s.blocked + [j];
    }
    hide Step;
  }

  lemma FailMoves(s: State, capacity: nat, k: nat)
    requires Shaped(s) && k < |s.running|
    ensures var t := Step(capacity, s, Fail(k)); Idle(t) == Idle(s) && Active(t) == Active(s)
  {
    RemoveAtMultiset(s.running, k);
  }

  lemma GetKeepsInv(input: seq<seq<Turn>>, s: State, capacity: nat)
    requires Inv(input, s) && s.queue != []
    ensures Inv(input, Step(capacity, s, Get))
  {
    hide PlacesInv, ConvsInv, Idle, Active, Shaped;
    assert Shaped(s);
    GetMoves(s, capacity);
    StepShaped(capacity, s, Get);
  }

  /** The place of an entry, as the invariant sees it. */
  lemma WaitingPlace(input: seq<seq<Turn>>, s: State, k: nat)
    requires Inv(input, s) && k < |s.waiting|
    ensures var j := s.waiting[k];
            j < |input| == |s.convs| && Idle(s)[j] == 1 && Active(s)[j] == 0
            && ConvInv(input[j], s.convs[j], 0, true)
  {
    hide ConvInv;
    var j := s.waiting[k];
    assert j in multiset(s.waiting);
    assert j in Active(s) + Idle(s);
  }

  lemma RunningPlace(input: seq<seq<Turn>>, s: State, k: nat)
    requires Inv(input, s) && k < |s.running|
    ensures var j := s.running[k];
            j < |input| == |s.convs| && Idle(s)[j] == 0 && Active(s)[j] == 1
            && ConvInv(input[j], s.convs[j], 1, true)
  {
    hide ConvInv;
    var j := s.running[k];
    assert j in multiset(s.running);
    assert j in Active(s) + Idle(s);
  }

  lemma PlacesMove(n: nat, active: multiset<nat>, idle: multiset<nat>, active': multiset<nat>, idle': multiset<nat>)
    requires PlacesInv(n, active, idle)
    requires active' + idle' <= active + idle
    ensures PlacesInv(n, active', idle')
  {
    forall j | j in active' + idle' ensures j < n && active'[j] + idle'[j] == 1 {
      assert (active' + idle')[j] <= (active + idle)[j];
    }
  }

  lemma StartKeepsInv(input: seq<seq<Turn>>, s: State, capacity: nat, k: nat)
    requires Inv(input, s) && k < |s.waiting|
    ensures Inv(input, Step(capacity, s, Start(k)))
  {
    hide PlacesInv, ConvsInv, ConvInv, Idle, Active, Posted;
    var j := s.waiting[k];
    StepShaped(capacity, s, Start(k));
    StartMoves(s, capacity, k);
    WaitingPlace(input, s, k);
    hide Shaped;
    var t := Step(capacity, s, Start(k));
    assert Active(t) + Idle(t) == Active(s) + Idle(s);
    PlacesMove(|input|, Active(s), Idle(s), Active(t), Idle(t));
    PostedKeeps(input[j], s.convs[j]);
    assert Active(t)[j] == 1 && j in Active(t) + Idle(t);
    ConvsUpdate(input, s.convs, j, Posted(s.convs[j]), Active(s), Idle(s), Active(t), Idle(t));
    PostCounted(s.convs, j);
  }

  lemma PostCounted(convs: seq<Conversation>, j: nat)
    requires j < |convs| && convs[j].finished < |convs[j].prompts|
    ensures Sum(PostCounts(convs[j := Posted(convs[j])])) == Sum(PostCounts(convs)) + 1
  {
    SumUpdate(PostCounts(convs), j, |convs[j].posts| + 1);
    assert PostCounts(convs[j := Posted(convs[j])]) == PostCounts(convs)[j := |convs[j].posts| + 1];
  }

  lemma ReplyNotCounted(convs: seq<Conversation>, j: nat, r: Reply)
    requires j < |convs| && convs[j].finished < |convs[j].prompts|
    ensures Sum(PostCounts(convs[j := Replied(convs[j], r)])) == Sum(PostCounts(convs))
  {
    assert PostCounts(convs[j := Replied(convs[j], r)]) == PostCounts(convs);
  }

  /** There are no more entries than conversations. */
  lemma EntriesFit(input: seq<seq<Turn>>, s: State)
    requires Inv(input, s)
    ensures |s.queue| + |s.waiting| + |s.running| + |s.failed| <= |input|
  {
    hide ConvsInv;
    var ones := seq(|input|, i => 1);
    SumOnes(ones);
    var all := Active(s) + Idle(s);
    assert |all| == |s.running| + |s.failed| + |s.queue| + |s.waiting|;
    forall j | j in all ensures j < |ones| && all[j] == 1 && ones[j] >= 1 { }
    SumCoversDistinct(ones, all);
  }

  lemma FinishKeepsInv(input: seq<seq<Turn>>, s: State, k: nat, r: Reply)
    requires Inv(input, s) && k < |s.running|
    ensures Inv(input, Step(|input|, s, Finish(k, r)))
  {
    hide PlacesInv, ConvsInv, Idle, Active, Replied, PromptsInv, Transcript;
    var j := s.running[k];
    StepShaped(|input|, s, Finish(k, r));
    EntriesFit(input, s);
    FinishMoves(s, |input|, k, r);
    RunningPlace(input, s, k);
    hide Shaped;
    var t := Step(|input|, s, Finish(k, r));
    var more := s.convs[j].finished + 1 < |s.convs[j].prompts|;
    SameLength(input[j], s.convs[j]);
    hide ConvInv;
    PlacesMove(|input|, Active(s), Idle(s), Active(t), Idle(t));
    RepliedKeeps(input[j], s.convs[j], r);
    assert Active(t)[j] == 0 && (j in Active(t) + Idle(t) <==> more);
    ConvsUpdate(input, s.convs, j, Replied(s.convs[j], r), Active(s), Idle(s), Active(t), Idle(t));
    ReplyNotCounted(s.convs, j, r);
  }

  lemma SameLength(turns: seq<Turn>, v: Conversation)
    requires ConvInv(turns, v, 1, true)
    ensures |v.prompts| == |turns|
  {
  }

  lemma FailKeepsInv(input: seq<seq<Turn>>, s: State, k: nat)
    requires Inv(input, s) && k < |s.running|
    ensures Inv(input, Step(|input|, s, Fail(k)))
  {
    hide PlacesInv, ConvsInv, Active, Idle;
    StepShaped(|input|, s, Fail(k));
    FailMoves(s, |input|, k);
  }

  lemma StepKeepsInv(input: seq<seq<Turn>>, limit: Option<nat>, s: State, a: Action)
    requires Inv(input, s) && Enabled(TotalTurns(input), limit, s, a)
    ensures Inv(input, Step(|input|, s, a))
  {
    hide PlacesInv, ConvsInv;
    match a {
      case Get => GetKeepsInv(input, s, |input|);
      case GiveUp =>
      case Start(k) => StartKeepsInv(input, s, |input|, k);
      case Finish(k, r) => FinishKeepsInv(input, s, k, r);
      case Fail(k) => FailKeepsInv(input, s, k);
    }
  }

  /* ---------- runs ---------- */

  ghost predicate ValidInput(input: seq<seq<Turn>>) {
    forall j :: 0 <= j < |input| ==> input[j] != []
  }

  lemma InitPlaces(input: seq<seq<Turn>>)
    ensures var s := Init(input);
            && PlacesInv(|input|, Active(s), Idle(s))
            && forall j :: 0 <= j < |input| ==> Active(s)[j] == 0 && j in Active(s) + Idle(s)
  {
    var s := Init(input);
    Identities(s.queue);
    assert Idle(s) == multiset(s.queue) && Active(s) == multiset{};
    forall j | 0 <= j < |input| ensures j in Active(s) + Idle(s) { assert Idle(s)[j] == 1; }
  }

  lemma FreshConversation(turns: seq<Turn>)
    requires turns != []
    ensures ConvInv(turns, Conversation(turns, [], 0, [], []), 0, true)
  {
  }

  lemma InitConvs(input: seq<seq<Turn>>)
    requires ValidInput(input)
    ensures var s := Init(input); ConvsInv(input, s.convs, Active(s), Idle(s))
  {
    InitPlaces(input);
    hide Active, Idle, PlacesInv, ConvInv;
    var s := Init(input);
    forall j | 0 <= j < |input| ensures ConvInv(input[j], s.convs[j], Active(s)[j], j in Active(s) + Idle(s)) {
      FreshConversation(input[j]);
    }
  }

  lemma InitInv(input: seq<seq<Turn>>)
    requires ValidInput(input)
    ensures Inv(input, Init(input))
  {
    hide Active, Idle, PlacesInv, ConvsInv;
    InitPlaces(input);
    InitConvs(input);
    SumZeros(PostCounts(Init(input).convs));
  }

  /** The loop makes at most `total` iterations, and fewer once it has given up. */
  predicate LoopInv(total: int, s: State) {
    s.yielded <= total && (s.gaveUp ==> s.yielded < total)
  }

  lemma StepKeepsLoop(total: int, capacity: nat, limit: Option<nat>, s: State, a: Action)
    requires Shaped(s) && Enabled(total, limit, s, a) && LoopInv(total, s)
    ensures Applicable(s, a) && LoopInv(total, Step(capacity, s, a))
  {
  }

  lemma {:induction false} RunKeepsInv(input: seq<seq<Turn>>, limit: Option<nat>, s: State, actions: seq<Action>)
    requires Inv(input, s) && LoopInv(TotalTurns(input), s) && Runs(TotalTurns(input), |input|, limit, s, actions)
    ensures Inv(input, After(TotalTurns(input), |input|, limit, s, actions))
    ensures LoopInv(TotalTurns(input), After(TotalTurns(input), |input|, limit, s, actions))
    decreases |actions|
  {
    hide PlacesInv, ConvsInv, AllOpen, Below, TotalTurns, Active, Idle, Step;
    if actions != [] {
      StepKeepsLoop(TotalTurns(input), |input|, limit, s, actions[0]);
      StepKeepsInv(input, limit, s, actions[0]);
      RunKeepsInv(input, limit, Step(|input|, s, actions[0]), actions[1..]);
    }
  }

  /** `s` is reached by some interleaving of the loop, the tasks and the server. */
  ghost predicate Reachable(input: seq<seq<Turn>>, limit: Option<nat>, s: State) {
    && ValidInput(input) && Shaped(Init(input))
    && exists actions :: Runs(TotalTurns(input), |input|, limit, Init(input), actions)
                      && s == After(TotalTurns(input), |input|, limit, Init(input), actions)
  }

  lemma ReachableInv(input: seq<seq<Turn>>, limit: Option<nat>, s: State)
    requires Reachable(input, limit, s)
    ensures Inv(input, s) && LoopInv(TotalTurns(input), s)
  {
    var actions :| Runs(TotalTurns(input), |input|, limit, Init(input), actions)
                && s == After(TotalTurns(input), |input|, limit, Init(input), actions);
    SumNonNegative(Lengths(input));
    InitInv(input);
    RunKeepsInv(input, limit, Init(input), actions);
  }

  /** Whatever fails: no task ever blocks on putting its conversation back, each
      conversation is in at most one place, and the posts made for it so far are
      exactly its first turns, each once and in order, each carrying the whole
      conversation before it and the number of tokens really used by it. */
  lemma AtMostOnceInOrder(input: seq<seq<Turn>>, limit: Option<nat>, s: State, j: nat)
    requires Reachable(input, limit, s) && j < |input|
    ensures s.blocked == [] && |s.queue| <= |input|
    ensures Placed(s)[j] <= 1 && |s.convs| == |input|
    ensures var v := s.convs[j];
            && |v.replies| <= |v.posts| <= |input[j]| && |v.posts| <= |v.replies| + 1
            && forall t :: 0 <= t < |v.posts| ==> v.posts[t] == ExpectedPost(input[j], v.replies, t)
  {
    ReachableInv(input, limit, s);
    hide Reachable, PromptsInv, Transcript, ExpectedPost;
    EntriesFit(input, s);
    assert ConvInv(input[j], s.convs[j], Active(s)[j], j in Active(s) + Idle(s));
    assert Placed(s)[j] == Idle(s)[j] + Active(s)[j];
  }

  /* ---------- what a run ends in ---------- */

  lemma PostsWithinTurns(input: seq<seq<Turn>>, s: State)
    requires Inv(input, s)
    ensures forall j :: 0 <= j < |input| ==> PostCounts(s.convs)[j] <= Lengths(input)[j]
    ensures Sum(PostCounts(s.convs)) <= TotalTurns(input)
    ensures Sum(PostCounts(s.convs)) == TotalTurns(input) <==> PostCounts(s.convs) == Lengths(input)
  {
    forall j | 0 <= j < |input| ensures PostCounts(s.convs)[j] <= Lengths(input)[j] {
      assert ConvInv(input[j], s.convs[j], Active(s)[j], j in Active(s) + Idle(s));
    }
    SumBelow(PostCounts(s.convs), Lengths(input));
  }

  lemma QueuedHasTurnsLeft(input: seq<seq<Turn>>, s: State, i: nat)
    requires Inv(input, s) && i < |s.queue|
    ensures s.queue[i] < |input| == |s.convs| && s.queue[i] !in s.failed
    ensures |s.convs[s.queue[i]].posts| == |s.convs[s.queue[i]].replies| < |input[s.queue[i]]|
  {
    hide PromptsInv, Transcript, ExpectedPost;
    var j := s.queue[i];
    assert j in multiset(s.queue);
    assert j in Active(s) + Idle(s);
    assert Active(s)[j] == 0;
    assert ConvInv(input[j], s.convs[j], Active(s)[j], true);
  }

  /** When the loop has made all its iterations no conversation is left queued. */
  lemma NothingLeftInQueue(input: seq<seq<Turn>>, limit: Option<nat>, s: State)
    requires Reachable(input, limit, s) && s.yielded == TotalTurns(input) && s.waiting == []
    ensures s.queue == []
    ensures PostCounts(s.convs) == Lengths(input)
  {
    hide Reachable, PlacesInv, ConvsInv, TotalTurns;
    ReachableInv(input, limit, s);
    PostsWithinTurns(input, s);
    if s.queue != [] {
      QueuedHasTurnsLeft(input, s, 0);
      assert false;
    }
  }

  /** Neither the loop nor any task can go on. */
  ghost predicate Quiescent(input: seq<seq<Turn>>, limit: Option<nat>, s: State) {
    forall a :: Enabled(TotalTurns(input), limit, s, a) ==> a.GiveUp?
  }

  lemma QuiescentQueues(input: seq<seq<Turn>>, limit: Option<nat>, s: State)
    requires Inv(input, s) && Quiescent(input, limit, s)
    requires limit.None? || limit.value >= 1
    ensures s.running == [] && s.waiting == []
    ensures s.queue == [] || s.gaveUp
  {
    hide PlacesInv, ConvsInv, TotalTurns;
    assert !Enabled(TotalTurns(input), limit, s, Fail(0));
    assert !Enabled(TotalTurns(input), limit, s, Start(0));
    if s.queue != [] && !s.gaveUp {
      assert !Enabled(TotalTurns(input), limit, s, Get);
      PostsWithinTurns(input, s);
      QueuedHasTurnsLeft(input, s, 0);
      assert false;
    }
  }

  /** The turn of conversation `j` that failed was its last. */
  predicate FailedLast(input: seq<seq<Turn>>, s: State, j: nat) {
    j < |input| == |s.convs| && |s.convs[j].posts| == |input[j]|
  }

  lemma CountsMatchIff(input: seq<seq<Turn>>, s: State)
    requires |s.convs| == |input| && Below(s.failed, |input|)
    requires forall j :: 0 <= j < |input| && j !in s.failed && j !in s.queue ==> |s.convs[j].posts| == |input[j]|
    requires forall i :: 0 <= i < |s.queue| ==>
               s.queue[i] < |input| && |s.convs[s.queue[i]].posts| < |input[s.queue[i]]|
    ensures PostCounts(s.convs) == Lengths(input) <==>
              s.queue == [] && forall i :: 0 <= i < |s.failed| ==> FailedLast(input, s, s.failed[i])
  {
    var counts, lengths := PostCounts(s.convs), Lengths(input);
    if s.queue != [] { assert counts[s.queue[0]] < lengths[s.queue[0]]; }
    if counts == lengths {
      forall i | 0 <= i < |s.failed| ensures FailedLast(input, s, s.failed[i]) {
        assert counts[s.failed[i]] == lengths[s.failed[i]];
      }
    }
    if s.queue == [] && forall i :: 0 <= i < |s.failed| ==> FailedLast(input, s, s.failed[i]) {
      forall j | 0 <= j < |input| ensures counts[j] == lengths[j] {
        if j in s.failed {
          var i :| 0 <= i < |s.failed| && s.failed[i] == j;
          assert FailedLast(input, s, s.failed[i]);
        }
      }
    }
  }

  lemma ElsewhereIsAnswered(input: seq<seq<Turn>>, s: State, j: nat)
    requires Inv(input, s) && s.running == [] && s.waiting == []
    requires j < |input| && j !in s.failed && j !in s.queue
    ensures |s.convs[j].posts| == |s.convs[j].replies| == |input[j]|
  {
    hide PromptsInv, Transcript, ExpectedPost;
    assert j !in Active(s) + Idle(s);
    assert ConvInv(input[j], s.convs[j], Active(s)[j], false);
  }

  /** The outcome of every run.  Each conversation has been answered completely, has
      failed, or is stranded in the queue with turns left, which only happens when
      the loop has given up.  All turns have been posted, in exactly
      `num_actual_requests` iterations, exactly when nothing is stranded and every
      failure hit a last turn. */
  lemma RunOutcome(input: seq<seq<Turn>>, limit: Option<nat>, s: State)
    requires Reachable(input, limit, s) && Quiescent(input, limit, s)
    requires limit.None? || limit.value >= 1
    ensures |s.convs| == |input| && (s.queue == [] || s.gaveUp)
    ensures forall j :: 0 <= j < |input| && j !in s.failed && j !in s.queue ==>
              |s.convs[j].posts| == |s.convs[j].replies| == |input[j]|
    ensures forall i :: 0 <= i < |s.queue| ==>
              && s.queue[i] < |input| && s.queue[i] !in s.failed
              && |s.convs[s.queue[i]].posts| == |s.convs[s.queue[i]].replies| < |input[s.queue[i]]|
    ensures s.yielded == TotalTurns(input) <==>
              s.queue == [] && forall i :: 0 <= i < |s.failed| ==> FailedLast(input, s, s.failed[i])
    ensures s.gaveUp ==> s.yielded < TotalTurns(input)
  {
    hide Reachable, Quiescent, TotalTurns, PlacesInv, FailedLast, AllOpen;
    ReachableInv(input, limit, s);
    assert |s.convs| == |input|;
    hide ConvsInv;
    QuiescentQueues(input, limit, s);
    forall j | 0 <= j < |input| && j !in s.failed && j !in s.queue
      ensures |s.convs[j].posts| == |s.convs[j].replies| == |input[j]|
    {
      ElsewhereIsAnswered(input, s, j);
    }
    forall i | 0 <= i < |s.queue|
      ensures s.queue[i] < |input| && s.queue[i] !in s.failed
      ensures |s.convs[s.queue[i]].posts| == |s.convs[s.queue[i]].replies| < |input[s.queue[i]]|
    {
      QueuedHasTurnsLeft(input, s, i);
    }
    PostsWithinTurns(input, s);
    CountsMatchIff(input, s);
  }

  /** Every turn has been posted and answered, each exactly once and in order. */
  ghost predicate AllAnswered(input: seq<seq<Turn>>, s: State) {
    && |s.convs| == |input|
    && forall j :: 0 <= j < |input| ==>
         && |s.convs[j].replies| == |s.convs[j].posts| == |input[j]|
         && forall t :: 0 <= t < |input[j]| ==> s.convs[j].posts[t] == ExpectedPost(input[j], s.convs[j].replies, t)
  }

  /** Without failures something can go on until the run has ended; then every turn
      of every conversation has been posted and answered, exactly once and in order
      and in exactly `num_actual_requests` iterations, exactly when the loop has not
      given up waiting; and if it has, some conversation is stranded in the queue. */
  lemma ExactlyOnce(input: seq<seq<Turn>>, limit: Option<nat>, s: State)
    requires Reachable(input, limit, s) && s.failed == []
    requires limit.None? || limit.value >= 1
    ensures (exists a :: Enabled(TotalTurns(input), limit, s, a) && !a.GiveUp?)
         || (&& (AllAnswered(input, s) <==> !s.gaveUp)
             && (s.yielded == TotalTurns(input) <==> !s.gaveUp)
             && (s.queue != [] <==> s.gaveUp))
  {
    hide Reachable, TotalTurns, ExpectedPost, Enabled;
    ReachableInv(input, limit, s);
    if Quiescent(input, limit, s) {
      RunOutcome(input, limit, s);
      hide Quiescent, Inv;
      forall j | 0 <= j < |input| && s.queue == []
        ensures forall t :: 0 <= t < |input[j]| ==>
                  s.convs[j].posts[t] == ExpectedPost(input[j], s.convs[j].replies, t)
      {
        AtMostOnceInOrder(input, limit, s, j);
      }
      if s.queue != [] {
        assert |s.convs[s.queue[0]].posts| < |input[s.queue[0]]|;
        assert !AllAnswered(input, s);
      }
    }
  }

  /* ---------- giving up strands a conversation ---------- */

  ghost predicate Reaches(total: int, s: State, actions: seq<Action>, t: State) {
    Shaped(s) && Runs(total, 1, None, s, actions) && After(total, 1, None, s, actions) == t
  }

  lemma RunPrepend(total: int, s: State, a: Action, rest: seq<Action>, t: State)
    requires Shaped(s) && Enabled(total, None, s, a) && Reaches(total, Step(1, s, a), rest, t)
    ensures Reaches(total, s, [a] + rest, t)
  {
    hide Step, Enabled, Shaped;
    assert ([a] + rest)[1..] == rest;
  }

  /** One conversation, which is queued, waiting or running. */
  function Lone(queue: seq<nat>, waiting: seq<nat>, running: seq<nat>, v: Conversation, gaveUp: bool): State {
    State(queue, waiting, running, [], [], [v], 1, gaveUp)
  }

  lemma LoneBegins(t: Turn)
    ensures var s := Init([[t, t]]);
            && Shaped(s) && Enabled(2, None, s, Get)
            && Step(1, s, Get) == Lone([], [0], [], Conversation([t, t], [], 0, [], []), false)
  {
    var s := Init([[t, t]]);
    assert s.queue == [0] && s.convs == [Conversation([t, t], [], 0, [], [])];
    assert s.queue[1..] == [] && s.waiting + [0] == [0];
  }

  lemma LoneStarts(v: Conversation)
    requires v.finished < |v.prompts|
    ensures var s := Lone([], [0], [], v, false);
            Shaped(s) && Step(1, s, Start(0)) == Lone([], [], [0], Posted(v), false)
  {
    hide Posted;
    var s := Lone([], [0], [], v, false);
    assert RemoveAt([0], 0) == [];
    assert [] + [0] == [0] && [v][0 := Posted(v)] == [Posted(v)];
  }

  lemma LoneFinishes(v: Conversation, r: Reply)
    requires v.finished + 1 < |v.prompts|
    ensures var s := Lone([], [], [0], v, true);
            Shaped(s) && Step(1, s, Finish(0, r)) == Lone([0], [], [], Replied(v, r), true)
  {
    hide Replied;
    assert RemoveAt([0], 0) == [];
    assert [] + [0] == [0] && [v][0 := Replied(v, r)] == [Replied(v, r)];
  }

  lemma LoneGivesUp(v: Conversation)
    requires v.finished < |v.prompts|
    ensures Posted(v).finished == v.finished && Posted(v).prompts == v.prompts
    ensures var s := Lone([], [], [0], Posted(v), false); Shaped(s) && Step(1, s, GiveUp) == s.(gaveUp := true)
  {
  }

  lemma LoneEnds(t: Turn, r: Reply)
    ensures var s := Lone([0], [], [], Replied(Posted(Conversation([t, t], [], 0, [], [])), r), true);
            Shaped(s) && Quiescent([[t, t]], None, s) && |s.convs[0].posts| == 1
  {
    hide TotalTurns, TokensBefore;
  }

  lemma TwoTurns(t: Turn)
    ensures TotalTurns([[t, t]]) == 2
  {
    assert Lengths([[t, t]]) == [2] && Sum([2][1..]) == 0;
  }

  /** Giving up too early: one conversation of two turns, whose first is answered
      just after the time-out.  Nothing has failed, nothing can go on, and the
      second turn is never posted. */
  lemma GiveUpStrands(t: Turn, r: Reply)
    ensures var input, actions := [[t, t]], [Get, Start(0), GiveUp, Finish(0, r)];
            && ValidInput(input) && Shaped(Init(input))
            && Runs(TotalTurns(input), |input|, None, Init(input), actions)
            && var s := After(TotalTurns(input), |input|, None, Init(input), actions);
            && Quiescent(input, None, s)
            && s.failed == [] && s.queue == [0] && |s.convs| == 1 && |s.convs[0].posts| == 1
  {
    hide Step, Posted, Replied, Init, TotalTurns, Quiescent, Shaped;
    var input, v := [[t, t]], Conversation([t, t], [], 0, [], []);
    LoneBegins(t);
    LoneStarts(v);
    LoneGivesUp(v);
    LoneFinishes(Posted(v), r);
    TwoTurns(t);
    LoneEnds(t, r);
    var end := Lone([0], [], [], Replied(Posted(v), r), true);
    RunPrepend(2, Lone([], [], [0], Posted(v), true), Finish(0, r), [], end);
    RunPrepend(2, Lone([], [], [0], Posted(v), false), GiveUp, [Finish(0, r)] + [], end);
    RunPrepend(2, Lone([], [0], [], v, false), Start(0), [GiveUp] + ([Finish(0, r)] + []), end);
    RunPrepend(2, Init(input), Get, [Start(0)] + ([GiveUp] + ([Finish(0, r)] + [])), end);
    assert [Get, Start(0), GiveUp, Finish(0, r)] == [Get] + ([Start(0)] + ([GiveUp] + ([Finish(0, r)] + [])));
  }

  /* ---------- flattening shared prefixes ---------- */

  function Singletons(turns: seq<Turn>): (r: seq<seq<Turn>>)
    ensures |r| == |turns| && forall i :: 0 <= i < |r| ==> r[i] == [turns[i]]
  {
    seq(|turns|, i requires 0 <= i < |turns| => [turns[i]])
  }

  /** With shared prefixes every request becomes a conversation of its own. */
  function Flatten(input: seq<seq<Turn>>): (r: seq<seq<Turn>>)
    ensures ValidInput(r)
  {
    if input == [] then [] else Singletons(input[0]) + Flatten(input[1..])
  }

  function AllTurns(input: seq<seq<Turn>>): seq<Turn> {
    if input == [] then [] else input[0] + AllTurns(input[1..])
  }

  /** Flattening makes a conversation of each turn and keeps all turns in order. */
  lemma {:induction false} FlattenKeepsTurns(input: seq<seq<Turn>>)
    ensures Flatten(input) == Singletons(AllTurns(input))
  {
    if input != [] {
      FlattenKeepsTurns(input[1..]);
      assert Singletons(input[0] + AllTurns(input[1..])) == Singletons(input[0]) + Singletons(AllTurns(input[1..]));
    }
  }

  /** The iteration count computed before flattening still is the total after it. */
  lemma {:induction false} FlattenKeepsTotal(input: seq<seq<Turn>>)
    ensures TotalTurns(Flatten(input)) == TotalTurns(input) == |Flatten(input)|
  {
    if input != [] {
      FlattenKeepsTotal(input[1..]);
      var head, tail := Singletons(input[0]), Flatten(input[1..]);
      assert Lengths(input)[1..] == Lengths(input[1..]);
      assert Lengths(head + tail) == Lengths(head) + Lengths(tail);
      SumAppend(Lengths(head), Lengths(tail));
      SumOnes(Lengths(head));
    }
  }
}
