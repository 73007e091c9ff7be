/** The user generator of the mixed benchmark (benchmark/hicache/bench_mix.py):
    users with several rounds each, a queue ordered by next start time, and
    per-round statistics. */
module RoundScheduler {
  import opened Sequences

  /** A user record; the user's id is its position in the table of users. */
  datatype User = User(current: nat, total: nat, start: real, prompt: string, returnTokens: int)

  datatype Stat = Stat(tokens: int, count: nat)

  /** A prompt sampled for a round, with its length in tokens. */
  datatype Sample = Sample(text: string, len: nat)

  /** The options with an entry per round. */
  datatype Config = Config(ratios: seq<nat>, returnTokens: seq<int>, intervals: seq<real>)

  /** `out` are the users handed out to the senders and not yet given back. */
  datatype State = State(
    users: seq<User>,
    queue: seq<nat>,            // multiturn_queue
    out: multiset<nat>,
    userStats: seq<nat>,
    inputs: seq<Stat>,          // input_stats
    outputs: seq<Stat>)         // output_stats

  /* ---------- drawing the number of rounds ---------- */

  /** `sum(round_ratios[:n])` */
  function Prefix(ratios: seq<nat>, n: nat): nat
    requires n <= |ratios|
  {
    if n == 0 then 0 else Prefix(ratios, n - 1) + ratios[n - 1]
  }

  /** The first position whose cumulative ratio exceeds the number drawn, counted
      from one; the last position if there is none. */
  function SelectFrom(ratios: seq<nat>, rand: nat, idx: nat): (r: nat)
    requires idx <= |ratios|
    ensures idx < |ratios| ==> idx + 1 <= r <= |ratios|
    decreases |ratios| - idx
  {
    if idx == |ratios| then |ratios|
    else if rand < Prefix(ratios, idx + 1) then idx + 1
    else SelectFrom(ratios, rand, idx + 1)
  }

  function SelectRounds(ratios: seq<nat>, rand: nat): (r: nat)
    requires ratios != []
    ensures 1 <= r <= |ratios|
  {
    SelectFrom(ratios, rand, 0)
  }

  lemma {:induction false} PrefixMonotone(ratios: seq<nat>, m: nat, n: nat)
    requires m <= n <= |ratios|
    ensures Prefix(ratios, m) <= Prefix(ratios, n)
    decreases n - m
  {
    if m < n { PrefixMonotone(ratios, m, n - 1); }
  }

  /** Which numbers select `k` rounds. */
  lemma {:induction false} SelectInterval(ratios: seq<nat>, rand: nat, idx: nat, k: nat)
    requires idx < |ratios| && idx < k <= |ratios| && Prefix(ratios, idx) <= rand
    ensures SelectFrom(ratios, rand, idx) == k <==>
              Prefix(ratios, k - 1) <= rand && (rand < Prefix(ratios, k) || k == |ratios|)
    decreases |ratios| - idx
  {
    if rand < Prefix(ratios, idx + 1) {
      if k > idx + 1 { PrefixMonotone(ratios, idx + 1, k - 1); }
    } else if idx + 1 < |ratios| {
      if k > idx + 1 { SelectInterval(ratios, rand, idx + 1, k); }
    }
  }

  /** The numbers between the sums of the ratios before and up to `k` select `k`
      rounds, and those beyond all sums the last. */
  lemma SelectMeaning(ratios: seq<nat>, rand: nat, k: nat)
    requires 1 <= k <= |ratios|
    ensures SelectRounds(ratios, rand) == k <==>
              Prefix(ratios, k - 1) <= rand && (rand < Prefix(ratios, k) || k == |ratios|)
  {
    SelectInterval(ratios, rand, 0, k);
  }

  /** How many of the numbers `0 .. n-1` select `k` rounds. */
  function Selecting(ratios: seq<nat>, k: nat, n: nat): nat
    requires ratios != []
  {
    if n == 0 then 0 else Selecting(ratios, k, n - 1) + if SelectRounds(ratios, n - 1) == k then 1 else 0
  }

  lemma {:induction false} SelectingInterval(ratios: seq<nat>, k: nat, n: nat)
    requires 1 <= k <= |ratios|
    ensures var lo, hi := Prefix(ratios, k - 1), Prefix(ratios, k);
            Selecting(ratios, k, n) ==
              if n <= lo then 0 else if n <= hi || k == |ratios| then n - lo else hi - lo
  {
    PrefixMonotone(ratios, k - 1, k);
    if n > 0 {
      SelectingInterval(ratios, k, n - 1);
      SelectInterval(ratios, n - 1, 0, k);
    }
  }

  /** Weighted sampling is exact but for one outcome: of the `S + 1` equally likely
      numbers, `S` being the sum of the ratios, `ratios[k-1]` select `k` rounds, and
      one more selects the greatest number of rounds. */
  lemma SamplingCounts(ratios: seq<nat>, k: nat)
    requires 1 <= k <= |ratios|
    ensures Selecting(ratios, k, Prefix(ratios, |ratios|) + 1) == ratios[k - 1] + if k == |ratios| then 1 else 0
  {
    SelectingInterval(ratios, k, Prefix(ratios, |ratios|) + 1);
    PrefixMonotone(ratios, k - 1, k);
    PrefixMonotone(ratios, k, |ratios|);
  }

  /* ---------- steps ---------- */

  predicate ValidConfig(c: Config) {
    c.ratios != [] && |c.returnTokens| == |c.intervals| == |c.ratios|
  }

  predicate Shaped(c: Config, s: State) {
    && ValidConfig(c)
    && |s.userStats| == |s.inputs| == |s.outputs| == |c.ratios|
    && (forall k :: 0 <= k < |s.queue| ==> s.queue[k] < |s.users|)
    && (forall i :: 0 <= i < |s.users| ==> 1 <= s.users[i].total <= |c.ratios|)
  }

  function Bump(stats: seq<Stat>, r: nat, tokens: int): seq<Stat>
    requires r < |stats|
  {
    stats[r := Stat(stats[r].tokens + tokens, stats[r].count + 1)]
  }

  function Init(n: nat): State {
    State([], [], multiset{}, seq(n, _ => 0), seq(n, _ => Stat(0, 0)), seq(n, _ => Stat(0, 0)))
  }

  /** A number in decimal notation. */
  function Decimal(n: nat): (r: string)
    ensures r != [] && forall k :: 0 <= k < |r| ==> '0' <= r[k] <= '9'
  {
    var digit := ["0123456789"[n % 10]];
    if n < 10 then digit else Decimal(n / 10) + digit
  }

  /** A drawn value that is not positive is replaced by the mean. */
  function DrawnOr(drawn: int, mean: int): int { if drawn <= 0 then mean else drawn }

  function DrawnTimeOr(drawn: real, mean: real): real { if drawn <= 0.0 then mean else drawn }

  /** A new user enters round 0; `tokens` is the number of tokens drawn. */
  function Gen(c: Config, s: State, rand: nat, sample: Sample, tokens: int): State
    requires Shaped(c, s)
  {
    var id, total := |s.users|, SelectRounds(c.ratios, rand);
    var prompt := Decimal(id) + " " + sample.text;
    s.(users := s.users + [User(0, total, 0.0, prompt, DrawnOr(tokens, c.returnTokens[0]))],
       out := s.out + multiset{id},
       userStats := s.userStats[total - 1 := s.userStats[total - 1] + 1],
       inputs := Bump(s.inputs, 0, sample.len))
  }

  /** The position at which `push` looks for a later user. */
  function FirstLater(starts: seq<real>, start: real): (r: nat)
    ensures r <= |starts|
    ensures forall k :: 0 <= k < r ==> starts[k] <= start
    ensures r < |starts| ==> start < starts[r]
  {
    if starts == [] then 0
    else if start < starts[0] then 0
    else 1 + FirstLater(starts[1..], start)
  }

  /** The position used: the loop variable, which after a search without success is
      the last index of the queue and not its length. */
  function InsertPosition(starts: seq<real>, start: real): (r: nat)
    ensures r <= |starts|
    ensures (exists k :: 0 <= k < |starts| && start < starts[k]) ==>
              r < |starts| && start < starts[r] && forall k :: 0 <= k < r ==> starts[k] <= start
    ensures (forall k :: 0 <= k < |starts| ==> starts[k] <= start) ==> r == if starts == [] then 0 else |starts| - 1
  {
    if starts == [] then 0
    else if FirstLater(starts, start) < |starts| then FirstLater(starts, start)
    else |starts| - 1
  }

  function Starts(users: seq<User>, queue: seq<nat>): (r: seq<real>)
    requires forall k :: 0 <= k < |queue| ==> queue[k] < |users|
    ensures |r| == |queue| && forall k :: 0 <= k < |r| ==> r[k] == users[queue[k]].start
  {
    seq(|queue|, k requires 0 <= k < |queue| => users[queue[k]].start)
  }

  function InsertAt<T>(s: seq<T>, k: nat, x: T): (r: seq<T>)
    requires k <= |s|
    ensures |r| == |s| + 1
    ensures forall i :: 0 <= i < |r| ==> r[i] == if i < k then s[i] else if i == k then x else s[i - 1]
  {
    s[..k] + [x] + s[k..]
  }

  /** What is drawn for a user's next round, and the time of drawing it. */
  datatype Draw = Draw(sample: Sample, tokens: int, interval: real, now: real)

  /** The record of a user that enters its next round. */
  function Advanced(c: Config, u: User, reply: string, d: Draw): User
    requires ValidConfig(c) && u.current + 1 < |c.ratios|
  {
    var next := u.current + 1;
    User(next, u.total, d.now + DrawnTimeOr(d.interval, c.intervals[next]),
         u.prompt + reply + d.sample.text, DrawnOr(d.tokens, c.returnTokens[next]))
  }

  /** A round of user `id` has been answered. */
  function Push(c: Config, s: State, id: nat, reply: string, itl: nat, d: Draw): State
    requires Shaped(c, s) && id < |s.users| && s.users[id].current < s.users[id].total
  {
    var u := s.users[id];
    var outputs := Bump(s.outputs, u.current, itl + 1);
    var out := s.out - multiset{id};
    if u.current + 1 >= u.total then
      s.(users := s.users[id := u.(current := u.current + 1)], out := out, outputs := outputs)
    else
      var v := Advanced(c, u, reply, d);
      s.(users := s.users[id := v],
         queue := InsertAt(s.queue, InsertPosition(Starts(s.users, s.queue), v.start), id),
         out := out,
         inputs := Bump(s.inputs, v.current, d.sample.len),
         outputs := outputs)
  }

  lemma PushShaped(c: Config, s: State, id: nat, reply: string, itl: nat, d: Draw)
    requires Shaped(c, s) && id < |s.users| && s.users[id].current < s.users[id].total
    ensures Shaped(c, Push(c, s, id, reply, itl, d))
  {
    hide InsertPosition;
  }

  /** Hand out the queue's head if it is due, else a new user. */
  function Pop(c: Config, s: State, now: real, rand: nat, sample: Sample, tokens: int): (r: (State, nat))
    requires Shaped(c, s)
    ensures r.1 < |r.0.users|
  {
    if s.queue != [] && now > s.users[s.queue[0]].start then
      (s.(queue := s.queue[1..], out := s.out + multiset{s.queue[0]}), s.queue[0])
    else (Gen(c, s, rand, sample, tokens), |s.users|)
  }

  /* ---------- accounting ---------- */

  /** Classes of users the statistics count. */
  datatype Class = Answered(r: nat) | Entered(r: nat) | LiveIn(r: nat) | Planned(k: nat)

  predicate Is(c: Class, u: User) {
    match c
    case Answered(r) => u.current > r
    case Entered(r) => u.current >= r && r < u.total
    case LiveIn(r) => u.current == r && r < u.total
    case Planned(k) => u.total == k
  }

  function Count(users: seq<User>, c: Class): nat {
    if users == [] then 0 else (if Is(c, users[0]) then 1 else 0) + Count(users[1..], c)
  }

  lemma {:induction false} CountAppend(users: seq<User>, u: User, c: Class)
    ensures Count(users + [u], c) == Count(users, c) + if Is(c, u) then 1 else 0
  {
    if users != [] {
      assert (users + [u])[1..] == users[1..] + [u];
      CountAppend(users[1..], u, c);
    } else {
      assert (users + [u])[1..] == [];
    }
  }

  lemma {:induction false} CountUpdate(users: seq<User>, i: nat, u: User, c: Class)
    requires i < |users|
    ensures Count(users[i := u], c)
         == Count(users, c) - (if Is(c, users[i]) then 1 else 0) + (if Is(c, u) then 1 else 0)
  {
    if i == 0 {
      assert users[i := u][1..] == users[1..];
    } else {
      assert users[i := u][1..] == users[1..][i - 1 := u];
      CountUpdate(users[1..], i - 1, u, c);
    }
  }

  /** Entered and not yet answered is live. */
  lemma {:induction false} CountLive(users: seq<User>, r: nat)
    requires forall i :: 0 <= i < |users| ==> users[i].current <= users[i].total
    ensures Count(users, Entered(r)) == Count(users, Answered(r)) + Count(users, LiveIn(r))
  {
    if users != [] { CountLive(users[1..], r); }
  }

  ghost predicate StatsInv(c: Config, s: State) {
    && |s.userStats| == |s.inputs| == |s.outputs| == |c.ratios|
    && forall r :: 0 <= r < |c.ratios| ==>
         && s.inputs[r].count == Count(s.users, Entered(r))
         && s.outputs[r].count == Count(s.users, Answered(r))
         && s.userStats[r] == Count(s.users, Planned(r + 1))
  }

  /** How often a user is queued or handed out. */
  function Places(s: State, i: nat): nat { multiset(s.queue)[i] + s.out[i] }

  predicate HasRoundsLeft(s: State, i: nat) { i < |s.users| && s.users[i].current < s.users[i].total }

  /** Nobody is lost or duplicated: exactly the users with rounds left are queued or
      handed out, each once; and those queued are past their first round. */
  ghost predicate PlacesInv(s: State) {
    && (forall i: nat :: Places(s, i) == if HasRoundsLeft(s, i) then 1 else 0)
    && (forall k :: 0 <= k < |s.queue| ==> s.queue[k] < |s.users| && 0 < s.users[s.queue[k]].current)
  }

  /** Every prompt begins with the user's own number. */
  ghost predicate PromptsInv(users: seq<User>) {
    forall i :: 0 <= i < |users| ==> Decimal(i) + " " <= users[i].prompt
  }

  ghost predicate Inv(c: Config, s: State) {
    && Shaped(c, s) && StatsInv(c, s) && PlacesInv(s) && PromptsInv(s.users)
    && (forall i :: 0 <= i < |s.users| ==> s.users[i].current <= s.users[i].total)
  }

  lemma InitInv(c: Config)
    requires ValidConfig(c)
    ensures Inv(c, Init(|c.ratios|))
  {
  }

  lemma GenKeepsStats(c: Config, s: State, rand: nat, sample: Sample, tokens: int)
    requires Shaped(c, s) && StatsInv(c, s)
    ensures StatsInv(c, Gen(c, s, rand, sample, tokens))
  {
    hide SelectRounds, Decimal;
    var t := Gen(c, s, rand, sample, tokens);
    var u := t.users[|s.users|];
    assert t.users == s.users + [u];
    forall r | 0 <= r < |c.ratios|
      ensures Count(t.users, Entered(r)) == Count(s.users, Entered(r)) + if r == 0 then 1 else 0
      ensures Count(t.users, Answered(r)) == Count(s.users, Answered(r))
      ensures Count(t.users, Planned(r + 1)) == Count(s.users, Planned(r + 1)) + if r + 1 == u.total then 1 else 0
    {
      CountAppend(s.users, u, Entered(r));
      CountAppend(s.users, u, Answered(r));
      CountAppend(s.users, u, Planned(r + 1));
    }
    hide Count;
  }

  lemma GenKeepsInv(c: Config, s: State, rand: nat, sample: Sample, tokens: int)
    requires Inv(c, s)
    ensures Inv(c, Gen(c, s, rand, sample, tokens))
  {
    hide SelectRounds, Decimal, StatsInv, Places;
    GenKeepsStats(c, s, rand, sample, tokens);
    var t := Gen(c, s, rand, sample, tokens);
    forall i: nat ensures Places(t, i) == if HasRoundsLeft(t, i) then 1 else 0 {
      GenPlaces(c, s, rand, sample, tokens, i);
      assert HasRoundsLeft(t, i) <==> HasRoundsLeft(s, i) || i == |s.users|;
    }
  }

  lemma GenPlaces(c: Config, s: State, rand: nat, sample: Sample, tokens: int, i: nat)
    requires Shaped(c, s)
    ensures Places(Gen(c, s, rand, sample, tokens), i) == Places(s, i) + if i == |s.users| then 1 else 0
  {
  }

  /** How one answered round changes the counts. */
  lemma PushCounts(users: seq<User>, id: nat, v: User, r: nat)
    requires id < |users| && users[id].current < users[id].total
    requires v.current == users[id].current + 1 && v.total == users[id].total
    ensures Count(users[id := v], Entered(r)) == Count(users, Entered(r)) + if r == v.current < v.total then 1 else 0
    ensures Count(users[id := v], Answered(r)) == Count(users, Answered(r)) + if r == users[id].current then 1 else 0
    ensures Count(users[id := v], Planned(r + 1)) == Count(users, Planned(r + 1))
  {
    CountUpdate(users, id, v, Entered(r));
    CountUpdate(users, id, v, Answered(r));
    CountUpdate(users, id, v, Planned(r + 1));
  }

  lemma PushKeepsStats(c: Config, s: State, id: nat, reply: string, itl: nat, d: Draw)
    requires Shaped(c, s) && StatsInv(c, s) && id < |s.users| && s.users[id].current < s.users[id].total
    ensures StatsInv(c, Push(c, s, id, reply, itl, d))
  {
    hide InsertPosition, InsertAt, Starts, Count;
    var t := Push(c, s, id, reply, itl, d);
    var u, v := s.users[id], t.users[id];
    assert t.users == s.users[id := v];
    forall r | 0 <= r < |c.ratios|
      ensures Count(t.users, Entered(r)) == Count(s.users, Entered(r)) + if r == v.current < v.total then 1 else 0
      ensures Count(t.users, Answered(r)) == Count(s.users, Answered(r)) + if r == u.current then 1 else 0
      ensures Count(t.users, Planned(r + 1)) == Count(s.users, Planned(r + 1))
    {
      PushCounts(s.users, id, v, r);
    }
  }

  lemma InsertMultiset<T>(s: seq<T>, k: nat, x: T)
    requires k <= |s|
    ensures multiset(InsertAt(s, k, x)) == multiset(s) + multiset{x}
  {
    assert s == s[..k] + s[k..];
  }

  /** The user pushed moves from the users handed out to the queue, or is done. */
  lemma PushPlaces(c: Config, s: State, id: nat, reply: string, itl: nat, d: Draw, i: nat)
    requires Shaped(c, s) && id < |s.users| && s.users[id].current < s.users[id].total && id in s.out
    ensures var t := Push(c, s, id, reply, itl, d);
            Places(t, i) == Places(s, i) - if i == id && s.users[id].current + 1 >= s.users[id].total then 1 else 0
  {
    hide InsertPosition, InsertAt;
    var u := s.users[id];
    if u.current + 1 < u.total {
      InsertMultiset(s.queue, InsertPosition(Starts(s.users, s.queue), Advanced(c, u, reply, d).start), id);
    }
  }

  lemma PushKeepsQueue(c: Config, s: State, id: nat, reply: string, itl: nat, d: Draw, k: nat)
    requires Shaped(c, s) && HasRoundsLeft(s, id) && k < |Push(c, s, id, reply, itl, d).queue|
    requires forall j :: 0 <= j < |s.queue| ==> s.queue[j] < |s.users| && 0 < s.users[s.queue[j]].current
    ensures var t := Push(c, s, id, reply, itl, d); t.queue[k] < |t.users| && 0 < t.users[t.queue[k]].current
  {
    hide InsertPosition, Starts;
    var t, u := Push(c, s, id, reply, itl, d), s.users[id];
    assert t.users == s.users[id := t.users[id]] && t.users[id].current == u.current + 1;
    if u.current + 1 < u.total {
      var n := InsertPosition(Starts(s.users, s.queue), Advanced(c, u, reply, d).start);
      assert t.queue[k] == if k < n then s.queue[k] else if k == n then id else s.queue[k - 1];
    }
  }

  lemma PushKeepsPlaces(c: Config, s: State, id: nat, reply: string, itl: nat, d: Draw)
    requires Shaped(c, s) && PlacesInv(s) && HasRoundsLeft(s, id) && id in s.out
    ensures PlacesInv(Push(c, s, id, reply, itl, d))
  {
    hide Places, InsertPosition, InsertAt, Starts;
    var t := Push(c, s, id, reply, itl, d);
    forall i: nat ensures Places(t, i) == if HasRoundsLeft(t, i) then 1 else 0 {
      PushPlaces(c, s, id, reply, itl, d, i);
    }
    hide Push;
    forall k | 0 <= k < |t.queue| ensures t.queue[k] < |t.users| && 0 < t.users[t.queue[k]].current {
      PushKeepsQueue(c, s, id, reply, itl, d, k);
    }
  }

  lemma PushKeepsInv(c: Config, s: State, id: nat, reply: string, itl: nat, d: Draw)
    requires Inv(c, s) && id in s.out
    ensures HasRoundsLeft(s, id) && Inv(c, Push(c, s, id, reply, itl, d))
  {
    hide StatsInv, InsertPosition, Decimal;
    assert Places(s, id) > 0;
    assert HasRoundsLeft(s, id);
    PushKeepsStats(c, s, id, reply, itl, d);
    PushKeepsPlaces(c, s, id, reply, itl, d);
    hide PlacesInv;
  }

  lemma PopPlaces(s: State, i: nat)
    requires s.queue != []
    ensures Places(s.(queue := s.queue[1..], out := s.out + multiset{s.queue[0]}), i) == Places(s, i)
  {
    assert s.queue == [s.queue[0]] + s.queue[1..];
  }

  lemma PopKeepsInv(c: Config, s: State, now: real, rand: nat, sample: Sample, tokens: int)
    requires Inv(c, s)
    ensures Inv(c, Pop(c, s, now, rand, sample, tokens).0)
    ensures var r := Pop(c, s, now, rand, sample, tokens);
            r.1 in r.0.out && r.1 !in s.out && HasRoundsLeft(r.0, r.1)
  {
    hide StatsInv, Decimal;
    if s.queue != [] && now > s.users[s.queue[0]].start {
      var t := s.(queue := s.queue[1..], out := s.out + multiset{s.queue[0]});
      assert s.queue[0] in multiset(s.queue);
      assert Places(s, s.queue[0]) == 1;
      forall i: nat ensures Places(t, i) == Places(s, i) { PopPlaces(s, i); }
      SameUsersSameStats(c, s, t);
    } else {
      assert Places(s, |s.users|) == 0;
      GenKeepsInv(c, s, rand, sample, tokens);
    }
  }

  lemma SameUsersSameStats(c: Config, s: State, t: State)
    requires StatsInv(c, s) && t == s.(queue := t.queue, out := t.out)
    ensures StatsInv(c, t)
  {
  }

  /* ---------- runs ---------- */

  datatype Op =
    | PopUser(now: real, rand: nat, sample: Sample, tokens: int)
    | PushUser(id: nat, reply: string, itl: nat, draw: Draw)

  /** Only a user that has been handed out is given back. */
  predicate Enabled(s: State, op: Op) {
    op.PushUser? ==> op.id in s.out && HasRoundsLeft(s, op.id)
  }

  function Apply(c: Config, s: State, op: Op): State
    requires Shaped(c, s) && Enabled(s, op)
  {
    match op
    case PopUser(now, rand, sample, tokens) => Pop(c, s, now, rand, sample, tokens).0
    case PushUser(id, reply, itl, draw) => Push(c, s, id, reply, itl, draw)
  }

  ghost predicate Reaches(c: Config, s: State, ops: seq<Op>, t: State)
    decreases |ops|
  {
    if ops == [] then s == t
    else Shaped(c, s) && Enabled(s, ops[0]) && Reaches(c, Apply(c, s, ops[0]), ops[1..], t)
  }

  lemma ApplyKeepsInv(c: Config, s: State, op: Op)
    requires Inv(c, s) && Enabled(s, op)
    ensures Inv(c, Apply(c, s, op))
  {
    hide Inv;
    match op
    case PopUser(now, rand, sample, tokens) => PopKeepsInv(c, s, now, rand, sample, tokens);
    case PushUser(id, reply, itl, draw) => PushKeepsInv(c, s, id, reply, itl, draw);
  }

  lemma {:induction false} RunKeepsInv(c: Config, s: State, ops: seq<Op>, t: State)
    requires Inv(c, s) && Reaches(c, s, ops, t)
    ensures Inv(c, t)
    decreases |ops|
  {
    hide Inv, Apply;
    if ops != [] {
      ApplyKeepsInv(c, s, ops[0]);
      RunKeepsInv(c, Apply(c, s, ops[0]), ops[1..], t);
    }
  }

  lemma {:induction false} SumPlanned(users: seq<User>, counts: seq<int>)
    requires forall i :: 0 <= i < |users| ==> 1 <= users[i].total <= |counts|
    requires forall k :: 0 <= k < |counts| ==> counts[k] == Count(users, Planned(k + 1))
    ensures Sum(counts) == |users|
  {
    if users == [] {
      SumZeros(counts);
    } else {
      var t := users[0].total - 1;
      var rest := counts[t := counts[t] - 1];
      SumPlanned(users[1..], rest);
      SumUpdate(counts, t, counts[t] - 1);
    }
  }

  /** After every sequence of pops and pushes: the requests issued for a round less
      those answered are the users now in that round, the planned round counts add up
      to the users created, and no user is lost or duplicated: one with rounds left is
      exactly once in the queue or handed out, a finished one is nowhere. */
  lemma PopulationAccounting(c: Config, ops: seq<Op>, s: State, r: nat)
    requires ValidConfig(c) && Reaches(c, Init(|c.ratios|), ops, s) && r < |c.ratios|
    ensures |s.inputs| == |s.outputs| == |s.userStats| == |c.ratios|
    ensures s.inputs[r].count - s.outputs[r].count == Count(s.users, LiveIn(r))
    ensures s.userStats[r] == Count(s.users, Planned(r + 1)) && Sum(s.userStats) == |s.users|
    ensures forall i :: 0 <= i < |s.users| ==>
              multiset(s.queue)[i] + s.out[i] == if s.users[i].current < s.users[i].total then 1 else 0
    ensures forall i :: i in s.queue || i in s.out ==> i < |s.users|
  {
    InitInv(c);
    RunKeepsInv(c, Init(|c.ratios|), ops, s);
    CountLive(s.users, r);
    SumPlanned(s.users, s.userStats);
    hide Count, Decimal;
    forall i | 0 <= i < |s.users|
      ensures multiset(s.queue)[i] + s.out[i] == if s.users[i].current < s.users[i].total then 1 else 0
    {
      assert Places(s, i) == if HasRoundsLeft(s, i) then 1 else 0;
    }
    forall i | i in s.queue || i in s.out ensures i < |s.users| {
      assert i in multiset(s.queue) || i in s.out;
      assert Places(s, i) > 0;
    }
  }

  /** Handing out twice, or giving back what is not out, cannot happen: in every
      reachable state the user popped was not out before, and a pushed one is not
      out afterwards. */
  lemma HandedOutOnce(c: Config, ops: seq<Op>, s: State, op: Op)
    requires ValidConfig(c) && Reaches(c, Init(|c.ratios|), ops, s) && Shaped(c, s) && Enabled(s, op)
    ensures match op
            case PopUser(now, rand, sample, tokens) =>
              var r := Pop(c, s, now, rand, sample, tokens);
              r.1 !in s.out && r.0.out == s.out + multiset{r.1} && r.1 !in r.0.queue
            case PushUser(id, _, _, _) =>
              id !in s.queue && id !in Apply(c, s, op).out
  {
    InitInv(c);
    RunKeepsInv(c, Init(|c.ratios|), ops, s);
    hide Decimal, StatsInv;
    match op {
      case PopUser(now, rand, sample, tokens) =>
        var r := Pop(c, s, now, rand, sample, tokens);
        PopKeepsInv(c, s, now, rand, sample, tokens);
        assert Places(r.0, r.1) == 1;
        assert r.1 !in multiset(r.0.queue);
      case PushUser(id, _, _, _) =>
        assert Places(s, id) == 1;
        assert id !in multiset(s.queue);
    }
  }

  /* ---------- prompts ---------- */

  lemma {:induction false} DecimalInjective(i: nat, j: nat)
    requires Decimal(i) == Decimal(j)
    ensures i == j
  {
    var a, b := Decimal(i), Decimal(j);
    var last := |a| - 1;
    assert a[last] == "0123456789"[i % 10] && b[last] == "0123456789"[j % 10];
    assert i % 10 == j % 10;
    if i >= 10 && j >= 10 {
      assert a[..last] == Decimal(i / 10) && b[..last] == Decimal(j / 10);
      DecimalInjective(i / 10, j / 10);
    } else {
      assert |a| == 1;
    }
  }

  lemma NumberedApart(i: nat, j: nat, p: string)
    requires Decimal(i) + " " <= p && Decimal(j) + " " <= p
    ensures i == j
  {
    var a, b := Decimal(i), Decimal(j);
    assert a <= p && b <= p && p[|a|] == ' ' && p[|b|] == ' ';
    if |a| == |b| {
      assert a == b;
      DecimalInjective(i, j);
    }
  }

  /** In every reachable state no prompt is a prefix of another user's. */
  lemma PromptsApart(c: Config, ops: seq<Op>, s: State, i: nat, j: nat)
    requires ValidConfig(c) && Reaches(c, Init(|c.ratios|), ops, s)
    requires i < |s.users| && j < |s.users| && i != j
    ensures !(s.users[i].prompt <= s.users[j].prompt)
  {
    InitInv(c);
    RunKeepsInv(c, Init(|c.ratios|), ops, s);
    hide Decimal, StatsInv, PlacesInv, Shaped;
    if s.users[i].prompt <= s.users[j].prompt {
      assert Decimal(i) + " " <= s.users[i].prompt;
      NumberedApart(i, j, s.users[j].prompt);
      assert false;
    }
  }

  lemma ApplyExtends(c: Config, s: State, op: Op, i: nat)
    requires Shaped(c, s) && Enabled(s, op) && i < |s.users|
    ensures i < |Apply(c, s, op).users| && s.users[i].prompt <= Apply(c, s, op).users[i].prompt
    ensures s.users[i].current <= Apply(c, s, op).users[i].current
  {
    hide Decimal, InsertPosition, SelectRounds;
  }

  /** A user's prompts only grow: each is a prefix of all its later ones. */
  lemma {:induction false} PromptsGrow(c: Config, s: State, ops: seq<Op>, t: State, i: nat)
    requires Reaches(c, s, ops, t) && i < |s.users|
    ensures i < |t.users| && s.users[i].prompt <= t.users[i].prompt && s.users[i].current <= t.users[i].current
    decreases |ops|
  {
    if ops != [] {
      ApplyExtends(c, s, ops[0], i);
      hide Apply, Enabled;
      PromptsGrow(c, Apply(c, s, ops[0]), ops[1..], t, i);
    }
  }

  /* ---------- the order of the queue ---------- */

  predicate Ordered(starts: seq<real>) {
    forall j, k :: 0 <= j < k < |starts| ==> starts[j] <= starts[k]
  }

  /** `push` keeps the queue ordered by start time exactly when the user pushed does
      not start after everybody in the queue. */
  lemma PushKeepsOrderIff(starts: seq<real>, start: real)
    requires Ordered(starts)
    ensures Ordered(InsertAt(starts, InsertPosition(starts, start), start)) <==>
              starts == [] || start <= starts[|starts| - 1]
  {
    var k := InsertPosition(starts, start);
    var after := InsertAt(starts, k, start);
    if starts != [] && FirstLater(starts, start) == |starts| {
      var last := |starts| - 1;
      assert after[last] == start && after[last + 1] == starts[last];
    }
  }

  /** For instance, a user starting at 2 is put before one starting at 1. */
  lemma LatestUserJumpsAhead()
    ensures InsertAt([1.0], InsertPosition([1.0], 2.0), 2.0) == [2.0, 1.0]
  {
    assert [1.0][1..] == [];
    assert FirstLater([1.0], 2.0) == 1;
  }

  /** Inserting where the search points keeps the queue ordered. */
  lemma IntendedPositionKeepsOrder(starts: seq<real>, start: real)
    requires Ordered(starts)
    ensures Ordered(InsertAt(starts, FirstLater(starts, start), start))
  {
  }

  /** The starts of the queue after a push into a later round. */
  lemma PushStarts(c: Config, s: State, id: nat, reply: string, itl: nat, d: Draw)
    requires Inv(c, s) && id in s.out && HasRoundsLeft(s, id) && s.users[id].current + 1 < s.users[id].total
    ensures var t := Push(c, s, id, reply, itl, d);
            var before, start := Starts(s.users, s.queue), Advanced(c, s.users[id], reply, d).start;
            && (forall k :: 0 <= k < |t.queue| ==> t.queue[k] < |t.users|)
            && Starts(t.users, t.queue) == InsertAt(before, InsertPosition(before, start), start)
  {
    hide InsertPosition, StatsInv, Decimal;
    assert Places(s, id) == 1;
    assert id !in multiset(s.queue);
    PushKeepsInv(c, s, id, reply, itl, d);
  }
}
