/** The user generator as an object whose methods update the queue and the
    statistics in place (benchmark/hicache/bench_mix.py). */
module UserGenerator {
  import opened RoundScheduler

  class Generator {
    const config: Config
    const cumulative: seq<nat>
    var users: seq<User>
    var queue: seq<nat>
    ghost var out: multiset<nat>
    var userStats: seq<nat>
    var inputs: seq<Stat>
    var outputs: seq<Stat>

    ghost function Snapshot(): State
      reads this
    {
      State(users, queue, out, userStats, inputs, outputs)
    }

    ghost predicate Valid()
      reads this
    {
      && Shaped(config, Snapshot())
      && |cumulative| == |config.ratios|
      && forall i :: 0 <= i < |cumulative| ==> cumulative[i] == Prefix(config.ratios, i + 1)
    }

    constructor (config: Config)
      requires ValidConfig(config)
      ensures Valid() && this.config == config && Snapshot() == Init(|config.ratios|)
    {
      var ratios := config.ratios;
      var sums: seq<nat> := [];
      var sum: nat := 0;
      for i := 0 to |ratios|
        invariant |sums| == i && sum == Prefix(ratios, i)
        invariant forall k :: 0 <= k < i ==> sums[k] == Prefix(ratios, k + 1)
      {
        sum := sum + ratios[i];
        sums := sums + [sum];
      }
      this.config, cumulative := config, sums;
      users, queue, out := [], [], multiset{};
      userStats := seq(|ratios|, _ => 0);
      inputs, outputs := seq(|ratios|, _ => Stat(0, 0)), seq(|ratios|, _ => Stat(0, 0));
    }

    /** The loop over the cumulative ratios. */
    method DrawRounds(rand: nat) returns (total: nat)
      requires Valid()
      ensures total == SelectRounds(config.ratios, rand)
    {
      total := |cumulative|;
      for idx := 0 to |cumulative|
        invariant total == |cumulative|
        invariant SelectRounds(config.ratios, rand) == SelectFrom(config.ratios, rand, idx)
      {
        if rand < cumulative[idx] {
          total := idx + 1;
          break;
        }
      }
    }

    method Gen(rand: nat, sample: Sample, tokens: int) returns (id: nat)
      requires Valid()
      modifies this
      ensures Valid() && id == old(|users|)
      ensures Snapshot() == RoundScheduler.Gen(config, old(Snapshot()), rand, sample, tokens)
    {
      hide SelectRounds, Decimal;
      id := |users|;
      var total := DrawRounds(rand);
      inputs := Bump(inputs, 0, sample.len);
      var prompt := Decimal(id) + " " + sample.text;
      var returnTokens := tokens;
      if returnTokens <= 0 { returnTokens := config.returnTokens[0]; }
      users := users + [User(0, total, 0.0, prompt, returnTokens)];
      out := out + multiset{id};
      userStats := userStats[total - 1 := userStats[total - 1] + 1];
    }

    /** The search loop of `push`, with the index it leaves behind. */
    method FindPosition(start: real) returns (idx: nat)
      requires Valid() && queue != []
      ensures idx == InsertPosition(Starts(users, queue), start)
    {
      ghost var starts := Starts(users, queue);
      idx := 0;
      while true
        invariant idx < |queue|
        invariant FirstLater(starts, start) == idx + FirstLater(starts[idx..], start)
        decreases |queue| - idx
      {
        assert starts[idx..][0] == users[queue[idx]].start && starts[idx..][1..] == starts[idx + 1..];
        if start < users[queue[idx]].start { break; }
        if idx + 1 == |queue| { break; }
        idx := idx + 1;
      }
    }

    /** Insert a user into the queue, at the position the search leaves behind. */
    method Enqueue(id: nat, start: real)
      requires Valid()
      modifies this`queue
      ensures queue == InsertAt(old(queue), InsertPosition(Starts(users, old(queue)), start), id)
    {
      if queue == [] {
        queue := [id];
      } else {
        var idx := FindPosition(start);
        queue := InsertAt(queue, idx, id);
      }
    }

    /** The user's record for its next round. */
    method EnterNextRound(u: User, reply: string, d: Draw) returns (v: User)
      requires ValidConfig(config) && u.current + 1 < |config.ratios|
      ensures v == Advanced(config, u, reply, d) && v.current == u.current + 1 && v.total == u.total
    {
      var next := u.current + 1;
      v := u.(current := next, prompt := u.prompt + reply + d.sample.text, returnTokens := d.tokens);
      if v.returnTokens <= 0 { v := v.(returnTokens := config.returnTokens[next]); }
      var interval := d.interval;
      if interval <= 0.0 { interval := config.intervals[next]; }
      v := v.(start := d.now + interval);
    }

    /** A round of user `id` was answered. */
    method Push(id: nat, reply: string, itl: nat, d: Draw)
      requires Valid() && id < |users| && users[id].current < users[id].total
      modifies this
      ensures Valid()
      ensures Snapshot() == RoundScheduler.Push(config, old(Snapshot()), id, reply, itl, d)
    {
      hide InsertPosition, Advanced, InsertAt, Starts;
      var u := users[id];
      out := out - multiset{id};
      outputs := Bump(outputs, u.current, itl + 1);
      if u.current + 1 >= u.total {
        users := users[id := u.(current := u.current + 1)];
        return;
      }
      inputs := Bump(inputs, u.current + 1, d.sample.len);
      u := EnterNextRound(u, reply, d);
      Enqueue(id, u.start);
      users := users[id := u];
      PushShaped(config, old(Snapshot()), id, reply, itl, d);
    }

    /** The head of the queue if it is due, else a new user. */
    method Pop(now: real, rand: nat, sample: Sample, tokens: int) returns (id: nat)
      requires Valid()
      modifies this
      ensures Valid()
      ensures (Snapshot(), id) == RoundScheduler.Pop(config, old(Snapshot()), now, rand, sample, tokens)
    {
      if queue != [] && now > users[queue[0]].start {
        id := queue[0];
        queue := queue[1..];
        out := out + multiset{id};
      } else {
        id := Gen(rand, sample, tokens);
      }
    }
  }
}
