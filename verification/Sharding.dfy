/** Sharding a checkpoint over ranks and posting socket handles by group leaders
    (examples/checkpoint_engine/update.py). */
module Sharding {
  import opened Sequences

  function Min(a: int, b: int): int { if a < b then a else b }

  /** Items per rank, rounded up. */
  function PerRank(n: nat, world: nat): (r: nat)
    requires world > 0
  {
    (n + world - 1) / world
  }

  /** `items[rank * per : (rank + 1) * per]`, clamped as Python slices are. */
  function Shard<T>(items: seq<T>, rank: nat, per: nat): seq<T> {
    items[Min(rank * per, |items|)..Min((rank + 1) * per, |items|)]
  }

  function Concat<T>(items: seq<T>, ranks: nat, per: nat): seq<T> {
    if ranks == 0 then [] else Concat(items, ranks - 1, per) + Shard(items, ranks - 1, per)
  }

  lemma {:induction false} ShardsCoverPrefix<T>(items: seq<T>, ranks: nat, per: nat)
    ensures Concat(items, ranks, per) == items[..Min(ranks * per, |items|)]
  {
    if ranks > 0 {
      ShardsCoverPrefix(items, ranks - 1, per);
      var x, y := (ranks - 1) * per, ranks * per;
      assert y == x + per;
      hide Concat;
      var a, b := Min(x, |items|), Min(y, |items|);
      assert Shard(items, ranks - 1, per) == items[a..b];
      assert items[..a] + items[a..b] == items[..b];
    }
  }

  lemma PerRankSuffices(n: nat, world: nat)
    requires world > 0
    ensures world * PerRank(n, world) >= n
  {
    var q := (n + world - 1) / world;
    assert n + world - 1 == q * world + (n + world - 1) % world;
  }

  /** The slice length is the least with which all ranks together reach the end. */
  lemma PerRankIsLeast(n: nat, world: nat, per: nat)
    requires world > 0
    ensures world * per >= n <==> per >= PerRank(n, world)
  {
    PerRankSuffices(n, world);
    var q := PerRank(n, world);
    assert n + world - 1 == q * world + (n + world - 1) % world;
    hide PerRank;
    var d := per - q;
    assert world * per == world * q + d * world;
    MultiplesGrow(d, world);
    assert d >= 0 ==> d * world >= 0;
  }

  /** The shards of all ranks, in order, are the whole list: nothing is loaded twice
      and nothing is left out, whatever the sizes. */
  lemma ShardsPartition<T>(items: seq<T>, world: nat)
    requires world > 0
    ensures Concat(items, world, PerRank(|items|, world)) == items
  {
    PerRankSuffices(|items|, world);
    ShardsCoverPrefix(items, world, PerRank(|items|, world));
  }

  lemma QuotientUnique(i: nat, per: nat, q: int)
    requires per > 0 && q * per <= i < (q + 1) * per
    ensures q == i / per
  {
    var d := i / per - q;
    assert i == i / per * per + i % per;
    assert d * per == i / per * per - q * per;
    MultiplesGrow(d, per);
  }

  lemma OwnerInRange(n: nat, world: nat, i: nat)
    requires world > 0 && i < n
    ensures PerRank(n, world) > 0 && i / PerRank(n, world) < world
  {
    PerRankSuffices(n, world);
    var per := PerRank(n, world);
    assert per > 0;
    hide PerRank;
    var q := i / per;
    assert i == q * per + i % per;
    assert q >= world ==> (q - world) * per >= 0;
  }

  /** The slice of a rank is where the quotient by the slice length is the rank. */
  lemma SliceOfQuotient(n: nat, per: nat, i: nat, rank: nat)
    requires per > 0 && i < n
    ensures Min(rank * per, n) <= i < Min((rank + 1) * per, n) <==> rank == i / per
  {
    assert i == i / per * per + i % per;
    if rank * per <= i < (rank + 1) * per { QuotientUnique(i, per, rank); }
  }

  lemma InSlice<T>(items: seq<T>, lo: nat, hi: nat, i: nat)
    requires lo <= hi <= |items| && i < |items| && forall j, k :: 0 <= j < k < |items| ==> items[j] != items[k]
    ensures items[i] in items[lo..hi] <==> lo <= i < hi
  {
    if lo <= i < hi { assert items[lo..hi][i - lo] == items[i]; }
  }

  /** Among different items, item `i` is in the shard of exactly one rank. */
  lemma OneRankHas<T>(items: seq<T>, per: nat, i: nat, rank: nat)
    requires per > 0 && i < |items| && forall j, k :: 0 <= j < k < |items| ==> items[j] != items[k]
    ensures items[i] in Shard(items, rank, per) <==> rank == i / per
  {
    SliceOfQuotient(|items|, per, i, rank);
    assert rank * per <= (rank + 1) * per;
    InSlice(items, Min(rank * per, |items|), Min((rank + 1) * per, |items|), i);
  }

  /* ---------- tensors by file ---------- */

  datatype Weight = Weight(name: string, file: string)

  /** The names are the keys of a dictionary. */
  ghost predicate DistinctNames(weights: seq<Weight>) {
    forall i, j :: 0 <= i < j < |weights| ==> weights[i].name != weights[j].name
  }

  /** The weights as the dictionary from names to files. */
  function AsMap(weights: seq<Weight>): map<string, string> {
    if weights == [] then map[]
    else var last := weights[|weights| - 1]; AsMap(weights[..|weights| - 1])[last.name := last.file]
  }

  lemma {:induction false} AsMapConcat(a: seq<Weight>, b: seq<Weight>)
    ensures AsMap(a + b) == AsMap(a) + AsMap(b)
  {
    if b == [] {
      assert a + b == a;
    } else {
      var m := |b| - 1;
      assert (a + b)[..|a + b| - 1] == a + b[..m];
      AsMapConcat(a, b[..m]);
    }
  }

  lemma {:induction false} AsMapEntries(weights: seq<Weight>, n: string)
    requires DistinctNames(weights)
    ensures forall f :: n in AsMap(weights) && AsMap(weights)[n] == f <==> Weight(n, f) in weights
  {
    if weights != [] {
      var m := |weights| - 1;
      var init, last := weights[..m], weights[m];
      AsMapEntries(init, n);
      assert weights == init + [last];
      forall f | Weight(n, f) in init ensures n != last.name {
        var i :| 0 <= i < m && init[i] == Weight(n, f);
        assert weights[i].name != weights[m].name;
      }
    }
  }

  /** The results of all ranks put together. */
  function AllLoaded(weights: seq<Weight>, ranks: nat, per: nat): map<string, string> {
    if ranks == 0 then map[] else AllLoaded(weights, ranks - 1, per) + AsMap(Shard(weights, ranks - 1, per))
  }

  lemma {:induction false} AllLoadedIsConcat(weights: seq<Weight>, ranks: nat, per: nat)
    ensures AllLoaded(weights, ranks, per) == AsMap(Concat(weights, ranks, per))
  {
    hide Shard;
    if ranks > 0 {
      hide AsMap;
      AllLoadedIsConcat(weights, ranks - 1, per);
      AsMapConcat(Concat(weights, ranks - 1, per), Shard(weights, ranks - 1, per));
    }
  }

  lemma ShardDistinct(weights: seq<Weight>, rank: nat, per: nat)
    requires DistinctNames(weights)
    ensures DistinctNames(Shard(weights, rank, per))
  {
    var lo, hi := Min(rank * per, |weights|), Min((rank + 1) * per, |weights|);
    var shard := Shard(weights, rank, per);
    forall i, j | 0 <= i < j < |shard| ensures shard[i].name != shard[j].name {
      assert shard[i] == weights[lo + i] && shard[j] == weights[lo + j];
    }
  }

  /** `owner` and no other rank loads weight `i`. */
  ghost predicate OnlyLoadedBy(weights: seq<Weight>, i: nat, owner: nat, per: nat)
    requires i < |weights|
  {
    forall rank: nat :: weights[i].name in AsMap(Shard(weights, rank, per)) <==> rank == owner
  }

  /** The ranks together load the whole weight map, every tensor from its mapped file. */
  lemma RanksLoadEverything(weights: seq<Weight>, world: nat)
    requires world > 0
    ensures AllLoaded(weights, world, PerRank(|weights|, world)) == AsMap(weights)
  {
    ShardsPartition(weights, world);
    AllLoadedIsConcat(weights, world, PerRank(|weights|, world));
  }

  /** Each weight is loaded by exactly one of the ranks. */
  lemma EachWeightLoadedOnce(weights: seq<Weight>, world: nat, i: nat)
    requires world > 0 && DistinctNames(weights) && i < |weights|
    ensures exists owner :: 0 <= owner < world && OnlyLoadedBy(weights, i, owner, PerRank(|weights|, world))
  {
    hide AsMap, Shard;
    var per := PerRank(|weights|, world);
    OwnerInRange(|weights|, world, i);
    forall rank: nat ensures weights[i].name in AsMap(Shard(weights, rank, per)) <==> rank == i / per {
      OneRankLoads(weights, per, i, rank);
    }
    assert OnlyLoadedBy(weights, i, i / per, per);
  }

  lemma OneRankLoads(weights: seq<Weight>, per: nat, i: nat, rank: nat)
    requires per > 0 && DistinctNames(weights) && i < |weights|
    ensures weights[i].name in AsMap(Shard(weights, rank, per)) <==> rank == i / per
  {
    hide AsMap;
    var w, shard := weights[i], Shard(weights, rank, per);
    OneRankHas(weights, per, i, rank);
    ShardDistinct(weights, rank, per);
    AsMapEntries(shard, w.name);
    if w.name in AsMap(shard) {
      var v := Weight(w.name, AsMap(shard)[w.name]);
      assert v in shard && v in weights;
      SameNameSameWeight(weights, v, w);
    } else {
      assert w !in shard;
    }
  }

  type Groups = map<string, seq<string>>

  /** Every group entry is a weight of the shard, listed under its own file. */
  ghost predicate FromShard(groups: Groups, shard: seq<Weight>) {
    forall f, n :: f in groups && n in groups[f] ==> Weight(n, f) in shard
  }

  predicate Listed(groups: Groups, w: Weight) { w.file in groups && w.name in groups[w.file] }

  function AddName(groups: Groups, w: Weight): Groups {
    groups[w.file := (if w.file in groups then groups[w.file] else []) + [w.name]]
  }

  lemma AddNameListed(groups: Groups, w: Weight, shard: seq<Weight>)
    requires FromShard(groups, shard)
    ensures FromShard(AddName(groups, w), shard + [w])
    ensures forall v :: Listed(AddName(groups, w), v) <==> Listed(groups, v) || v == w
  {
  }

  /** `fn_tensors[file].append(name)` over a rank's weights. */
  method GroupByFile(shard: seq<Weight>) returns (groups: Groups)
    ensures FromShard(groups, shard) && forall w :: w in shard ==> Listed(groups, w)
  {
    hide Listed, FromShard, AddName;
    groups := map[];
    EmptyFromShard();
    for i := 0 to |shard|
      invariant FromShard(groups, shard[..i])
      invariant forall w :: w in shard[..i] ==> Listed(groups, w)
    {
      AddNameListed(groups, shard[i], shard[..i]);
      assert shard[..i + 1] == shard[..i] + [shard[i]];
      groups := AddName(groups, shard[i]);
    }
    assert shard[..|shard|] == shard;
  }

  lemma EmptyFromShard()
    ensures FromShard(map[], [])
  {
  }

  /** Load the listed names of one file into the result. */
  method LoadFile(file: string, names: seq<string>, before: map<string, string>) returns (loaded: map<string, string>)
    ensures forall n :: n in loaded <==> n in before || n in names
    ensures forall n :: n in loaded ==> if n in names then loaded[n] == file else loaded[n] == before[n]
  {
    loaded := before;
    for k := 0 to |names|
      invariant forall n :: n in loaded <==> n in before || n in names[..k]
      invariant forall n :: n in loaded ==> if n in names[..k] then loaded[n] == file else loaded[n] == before[n]
    {
      assert names[..k + 1] == names[..k] + [names[k]];
      loaded := loaded[names[k] := file];
    }
    assert names[..|names|] == names;
  }

  /** A rank loads exactly the tensors of its shard, each from its mapped file. */
  method LoadShard(shard: seq<Weight>) returns (loaded: map<string, string>)
    requires DistinctNames(shard)
    ensures loaded == AsMap(shard)
  {
    var groups := GroupByFile(shard);
    loaded := map[];
    var files := groups.Keys;
    while files != {}
      invariant files <= groups.Keys
      invariant forall f, n :: f in groups.Keys - files && n in groups[f] ==> n in loaded
      invariant forall n :: n in loaded ==> Weight(n, loaded[n]) in shard
      decreases files
    {
      var file :| file in files;
      loaded := LoadFile(file, groups[file], loaded);
      files := files - {file};
    }
    forall w | w in shard ensures w.name in loaded && loaded[w.name] == w.file {
      assert Listed(groups, w);
      SameNameSameWeight(shard, w, Weight(w.name, loaded[w.name]));
    }
    IsAsMap(shard, loaded);
  }

  lemma IsAsMap(shard: seq<Weight>, loaded: map<string, string>)
    requires DistinctNames(shard)
    requires forall n :: n in loaded ==> Weight(n, loaded[n]) in shard
    requires forall w :: w in shard ==> w.name in loaded && loaded[w.name] == w.file
    ensures loaded == AsMap(shard)
  {
    hide AsMap;
    forall n ensures n in loaded <==> n in AsMap(shard)
             ensures n in loaded ==> n in AsMap(shard) && loaded[n] == AsMap(shard)[n]
    {
      AsMapEntries(shard, n);
      if n in loaded { assert Weight(n, loaded[n]) in shard; }
      if n in AsMap(shard) { assert Weight(n, AsMap(shard)[n]) in shard; }
    }
  }

  lemma SameNameSameWeight(shard: seq<Weight>, v: Weight, w: Weight)
    requires DistinctNames(shard)
    requires v in shard && w in shard && v.name == w.name
    ensures v == w
  {
    var i :| 0 <= i < |shard| && shard[i] == v;
    var j :| 0 <= j < |shard| && shard[j] == w;
  }

  /* ---------- group leaders ---------- */

  /** `rank // size * size` */
  function Leader(rank: nat, size: nat): (r: nat)
    requires size > 0
  {
    rank / size * size
  }

  lemma LeaderBounds(rank: nat, size: nat)
    requires size > 0
    ensures Leader(rank, size) <= rank < Leader(rank, size) + size
    ensures Leader(Leader(rank, size), size) == Leader(rank, size)
  {
    assert rank == rank / size * size + rank % size;
    QuotientOfMultiple(rank / size, size);
  }

  lemma QuotientOfMultiple(q: nat, size: nat)
    requires size > 0
    ensures q * size / size == q
  {
    var x := q * size;
    assert x == x / size * size + x % size;
    MultiplesGrow(x / size - q, size);
    assert (x / size - q) * size == 0 - x % size;
  }

  /** The group a rank belongs to. */
  lemma LeaderOfGroup(rank: nat, leader: nat, size: nat)
    requires size > 0
    ensures leader == Leader(leader, size) && leader <= rank < leader + size <==> leader == Leader(rank, size)
  {
    LeaderBounds(rank, size);
    if leader == Leader(leader, size) && leader <= rank < leader + size {
      var d := rank / size - leader / size;
      assert d * size == Leader(rank, size) - leader;
      MultiplesGrow(d, size);
    }
  }

  /** The handles a rank posts: the clamped slice of its group if it leads it. */
  function Posted<T>(handles: seq<T>, rank: nat, size: nat): seq<T>
    requires size > 0
  {
    if rank == Leader(rank, size) then handles[Min(rank, |handles|)..Min(rank + size, |handles|)] else []
  }

  /** Of the ranks, one per handle, exactly the leader of a handle's group posts it. */
  lemma OneLeaderPosts<T>(handles: seq<T>, rank: nat, size: nat, i: nat)
    requires size > 0 && i < |handles| && forall j, k :: 0 <= j < k < |handles| ==> handles[j] != handles[k]
    ensures Leader(i, size) < |handles|
    ensures handles[i] in Posted(handles, rank, size) <==> rank == Leader(i, size)
  {
    LeaderBounds(i, size);
    LeaderOfGroup(i, rank, size);
    hide Leader;
    InSlice(handles, Min(rank, |handles|), Min(rank + size, |handles|), i);
  }

  /** What the first ranks post, in order. */
  function AllPosted<T>(handles: seq<T>, ranks: nat, size: nat): seq<T>
    requires size > 0
  {
    if ranks == 0 then [] else AllPosted(handles, ranks - 1, size) + Posted(handles, ranks - 1, size)
  }

  /** The first rank of the group after those of the first ranks. */
  function NextGroup(ranks: nat, size: nat): nat
    requires size > 0
  {
    if ranks == 0 then 0 else Leader(ranks - 1, size) + size
  }

  lemma NextGroupStep(rank: nat, size: nat)
    requires size > 0
    ensures if rank == Leader(rank, size) then NextGroup(rank, size) == rank
            else NextGroup(rank, size) == Leader(rank, size) + size
  {
    hide Leader;
    LeaderBounds(rank, size);
    if rank > 0 {
      LeaderBounds(rank - 1, size);
      if rank == Leader(rank, size) {
        LeaderOfGroup(rank, Leader(rank - 1, size), size);
      } else {
        LeaderOfGroup(rank - 1, Leader(rank, size), size);
      }
    }
  }

  lemma {:induction false} PostsCoverPrefix<T>(handles: seq<T>, ranks: nat, size: nat)
    requires size > 0
    ensures AllPosted(handles, ranks, size) == handles[..Min(NextGroup(ranks, size), |handles|)]
  {
    if ranks > 0 {
      PostsCoverPrefix(handles, ranks - 1, size);
      NextGroupStep(ranks - 1, size);
      hide Leader, AllPosted;
      var r := ranks - 1;
      if r == Leader(r, size) {
        var a, b := Min(r, |handles|), Min(r + size, |handles|);
        assert handles[..a] + handles[a..b] == handles[..b];
      }
    }
  }

  /** All ranks together post the whole list of handles, each entry once and in order. */
  lemma PostsMakeUpHandles<T>(handles: seq<T>, size: nat)
    requires size > 0
    ensures AllPosted(handles, |handles|, size) == handles
  {
    PostsCoverPrefix(handles, |handles|, size);
    if handles != [] { LeaderBounds(|handles| - 1, size); }
  }
}
