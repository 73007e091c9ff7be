/** Small facts about sequences of numbers and about removing one element,
    shared by the protocol models. */
module Sequences {

  datatype Option<+T> = None | Some(value: T)

  datatype Result<+T, +E> = Ok(value: T) | Err(error: E)

  /** The sequence without its element at index `k` (a list's `pop(k)`). */
  function RemoveAt<T>(s: seq<T>, k: nat): (r: seq<T>)
    requires k < |s|
    ensures |r| == |s| - 1
    ensures forall i :: 0 <= i < |r| ==> r[i] == if i < k then s[i] else s[i + 1]
  {
    s[..k] + s[k + 1..]
  }

  lemma RemoveAtMultiset<T>(s: seq<T>, k: nat)
    requires k < |s|
    ensures multiset(s) == multiset(RemoveAt(s, k)) + multiset{s[k]}
  {
    assert s == s[..k] + [s[k]] + s[k + 1..];
  }

  /** Each number below the length occurs once in 0, 1, 2, ... */
  lemma {:induction false} Identities(ids: seq<nat>)
    requires forall i :: 0 <= i < |ids| ==> ids[i] == i
    ensures forall j: nat :: multiset(ids)[j] == if j < |ids| then 1 else 0
  {
    if ids != [] {
      var m := |ids| - 1;
      Identities(ids[..m]);
      assert ids == ids[..m] + [m];
    }
  }

  function Sum(s: seq<int>): int {
    if s == [] then 0 else s[0] + Sum(s[1..])
  }

  lemma {:induction false} SumUpdate(s: seq<int>, k: nat, v: int)
    requires k < |s|
    ensures Sum(s[k := v]) == Sum(s) - s[k] + v
  {
    if k == 0 {
      assert s[k := v][1..] == s[1..];
    } else {
      SumUpdate(s[1..], k - 1, v);
      assert s[k := v][1..] == s[1..][k - 1 := v];
    }
  }

  lemma {:induction false} SumAppend(s: seq<int>, t: seq<int>)
    ensures Sum(s + t) == Sum(s) + Sum(t)
  {
    if s == [] {
      assert s + t == t;
    } else {
      assert (s + t)[1..] == s[1..] + t;
      SumAppend(s[1..], t);
    }
  }

  lemma {:induction false} SumNonNegative(s: seq<int>)
    requires forall i :: 0 <= i < |s| ==> 0 <= s[i]
    ensures 0 <= Sum(s)
    ensures forall i :: 0 <= i < |s| ==> s[i] <= Sum(s)
  {
    if s != [] {
      SumNonNegative(s[1..]);
      forall i | 0 <= i < |s| ensures s[i] <= Sum(s) {
        if i > 0 { assert s[i] == s[1..][i - 1]; }
      }
    }
  }

  lemma {:induction false} SumZeros(s: seq<int>)
    requires forall i :: 0 <= i < |s| ==> s[i] == 0
    ensures Sum(s) == 0
  {
    if s != [] { SumZeros(s[1..]); }
  }

  lemma {:induction false} SumOnes(s: seq<int>)
    requires forall i :: 0 <= i < |s| ==> s[i] == 1
    ensures Sum(s) == |s|
  {
    if s != [] { SumOnes(s[1..]); }
  }

  lemma {:induction false} SumPointwise(a: seq<int>, b: seq<int>, s: seq<int>)
    requires |a| == |b| == |s| && forall i :: 0 <= i < |s| ==> s[i] == a[i] + b[i]
    ensures Sum(s) == Sum(a) + Sum(b)
  {
    if s != [] { SumPointwise(a[1..], b[1..], s[1..]); }
  }

  lemma {:induction false} SumBelow(a: seq<int>, b: seq<int>)
    requires |a| == |b| && forall i :: 0 <= i < |a| ==> a[i] <= b[i]
    ensures Sum(a) <= Sum(b)
    ensures Sum(a) == Sum(b) <==> a == b
  {
    if a != [] {
      SumBelow(a[1..], b[1..]);
      assert a == [a[0]] + a[1..] && b == [b[0]] + b[1..];
    }
  }

  /** How many elements exceed `r`. */
  function CountAbove(s: seq<nat>, r: int): nat {
    if s == [] then 0 else (if s[0] > r then 1 else 0) + CountAbove(s[1..], r)
  }

  lemma {:induction false} CountAboveUpdate(s: seq<nat>, k: nat, v: nat, r: int)
    requires k < |s|
    ensures CountAbove(s[k := v], r)
         == CountAbove(s, r) - (if s[k] > r then 1 else 0) + (if v > r then 1 else 0)
  {
    if k == 0 {
      assert s[k := v][1..] == s[1..];
    } else {
      CountAboveUpdate(s[1..], k - 1, v, r);
      assert s[k := v][1..] == s[1..][k - 1 := v];
    }
  }

  lemma {:induction false} CountAboveNone(s: seq<nat>, r: int)
    requires forall i :: 0 <= i < |s| ==> s[i] <= r
    ensures CountAbove(s, r) == 0
  {
    if s != [] { CountAboveNone(s[1..], r); }
  }

  lemma {:induction false} CountAbovePositive(s: seq<nat>, r: int, k: nat)
    requires k < |s| && s[k] > r
    ensures CountAbove(s, r) > 0
  {
    if k > 0 { CountAbovePositive(s[1..], r, k - 1); }
  }

  /** If `a` lies below `b` pointwise, then `a` has no more large elements than
      `b`, and with equally many the same positions are large. */
  lemma {:induction false} CountAboveMonotone(a: seq<nat>, b: seq<nat>, r: int)
    requires |a| == |b|
    requires forall i :: 0 <= i < |a| ==> a[i] <= b[i]
    ensures CountAbove(a, r) <= CountAbove(b, r)
    ensures CountAbove(a, r) == CountAbove(b, r) ==>
              forall i :: 0 <= i < |a| && b[i] > r ==> a[i] > r
    ensures (forall i :: 0 <= i < |a| && b[i] > r ==> a[i] > r) ==>
              CountAbove(a, r) == CountAbove(b, r)
  {
    if a != [] {
      CountAboveMonotone(a[1..], b[1..], r);
      if CountAbove(a, r) == CountAbove(b, r) {
        forall i | 0 <= i < |a| && b[i] > r ensures a[i] > r {
          if i > 0 { assert b[1..][i - 1] == b[i] && a[1..][i - 1] == a[i]; }
        }
      }
      if forall i :: 0 <= i < |a| && b[i] > r ==> a[i] > r {
        forall i | 0 <= i < |a[1..]| && b[1..][i] > r ensures a[1..][i] > r {
          assert b[i + 1] > r;
        }
      }
    }
  }

  /** Distinct positions each holding at least one unit: the total is at least
      their number, and when it is exactly their number every other position is
      empty and every listed one holds exactly one. */
  lemma {:induction false} SumCoversDistinct(s: seq<int>, ids: multiset<nat>)
    requires forall i :: 0 <= i < |s| ==> 0 <= s[i]
    requires forall i :: i in ids ==> i < |s| && ids[i] == 1 && s[i] >= 1
    ensures Sum(s) >= |ids|
    ensures Sum(s) == |ids| ==>
              forall i :: 0 <= i < |s| ==> s[i] == if i in ids then 1 else 0
    decreases |ids|
  {
    SumNonNegative(s);
    if ids != multiset{} {
      var k :| k in ids;
      var rest := ids - multiset{k};
      var t := s[k := s[k] - 1];
      SumUpdate(s, k, s[k] - 1);
      SumCoversDistinctRest(s, t, k, ids, rest);
    }
  }

  lemma {:induction false} SumCoversDistinctRest(s: seq<int>, t: seq<int>, k: nat,
                                                 ids: multiset<nat>, rest: multiset<nat>)
    requires forall i :: 0 <= i < |s| ==> 0 <= s[i]
    requires forall i :: i in ids ==> i < |s| && ids[i] == 1 && s[i] >= 1
    requires k in ids && rest == ids - multiset{k} && t == s[k := s[k] - 1]
    requires Sum(t) == Sum(s) - 1
    ensures Sum(s) >= |ids|
    ensures Sum(s) == |ids| ==>
              forall i :: 0 <= i < |s| ==> s[i] == if i in ids then 1 else 0
    decreases |ids|, 0
  {
    assert |ids| == |rest| + 1;
    forall i | i in rest ensures i < |t| && rest[i] == 1 && t[i] >= 1 {
      assert i in ids && i != k;
    }
    SumCoversDistinct(t, rest);
    if Sum(s) == |ids| {
      forall i | 0 <= i < |s| ensures s[i] == if i in ids then 1 else 0 {
        assert t[i] == if i in rest then 1 else 0;
      }
    }
  }

  lemma MultiplesGrow(d: int, n: nat)
    requires n > 0
    ensures d >= 1 ==> d * n >= n
    ensures d <= -1 ==> d * n <= -1 * n
  {
    if d >= 1 { assert (d - 1) * n >= 0; }
    if d <= -1 { assert (-1 - d) * n >= 0; }
  }
}
