/** Filling a workload from a dataset of conversations
    (`common_filter_chat` in benchmark/hicache/data_processing.py). */
module ChatFilter {
  import opened Sequences

  /** A question and its answer with their token counts. */
  datatype RawTurn = RawTurn(prompt: string, promptLen: nat, completionLen: nat)

  datatype Turn = Turn(prompt: string, promptLen: nat, outputLen: int)

  datatype Limits = Limits(
    minPrompt: Option<int>, minOutput: Option<int>, maxPrompt: Option<int>, maxOutput: Option<int>,
    fixedOutput: Option<int>)

  function OutputLen(m: Limits, t: RawTurn): int {
    if m.fixedOutput.None? then t.completionLen else m.fixedOutput.value
  }

  predicate Pruned(m: Limits, t: RawTurn) {
    || (m.minPrompt.Some? && t.promptLen < m.minPrompt.value)
    || (m.minOutput.Some? && OutputLen(m, t) < m.minOutput.value)
    || (m.maxPrompt.Some? && t.promptLen > m.maxPrompt.value)
    || (m.maxOutput.Some? && OutputLen(m, t) > m.maxOutput.value)
  }

  /** The turns of a conversation that are within the limits. */
  function Keep(m: Limits, chat: seq<RawTurn>): seq<Turn> {
    if chat == [] then []
    else (if Pruned(m, chat[0]) then [] else [Turn(chat[0].prompt, chat[0].promptLen, OutputLen(m, chat[0]))])
         + Keep(m, chat[1..])
  }

  /** The conversations with a turn left, in dataset order. */
  function Survivors(m: Limits, data: seq<seq<RawTurn>>): seq<seq<Turn>> {
    if data == [] then []
    else (if Keep(m, data[0]) == [] then [] else [Keep(m, data[0])]) + Survivors(m, data[1..])
  }

  function PromptTokens(turns: seq<Turn>): int {
    if turns == [] then 0 else turns[0].promptLen + PromptTokens(turns[1..])
  }

  function OutputTokens(turns: seq<Turn>): int {
    if turns == [] then 0 else turns[0].outputLen + OutputTokens(turns[1..])
  }

  function TotalPrompt(chats: seq<seq<Turn>>): int {
    if chats == [] then 0 else TotalPrompt(chats[..|chats| - 1]) + PromptTokens(chats[|chats| - 1])
  }

  function TotalOutput(chats: seq<seq<Turn>>): int {
    if chats == [] then 0 else TotalOutput(chats[..|chats| - 1]) + OutputTokens(chats[|chats| - 1])
  }

  /* ---------- what the filter keeps, in plain terms ---------- */

  /** The turn's lengths are within the limits that are set. */
  predicate Within(m: Limits, t: RawTurn) {
    var out := if m.fixedOutput.Some? then m.fixedOutput.value else t.completionLen;
    && (m.minPrompt.Some? ==> t.promptLen >= m.minPrompt.value)
    && (m.maxPrompt.Some? ==> t.promptLen <= m.maxPrompt.value)
    && (m.minOutput.Some? ==> out >= m.minOutput.value)
    && (m.maxOutput.Some? ==> out <= m.maxOutput.value)
  }

  predicate Increasing(s: seq<nat>) { forall i, j :: 0 <= i < j < |s| ==> s[i] < s[j] }

  /** The turn as it is returned. */
  predicate KeptAs(m: Limits, raw: RawTurn, t: Turn) {
    && t.prompt == raw.prompt && t.promptLen == raw.promptLen
    && t.outputLen == if m.fixedOutput.Some? then m.fixedOutput.value else raw.completionLen
  }

  /** `picked` lists, in order, the positions below `n` in a set. */
  ghost predicate Picks(picked: seq<nat>, n: nat, chosen: set<nat>) {
    && Increasing(picked) && (forall i :: 0 <= i < |picked| ==> picked[i] < n)
    && forall k: nat :: k in picked <==> k in chosen
  }

  lemma PicksNext(picked: seq<nat>, n: nat, chosen: set<nat>)
    requires Picks(picked, n, chosen)
    ensures Picks(picked, n + 1, chosen) && Picks(picked + [n], n + 1, chosen + {n})
  {
  }

  function WithinAt(m: Limits, chat: seq<RawTurn>): set<nat> { set k | 0 <= k < |chat| && Within(m, chat[k]) }

  /** The kept turns are those within the limits, in order. */
  lemma {:induction false} KeepMeaning(m: Limits, chat: seq<RawTurn>) returns (picked: seq<nat>)
    ensures Picks(picked, |chat|, WithinAt(m, chat)) && |Keep(m, chat)| == |picked|
    ensures forall i :: 0 <= i < |picked| ==> KeptAs(m, chat[picked[i]], Keep(m, chat)[i])
  {
    if chat == [] {
      picked := [];
    } else {
      var n := |chat| - 1;
      var init, last := chat[..n], chat[n];
      picked := KeepMeaning(m, init);
      PicksNext(picked, n, WithinAt(m, init));
      assert chat[..n + 1] == chat;
      KeepStep(m, chat, n);
      assert Pruned(m, last) <==> !Within(m, last);
      assert WithinAt(m, chat) == if Within(m, last) then WithinAt(m, init) + {n} else WithinAt(m, init);
      hide Keep, Picks, WithinAt, Within, Pruned;
      if Within(m, last) { picked := picked + [n]; }
    }
  }

  lemma {:induction false} SurvivorsAppend(m: Limits, data: seq<seq<RawTurn>>, chat: seq<RawTurn>)
    ensures Survivors(m, data + [chat]) == Survivors(m, data) + if Keep(m, chat) == [] then [] else [Keep(m, chat)]
  {
    hide Keep;
    if data == [] {
      assert (data + [chat])[1..] == [];
    } else {
      assert (data + [chat])[1..] == data[1..] + [chat];
      SurvivorsAppend(m, data[1..], chat);
    }
  }

  function UsableAt(m: Limits, data: seq<seq<RawTurn>>): set<nat> {
    set k | 0 <= k < |data| && exists t :: 0 <= t < |data[k]| && Within(m, data[k][t])
  }

  /** The survivors are the conversations with a turn within the limits, in order,
      each reduced to those turns. */
  lemma {:induction false} SurvivorsMeaning(m: Limits, data: seq<seq<RawTurn>>) returns (picked: seq<nat>)
    ensures Picks(picked, |data|, UsableAt(m, data)) && |Survivors(m, data)| == |picked|
    ensures forall i :: 0 <= i < |picked| ==> Survivors(m, data)[i] == Keep(m, data[picked[i]])
  {
    hide Keep;
    if data == [] {
      picked := [];
    } else {
      var n := |data| - 1;
      var init, last := data[..n], data[n];
      picked := SurvivorsMeaning(m, init);
      PicksNext(picked, n, UsableAt(m, init));
      assert data == init + [last];
      SurvivorsAppend(m, init, last);
      KeptSomething(m, last);
      assert UsableAt(m, data) == if Keep(m, last) != [] then UsableAt(m, init) + {n} else UsableAt(m, init);
      hide Survivors, Picks, UsableAt, Within;
      if Keep(m, last) != [] { picked := picked + [n]; }
    }
  }

  lemma KeptSomething(m: Limits, chat: seq<RawTurn>)
    ensures Keep(m, chat) != [] <==> exists t :: 0 <= t < |chat| && Within(m, chat[t])
  {
    hide Keep, Within;
    var picked := KeepMeaning(m, chat);
    if picked != [] {
      assert picked[0] in picked;
      assert picked[0] in WithinAt(m, chat);
    }
    if t :| 0 <= t < |chat| && Within(m, chat[t]) {
      assert t in WithinAt(m, chat);
      assert t in picked;
    }
  }

  /** Entry `k` is survivor `k mod n`. */
  ghost predicate Cyclic(filtered: seq<seq<Turn>>, s: seq<seq<Turn>>)
    requires s != []
  {
    forall k :: 0 <= k < |filtered| ==> filtered[k] == s[k % |s|]
  }

  lemma RemainderUnique(x: nat, n: nat, q: int, r: nat)
    requires n > 0 && r < n && x == q * n + r
    ensures x % n == r
  {
    var d := x / n - q;
    assert d * n == r - x % n;
    MultiplesGrow(d, n);
  }

  /** The turns of one conversation that are kept, with their token counts. */
  method KeepTurns(m: Limits, chat: seq<RawTurn>) returns (kept: seq<Turn>, promptTokens: int, outputTokens: int)
    ensures kept == Keep(m, chat)
    ensures promptTokens == PromptTokens(kept) && outputTokens == OutputTokens(kept)
  {
    hide Keep, PromptTokens, OutputTokens, Pruned, OutputLen;
    kept, promptTokens, outputTokens := [], 0, 0;
    NothingCounted([]);
    assert chat[..0] == [];
    KeepOfNone(m);
    for j := 0 to |chat|
      invariant kept == Keep(m, chat[..j])
      invariant promptTokens == PromptTokens(kept) && outputTokens == OutputTokens(kept)
    {
      KeepStep(m, chat, j);
      if Pruned(m, chat[j]) {
        continue;
      }
      var turn := Turn(chat[j].prompt, chat[j].promptLen, OutputLen(m, chat[j]));
      TokensAppend(kept, turn);
      promptTokens := promptTokens + turn.promptLen;
      outputTokens := outputTokens + turn.outputLen;
      kept := kept + [turn];
    }
    assert chat[..|chat|] == chat;
  }

  lemma KeepOfNone(m: Limits)
    ensures Keep(m, []) == []
  {
  }

  lemma {:induction false} KeepConcat(m: Limits, a: seq<RawTurn>, b: seq<RawTurn>)
    ensures Keep(m, a + b) == Keep(m, a) + Keep(m, b)
  {
    hide Pruned, OutputLen;
    if a == [] {
      assert a + b == b;
    } else {
      assert (a + b)[1..] == a[1..] + b;
      KeepConcat(m, a[1..], b);
    }
  }

  lemma KeepStep(m: Limits, chat: seq<RawTurn>, j: nat)
    requires j < |chat|
    ensures Keep(m, chat[..j + 1]) == Keep(m, chat[..j]) +
              if Pruned(m, chat[j]) then [] else [Turn(chat[j].prompt, chat[j].promptLen, OutputLen(m, chat[j]))]
  {
    assert chat[..j + 1] == chat[..j] + [chat[j]];
    KeepConcat(m, chat[..j], [chat[j]]);
    assert [chat[j]][1..] == [];
  }

  lemma {:induction false} TokensAppend(turns: seq<Turn>, t: Turn)
    ensures PromptTokens(turns + [t]) == PromptTokens(turns) + t.promptLen
    ensures OutputTokens(turns + [t]) == OutputTokens(turns) + t.outputLen
  {
    if turns == [] {
      assert (turns + [t])[1..] == [];
    } else {
      assert (turns + [t])[1..] == turns[1..] + [t];
      TokensAppend(turns[1..], t);
    }
  }

  /** One pass over the dataset, which stops when `wanted` conversations are there. */
  function Pass(m: Limits, wanted: int, data: seq<seq<RawTurn>>, filtered: seq<seq<Turn>>): seq<seq<Turn>>
    decreases |data|
  {
    if data == [] || |filtered| == wanted then filtered
    else Pass(m, wanted, data[1..], if Keep(m, data[0]) == [] then filtered else filtered + [Keep(m, data[0])])
  }

  /** The part of the survivors that a pass still has room for. */
  function Room(survivors: nat, filtered: nat, wanted: int): (r: nat)
    requires filtered <= wanted
    ensures r <= survivors && filtered + r <= wanted
  {
    if filtered + survivors <= wanted then survivors else wanted - filtered
  }

  /** A pass appends the survivors in dataset order, as many as are wanted. */
  lemma {:induction false} PassAppends(m: Limits, wanted: int, data: seq<seq<RawTurn>>, filtered: seq<seq<Turn>>)
    requires |filtered| <= wanted
    ensures var s := Survivors(m, data);
            Pass(m, wanted, data, filtered) == filtered + s[..Room(|s|, |filtered|, wanted)]
    decreases |data|
  {
    hide Keep;
    if data != [] && |filtered| < wanted {
      var kept, rest := Keep(m, data[0]), Survivors(m, data[1..]);
      var s := Survivors(m, data);
      if kept == [] {
        PassAppends(m, wanted, data[1..], filtered);
        assert s == rest;
      } else {
        var more := filtered + [kept];
        PassAppends(m, wanted, data[1..], more);
        var r := Room(|rest|, |more|, wanted);
        assert s == [kept] + rest && Room(|s|, |filtered|, wanted) == r + 1;
        assert s[..r + 1] == [kept] + rest[..r];
        assert more + rest[..r] == filtered + ([kept] + rest[..r]);
      }
    }
  }

  /** A pass changes nothing exactly when the workload is full or no conversation
      survives the limits. */
  lemma PassStallsIff(m: Limits, wanted: int, data: seq<seq<RawTurn>>, filtered: seq<seq<Turn>>)
    requires |filtered| <= wanted
    ensures Pass(m, wanted, data, filtered) == filtered <==> |filtered| == wanted || Survivors(m, data) == []
  {
    hide Survivors, Pass;
    PassAppends(m, wanted, data, filtered);
    var s := Survivors(m, data);
    assert |filtered + s[..Room(|s|, |filtered|, wanted)]| == |filtered| + Room(|s|, |filtered|, wanted);
  }

  /** The state of the source's outer loop after some passes. */
  function Passes(m: Limits, wanted: int, data: seq<seq<RawTurn>>, n: nat): seq<seq<Turn>> {
    if n == 0 then [] else Pass(m, wanted, data, Passes(m, wanted, data, n - 1))
  }

  /** After `n` passes over `k` survivors the workload has `n * k` entries, or is full. */
  lemma {:induction false} PassesLength(m: Limits, wanted: nat, data: seq<seq<RawTurn>>, n: nat)
    ensures |Passes(m, wanted, data, n)| ==
              if n * |Survivors(m, data)| <= wanted then n * |Survivors(m, data)| else wanted
  {
    hide Survivors, Pass;
    if n > 0 {
      PassesLength(m, wanted, data, n - 1);
      PassAppends(m, wanted, data, Passes(m, wanted, data, n - 1));
      assert n * |Survivors(m, data)| == (n - 1) * |Survivors(m, data)| + |Survivors(m, data)|;
    }
  }

  /** The outer loop ends exactly when nothing is wanted or some conversation
      survives the limits. */
  lemma LoopEndsIff(m: Limits, wanted: nat, data: seq<seq<RawTurn>>)
    ensures (exists n: nat :: |Passes(m, wanted, data, n)| == wanted) <==> wanted == 0 || Survivors(m, data) != []
  {
    hide Survivors, Passes;
    var k := |Survivors(m, data)|;
    if k > 0 {
      PassesLength(m, wanted, data, wanted);
      assert wanted * k == wanted + wanted * (k - 1);
    } else {
      forall n: nat ensures |Passes(m, wanted, data, n)| == 0 { PassesLength(m, wanted, data, n); }
      assert |Passes(m, wanted, data, 0)| == 0;
    }
  }

  /** The inner loop of the source: one pass, and its token counts. */
  method FilterPass(wanted: int, data: seq<seq<RawTurn>>, m: Limits, before: seq<seq<Turn>>)
    returns (filtered: seq<seq<Turn>>, inputTokens: int, outputTokens: int)
    requires |before| < wanted
    ensures filtered == Pass(m, wanted, data, before)
    ensures inputTokens == TotalPrompt(filtered) - TotalPrompt(before)
    ensures outputTokens == TotalOutput(filtered) - TotalOutput(before)
  {
    hide Keep, TotalPrompt, TotalOutput, PromptTokens, OutputTokens;
    filtered, inputTokens, outputTokens := before, 0, 0;
    assert data[0..] == data;
    for i := 0 to |data|
      invariant Pass(m, wanted, data[i..], filtered) == Pass(m, wanted, data, before)
      invariant inputTokens == TotalPrompt(filtered) - TotalPrompt(before)
      invariant outputTokens == TotalOutput(filtered) - TotalOutput(before)
    {
      if |filtered| == wanted { break; }
      assert data[i..][0] == data[i] && data[i..][1..] == data[i + 1..];
      var kept, prompts, outputs := KeepTurns(m, data[i]);
      inputTokens := inputTokens + prompts;
      outputTokens := outputTokens + outputs;
      if |kept| != 0 {
        TotalsAppend(filtered, kept);
        filtered := filtered + [kept];
      } else {
        NothingCounted(kept);
      }
    }
  }

  lemma CyclicPass(filtered: seq<seq<Turn>>, s: seq<seq<Turn>>, r: nat)
    requires s != [] && Cyclic(filtered, s) && |filtered| % |s| == 0 && r <= |s|
    ensures Cyclic(filtered + s[..r], s)
    ensures r == |s| ==> |filtered + s[..r]| % |s| == 0
  {
    var n, q := |s|, |filtered| / |s|;
    assert |filtered| == q * n;
    forall k | |filtered| <= k < |filtered| + r ensures k % n == k - |filtered| {
      RemainderUnique(k, n, q, k - |filtered|);
    }
    if r == n { RemainderUnique(|filtered| + n, n, q + 1, 0); }
  }

  /** Fill the workload: pass over the dataset again and again until enough
      conversations are collected.  The precondition is exact: without it the loop
      does not end (`LoopEndsIff`). */
  method CommonFilterChat(numRequests: int, data: seq<seq<RawTurn>>, m: Limits)
    returns (filtered: seq<seq<Turn>>, inputTokens: int, outputTokens: int)
    requires numRequests <= 0 || Survivors(m, data) != []
    ensures |filtered| == if numRequests <= 0 then 0 else numRequests
    ensures numRequests > 0 ==> Survivors(m, data) != [] && Cyclic(filtered, Survivors(m, data))
    ensures inputTokens == TotalPrompt(filtered) && outputTokens == TotalOutput(filtered)
  {
    hide Survivors, Keep, TotalPrompt, TotalOutput, PromptTokens, OutputTokens, Pass;
    filtered, inputTokens, outputTokens := [], 0, 0;
    ghost var s := Survivors(m, data);
    TotalsEmpty();
    while |filtered| < numRequests
      invariant numRequests > 0 ==> |filtered| <= numRequests && Cyclic(filtered, s)
      invariant numRequests <= 0 ==> filtered == []
      invariant 0 < numRequests && |filtered| < numRequests ==> |filtered| % |s| == 0
      invariant inputTokens == TotalPrompt(filtered) && outputTokens == TotalOutput(filtered)
      decreases numRequests - |filtered|
    {
      PassAppends(m, numRequests, data, filtered);
      CyclicPass(filtered, s, Room(|s|, |filtered|, numRequests));
      var prompts, outputs;
      filtered, prompts, outputs := FilterPass(numRequests, data, m, filtered);
      inputTokens, outputTokens := inputTokens + prompts, outputTokens + outputs;
    }
  }

  lemma TotalsEmpty()
    ensures TotalPrompt([]) == 0 && TotalOutput([]) == 0
  {
  }

  lemma NothingCounted(kept: seq<Turn>)
    requires kept == []
    ensures PromptTokens(kept) == 0 && OutputTokens(kept) == 0
  {
  }

  lemma TotalsAppend(chats: seq<seq<Turn>>, chat: seq<Turn>)
    ensures TotalPrompt(chats + [chat]) == TotalPrompt(chats) + PromptTokens(chat)
    ensures TotalOutput(chats + [chat]) == TotalOutput(chats) + OutputTokens(chat)
  {
    assert (chats + [chat])[..|chats|] == chats;
  }

  /** No conversation handed to the benchmark is empty. */
  lemma {:induction false} SurvivorsHaveTurns(m: Limits, data: seq<seq<RawTurn>>, k: nat)
    requires k < |Survivors(m, data)|
    ensures Survivors(m, data)[k] != []
  {
    hide Keep;
    if Keep(m, data[0]) == [] {
      SurvivorsHaveTurns(m, data[1..], k);
    } else if k > 0 {
      SurvivorsHaveTurns(m, data[1..], k - 1);
    }
  }
}
