/** Latency accounting over a streamed response (the chunk loop of
    `async_request_sglang_generate` in benchmark/hicache/bench_warm_cache.py). */
module StreamLatency {
  /** A decoded chunk: when it was received, and for a chunk carrying text when it
      was looked at, the text so far and the tokens generated so far.  The closing
      chunk and chunks without a text have the empty text. */
  datatype Chunk = Chunk(received: real, time: real, text: string, tokens: int)

  /** The loop's variables: `last` is the last counted time stamp. */
  datatype Meter = Meter(ttft: real, last: real, lastTokens: int, itl: seq<real>, outputLen: int)

  function SumReal(s: seq<real>): real {
    if s == [] then 0.0 else s[0] + SumReal(s[1..])
  }

  function Repeat(x: real, n: int): (r: seq<real>)
    ensures |r| == if n > 0 then n else 0
  {
    if n <= 0 then [] else [x] + Repeat(x, n - 1)
  }

  /** A gap spread evenly over the tokens it brought. */
  function Spread(gap: real, n: int): (r: seq<real>)
    requires n != 0
    ensures |r| == if n > 0 then n else 0
  {
    Repeat(gap / n as real, n)
  }

  /** One chunk. */
  function Observe(start: real, m: Meter, c: Chunk): Meter {
    if c.text == "" then m
    else if m.ttft == 0.0 then Meter(c.time - start, c.time, c.tokens, m.itl, c.tokens)
    else
      var added := c.tokens - m.lastTokens;
      if added == 0 then m
      else Meter(m.ttft, c.time, c.tokens, m.itl + Spread(c.time - m.last, added), c.tokens)
  }

  function Fold(start: real, m: Meter, chunks: seq<Chunk>): Meter
    decreases |chunks|
  {
    if chunks == [] then m else Fold(start, Observe(start, m, chunks[0]), chunks[1..])
  }

  function Begin(start: real): Meter { Meter(0.0, start, 0, [], 0) }

  /** The chunks that carry text. */
  function Texts(chunks: seq<Chunk>): (r: seq<Chunk>)
    ensures forall k :: 0 <= k < |r| ==> r[k].text != ""
  {
    if chunks == [] then [] else (if chunks[0].text == "" then [] else [chunks[0]]) + Texts(chunks[1..])
  }

  lemma {:induction false} TextsAppend(chunks: seq<Chunk>, c: Chunk)
    ensures Texts(chunks + [c]) == Texts(chunks) + if c.text == "" then [] else [c]
  {
    if chunks != [] {
      assert (chunks + [c])[1..] == chunks[1..] + [c];
      TextsAppend(chunks[1..], c);
    }
  }

  function LastText(chunks: seq<Chunk>): string {
    var texts := Texts(chunks);
    if texts == [] then "" else texts[|texts| - 1].text
  }

  lemma LastTextAppend(chunks: seq<Chunk>, c: Chunk)
    ensures LastText(chunks + [c]) == if c.text == "" then LastText(chunks) else c.text
  {
    TextsAppend(chunks, c);
  }

  lemma FoldNothing(start: real, m: Meter, chunks: seq<Chunk>)
    ensures Fold(start, m, chunks[|chunks|..]) == m
  {
  }

  lemma FoldStep(start: real, m: Meter, chunks: seq<Chunk>, k: nat)
    requires k < |chunks|
    ensures Fold(start, m, chunks[k..]) == Fold(start, Observe(start, m, chunks[k]), chunks[k + 1..])
  {
    assert chunks[k..][0] == chunks[k] && chunks[k..][1..] == chunks[k + 1..];
  }

  /** The loop of the source: first-token time, latencies, output length, the text,
      and the time until the last chunk was received. */
  method MeasureStream(start: real, chunks: seq<Chunk>)
    returns (ttft: real, itl: seq<real>, outputLen: int, text: string, latency: real)
    ensures var m := Fold(start, Begin(start), chunks); ttft == m.ttft && itl == m.itl && outputLen == m.outputLen
    ensures text == LastText(chunks)
    ensures latency == if chunks == [] then 0.0 else chunks[|chunks| - 1].received - start
  {
    ttft, itl, outputLen, text, latency := 0.0, [], 0, "", 0.0;
    assert LastText(chunks[..0]) == "";
    hide LastText, Spread, Fold;
    var mostRecent, lastLen := start, 0;
    assert chunks[0..] == chunks;
    for k := 0 to |chunks|
      invariant Fold(start, Begin(start), chunks)
             == Fold(start, Meter(ttft, mostRecent, lastLen, itl, outputLen), chunks[k..])
      invariant text == LastText(chunks[..k])
      invariant latency == if k == 0 then 0.0 else chunks[k - 1].received - start
    {
      var c := chunks[k];
      ghost var m := Meter(ttft, mostRecent, lastLen, itl, outputLen);
      FoldStep(start, m, chunks, k);
      assert chunks[..k + 1] == chunks[..k] + [c];
      LastTextAppend(chunks[..k], c);
      latency := c.received - start;
      if c.text == "" { continue; }
      text := c.text;
      if ttft == 0.0 {
        ttft := c.time - start;
      } else {
        var newTokens := c.tokens - lastLen;
        if newTokens == 0 { continue; }
        itl := itl + Spread(c.time - mostRecent, newTokens);
      }
      mostRecent, lastLen, outputLen := c.time, c.tokens, c.tokens;
      assert Meter(ttft, mostRecent, lastLen, itl, outputLen) == Observe(start, m, c);
    }
    assert chunks[..|chunks|] == chunks;
    FoldNothing(start, Meter(ttft, mostRecent, lastLen, itl, outputLen), chunks);
  }

  /** Chunks without text change nothing. */
  lemma {:induction false} FoldTexts(start: real, m: Meter, chunks: seq<Chunk>)
    ensures Fold(start, m, chunks) == Fold(start, m, Texts(chunks))
    decreases |chunks|
  {
    if chunks != [] {
      FoldTexts(start, Observe(start, m, chunks[0]), chunks[1..]);
      if chunks[0].text == "" {
        assert Texts(chunks) == Texts(chunks[1..]);
      } else {
        assert Texts(chunks)[1..] == Texts(chunks[1..]);
      }
    }
  }

  lemma {:induction false} SumConcat(a: seq<real>, b: seq<real>)
    ensures SumReal(a + b) == SumReal(a) + SumReal(b)
  {
    if a == [] {
      assert a + b == b;
    } else {
      assert (a + b)[1..] == a[1..] + b;
      SumConcat(a[1..], b);
    }
  }

  lemma {:induction false} SumRepeat(x: real, n: nat)
    ensures SumReal(Repeat(x, n)) == n as real * x
  {
    if n > 0 {
      SumRepeat(x, n - 1);
      assert Repeat(x, n)[1..] == Repeat(x, n - 1);
      assert n as real == (n - 1) as real + 1.0;
    }
  }

  /** Spreading a gap over the tokens it brought loses nothing of it. */
  lemma SumSpread(gap: real, n: nat)
    requires n > 0
    ensures SumReal(Spread(gap, n)) == gap
  {
    SumRepeat(gap / n as real, n);
  }

  /** The chunks arrive after the start, and the token count never falls. */
  predicate Orderly(start: real, chunks: seq<Chunk>) {
    && (forall k :: 0 <= k < |chunks| ==> chunks[k].time > start)
    && (forall j, k :: 0 <= j < k < |chunks| ==> chunks[j].tokens <= chunks[k].tokens)
  }

  /** While counting: the latencies add up to the time between the first chunk and
      the last counted one, and their number to the tokens after the first chunk. */
  ghost predicate Telescoped(start: real, first: Chunk, m: Meter) {
    && m.ttft == first.time - start && m.ttft > 0.0
    && SumReal(m.itl) == m.last - first.time
    && |m.itl| + first.tokens == m.outputLen == m.lastTokens
  }

  /** Chunk `k` is the last one that brought tokens, and its time is the last counted. */
  ghost predicate LastCounted(chunks: seq<Chunk>, k: nat, last: real, tokens: int) {
    && k < |chunks| && last == chunks[k].time && tokens == chunks[k].tokens
    && (k == 0 || chunks[k - 1].tokens < chunks[k].tokens)
  }

  lemma ObserveKeeps(start: real, first: Chunk, m: Meter, c: Chunk)
    requires Telescoped(start, first, m) && m.lastTokens <= c.tokens && c.text != ""
    ensures Telescoped(start, first, Observe(start, m, c))
    ensures Observe(start, m, c).lastTokens == c.tokens
    ensures m.lastTokens == c.tokens ==> Observe(start, m, c) == m
    ensures m.lastTokens < c.tokens ==> Observe(start, m, c).last == c.time
  {
    var n := c.tokens - m.lastTokens;
    if n > 0 {
      SumSpread(c.time - m.last, n);
      SumConcat(m.itl, Spread(c.time - m.last, n));
      hide Spread;
    }
  }

  /** The state after the first `i` chunks, `k` being the last counted one. */
  lemma {:induction false} FoldKeeps(start: real, chunks: seq<Chunk>, i: nat, k: nat, m: Meter)
    requires Orderly(start, chunks) && 1 <= i <= |chunks|
    requires forall j :: 0 <= j < |chunks| ==> chunks[j].text != ""
    requires Telescoped(start, chunks[0], m) && m.lastTokens == chunks[i - 1].tokens
    requires LastCounted(chunks, k, m.last, m.lastTokens)
    ensures var r := Fold(start, m, chunks[i..]);
            && Telescoped(start, chunks[0], r)
            && r.lastTokens == chunks[|chunks| - 1].tokens
            && exists n: nat :: LastCounted(chunks, n, r.last, r.lastTokens)
    decreases |chunks| - i
  {
    hide Telescoped, Observe;
    if i < |chunks| {
      var c := chunks[i];
      ObserveKeeps(start, chunks[0], m, c);
      assert chunks[i..][0] == c && chunks[i..][1..] == chunks[i + 1..];
      FoldKeeps(start, chunks, i + 1, if m.lastTokens == c.tokens then k else i, Observe(start, m, c));
    }
  }

  /** The inter-token latencies of an orderly stream sum to the time from the first
      chunk with a text to the last one that brought tokens, and their number plus
      the first chunk's tokens is the output length, the final token count. */
  lemma LatenciesTelescope(start: real, chunks: seq<Chunk>)
    requires Orderly(start, Texts(chunks)) && Texts(chunks) != []
    ensures var m, texts := Fold(start, Begin(start), chunks), Texts(chunks);
            && m.ttft == texts[0].time - start
            && |m.itl| + texts[0].tokens == m.outputLen == texts[|texts| - 1].tokens
            && exists k: nat :: LastCounted(texts, k, m.last, m.outputLen)
                             && SumReal(m.itl) == texts[k].time - texts[0].time
  {
    hide Texts;
    var texts := Texts(chunks);
    FoldTexts(start, Begin(start), chunks);
    var m := Observe(start, Begin(start), texts[0]);
    assert Telescoped(start, texts[0], m) && LastCounted(texts, 0, m.last, m.lastTokens);
    var r := Fold(start, Begin(start), texts);
    assert r == Fold(start, m, texts[1..]);
    hide Fold, Observe;
    FoldKeeps(start, texts, 1, 0, m);
    var k: nat :| LastCounted(texts, k, r.last, r.lastTokens);
  }

  /* ---------- each single latency ---------- */

  lemma {:induction false} RepeatAt(x: real, n: nat, i: nat)
    requires i < n
    ensures Repeat(x, n)[i] == x
  {
    if i > 0 { RepeatAt(x, n - 1, i - 1); }
  }

  /** Every token of a chunk gets the same share of the gap. */
  lemma SpreadAt(gap: real, n: nat, i: nat)
    requires i < n
    ensures Spread(gap, n)[i] * n as real == gap
  {
    RepeatAt(gap / n as real, n, i);
  }

  /** One chunk with text after the first, in any stream: as many latencies are added
      as tokens, each the gap since the last counted chunk divided by their number;
      a chunk without new tokens changes nothing, and one with a smaller count only
      becomes the last counted one. */
  lemma ObserveMeaning(start: real, m: Meter, c: Chunk)
    requires c.text != "" && m.ttft != 0.0
    ensures var r, n := Observe(start, m, c), c.tokens - m.lastTokens;
            && r.ttft == m.ttft && m.itl <= r.itl && |r.itl| == |m.itl| + (if n > 0 then n else 0)
            && (n == 0 ==> r == m)
            && (n != 0 ==> r.last == c.time && r.lastTokens == r.outputLen == c.tokens)
            && forall i :: |m.itl| <= i < |r.itl| ==> r.itl[i] * n as real == c.time - m.last
  {
    var r, n := Observe(start, m, c), c.tokens - m.lastTokens;
    forall i | |m.itl| <= i < |r.itl| ensures r.itl[i] * n as real == c.time - m.last {
      SpreadAt(c.time - m.last, n, i - |m.itl|);
      assert r.itl[i] == Spread(c.time - m.last, n)[i - |m.itl|];
    }
  }

  /** Token number `e` after those of the first chunk came with chunk `k`, and `p` is
      the chunk counted before it; `x` is its share of the time between the two. */
  ghost predicate Share(chunks: seq<Chunk>, e: nat, k: nat, p: nat, x: real) {
    && p < k < |chunks|
    && chunks[k - 1].tokens <= chunks[0].tokens + e < chunks[k].tokens
    && chunks[p].tokens == chunks[k - 1].tokens && (p == 0 || chunks[p - 1].tokens < chunks[p].tokens)
    && x * (chunks[k].tokens - chunks[k - 1].tokens) as real == chunks[k].time - chunks[p].time
  }

  ghost predicate IsShare(chunks: seq<Chunk>, e: nat, x: real) {
    exists k: nat, p: nat :: Share(chunks, e, k, p, x)
  }

  ghost predicate AllShares(chunks: seq<Chunk>, itl: seq<real>) {
    forall e :: 0 <= e < |itl| ==> IsShare(chunks, e, itl[e])
  }

  lemma SharesStep(start: real, chunks: seq<Chunk>, i: nat, k: nat, m: Meter)
    requires 1 <= i < |chunks| && chunks[i].text != "" && m.lastTokens <= chunks[i].tokens
    requires Telescoped(start, chunks[0], m) && m.lastTokens == chunks[i - 1].tokens && k < i
    requires LastCounted(chunks, k, m.last, m.lastTokens) && AllShares(chunks, m.itl)
    ensures AllShares(chunks, Observe(start, m, chunks[i]).itl)
  {
    hide Observe;
    var c, r := chunks[i], Observe(start, m, chunks[i]);
    ObserveMeaning(start, m, c);
    forall e | 0 <= e < |r.itl| ensures IsShare(chunks, e, r.itl[e]) {
      if e < |m.itl| {
        assert IsShare(chunks, e, m.itl[e]) && r.itl[e] == m.itl[e];
      } else {
        assert Share(chunks, e, i, k, r.itl[e]);
      }
    }
  }

  lemma {:induction false} FoldShares(start: real, chunks: seq<Chunk>, i: nat, k: nat, m: Meter)
    requires Orderly(start, chunks) && 1 <= i <= |chunks| && k < i
    requires forall j :: 0 <= j < |chunks| ==> chunks[j].text != ""
    requires Telescoped(start, chunks[0], m) && m.lastTokens == chunks[i - 1].tokens
    requires LastCounted(chunks, k, m.last, m.lastTokens) && AllShares(chunks, m.itl)
    ensures AllShares(chunks, Fold(start, m, chunks[i..]).itl)
    decreases |chunks| - i
  {
    if i < |chunks| {
      var c := chunks[i];
      ObserveKeeps(start, chunks[0], m, c);
      SharesStep(start, chunks, i, k, m);
      FoldStep(start, m, chunks, i);
      hide Telescoped, Observe, AllShares, Fold;
      FoldShares(start, chunks, i + 1, if m.lastTokens == c.tokens then k else i, Observe(start, m, c));
    } else {
      FoldNothing(start, m, chunks);
    }
  }

  /** In an orderly stream the latency of each token is its equal share of the time
      between the chunk that brought it and the chunk counted before that. */
  lemma LatenciesAreShares(start: real, chunks: seq<Chunk>)
    requires Orderly(start, Texts(chunks)) && Texts(chunks) != []
    ensures AllShares(Texts(chunks), Fold(start, Begin(start), chunks).itl)
  {
    hide Texts;
    var texts := Texts(chunks);
    FoldTexts(start, Begin(start), chunks);
    var m := Observe(start, Begin(start), texts[0]);
    assert Telescoped(start, texts[0], m) && LastCounted(texts, 0, m.last, m.lastTokens) && m.itl == [];
    assert AllShares(texts, m.itl);
    assert Fold(start, Begin(start), texts) == Fold(start, m, texts[1..]);
    hide Fold, Observe;
    FoldShares(start, texts, 1, 0, m);
  }
}
