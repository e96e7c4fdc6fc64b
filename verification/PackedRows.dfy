/**
 Packed token by token: every token of a batch is one token of one sample with all that belongs to it, padding and
 dummies have fixed values, and each sample goes where first fit decreasing puts it.
 */
module PackedRows {
  import opened Wrappers
  import opened SequencePacking
  import opened PackingTheorems
  import opened PackedTokens
  import opened PackedGrid

  /* ---------- Sorting ---------- */

  /** Samples that sort alike. */
  predicate Alike(x: Tagged, y: Tagged) {
    x.idx == y.idx && Size(x) == Size(y)
  }

  /** The samples of one kind, in order. */
  function OfKind(samples: seq<Tagged>, kind: Tagged): seq<Tagged> {
    if samples == [] then []
    else
      var front, last := OfKind(samples[..|samples| - 1], kind), samples[|samples| - 1];
      if Alike(last, kind) then front + [last] else front
  }

  lemma OfKindNext(samples: seq<Tagged>, x: Tagged, kind: Tagged)
    ensures OfKind(samples + [x], kind) == if Alike(x, kind) then OfKind(samples, kind) + [x] else OfKind(samples, kind)
  {
    assert (samples + [x])[..|samples|] == samples;
  }

  lemma {:induction false} InsertIsStable(sorted: seq<Tagged>, x: Tagged, kind: Tagged)
    ensures OfKind(Insert(sorted, x), kind) ==
      if Alike(x, kind) then OfKind(sorted, kind) + [x] else OfKind(sorted, kind)
    decreases |sorted|
  {
    if sorted != [] && Before(x, sorted[|sorted| - 1]) {
      var front, last := sorted[..|sorted| - 1], sorted[|sorted| - 1];
      InsertIsStable(front, x, kind);
      OfKindNext(Insert(front, x), last, kind);
    } else {
      OfKindNext(sorted, x, kind);
    }
  }

  /** Samples of one adapter and one length stay in the order they came in. */
  lemma {:induction false} SortIsStable(samples: seq<Tagged>, kind: Tagged)
    ensures OfKind(SortSamples(samples), kind) == OfKind(samples, kind)
  {
    if samples != [] {
      var front := samples[..|samples| - 1];
      SortIsStable(front, kind);
      InsertIsStable(SortSamples(front), samples[|samples| - 1], kind);
    }
  }

  /* ---------- First fit ---------- */

  /** The bin has room for the sample: text, of its mode, and within the capacity together with it. */
  predicate Takes(bin: MicroBatch, sample: MicroBatch, max: nat) {
    !bin.multimodal && bin.mode == sample.mode && |bin.inputIds| + |sample.inputIds| <= max
  }

  /** Sample i goes to the first of the bins so far that has room, a multimodal one or one nowhere fits to a new bin. */
  lemma {:induction false} FirstFitExactly(samples: seq<Tagged>, max: nat, loras: nat, n: nat, i: nat)
    requires i < n <= |samples| && Adapters(samples, loras)
    ensures var bins, b := Pack(samples, max, loras, i), Assign(samples, max, loras, n)[i];
      var sample := samples[i].sample;
      && b <= |bins|
      && (b < |bins| ==> !sample.multimodal && Takes(bins[b], sample, max))
      && (!sample.multimodal ==> forall k :: 0 <= k < b ==> !Takes(bins[k], sample, max))
  {
    if i < n - 1 {
      FirstFitExactly(samples, max, loras, n - 1, i);
    }
  }

  /* ---------- Tokens of a bin ---------- */

  /** Which sample the token at p of a bin is of, and which of its tokens. */
  function Where(samples: seq<Tagged>, a: seq<nat>, b: nat, p: nat): (at: (nat, nat))
    requires |a| <= |samples| && p < |Gather(InputIds(samples), a, b)|
    ensures at.0 < |a| && a[at.0] == b && at.1 < Size(samples[at.0])
  {
    var n := |a| - 1;
    var front := Gather(InputIds(samples), a[..n], b);
    if p < |front| then Where(samples, a[..n], b, p) else (n, p - |front|)
  }

  lemma {:induction false} GatherWhere<T>(samples: seq<Tagged>, parts: seq<seq<T>>, a: seq<nat>, b: nat, p: nat)
    requires |a| <= |samples| == |parts| && p < |Gather(InputIds(samples), a, b)|
    requires forall i :: 0 <= i < |parts| ==> |parts[i]| == Size(samples[i])
    ensures |Gather(parts, a, b)| == |Gather(InputIds(samples), a, b)|
    ensures var at := Where(samples, a, b, p); Gather(parts, a, b)[p] == parts[at.0][at.1]
  {
    GatherSize(samples, parts, a, b);
    var n := |a| - 1;
    GatherSize(samples, parts, a[..n], b);
    if p < |Gather(InputIds(samples), a[..n], b)| {
      GatherWhere(samples, parts, a[..n], b, p);
    }
  }

  lemma {:induction false} GatherSize<T>(samples: seq<Tagged>, parts: seq<seq<T>>, a: seq<nat>, b: nat)
    requires |a| <= |samples| == |parts| && forall i :: 0 <= i < |parts| ==> |parts[i]| == Size(samples[i])
    ensures |Gather(parts, a, b)| == |Gather(InputIds(samples), a, b)|
  {
    if a != [] { GatherSize(samples, parts, a[..|a| - 1], b); }
  }

  /** The token at p of one batch is the token at q of another, in every list. */
  predicate SameToken(x: MicroBatch, p: nat, y: MicroBatch, q: nat)
    requires Aligned(x) && Aligned(y) && p < |x.inputIds| && q < |y.inputIds|
  {
    && x.inputIds[p] == y.inputIds[q] && x.lossMask[p] == y.lossMask[q] && x.advantages[p] == y.advantages[q]
    && x.rewards[p] == y.rewards[q] && x.envNames[p] == y.envNames[q] && x.positionIds[p] == y.positionIds[q]
    && x.logprobs[p] == y.logprobs[q] && x.temperatures[p] == y.temperatures[q]
  }

  /** Every token of a bin is a token of one of its samples, with all that belongs to it. */
  lemma BinTokens(samples: seq<Tagged>, max: nat, loras: nat, b: nat, p: nat)
    requires Adapters(samples, loras) && forall i :: 0 <= i < |samples| ==> Aligned(samples[i].sample)
    requires b < |Pack(samples, max, loras, |samples|)| && p < |Pack(samples, max, loras, |samples|)[b].inputIds|
    ensures var bin, a := Pack(samples, max, loras, |samples|)[b], Assign(samples, max, loras, |samples|);
      && Aligned(bin) && bin.inputIds == Gather(InputIds(samples), a, b)
      && var at := Where(samples, a, b, p);
      && SameToken(bin, p, samples[at.0].sample, at.1)
  {
    PackingConserves(samples, max, loras, |samples|);
    BinsAligned(samples, max, loras, |samples|);
    var bin, a := Pack(samples, max, loras, |samples|)[b], Assign(samples, max, loras, |samples|);
    assert IsGathered(bin, samples, a, b);
    GatheredTokens(bin, samples, a, b, p);
  }

  lemma GatheredTokens(bin: MicroBatch, samples: seq<Tagged>, a: seq<nat>, b: nat, p: nat)
    requires |a| <= |samples| && IsGathered(bin, samples, a, b) && Aligned(bin) && p < |bin.inputIds|
    requires forall i :: 0 <= i < |samples| ==> Aligned(samples[i].sample)
    ensures var at := Where(samples, a, b, p); SameToken(bin, p, samples[at.0].sample, at.1)
  {
    GatherWhere(samples, InputIds(samples), a, b, p);
    GatherWhere(samples, LossMasks(samples), a, b, p);
    GatherWhere(samples, Advantages(samples), a, b, p);
    GatherWhere(samples, Rewards(samples), a, b, p);
    GatherWhere(samples, EnvNames(samples), a, b, p);
    GatherWhere(samples, PositionIds(samples), a, b, p);
    GatherWhere(samples, Logprobs(samples), a, b, p);
    GatherWhere(samples, Temperatures(samples), a, b, p);
  }

  /* ---------- Padding and dummies ---------- */

  /** What padding behind n tokens consists of: token 1, untrained, numbered from 0 like a sequence of its own. */
  predicate PaddingToken(batch: MicroBatch, n: nat, p: nat)
    requires Aligned(batch) && p < |batch.inputIds|
  {
    && batch.inputIds[p] == 1 && !batch.lossMask[p] && batch.advantages[p] == Some(0.0) && batch.rewards[p] == None
    && batch.envNames[p] == "" && batch.positionIds[p] == p - n
    && batch.logprobs[p] == 0.0 && batch.temperatures[p] == 1.0
  }

  /** Padding goes up to the next multiple, behind all tokens, which stay as they are; so do mode and modality. */
  lemma PaddingExactly(b: MicroBatch, multiple: nat)
    requires multiple >= 1 && b.loraNumTokens != [] && Aligned(b)
    ensures var padded, n := PadMicroBatch(b, multiple), |b.inputIds|;
      && Aligned(padded) && n <= |padded.inputIds| < n + multiple && |padded.inputIds| % multiple == 0
      && (forall p :: 0 <= p < n ==> SameToken(padded, p, b, p))
      && (forall p :: n <= p < |padded.inputIds| ==> PaddingToken(padded, n, p))
      && padded.mode == b.mode && padded.multimodal == b.multimodal
      && (b.teacherLogprobs.Some? ==>
            padded.teacherLogprobs == Some(b.teacherLogprobs.value + Repeat(0.0, |padded.inputIds| - n)))
      && (b.tokenTypes.Some? ==> padded.tokenTypes == Some(b.tokenTypes.value + Repeat(0, |padded.inputIds| - n)))
      && (b.teacherLogprobs.None? ==> padded.teacherLogprobs.None?)
      && (b.tokenTypes.None? ==> padded.tokenTypes.None?)
  {
    PaddingCompletes(b, multiple);
    PadIsPadded(b, multiple);
    PaddedTokens(b, PaddingSize(|b.inputIds|, multiple));
  }

  lemma PaddedTokens(b: MicroBatch, size: nat)
    requires b.loraNumTokens != [] && Aligned(b)
    ensures var padded, n := Padded(b, size), |b.inputIds|;
      && Aligned(padded) && |padded.inputIds| == n + size
      && (forall p :: 0 <= p < n ==> SameToken(padded, p, b, p))
      && (forall p :: n <= p < n + size ==> PaddingToken(padded, n, p))
  {
    var padded, n := Padded(b, size), |b.inputIds|;
    assert Aligned(padded) && |padded.inputIds| == n + size;
    forall p: nat | n <= p < n + size ensures PaddingToken(padded, n, p) {
      OnePaddingToken(b, size, p);
    }
  }

  lemma OnePaddingToken(b: MicroBatch, size: nat, p: nat)
    requires b.loraNumTokens != [] && Aligned(b) && |b.inputIds| <= p < |b.inputIds| + size
    ensures Aligned(Padded(b, size)) && PaddingToken(Padded(b, size), |b.inputIds|, p)
  {
  }

  /** A dummy is one of the batches with nothing to train and no advantage; fewer than a row of them are added. */
  predicate IsDummyOf(dummy: MicroBatch, b: MicroBatch) {
    dummy == b.(lossMask := Repeat(false, |b.inputIds|), advantages := Repeat(Some(0.0), |b.inputIds|))
  }

  lemma DummiesExactly(bins: seq<MicroBatch>, workers: nat, dummy: MicroBatch)
    requires workers >= 1 && dummy in Dummies(bins, workers)
    ensures exists b :: 0 <= b < |bins| && IsDummyOf(dummy, bins[b])
  {
    var mm, text := OfModality(bins, true, |bins|), OfModality(bins, false, |bins|);
    var group := if dummy in DummiesOf(mm, workers) then mm else text;
    assert dummy in DummiesOf(group, workers) && group != [];
    assert dummy == Dummy(group[0]);
    OfModalityAmong(bins, true, |bins|);
    OfModalityAmong(bins, false, |bins|);
    assert group[0] in group;
    assert group[0] in bins;
    var b :| 0 <= b < |bins| && bins[b] == group[0];
    assert IsDummyOf(dummy, bins[b]);
  }

  lemma {:induction false} OfModalityAmong(bins: seq<MicroBatch>, multimodal: bool, n: nat)
    requires n <= |bins|
    ensures forall x :: x in OfModality(bins, multimodal, n) ==> x in bins
  {
    if n > 0 { OfModalityAmong(bins, multimodal, n - 1); }
  }

  lemma FewDummies(group: seq<MicroBatch>, workers: nat)
    requires workers >= 1
    ensures |DummiesOf(group, workers)| < workers
  {
  }

  /* ---------- Tokens of the grid ---------- */

  /** The token at p of the batch is the rollout's token q, with the rollout's values. */
  predicate TokenOf(batch: MicroBatch, p: nat, s: TrainingSample, q: nat)
    requires Aligned(batch) && p < |batch.inputIds|
  {
    var n := |s.promptIds|;
    && q < n + |s.completionIds| && q < |s.promptMask| + |s.completionMask|
    && q < n + |s.completionLogprobs| && q < n + |s.completionTemperatures|
    && batch.inputIds[p] == (s.promptIds + s.completionIds)[q]
    && batch.lossMask[p] == (s.promptMask + s.completionMask)[q]
    && batch.advantages[p] == s.advantage && batch.rewards[p] == s.reward && batch.envNames[p] == s.envName
    && batch.positionIds[p] == q
    && batch.logprobs[p] == (if q < n then 0.0 else s.completionLogprobs[q - n])
    && batch.temperatures[p] == if q >= n then s.completionTemperatures[q - n]
                                else if s.completionTemperatures == [] then 1.0 else s.completionTemperatures[0]
  }

  ghost predicate TokenOfSome(batch: MicroBatch, p: nat, rollouts: seq<TrainingSample>)
    requires Aligned(batch) && p < |batch.inputIds|
  {
    exists r, q: nat :: 0 <= r < |rollouts| && TokenOf(batch, p, rollouts[r], q)
  }

  /** Tokens of rollouts up to n, padding behind. */
  ghost predicate AllTokensKnown(batch: MicroBatch, n: nat, rollouts: seq<TrainingSample>) {
    && Aligned(batch) && n <= |batch.inputIds|
    && (forall p :: 0 <= p < n ==> TokenOfSome(batch, p, rollouts))
    && (forall p :: n <= p < |batch.inputIds| ==> PaddingToken(batch, n, p))
  }

  lemma TokenThrough(batch: MicroBatch, p: nat, b: MicroBatch, q: nat, s: TrainingSample, seqLen: nat)
    requires Aligned(batch) && p < |batch.inputIds| && PreparedAs(s, seqLen, b) && q < |b.inputIds|
    requires SameToken(batch, p, b, q)
    ensures TokenOf(batch, p, s, q)
  {
    assert PreparedToken(s, b, q);
  }

  lemma BinTokensKnown(rollouts: seq<TrainingSample>, idxs: seq<nat>, seqLen: nat, loras: nat, multiple: nat, b: nat)
    requires PreparedSamples(rollouts, idxs, seqLen).Some? && multiple >= 1 && loras >= 1
    requires var samples := SortSamples(PreparedSamples(rollouts, idxs, seqLen).value);
      Adapters(samples, loras) && b < |Pack(samples, seqLen, loras, |samples|)|
    ensures var samples := SortSamples(PreparedSamples(rollouts, idxs, seqLen).value);
      var bin := Pack(samples, seqLen, loras, |samples|)[b];
      AllTokensKnown(PadMicroBatch(bin, multiple), |bin.inputIds|, rollouts)
  {
    var samples := SortSamples(PreparedSamples(rollouts, idxs, seqLen).value);
    var bin := Pack(samples, seqLen, loras, |samples|)[b];
    var batch := PadMicroBatch(bin, multiple);
    SortedAligned(rollouts, idxs, seqLen);
    BinsAligned(samples, seqLen, loras, |samples|);
    PaddingExactly(bin, multiple);
    forall p: nat | p < |bin.inputIds| ensures TokenOfSome(batch, p, rollouts) {
      TokenKnown(rollouts, idxs, seqLen, loras, b, batch, p);
    }
  }

  lemma SortedAligned(rollouts: seq<TrainingSample>, idxs: seq<nat>, seqLen: nat)
    requires PreparedSamples(rollouts, idxs, seqLen).Some?
    ensures var samples := SortSamples(PreparedSamples(rollouts, idxs, seqLen).value);
      forall i :: 0 <= i < |samples| ==> Aligned(samples[i].sample)
  {
    var samples := SortSamples(PreparedSamples(rollouts, idxs, seqLen).value);
    PreparedAll(rollouts, idxs, seqLen);
    forall i | 0 <= i < |samples| ensures Aligned(samples[i].sample) {
      assert samples[i] in samples;
    }
  }

  lemma TokenKnown(rollouts: seq<TrainingSample>, idxs: seq<nat>, seqLen: nat, loras: nat, b: nat, batch: MicroBatch,
                   p: nat)
    requires PreparedSamples(rollouts, idxs, seqLen).Some?
    requires var samples := SortSamples(PreparedSamples(rollouts, idxs, seqLen).value);
      && Adapters(samples, loras) && b < |Pack(samples, seqLen, loras, |samples|)|
      && (forall i :: 0 <= i < |samples| ==> Aligned(samples[i].sample))
      && var bin := Pack(samples, seqLen, loras, |samples|)[b];
      && Aligned(bin) && Aligned(batch) && p < |bin.inputIds| <= |batch.inputIds| && SameToken(batch, p, bin, p)
    ensures TokenOfSome(batch, p, rollouts)
  {
    var prepared := PreparedSamples(rollouts, idxs, seqLen).value;
    var samples := SortSamples(prepared);
    BinTokens(samples, seqLen, loras, b, p);
    var at := Where(samples, Assign(samples, seqLen, loras, |samples|), b, p);
    var r := PreparedAt(prepared, samples[at.0]);
    PrepareExactly(rollouts[r], seqLen);
    TokenThrough(batch, p, samples[at.0].sample, at.1, rollouts[r], seqLen);
    assert TokenOf(batch, p, rollouts[r], at.1);
  }

  /**
   Every token that a worker gets is a token of a rollout with exactly that rollout's advantage, reward, mask,
   logprob, temperature, environment and position, or padding; a dummy is such a batch with nothing to train.
   */
  lemma GridTokensExactly(rollouts: seq<TrainingSample>, seqLen: nat, workers: nat, idxs: seq<nat>, loras: nat,
                          multiple: nat, grid: seq<seq<MicroBatch>>, w: nat, row: nat)
    requires workers >= 1 && multiple >= 1 && loras >= 1
    requires IsGridOf(Some(grid), rollouts, seqLen, workers, idxs, loras, multiple)
    requires w < |grid| && row < |grid[w]|
    ensures KnownBatch(grid[w][row], rollouts) ||
            exists batch :: KnownBatch(batch, rollouts) && IsDummyOf(grid[w][row], batch)
  {
    var prepared := PreparedSamples(rollouts, idxs, seqLen).value;
    var samples := SortSamples(prepared);
    var bins := BatchBins(samples, seqLen, loras, multiple);
    GridKeepsTheBatch(rollouts, seqLen, workers, idxs, loras, multiple, grid);
    InFlat(grid, w, row);
    FromEither(grid[w][row], Flat(grid), bins, Dummies(bins, workers));
    if grid[w][row] in bins {
      KnownBin(rollouts, idxs, seqLen, loras, multiple, grid[w][row]);
    } else {
      DummiesExactly(bins, workers, grid[w][row]);
      var b :| 0 <= b < |bins| && IsDummyOf(grid[w][row], bins[b]);
      KnownBin(rollouts, idxs, seqLen, loras, multiple, bins[b]);
    }
  }

  ghost predicate KnownBatch(batch: MicroBatch, rollouts: seq<TrainingSample>) {
    exists n: nat :: AllTokensKnown(batch, n, rollouts)
  }

  lemma KnownBin(rollouts: seq<TrainingSample>, idxs: seq<nat>, seqLen: nat, loras: nat, multiple: nat,
                 batch: MicroBatch)
    requires PreparedSamples(rollouts, idxs, seqLen).Some? && multiple >= 1 && loras >= 1
    requires var samples := SortSamples(PreparedSamples(rollouts, idxs, seqLen).value);
      Adapters(samples, loras) && batch in BatchBins(samples, seqLen, loras, multiple)
    ensures KnownBatch(batch, rollouts)
  {
    var samples := SortSamples(PreparedSamples(rollouts, idxs, seqLen).value);
    var bins := BatchBins(samples, seqLen, loras, multiple);
    var b :| 0 <= b < |bins| && bins[b] == batch;
    BinTokensKnown(rollouts, idxs, seqLen, loras, multiple, b);
  }
}
