/** What the grid of micro batches says about the rollouts it was made of. */
module PackedGrid {
  import opened Wrappers
  import opened Modulo
  import opened SequencePacking
  import opened PackingTheorems
  import opened PackedTokens
  import opened Segments
  import opened SequenceBoundaries
  import opened PackedBoundaries

  /* ---------- Trained tokens ---------- */

  lemma {:induction false} TrainedFront(a: seq<Tagged>, b: seq<Tagged>, n: nat)
    requires n <= |a| <= |b| && a == b[..|a|]
    ensures TrainedBySamples(a, n) == TrainedBySamples(b, n)
  {
    if n > 0 { TrainedFront(a, b, n - 1); }
  }

  lemma TrainedOneMore(a: seq<Tagged>, x: Tagged)
    ensures TrainedBySamples(a + [x], |a| + 1) == TrainedBySamples(a, |a|) + Trained(x.sample.lossMask)
  {
    TrainedFront(a, a + [x], |a|);
  }

  lemma {:induction false} InsertTrains(sorted: seq<Tagged>, x: Tagged)
    ensures var r := Insert(sorted, x);
      TrainedBySamples(r, |r|) == TrainedBySamples(sorted, |sorted|) + Trained(x.sample.lossMask)
  {
    if sorted != [] && Before(x, sorted[|sorted| - 1]) {
      var front, last := sorted[..|sorted| - 1], sorted[|sorted| - 1];
      InsertTrains(front, x);
      TrainedOneMore(Insert(front, x), last);
      TrainedFront(front, sorted, |front|);
    } else {
      TrainedOneMore(sorted, x);
    }
  }

  /** The order of the samples does not matter to what they train. */
  lemma {:induction false} SortTrains(samples: seq<Tagged>)
    ensures TrainedBySamples(SortSamples(samples), |SortSamples(samples)|) == TrainedBySamples(samples, |samples|)
  {
    if samples != [] {
      var front, last := samples[..|samples| - 1], samples[|samples| - 1];
      SortTrains(front);
      InsertTrains(SortSamples(front), last);
      TrainedFront(front, samples, |front|);
    }
  }

  /** Tokens the first n rollouts train within their first seqLen tokens. */
  function TrainedByRollouts(rollouts: seq<TrainingSample>, seqLen: nat, n: nat): nat
    requires n <= |rollouts|
  {
    if n == 0 then 0
    else
      var last := rollouts[n - 1];
      TrainedByRollouts(rollouts, seqLen, n - 1) + Trained(Cut(last.promptMask + last.completionMask, seqLen))
  }

  lemma PreparedMask(s: TrainingSample, seqLen: nat)
    requires PrepareSample(s, seqLen).Some?
    ensures PrepareSample(s, seqLen).value.lossMask == Cut(s.promptMask + s.completionMask, seqLen)
  {
  }

  /** Sample i carries the mask of rollout i. */
  predicate MasksOf(samples: seq<Tagged>, rollouts: seq<TrainingSample>, seqLen: nat) {
    |samples| <= |rollouts| && forall i :: 0 <= i < |samples| ==>
      samples[i].sample.lossMask == Cut(rollouts[i].promptMask + rollouts[i].completionMask, seqLen)
  }

  lemma PreparedMasks(rollouts: seq<TrainingSample>, idxs: seq<nat>, seqLen: nat)
    requires PreparedSamples(rollouts, idxs, seqLen).Some?
    ensures MasksOf(PreparedSamples(rollouts, idxs, seqLen).value, rollouts, seqLen)
  {
    var samples := PreparedSamples(rollouts, idxs, seqLen).value;
    forall i | 0 <= i < |samples|
      ensures samples[i].sample.lossMask == Cut(rollouts[i].promptMask + rollouts[i].completionMask, seqLen)
    {
      PreparedMask(rollouts[i], seqLen);
    }
  }

  lemma {:induction false} PreparedTrains(samples: seq<Tagged>, rollouts: seq<TrainingSample>, seqLen: nat, n: nat)
    requires MasksOf(samples, rollouts, seqLen) && n <= |samples|
    ensures TrainedBySamples(samples, n) == TrainedByRollouts(rollouts, seqLen, n)
  {
    if n > 0 { PreparedTrains(samples, rollouts, seqLen, n - 1); }
  }

  /* ---------- Rows ---------- */

  /** All workers go through the same number of rows, and within a row all meet the same modality. */
  predicate RowsMatch(grid: seq<seq<MicroBatch>>) {
    forall w, v :: 0 <= w < |grid| && 0 <= v < |grid| ==> SameModalities(grid[w], grid[v])
  }

  predicate SameModalities(x: seq<MicroBatch>, y: seq<MicroBatch>) {
    |x| == |y| && forall i :: 0 <= i < |x| ==> x[i].multimodal == y[i].multimodal
  }

  lemma ModalityAt(ordered: seq<MicroBatch>, mmCount: nat, grid: seq<seq<MicroBatch>>, w: nat, row: nat)
    requires Strided(ordered, |ordered|, grid) && ByModality(ordered, mmCount)
    requires |ordered| % |grid| == 0 && mmCount % |grid| == 0
    requires w < |grid| && row < |ordered| / |grid|
    ensures |grid[w]| == |ordered| / |grid| && (grid[w][row].multimodal <==> row < mmCount / |grid|)
  {
    var d := |grid|;
    var i := row * d + w;
    UniqueRemainder(i, d, row, w);
    RowBelow(i, |ordered| / d, d);
    GridRows(ordered, mmCount, grid);
  }

  lemma GridRowsMatch(ordered: seq<MicroBatch>, mmCount: nat, grid: seq<seq<MicroBatch>>)
    requires Strided(ordered, |ordered|, grid) && ByModality(ordered, mmCount)
    requires |ordered| % |grid| == 0 && mmCount % |grid| == 0
    ensures RowsMatch(grid)
  {
    GridRows(ordered, mmCount, grid);
    forall w, v | 0 <= w < |grid| && 0 <= v < |grid| ensures SameModalities(grid[w], grid[v]) {
      forall i | 0 <= i < |grid[w]| ensures grid[w][i].multimodal == grid[v][i].multimodal {
        ModalityAt(ordered, mmCount, grid, w, i);
        ModalityAt(ordered, mmCount, grid, v, i);
      }
    }
  }

  /* ---------- End to end ---------- */

  /** The padded bins of a batch. */
  function BatchBins(samples: seq<Tagged>, seqLen: nat, loras: nat, multiple: nat): seq<MicroBatch>
    requires multiple >= 1 && loras >= 1 && Adapters(samples, loras)
  {
    PaddedBins(Pack(samples, seqLen, loras, |samples|), multiple, loras)
  }

  /**
   The grid that a batch ends in: workers march in step through rows of one modality; the real micro batches
   are there once each, and besides them only dummies that train nothing; every prepared rollout is whole in one
   of them; and the trained tokens are those of the rollouts within the sequence length, no more and no fewer.
   */
  lemma GridKeepsTheBatch(rollouts: seq<TrainingSample>, seqLen: nat, workers: nat, idxs: seq<nat>, loras: nat,
                          multiple: nat, grid: seq<seq<MicroBatch>>)
    requires workers >= 1 && multiple >= 1 && loras >= 1
    requires IsGridOf(Some(grid), rollouts, seqLen, workers, idxs, loras, multiple)
    ensures |grid| == workers && RowsMatch(grid)
    ensures var prepared := PreparedSamples(rollouts, idxs, seqLen).value;
      var samples := SortSamples(prepared);
      var bins := BatchBins(samples, seqLen, loras, multiple);
      && multiset(samples) == multiset(prepared)
      && Conserved(Pack(samples, seqLen, loras, |samples|), samples, Assign(samples, seqLen, loras, |samples|))
      && multiset(Flat(grid)) == multiset(bins) + multiset(Dummies(bins, workers))
      && TrainedIn(Dummies(bins, workers), |Dummies(bins, workers)|) == 0
    ensures TrainedByAll(grid, workers) ==
      TrainedByRollouts(rollouts, seqLen, if |rollouts| <= |idxs| then |rollouts| else |idxs|)
  {
    var prepared := PreparedSamples(rollouts, idxs, seqLen).value;
    var samples := SortSamples(prepared);
    var bins := BatchBins(samples, seqLen, loras, multiple);
    var layout := Ordered(bins, workers);
    assert layout == Layout(samples, seqLen, workers, loras, multiple) && layout[..|layout|] == layout;
    SortKeeps(prepared);
    PackingConserves(samples, seqLen, loras, |samples|);
    GridHoldsEachOnce(bins, workers);
    LayoutRows(bins, workers, grid);
    LayoutTrains(rollouts, seqLen, workers, idxs, loras, multiple);
  }

  lemma LayoutRows(bins: seq<MicroBatch>, workers: nat, grid: seq<seq<MicroBatch>>)
    requires workers >= 1 && |grid| == workers && Strided(Ordered(bins, workers), |Ordered(bins, workers)|, grid)
    ensures RowsMatch(grid)
  {
    OrderedByModality(bins, workers);
    OrderedFillsRows(bins, workers);
    GridRowsMatch(Ordered(bins, workers), |PadGroup(OfModality(bins, true, |bins|), workers)|, grid);
  }

  lemma LayoutTrains(rollouts: seq<TrainingSample>, seqLen: nat, workers: nat, idxs: seq<nat>, loras: nat,
                     multiple: nat)
    requires workers >= 1 && multiple >= 1 && loras >= 1 && PreparedSamples(rollouts, idxs, seqLen).Some?
    requires Adapters(SortSamples(PreparedSamples(rollouts, idxs, seqLen).value), loras)
    ensures var prepared := PreparedSamples(rollouts, idxs, seqLen).value;
      var layout := Layout(SortSamples(prepared), seqLen, workers, loras, multiple);
      TrainedIn(layout, |layout|) == TrainedByRollouts(rollouts, seqLen, |prepared|)
  {
    var prepared := PreparedSamples(rollouts, idxs, seqLen).value;
    GridTrainsTheSamples(SortSamples(prepared), seqLen, workers, loras, multiple);
    SortTrains(prepared);
    PreparedMasks(rollouts, idxs, seqLen);
    PreparedTrains(prepared, rollouts, seqLen, |prepared|);
  }

  /* ---------- Every micro batch of the grid ---------- */

  /** Samples as they come out of preparing. */
  ghost predicate AsPrepared(samples: seq<Tagged>, seqLen: nat) {
    forall t :: t in samples ==> OnePrepared(t.sample, seqLen)
  }

  predicate OnePrepared(b: MicroBatch, seqLen: nat) {
    Aligned(b) && |b.inputIds| <= seqLen && b.positionIds == Range(|b.inputIds|)
  }

  predicate HasTokens(s: TrainingSample) {
    |s.promptIds| + |s.completionIds| >= 1
  }

  lemma PreparedOne(s: TrainingSample, seqLen: nat)
    requires PrepareSample(s, seqLen).Some?
    ensures OnePrepared(PrepareSample(s, seqLen).value, seqLen)
    ensures seqLen >= 1 && HasTokens(s) ==> |PrepareSample(s, seqLen).value.inputIds| >= 1
  {
  }

  lemma PreparedAll(rollouts: seq<TrainingSample>, idxs: seq<nat>, seqLen: nat)
    requires PreparedSamples(rollouts, idxs, seqLen).Some?
    ensures AsPrepared(SortSamples(PreparedSamples(rollouts, idxs, seqLen).value), seqLen)
    ensures seqLen >= 1 && (forall i :: 0 <= i < |rollouts| ==> HasTokens(rollouts[i])) ==>
      Numbered(SortSamples(PreparedSamples(rollouts, idxs, seqLen).value))
  {
    var prepared := PreparedSamples(rollouts, idxs, seqLen).value;
    var sorted := SortSamples(prepared);
    forall t | t in sorted ensures OnePrepared(t.sample, seqLen) {
      var i := PreparedAt(prepared, t);
      PreparedOne(rollouts[i], seqLen);
    }
    forall k | 0 <= k < |sorted| && seqLen >= 1 && forall i :: 0 <= i < |rollouts| ==> HasTokens(rollouts[i])
      ensures Size(sorted[k]) >= 1
    {
      var i := PreparedAt(prepared, sorted[k]);
      PreparedOne(rollouts[i], seqLen);
    }
  }

  lemma PreparedAt(prepared: seq<Tagged>, t: Tagged) returns (i: nat)
    requires t in SortSamples(prepared)
    ensures i < |prepared| && prepared[i] == t
  {
    SortKeeps(prepared);
    assert t in multiset(prepared);
    i :| 0 <= i < |prepared| && prepared[i] == t;
  }

  /** A padded bin: its samples fit the sequence length, and its lists are one a token, up to a multiple. */
  predicate FitsAndFills(bin: MicroBatch, batch: MicroBatch, seqLen: nat, multiple: nat)
    requires multiple >= 1
  {
    |bin.inputIds| <= seqLen && Aligned(batch) && |batch.inputIds| % multiple == 0 && bin.inputIds <= batch.inputIds
  }

  /** Token p lies between l's prefix sums exactly when it is l's; padding is the last adapter's. */
  predicate Delimited(counts: seq<nat>, owners: seq<nat>, p: nat, l: nat)
    requires l < |counts|
  {
    (if p < |owners| then owners[p] else |counts| - 1) == l <==> SumTo(counts, l) <= p < SumTo(counts, l + 1)
  }

  /** The prefix sums delimit each adapter's tokens, padding with the last. */
  ghost predicate AdaptersFound(samples: seq<Tagged>, seqLen: nat, loras: nat, b: nat, batch: MicroBatch)
    requires Adapters(samples, loras) && |batch.loraNumTokens| == loras
  {
    var owners := Gather(PackedTokens.Owners(samples), Assign(samples, seqLen, loras, |samples|), b);
    forall p, l :: 0 <= p < |batch.inputIds| && 0 <= l < loras ==>
      Delimited(batch.loraNumTokens, owners, p, l)
  }

  /** The trainer reads the lengths of the samples and the padding back from the position ids. */
  ghost predicate BoundariesFound(samples: seq<Tagged>, seqLen: nat, loras: nat, b: nat, padding: nat,
                                  batch: MicroBatch)
    requires Adapters(samples, loras)
  {
    var lens := BinLengths(samples, seqLen, loras, b) + if padding > 0 then [padding] else [];
    && batch.positionIds != [] && lens != []
    && GetCuSeqlens(batch.positionIds) == Boundaries(Offsets(lens), MaxOf(lens))
    && (ResponseLengths(batch.positionIds) == lens <==> |lens| == 1 || forall i :: 0 <= i < |lens| ==> lens[i] >= 2)
  }

  /** What the trainer may rely on in bin b as it is dealt out. */
  ghost predicate KeepsPromises(samples: seq<Tagged>, seqLen: nat, loras: nat, multiple: nat, b: nat, batch: MicroBatch)
    requires Adapters(samples, loras) && multiple >= 1 && loras >= 1
  {
    && b < |Pack(samples, seqLen, loras, |samples|)|
    && var bin := Pack(samples, seqLen, loras, |samples|)[b];
    && batch == PadMicroBatch(bin, multiple) && |batch.loraNumTokens| == loras
    && FitsAndFills(bin, batch, seqLen, multiple)
    && AdaptersFound(samples, seqLen, loras, b, batch)
    && (Numbered(samples) ==>
          BoundariesFound(samples, seqLen, loras, b, PaddingSize(|bin.inputIds|, multiple), batch))
  }

  lemma BinKeepsPromises(samples: seq<Tagged>, seqLen: nat, loras: nat, multiple: nat, b: nat)
    requires Adapters(samples, loras) && multiple >= 1 && loras >= 1 && b < |Pack(samples, seqLen, loras, |samples|)|
    requires AsPrepared(samples, seqLen) && InOrder(samples)
    ensures KeepsPromises(samples, seqLen, loras, multiple, b,
                          PadMicroBatch(Pack(samples, seqLen, loras, |samples|)[b], multiple))
  {
    BinFitsAndFills(samples, seqLen, loras, multiple, b);
    BinAdaptersFound(samples, seqLen, loras, multiple, b);
    if Numbered(samples) {
      BinBoundariesFound(samples, seqLen, loras, multiple, b);
    }
  }

  lemma BinAdaptersFound(samples: seq<Tagged>, seqLen: nat, loras: nat, multiple: nat, b: nat)
    requires Adapters(samples, loras) && multiple >= 1 && loras >= 1 && b < |Pack(samples, seqLen, loras, |samples|)|
    requires InOrder(samples)
    ensures var batch := PadMicroBatch(Pack(samples, seqLen, loras, |samples|)[b], multiple);
      |batch.loraNumTokens| == loras && AdaptersFound(samples, seqLen, loras, b, batch)
  {
    var batch := PadMicroBatch(Pack(samples, seqLen, loras, |samples|)[b], multiple);
    var owners := Gather(PackedTokens.Owners(samples), Assign(samples, seqLen, loras, |samples|), b);
    forall p, l | 0 <= p < |batch.inputIds| && 0 <= l < loras
      ensures Delimited(batch.loraNumTokens, owners, p, l)
    {
      AdaptersDelimited(samples, seqLen, loras, b, multiple, p, l);
    }
  }

  lemma BinBoundariesFound(samples: seq<Tagged>, seqLen: nat, loras: nat, multiple: nat, b: nat)
    requires Adapters(samples, loras) && multiple >= 1 && loras >= 1 && b < |Pack(samples, seqLen, loras, |samples|)|
    requires Numbered(samples)
    ensures var bin := Pack(samples, seqLen, loras, |samples|)[b];
      BoundariesFound(samples, seqLen, loras, b, PaddingSize(|bin.inputIds|, multiple), PadMicroBatch(bin, multiple))
  {
    PackedBinBoundaries(samples, seqLen, loras, b, multiple);
  }

  lemma BinFitsAndFills(samples: seq<Tagged>, seqLen: nat, loras: nat, multiple: nat, b: nat)
    requires Adapters(samples, loras) && multiple >= 1 && loras >= 1 && b < |Pack(samples, seqLen, loras, |samples|)|
    requires AsPrepared(samples, seqLen)
    ensures var bin := Pack(samples, seqLen, loras, |samples|)[b];
      FitsAndFills(bin, PadMicroBatch(bin, multiple), seqLen, multiple)
  {
    forall i | 0 <= i < |samples| ensures Aligned(samples[i].sample) && Size(samples[i]) <= seqLen {
      assert samples[i] in samples;
    }
    BinsFit(samples, seqLen, loras, |samples|);
    BinsAligned(samples, seqLen, loras, |samples|);
    PaddingCompletes(Pack(samples, seqLen, loras, |samples|)[b], multiple);
  }

  lemma {:induction false} InFlat(grid: seq<seq<MicroBatch>>, w: nat, row: nat)
    requires w < |grid| && row < |grid[w]|
    ensures grid[w][row] in Flat(grid)
  {
    if w < |grid| - 1 {
      InFlat(grid[..|grid| - 1], w, row);
    }
  }

  lemma FromEither(batch: MicroBatch, flat: seq<MicroBatch>, a: seq<MicroBatch>, b: seq<MicroBatch>)
    requires batch in flat && multiset(flat) == multiset(a) + multiset(b)
    ensures batch in a || batch in b
  {
    assert batch in multiset(flat);
  }

  /** Each micro batch that a worker gets is a dummy or a bin that keeps all promises made of bins. */
  lemma GridBatchKeepsPromises(rollouts: seq<TrainingSample>, seqLen: nat, workers: nat, idxs: seq<nat>, loras: nat,
                               multiple: nat, grid: seq<seq<MicroBatch>>, w: nat, row: nat)
    requires workers >= 1 && multiple >= 1 && loras >= 1
    requires IsGridOf(Some(grid), rollouts, seqLen, workers, idxs, loras, multiple)
    requires w < |grid| && row < |grid[w]|
    ensures var samples := SortSamples(PreparedSamples(rollouts, idxs, seqLen).value);
      || grid[w][row] in Dummies(BatchBins(samples, seqLen, loras, multiple), workers)
      || exists b: nat :: KeepsPromises(samples, seqLen, loras, multiple, b, grid[w][row])
    ensures seqLen >= 1 && (forall i :: 0 <= i < |rollouts| ==> HasTokens(rollouts[i])) ==>
      Numbered(SortSamples(PreparedSamples(rollouts, idxs, seqLen).value))
  {
    var prepared := PreparedSamples(rollouts, idxs, seqLen).value;
    var samples := SortSamples(prepared);
    var bins := BatchBins(samples, seqLen, loras, multiple);
    GridKeepsTheBatch(rollouts, seqLen, workers, idxs, loras, multiple, grid);
    InFlat(grid, w, row);
    FromEither(grid[w][row], Flat(grid), bins, Dummies(bins, workers));
    PreparedAll(rollouts, idxs, seqLen);
    SortSorts(prepared);
    if grid[w][row] in bins {
      var b := BatchOfBin(samples, seqLen, loras, multiple, grid[w][row]);
    }
  }

  lemma BatchOfBin(samples: seq<Tagged>, seqLen: nat, loras: nat, multiple: nat, batch: MicroBatch) returns (b: nat)
    requires Adapters(samples, loras) && multiple >= 1 && loras >= 1
    requires AsPrepared(samples, seqLen) && InOrder(samples)
    requires batch in BatchBins(samples, seqLen, loras, multiple)
    ensures KeepsPromises(samples, seqLen, loras, multiple, b, batch)
  {
    var bins := BatchBins(samples, seqLen, loras, multiple);
    b :| 0 <= b < |bins| && bins[b] == batch;
    BinKeepsPromises(samples, seqLen, loras, multiple, b);
  }
}
