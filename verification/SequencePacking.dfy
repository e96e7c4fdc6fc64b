/**
 From training samples to micro batches: truncation, first-fit-decreasing packing, padding and the
 grid of micro batches over data-parallel workers. A missing reward or advantage is None.
 */
module SequencePacking {
  import opened Wrappers
  import opened Modulo

  datatype TrainingSample = TrainingSample(
    promptIds: seq<int>,
    promptMask: seq<bool>,
    completionIds: seq<int>,
    completionMask: seq<bool>,
    completionLogprobs: seq<real>,
    completionTemperatures: seq<real>,
    envName: string,
    teacherLogprobs: Option<seq<real>>,
    advantage: Option<real>,
    reward: Option<real>,
    multimodal: bool,
    tokenTypes: Option<seq<int>>,
    mode: string)

  datatype MicroBatch = MicroBatch(
    inputIds: seq<int>,
    lossMask: seq<bool>,
    advantages: seq<Option<real>>,
    logprobs: seq<real>,
    positionIds: seq<int>,
    temperatures: seq<real>,
    envNames: seq<string>,
    rewards: seq<Option<real>>,
    teacherLogprobs: Option<seq<real>>,
    tokenTypes: Option<seq<int>>,
    loraNumTokens: seq<nat>,
    multimodal: bool,
    mode: string)

  function Cut<T>(s: seq<T>, n: nat): seq<T> {
    if |s| > n then s[..n] else s
  }

  function CutOption<T>(s: Option<seq<T>>, n: nat): Option<seq<T>> {
    if s.Some? then Some(Cut(s.value, n)) else None
  }

  /* ---------- One sample ---------- */

  predicate SizeIs<T>(s: Option<seq<T>>, n: nat) {
    s.Some? ==> |s.value| == n
  }

  /** Every list that must have one value a token does. */
  predicate Aligned(b: MicroBatch) {
    var n := |b.inputIds|;
    && |b.lossMask| == n && |b.advantages| == n && |b.logprobs| == n && |b.positionIds| == n
    && |b.temperatures| == n && |b.envNames| == n && |b.rewards| == n
  }

  /** All lists, before any truncation. */
  function Untruncated(s: TrainingSample): MicroBatch {
    var ids := s.promptIds + s.completionIds;
    var promptTemp := if s.completionTemperatures != [] then s.completionTemperatures[0] else 1.0;
    MicroBatch(
      ids,
      s.promptMask + s.completionMask,
      Repeat(s.advantage, |ids|),
      Repeat(0.0, |s.promptIds|) + s.completionLogprobs,
      Range(|ids|),
      Repeat(promptTemp, |s.promptIds|) + s.completionTemperatures,
      Repeat(s.envName, |ids|),
      Repeat(s.reward, |ids|),
      s.teacherLogprobs, s.tokenTypes, [], s.multimodal, s.mode)
  }

  function Truncated(b: MicroBatch, seqLen: nat): MicroBatch {
    if |b.inputIds| <= seqLen then b
    else MicroBatch(
      Cut(b.inputIds, seqLen), Cut(b.lossMask, seqLen), Cut(b.advantages, seqLen), Cut(b.logprobs, seqLen),
      Cut(b.positionIds, seqLen), Cut(b.temperatures, seqLen), Cut(b.envNames, seqLen), Cut(b.rewards, seqLen),
      CutOption(b.teacherLogprobs, seqLen), CutOption(b.tokenTypes, seqLen), b.loraNumTokens, b.multimodal, b.mode)
  }

  /** None when the code's consistency assertions fail. */
  function PrepareSample(s: TrainingSample, seqLen: nat): Option<MicroBatch> {
    var b := Truncated(Untruncated(s), seqLen);
    var n := |b.inputIds|;
    if Aligned(b) && SizeIs(b.teacherLogprobs, n) && SizeIs(b.tokenTypes, n) then Some(b) else None
  }

  /* ---------- Packing ---------- */

  /** A prepared sample and the adapter it trains. */
  datatype Tagged = Tagged(idx: nat, sample: MicroBatch)

  function Size(t: Tagged): nat {
    |t.sample.inputIds|
  }

  /** x sorts strictly before y: by adapter, then longest first. */
  predicate Before(x: Tagged, y: Tagged) {
    x.idx < y.idx || (x.idx == y.idx && Size(x) > Size(y))
  }

  /** Puts x behind everything that does not sort after it. */
  function Insert(sorted: seq<Tagged>, x: Tagged): seq<Tagged> {
    if sorted == [] || !Before(x, sorted[|sorted| - 1]) then sorted + [x]
    else Insert(sorted[..|sorted| - 1], x) + [sorted[|sorted| - 1]]
  }

  /** The stable sort. */
  function SortSamples(samples: seq<Tagged>): seq<Tagged> {
    if samples == [] then [] else Insert(SortSamples(samples[..|samples| - 1]), samples[|samples| - 1])
  }

  predicate Fits(bin: MicroBatch, sample: MicroBatch, maxSeqLen: nat) {
    && !bin.multimodal
    && |bin.inputIds| + |sample.inputIds| <= maxSeqLen
    && bin.mode == sample.mode
  }

  /** The first bin from j on that fits, or the number of bins. */
  function FirstFit(bins: seq<MicroBatch>, sample: MicroBatch, maxSeqLen: nat, j: nat): (b: nat)
    requires j <= |bins|
    ensures j <= b <= |bins|
    ensures b < |bins| ==> Fits(bins[b], sample, maxSeqLen)
    ensures forall k :: j <= k < b ==> !Fits(bins[k], sample, maxSeqLen)
    decreases |bins| - j
  {
    if j == |bins| || Fits(bins[j], sample, maxSeqLen) then j else FirstFit(bins, sample, maxSeqLen, j + 1)
  }

  /** Multimodal samples always open a bin of their own. */
  function Chosen(bins: seq<MicroBatch>, sample: MicroBatch, maxSeqLen: nat): (b: nat)
    ensures b <= |bins|
  {
    if sample.multimodal then |bins| else FirstFit(bins, sample, maxSeqLen, 0)
  }

  function Opened(t: Tagged, numLoras: nat): MicroBatch
    requires t.idx < numLoras
  {
    t.sample.(loraNumTokens := Repeat<nat>(0, numLoras)[t.idx := Size(t)])
  }

  function JoinOption<T>(into: Option<seq<T>>, more: Option<seq<T>>): Option<seq<T>> {
    if more.None? then into else if into.None? then more else Some(into.value + more.value)
  }

  function Joined(bin: MicroBatch, t: Tagged): MicroBatch
    requires t.idx < |bin.loraNumTokens|
  {
    var s := t.sample;
    MicroBatch(
      bin.inputIds + s.inputIds, bin.lossMask + s.lossMask, bin.advantages + s.advantages, bin.logprobs + s.logprobs,
      bin.positionIds + s.positionIds, bin.temperatures + s.temperatures, bin.envNames + s.envNames,
      bin.rewards + s.rewards,
      JoinOption(bin.teacherLogprobs, s.teacherLogprobs), JoinOption(bin.tokenTypes, s.tokenTypes),
      bin.loraNumTokens[t.idx := bin.loraNumTokens[t.idx] + Size(t)],
      bin.multimodal, bin.mode)
  }

  predicate Bins(bins: seq<MicroBatch>, numLoras: nat) {
    forall b :: 0 <= b < |bins| ==> |bins[b].loraNumTokens| == numLoras
  }

  /** One sample placed. */
  function Place(bins: seq<MicroBatch>, t: Tagged, maxSeqLen: nat, numLoras: nat): (r: seq<MicroBatch>)
    requires t.idx < numLoras && Bins(bins, numLoras)
    ensures Bins(r, numLoras)
  {
    var b := Chosen(bins, t.sample, maxSeqLen);
    if b == |bins| then bins + [Opened(t, numLoras)] else bins[b := Joined(bins[b], t)]
  }

  predicate Adapters(samples: seq<Tagged>, numLoras: nat) {
    forall i :: 0 <= i < |samples| ==> samples[i].idx < numLoras
  }

  /** The bins after the first n samples. */
  function Pack(samples: seq<Tagged>, maxSeqLen: nat, numLoras: nat, n: nat): (bins: seq<MicroBatch>)
    requires n <= |samples| && Adapters(samples, numLoras)
    ensures Bins(bins, numLoras)
  {
    if n == 0 then [] else Place(Pack(samples, maxSeqLen, numLoras, n - 1), samples[n - 1], maxSeqLen, numLoras)
  }

  /* ---------- Padding and distribution ---------- */

  function PaddingSize(length: nat, multiple: nat): (p: nat)
    requires multiple >= 1
    ensures p < multiple
  {
    (multiple - length % multiple) % multiple
  }

  function AddToLast(counts: seq<nat>, n: nat): seq<nat>
    requires counts != []
  {
    counts[|counts| - 1 := counts[|counts| - 1] + n]
  }

  function Padded(b: MicroBatch, p: nat): MicroBatch
    requires b.loraNumTokens != []
  {
    MicroBatch(
      b.inputIds + Repeat(1, p), b.lossMask + Repeat(false, p), b.advantages + Repeat(Some(0.0), p),
      b.logprobs + Repeat(0.0, p), b.positionIds + Range(p), b.temperatures + Repeat(1.0, p),
      b.envNames + Repeat("", p), b.rewards + Repeat(None, p),
      if b.teacherLogprobs.Some? then Some(b.teacherLogprobs.value + Repeat(0.0, p)) else None,
      if b.tokenTypes.Some? then Some(b.tokenTypes.value + Repeat(0, p)) else None,
      AddToLast(b.loraNumTokens, p), b.multimodal, b.mode)
  }

  function PadMicroBatch(b: MicroBatch, multiple: nat): MicroBatch
    requires multiple >= 1 && b.loraNumTokens != []
  {
    var p := PaddingSize(|b.inputIds|, multiple);
    if p > 0 then Padded(b, p) else b
  }

  /** A batch of the same shape that trains nothing. */
  function Dummy(b: MicroBatch): MicroBatch {
    b.(advantages := Repeat(Some(0.0), |b.inputIds|), lossMask := Repeat(false, |b.inputIds|))
  }

  function NumDummies(size: int, workers: int): (n: nat)
    requires size >= 0 && workers >= 1
    ensures n < workers && (size + n) % workers == 0
  {
    NegativeRemainder(size, workers);
    (-size) % workers
  }

  function PadGroup(group: seq<MicroBatch>, workers: nat): seq<MicroBatch>
    requires workers >= 1
  {
    if group == [] then [] else group + Repeat(Dummy(group[0]), NumDummies(|group|, workers))
  }

  lemma PadGroupFillsRows(group: seq<MicroBatch>, workers: nat)
    requires workers >= 1
    ensures |PadGroup(group, workers)| % workers == 0
  {
    MultipleHasNoRemainder(0, workers);
  }

  function OfModality(bins: seq<MicroBatch>, multimodal: bool, n: nat): seq<MicroBatch>
    requires n <= |bins|
  {
    if n == 0 then []
    else if bins[n - 1].multimodal == multimodal then OfModality(bins, multimodal, n - 1) + [bins[n - 1]]
    else OfModality(bins, multimodal, n - 1)
  }

  /** Multimodal batches first, each group padded to whole rows. */
  function Ordered(bins: seq<MicroBatch>, workers: nat): seq<MicroBatch>
    requires workers >= 1
  {
    PadGroup(OfModality(bins, true, |bins|), workers) + PadGroup(OfModality(bins, false, |bins|), workers)
  }

  /* ---------- The code ---------- */

  method PackedSamplesIntoMicroBatches(unsorted: seq<Tagged>, maxSeqLen: nat, numLoras: nat)
    returns (microBatches: seq<MicroBatch>)
    requires Adapters(SortSamples(unsorted), numLoras)
    ensures microBatches == Pack(SortSamples(unsorted), maxSeqLen, numLoras, |SortSamples(unsorted)|)
  {
    var samples := SortSamples(unsorted);
    microBatches := [];
    for i := 0 to |samples|
      invariant microBatches == Pack(samples, maxSeqLen, numLoras, i)
    {
      var sample := samples[i].sample;
      if sample.multimodal {
        microBatches := microBatches + [Opened(samples[i], numLoras)];
      } else {
        var j := 0;
        while j < |microBatches| && !Fits(microBatches[j], sample, maxSeqLen)
          invariant j <= |microBatches|
          invariant FirstFit(microBatches, sample, maxSeqLen, 0) == FirstFit(microBatches, sample, maxSeqLen, j)
        {
          j := j + 1;
        }
        if j < |microBatches| {
          microBatches := microBatches[j := Joined(microBatches[j], samples[i])];
        } else {
          microBatches := microBatches + [Opened(samples[i], numLoras)];
        }
      }
    }
  }

  /** Batch i is row i / workers of worker i % workers; the grid holds the first n batches and nothing else. */
  ghost predicate Strided(ordered: seq<MicroBatch>, n: nat, grid: seq<seq<MicroBatch>>) {
    && |grid| >= 1 && n <= |ordered|
    && (forall w :: 0 <= w < |grid| ==> |grid[w]| == n / |grid| + (if w < n % |grid| then 1 else 0))
    && (forall i :: 0 <= i < n ==> i / |grid| < |grid[i % |grid|]| && grid[i % |grid|][i / |grid|] == ordered[i])
  }

  /** Tokens a mask trains. */
  function Trained(mask: seq<bool>): nat {
    if mask == [] then 0 else Trained(mask[..|mask| - 1]) + if mask[|mask| - 1] then 1 else 0
  }

  function TrainedIn(bins: seq<MicroBatch>, n: nat): nat
    requires n <= |bins|
  {
    if n == 0 then 0 else TrainedIn(bins, n - 1) + Trained(bins[n - 1].lossMask)
  }

  /** Tokens trained by the first w workers. */
  function TrainedByAll(grid: seq<seq<MicroBatch>>, w: nat): nat
    requires w <= |grid|
  {
    if w == 0 then 0 else TrainedByAll(grid, w - 1) + TrainedIn(grid[w - 1], |grid[w - 1]|)
  }

  /** The micro batches of all workers. */
  function Flat(grid: seq<seq<MicroBatch>>): seq<MicroBatch> {
    if grid == [] then [] else Flat(grid[..|grid| - 1]) + grid[|grid| - 1]
  }

  /** The grid deals out the first n batches: each at its place, each once, with all the tokens they train. */
  ghost predicate Dealt(ordered: seq<MicroBatch>, n: nat, grid: seq<seq<MicroBatch>>) {
    && Strided(ordered, n, grid)
    && multiset(Flat(grid)) == multiset(ordered[..n])
    && TrainedByAll(grid, |grid|) == TrainedIn(ordered, n)
  }

  method Distribute(ordered: seq<MicroBatch>, workers: nat) returns (grid: seq<seq<MicroBatch>>)
    requires workers >= 1 && |ordered| % workers == 0
    ensures |grid| == workers && Dealt(ordered, |ordered|, grid)
  {
    grid := Repeat([], workers);
    NothingDealt(grid);
    for i := 0 to |ordered|
      invariant |grid| == workers && Dealt(ordered, i, grid)
    {
      DealOne(ordered, i, grid);
      grid := grid[i % workers := grid[i % workers] + [ordered[i]]];
    }
  }

  lemma DealOne(ordered: seq<MicroBatch>, i: nat, grid: seq<seq<MicroBatch>>)
    requires i < |ordered| && |grid| >= 1 && Dealt(ordered, i, grid)
    ensures Dealt(ordered, i + 1, grid[i % |grid| := grid[i % |grid|] + [ordered[i]]])
  {
    StrideStep(ordered, i, grid);
    RowGrows(grid, i % |grid|, ordered[i], |grid|);
    FlatGrows(grid, i % |grid|, ordered[i]);
    PrefixGrows(ordered, i);
  }

  lemma PrefixGrows<T>(s: seq<T>, i: nat)
    requires i < |s|
    ensures multiset(s[..i + 1]) == multiset(s[..i]) + multiset{s[i]}
  {
    assert s[..i + 1] == s[..i] + [s[i]];
  }

  lemma {:induction false} FlatGrows(grid: seq<seq<MicroBatch>>, row: nat, batch: MicroBatch)
    requires row < |grid|
    ensures multiset(Flat(grid[row := grid[row] + [batch]])) == multiset(Flat(grid)) + multiset{batch}
  {
    var next, n := grid[row := grid[row] + [batch]], |grid| - 1;
    var front := grid[..n];
    if row < n {
      FlatGrows(front, row, batch);
      var grown := front[row := front[row] + [batch]];
      assert next[..n] == grown && next[n] == grid[n];
      OneMoreInFront(Flat(front), Flat(grown), grid[n], batch);
    } else {
      assert next[..n] == front;
      assert Flat(next) == Flat(front) + (grid[n] + [batch]) == Flat(grid) + [batch];
    }
  }

  lemma OneMoreInFront<T>(a: seq<T>, grown: seq<T>, b: seq<T>, x: T)
    requires multiset(grown) == multiset(a) + multiset{x}
    ensures multiset(grown + b) == multiset(a + b) + multiset{x}
  {
  }

  lemma {:induction false} NothingDealt(grid: seq<seq<MicroBatch>>)
    requires forall v :: 0 <= v < |grid| ==> grid[v] == []
    ensures TrainedByAll(grid, |grid|) == 0 && Flat(grid) == []
  {
    if grid != [] { NothingDealt(grid[..|grid| - 1]); }
    NothingTrained(grid, |grid|);
  }

  lemma {:induction false} NothingTrained(grid: seq<seq<MicroBatch>>, w: nat)
    requires w <= |grid| && forall v :: 0 <= v < |grid| ==> grid[v] == []
    ensures TrainedByAll(grid, w) == 0
  {
    if w > 0 { NothingTrained(grid, w - 1); }
  }

  lemma {:induction false} TrainedPrefix(a: seq<MicroBatch>, b: seq<MicroBatch>, n: nat)
    requires n <= |a| <= |b| && a == b[..|a|]
    ensures TrainedIn(a, n) == TrainedIn(b, n)
  {
    if n > 0 { TrainedPrefix(a, b, n - 1); }
  }

  lemma {:induction false} RowGrows(grid: seq<seq<MicroBatch>>, row: nat, batch: MicroBatch, w: nat)
    requires row < |grid| && w <= |grid|
    ensures TrainedByAll(grid[row := grid[row] + [batch]], w)
         == TrainedByAll(grid, w) + (if row < w then Trained(batch.lossMask) else 0)
  {
    if w > 0 {
      RowGrows(grid, row, batch, w - 1);
      if row == w - 1 {
        TrainedPrefix(grid[row], grid[row] + [batch], |grid[row]|);
      }
    }
  }

  lemma StrideStep(ordered: seq<MicroBatch>, i: nat, grid: seq<seq<MicroBatch>>)
    requires i < |ordered| && |grid| >= 1 && Strided(ordered, i, grid)
    ensures Strided(ordered, i + 1, grid[i % |grid| := grid[i % |grid|] + [ordered[i]]])
  {
    NextRemainder(i, |grid|);
  }

  /** The micro batches of sorted samples in the order they are dealt out. */
  function Layout(samples: seq<Tagged>, seqLen: nat, workers: nat, numLoras: nat, multiple: nat): seq<MicroBatch>
    requires workers >= 1 && multiple >= 1 && numLoras >= 1 && Adapters(samples, numLoras)
  {
    Ordered(PaddedBins(Pack(samples, seqLen, numLoras, |samples|), multiple, numLoras), workers)
  }

  /** The grid of a batch: its prepared samples sorted, laid out and dealt; None when a sample is inconsistent. */
  ghost predicate IsGridOf(grid: Option<seq<seq<MicroBatch>>>, rollouts: seq<TrainingSample>, seqLen: nat, workers: nat,
                           idxs: seq<nat>, numLoras: nat, multiple: nat)
    requires workers >= 1 && multiple >= 1 && numLoras >= 1
  {
    var prepared := PreparedSamples(rollouts, idxs, seqLen);
    && (grid.None? <==> prepared.None?)
    && (grid.Some? ==>
          var samples := SortSamples(prepared.value);
          && |grid.value| == workers && Adapters(samples, numLoras)
          && var layout := Layout(samples, seqLen, workers, numLoras, multiple);
          && Dealt(layout, |layout|, grid.value))
  }

  method PrepareBatch(rollouts: seq<TrainingSample>, seqLen: nat, workers: nat, idxs: seq<nat>, numLoras: nat,
                      multiple: nat)
    returns (grid: Option<seq<seq<MicroBatch>>>)
    requires workers >= 1 && multiple >= 1 && numLoras >= 1
    requires forall i :: 0 <= i < |idxs| ==> idxs[i] < numLoras
    ensures IsGridOf(grid, rollouts, seqLen, workers, idxs, numLoras, multiple)
  {
    var prepared := PreparedSamples(rollouts, idxs, seqLen);
    if prepared.None? {
      return None;
    }
    SortKeepsAdapters(prepared.value, numLoras);
    var microBatches := PackedSamplesIntoMicroBatches(prepared.value, seqLen, numLoras);
    var padded := PaddedBins(microBatches, multiple, numLoras);
    var ordered := Ordered(padded, workers);
    OrderedFillsRows(padded, workers);
    var g := Distribute(ordered, workers);
    grid := Some(g);
  }

  /** One prepared sample a rollout that has an adapter; None when one of them is inconsistent. */
  function PreparedSamples(rollouts: seq<TrainingSample>, idxs: seq<nat>, seqLen: nat): (r: Option<seq<Tagged>>)
    ensures r.Some? ==>
      && |r.value| == (if |rollouts| <= |idxs| then |rollouts| else |idxs|)
      && (forall i :: 0 <= i < |r.value| ==>
            r.value[i].idx == idxs[i] && PrepareSample(rollouts[i], seqLen) == Some(r.value[i].sample))
  {
    var n := if |rollouts| <= |idxs| then |rollouts| else |idxs|;
    if forall i :: 0 <= i < n ==> PrepareSample(rollouts[i], seqLen).Some? then
      Some(seq(n, i requires 0 <= i < n => Tagged(idxs[i], PrepareSample(rollouts[i], seqLen).value)))
    else None
  }

  function PaddedBins(bins: seq<MicroBatch>, multiple: nat, numLoras: nat): (r: seq<MicroBatch>)
    requires multiple >= 1 && numLoras >= 1 && Bins(bins, numLoras)
    ensures |r| == |bins| && forall b :: 0 <= b < |bins| ==> r[b] == PadMicroBatch(bins[b], multiple)
  {
    seq(|bins|, b requires 0 <= b < |bins| => PadMicroBatch(bins[b], multiple))
  }

  lemma {:induction false} InsertKeeps(sorted: seq<Tagged>, x: Tagged)
    ensures multiset(Insert(sorted, x)) == multiset(sorted) + multiset{x}
  {
    if sorted != [] && Before(x, sorted[|sorted| - 1]) {
      InsertKeeps(sorted[..|sorted| - 1], x);
      FrontAndLast(sorted);
    }
  }

  lemma FrontAndLast(samples: seq<Tagged>)
    requires samples != []
    ensures multiset(samples) == multiset(samples[..|samples| - 1]) + multiset{samples[|samples| - 1]}
  {
    assert samples == samples[..|samples| - 1] + [samples[|samples| - 1]];
  }

  /** Sorting only rearranges. */
  lemma {:induction false} SortKeeps(samples: seq<Tagged>)
    ensures multiset(SortSamples(samples)) == multiset(samples)
  {
    if samples != [] {
      var front, last := samples[..|samples| - 1], samples[|samples| - 1];
      SortKeeps(front);
      InsertKeeps(SortSamples(front), last);
      FrontAndLast(samples);
    }
  }

  lemma SortKeepsAdapters(samples: seq<Tagged>, numLoras: nat)
    requires Adapters(samples, numLoras)
    ensures Adapters(SortSamples(samples), numLoras)
  {
    SortKeeps(samples);
    forall i | 0 <= i < |SortSamples(samples)| ensures SortSamples(samples)[i].idx < numLoras {
      assert SortSamples(samples)[i] in multiset(samples);
    }
  }

  /** Each group fills whole rows, so the order does. */
  lemma OrderedFillsRows(bins: seq<MicroBatch>, workers: nat)
    requires workers >= 1
    ensures |Ordered(bins, workers)| % workers == 0
    ensures |PadGroup(OfModality(bins, true, |bins|), workers)| % workers == 0
  {
    var mm, text := OfModality(bins, true, |bins|), OfModality(bins, false, |bins|);
    PadGroupFillsRows(mm, workers);
    PadGroupFillsRows(text, workers);
    SumOfMultiples(|PadGroup(mm, workers)|, |PadGroup(text, workers)|, workers);
  }
}
