/** Packing keeps every sample whole, wastes little, and its grid trains exactly the samples' tokens. */
module PackingTheorems {
  import opened Wrappers
  import opened Modulo
  import opened SequencePacking

  /* ---------- Preparing ---------- */

  /** Every list of the source covers the whole sample. */
  predicate Consistent(s: TrainingSample) {
    && |s.promptMask| == |s.promptIds|
    && |s.completionMask| == |s.completionIds| == |s.completionLogprobs| == |s.completionTemperatures|
    && SizeIs(s.teacherLogprobs, |s.promptIds| + |s.completionIds|)
    && SizeIs(s.tokenTypes, |s.promptIds| + |s.completionIds|)
  }

  /** How long a list of n values is once the sample is cut. */
  function CutLength(s: TrainingSample, seqLen: nat, n: nat): nat {
    if |s.promptIds| + |s.completionIds| > seqLen && n > seqLen then seqLen else n
  }

  /** Some list does not have one value a token once it is cut. */
  predicate Misfit(s: TrainingSample, seqLen: nat) {
    var n := CutLength(s, seqLen, |s.promptIds| + |s.completionIds|);
    || CutLength(s, seqLen, |s.promptMask| + |s.completionMask|) != n
    || CutLength(s, seqLen, |s.promptIds| + |s.completionLogprobs|) != n
    || CutLength(s, seqLen, |s.promptIds| + |s.completionTemperatures|) != n
    || (s.teacherLogprobs.Some? && CutLength(s, seqLen, |s.teacherLogprobs.value|) != n)
    || (s.tokenTypes.Some? && CutLength(s, seqLen, |s.tokenTypes.value|) != n)
  }

  /** Token i of the prepared sample, in every list. */
  predicate PreparedToken(s: TrainingSample, b: MicroBatch, i: nat)
    requires Aligned(b) && i < |b.inputIds|
    requires |b.inputIds| <= |s.promptIds| + |s.completionIds| && |b.inputIds| <= |s.promptMask| + |s.completionMask|
    requires |b.inputIds| <= |s.promptIds| + |s.completionLogprobs|
    requires |b.inputIds| <= |s.promptIds| + |s.completionTemperatures|
  {
    var inPrompt := i < |s.promptIds|;
    && b.inputIds[i] == (s.promptIds + s.completionIds)[i]
    && b.lossMask[i] == (s.promptMask + s.completionMask)[i]
    && b.advantages[i] == s.advantage
    && b.rewards[i] == s.reward
    && b.envNames[i] == s.envName
    && b.positionIds[i] == i
    && b.logprobs[i] == (if inPrompt then 0.0 else s.completionLogprobs[i - |s.promptIds|])
    && b.temperatures[i] == if !inPrompt then s.completionTemperatures[i - |s.promptIds|]
                            else if s.completionTemperatures == [] then 1.0 else s.completionTemperatures[0]
  }

  /** The first seqLen tokens of the sample, with all that belongs to them. */
  predicate PreparedAs(s: TrainingSample, seqLen: nat, b: MicroBatch) {
    var n := CutLength(s, seqLen, |s.promptIds| + |s.completionIds|);
    && Aligned(b) && |b.inputIds| == n
    && n <= |s.promptMask| + |s.completionMask|
    && n <= |s.promptIds| + |s.completionLogprobs| && n <= |s.promptIds| + |s.completionTemperatures|
    && (forall i :: 0 <= i < n ==> PreparedToken(s, b, i))
    && (b.teacherLogprobs.Some? <==> s.teacherLogprobs.Some?)
    && (b.teacherLogprobs.Some? ==>
          |b.teacherLogprobs.value| == n && b.teacherLogprobs.value <= s.teacherLogprobs.value)
    && (b.tokenTypes.Some? <==> s.tokenTypes.Some?)
    && (b.tokenTypes.Some? ==> |b.tokenTypes.value| == n && b.tokenTypes.value <= s.tokenTypes.value)
    && b.mode == s.mode && b.multimodal == s.multimodal
  }

  /** Preparing fails exactly when a list does not fit the tokens; else it keeps the first ones and all their values. */
  lemma PrepareExactly(s: TrainingSample, seqLen: nat)
    ensures PrepareSample(s, seqLen).None? <==> Misfit(s, seqLen)
    ensures PrepareSample(s, seqLen).Some? ==> PreparedAs(s, seqLen, PrepareSample(s, seqLen).value)
  {
    PrepareFailsExactly(s, seqLen);
    if PrepareSample(s, seqLen).Some? {
      var b := PrepareSample(s, seqLen).value;
      forall i | 0 <= i < |b.inputIds| ensures PreparedToken(s, b, i) {
        PrepareKeepsToken(s, seqLen, i);
      }
    }
  }

  lemma PrepareFailsExactly(s: TrainingSample, seqLen: nat)
    ensures PrepareSample(s, seqLen).None? <==> Misfit(s, seqLen)
  {
  }

  lemma PrepareKeepsToken(s: TrainingSample, seqLen: nat, i: nat)
    requires PrepareSample(s, seqLen).Some? && i < |PrepareSample(s, seqLen).value.inputIds|
    ensures PreparedToken(s, PrepareSample(s, seqLen).value, i)
  {
  }

  /** A consistent sample is always prepared. */
  lemma PrepareKeepsPrefix(s: TrainingSample, seqLen: nat)
    requires Consistent(s)
    ensures PrepareSample(s, seqLen).Some? && PreparedAs(s, seqLen, PrepareSample(s, seqLen).value)
    ensures |PrepareSample(s, seqLen).value.inputIds| <= seqLen
  {
    PrepareExactly(s, seqLen);
  }

  /* ---------- Which bin ---------- */

  /** The bin each of the first n samples went to. */
  function Assign(samples: seq<Tagged>, max: nat, loras: nat, n: nat): (a: seq<nat>)
    requires n <= |samples| && Adapters(samples, loras)
    ensures |a| == n
  {
    if n == 0 then []
    else Assign(samples, max, loras, n - 1) + [Chosen(Pack(samples, max, loras, n - 1), samples[n - 1].sample, max)]
  }

  /** The parts assigned to bin b, one after the other. */
  function Gather<T>(parts: seq<seq<T>>, a: seq<nat>, b: nat): seq<T>
    requires |a| <= |parts|
  {
    if a == [] then []
    else
      var n := |a| - 1;
      if a[n] == b then Gather(parts, a[..n], b) + parts[n] else Gather(parts, a[..n], b)
  }

  lemma GatherNext<T>(parts: seq<seq<T>>, a: seq<nat>, c: nat, b: nat)
    requires |a| < |parts|
    ensures Gather(parts, a + [c], b) == if c == b then Gather(parts, a, b) + parts[|a|] else Gather(parts, a, b)
  {
    assert (a + [c])[..|a|] == a;
  }

  lemma {:induction false} GatherNothing<T>(parts: seq<seq<T>>, a: seq<nat>, b: nat)
    requires |a| <= |parts| && forall i :: 0 <= i < |a| ==> a[i] != b
    ensures Gather(parts, a, b) == []
  {
    if a != [] { GatherNothing(parts, a[..|a| - 1], b); }
  }

  /* Each list of every sample. */

  function InputIds(samples: seq<Tagged>): (r: seq<seq<int>>)
    ensures |r| == |samples| && forall i :: 0 <= i < |r| ==> r[i] == samples[i].sample.inputIds
  { seq(|samples|, i requires 0 <= i < |samples| => samples[i].sample.inputIds) }

  function LossMasks(samples: seq<Tagged>): (r: seq<seq<bool>>)
    ensures |r| == |samples| && forall i :: 0 <= i < |r| ==> r[i] == samples[i].sample.lossMask
  { seq(|samples|, i requires 0 <= i < |samples| => samples[i].sample.lossMask) }

  function Advantages(samples: seq<Tagged>): (r: seq<seq<Option<real>>>)
    ensures |r| == |samples| && forall i :: 0 <= i < |r| ==> r[i] == samples[i].sample.advantages
  { seq(|samples|, i requires 0 <= i < |samples| => samples[i].sample.advantages) }

  function Logprobs(samples: seq<Tagged>): (r: seq<seq<real>>)
    ensures |r| == |samples| && forall i :: 0 <= i < |r| ==> r[i] == samples[i].sample.logprobs
  { seq(|samples|, i requires 0 <= i < |samples| => samples[i].sample.logprobs) }

  function PositionIds(samples: seq<Tagged>): (r: seq<seq<int>>)
    ensures |r| == |samples| && forall i :: 0 <= i < |r| ==> r[i] == samples[i].sample.positionIds
  { seq(|samples|, i requires 0 <= i < |samples| => samples[i].sample.positionIds) }

  function Temperatures(samples: seq<Tagged>): (r: seq<seq<real>>)
    ensures |r| == |samples| && forall i :: 0 <= i < |r| ==> r[i] == samples[i].sample.temperatures
  { seq(|samples|, i requires 0 <= i < |samples| => samples[i].sample.temperatures) }

  function EnvNames(samples: seq<Tagged>): (r: seq<seq<string>>)
    ensures |r| == |samples| && forall i :: 0 <= i < |r| ==> r[i] == samples[i].sample.envNames
  { seq(|samples|, i requires 0 <= i < |samples| => samples[i].sample.envNames) }

  function Rewards(samples: seq<Tagged>): (r: seq<seq<Option<real>>>)
    ensures |r| == |samples| && forall i :: 0 <= i < |r| ==> r[i] == samples[i].sample.rewards
  { seq(|samples|, i requires 0 <= i < |samples| => samples[i].sample.rewards) }

  /** The samples' teacher logprobs, nothing for a sample without. */
  function TeacherLogprobs(samples: seq<Tagged>): (r: seq<seq<real>>)
    ensures |r| == |samples|
    ensures forall i :: 0 <= i < |r| ==>
      r[i] == if samples[i].sample.teacherLogprobs.Some? then samples[i].sample.teacherLogprobs.value else []
  {
    seq(|samples|, i requires 0 <= i < |samples| =>
      if samples[i].sample.teacherLogprobs.Some? then samples[i].sample.teacherLogprobs.value else [])
  }

  /** The samples' token types, nothing for a sample without. */
  function TokenTypes(samples: seq<Tagged>): (r: seq<seq<int>>)
    ensures |r| == |samples|
    ensures forall i :: 0 <= i < |r| ==>
      r[i] == if samples[i].sample.tokenTypes.Some? then samples[i].sample.tokenTypes.value else []
  {
    seq(|samples|, i requires 0 <= i < |samples| =>
      if samples[i].sample.tokenTypes.Some? then samples[i].sample.tokenTypes.value else [])
  }

  /** A bin is its samples, list by list. */
  ghost predicate IsGathered(bin: MicroBatch, samples: seq<Tagged>, a: seq<nat>, b: nat)
    requires |a| <= |samples|
  {
    && bin.inputIds == Gather(InputIds(samples), a, b)
    && bin.lossMask == Gather(LossMasks(samples), a, b)
    && bin.advantages == Gather(Advantages(samples), a, b)
    && bin.logprobs == Gather(Logprobs(samples), a, b)
    && bin.positionIds == Gather(PositionIds(samples), a, b)
    && bin.temperatures == Gather(Temperatures(samples), a, b)
    && bin.envNames == Gather(EnvNames(samples), a, b)
    && bin.rewards == Gather(Rewards(samples), a, b)
    && OptionalGathered(bin, samples, a, b)
  }

  /** The lists a sample may lack. */
  ghost predicate OptionalGathered(bin: MicroBatch, samples: seq<Tagged>, a: seq<nat>, b: nat)
    requires |a| <= |samples|
  {
    && (if bin.teacherLogprobs.Some? then bin.teacherLogprobs.value else []) == Gather(TeacherLogprobs(samples), a, b)
    && (if bin.tokenTypes.Some? then bin.tokenTypes.value else []) == Gather(TokenTypes(samples), a, b)
  }

  lemma GatherAllNext(bin: MicroBatch, samples: seq<Tagged>, a: seq<nat>, c: nat, b: nat)
    requires |a| < |samples| && IsGathered(bin, samples, a, b) && b != c
    ensures IsGathered(bin, samples, a + [c], b)
  {
    GatherNext(InputIds(samples), a, c, b);
    GatherNext(LossMasks(samples), a, c, b);
    GatherNext(Advantages(samples), a, c, b);
    GatherNext(Logprobs(samples), a, c, b);
    GatherNext(PositionIds(samples), a, c, b);
    GatherNext(Temperatures(samples), a, c, b);
    GatherNext(EnvNames(samples), a, c, b);
    GatherNext(Rewards(samples), a, c, b);
    GatherNext(TeacherLogprobs(samples), a, c, b);
    GatherNext(TokenTypes(samples), a, c, b);
  }

  lemma GatherJoined(bin: MicroBatch, samples: seq<Tagged>, a: seq<nat>, b: nat)
    requires |a| < |samples| && IsGathered(bin, samples, a, b) && samples[|a|].idx < |bin.loraNumTokens|
    ensures IsGathered(Joined(bin, samples[|a|]), samples, a + [b], b)
  {
    GatherNext(InputIds(samples), a, b, b);
    GatherNext(LossMasks(samples), a, b, b);
    GatherNext(Advantages(samples), a, b, b);
    GatherNext(Logprobs(samples), a, b, b);
    GatherNext(PositionIds(samples), a, b, b);
    GatherNext(Temperatures(samples), a, b, b);
    GatherNext(EnvNames(samples), a, b, b);
    GatherNext(Rewards(samples), a, b, b);
    OptionalJoined(bin, samples, a, b);
  }

  lemma OptionalJoined(bin: MicroBatch, samples: seq<Tagged>, a: seq<nat>, b: nat)
    requires |a| < |samples| && OptionalGathered(bin, samples, a, b) && samples[|a|].idx < |bin.loraNumTokens|
    ensures OptionalGathered(Joined(bin, samples[|a|]), samples, a + [b], b)
  {
    GatherNext(TeacherLogprobs(samples), a, b, b);
    GatherNext(TokenTypes(samples), a, b, b);
  }

  lemma GatherOpened(samples: seq<Tagged>, a: seq<nat>, b: nat, loras: nat)
    requires |a| < |samples| && samples[|a|].idx < loras && forall i :: 0 <= i < |a| ==> a[i] != b
    ensures IsGathered(Opened(samples[|a|], loras), samples, a + [b], b)
  {
    GatherNothing(InputIds(samples), a, b);
    GatherNothing(LossMasks(samples), a, b);
    GatherNothing(Advantages(samples), a, b);
    GatherNothing(Logprobs(samples), a, b);
    GatherNothing(PositionIds(samples), a, b);
    GatherNothing(Temperatures(samples), a, b);
    GatherNothing(EnvNames(samples), a, b);
    GatherNothing(Rewards(samples), a, b);
    GatherNothing(TeacherLogprobs(samples), a, b);
    GatherNothing(TokenTypes(samples), a, b);
    var none := Opened(samples[|a|], loras).(inputIds := [], lossMask := [], advantages := [], logprobs := [],
      positionIds := [], temperatures := [], envNames := [], rewards := [], teacherLogprobs := None, tokenTypes := None,
      loraNumTokens := Repeat<nat>(0, loras));
    assert IsGathered(none, samples, a, b);
    GatherJoined(none, samples, a, b);
  }

  /** Every sample of `a` is in exactly one bin, and each bin is its samples, whole and in order. */
  ghost predicate Conserved(bins: seq<MicroBatch>, samples: seq<Tagged>, a: seq<nat>)
    requires |a| <= |samples|
  {
    && (forall i :: 0 <= i < |a| ==> a[i] < |bins|)
    && (forall b :: 0 <= b < |bins| ==> IsGathered(bins[b], samples, a, b))
  }

  lemma {:induction false} PackingConserves(samples: seq<Tagged>, max: nat, loras: nat, n: nat)
    requires n <= |samples| && Adapters(samples, loras)
    ensures Conserved(Pack(samples, max, loras, n), samples, Assign(samples, max, loras, n))
  {
    if n > 0 {
      PackingConserves(samples, max, loras, n - 1);
      PlaceConserves(Pack(samples, max, loras, n - 1), samples, Assign(samples, max, loras, n - 1), max, loras);
      AssignNext(samples, max, loras, n);
    } else {
      assert Pack(samples, max, loras, 0) == [] && Assign(samples, max, loras, 0) == [];
    }
  }

  lemma AssignNext(samples: seq<Tagged>, max: nat, loras: nat, n: nat)
    requires 0 < n <= |samples| && Adapters(samples, loras)
    ensures var bins, a, t := Pack(samples, max, loras, n - 1), Assign(samples, max, loras, n - 1), samples[n - 1];
      && Pack(samples, max, loras, n) == Place(bins, t, max, loras)
      && Assign(samples, max, loras, n) == a + [Chosen(bins, t.sample, max)]
  {
  }

  lemma PlaceConserves(bins: seq<MicroBatch>, samples: seq<Tagged>, a: seq<nat>, max: nat, loras: nat)
    requires |a| < |samples| && samples[|a|].idx < loras && Bins(bins, loras)
    requires Conserved(bins, samples, a)
    ensures Conserved(Place(bins, samples[|a|], max, loras), samples, a + [Chosen(bins, samples[|a|].sample, max)])
  {
    var next, c := Place(bins, samples[|a|], max, loras), Chosen(bins, samples[|a|].sample, max);
    forall b | 0 <= b < |next| ensures IsGathered(next[b], samples, a + [c], b) {
      if b != c {
        assert next[b] == bins[b];
        GatherAllNext(bins[b], samples, a, c, b);
      } else if c < |bins| {
        assert next[c] == Joined(bins[c], samples[|a|]);
        GatherJoined(bins[c], samples, a, c);
      } else {
        assert next[c] == Opened(samples[|a|], loras);
        GatherOpened(samples, a, c, loras);
      }
    }
  }

  /** Samples share a bin only within one mode. */
  lemma {:induction false} BinsAreUniform(samples: seq<Tagged>, max: nat, loras: nat, n: nat, i: nat)
    requires i < n <= |samples| && Adapters(samples, loras)
    ensures var bins, b := Pack(samples, max, loras, n), Assign(samples, max, loras, n)[i];
      b < |bins| && bins[b].mode == samples[i].sample.mode && bins[b].multimodal == samples[i].sample.multimodal
  {
    if i < n - 1 {
      BinsAreUniform(samples, max, loras, n - 1, i);
    }
  }

  /** A multimodal sample shares its bin with nobody. */
  lemma {:induction false} MultimodalAlone(samples: seq<Tagged>, max: nat, loras: nat, n: nat, i: nat, j: nat)
    requires i < j < n <= |samples| && Adapters(samples, loras)
    requires Assign(samples, max, loras, n)[i] == Assign(samples, max, loras, n)[j]
    ensures !samples[i].sample.multimodal && !samples[j].sample.multimodal
  {
    if j < n - 1 {
      MultimodalAlone(samples, max, loras, n - 1, i, j);
    } else {
      BinsAreUniform(samples, max, loras, n - 1, i);
      SharedIsText(Pack(samples, max, loras, n - 1), samples[j].sample, max);
    }
  }

  lemma SharedIsText(bins: seq<MicroBatch>, sample: MicroBatch, max: nat)
    ensures var b := Chosen(bins, sample, max); b < |bins| ==> !sample.multimodal && !bins[b].multimodal
  {
  }

  /* ---------- Padding ---------- */

  /** Padding adds as many tokens as are missing to the next multiple, possibly none. */
  lemma PadIsPadded(b: MicroBatch, multiple: nat)
    requires multiple >= 1 && b.loraNumTokens != []
    ensures PadMicroBatch(b, multiple) == Padded(b, PaddingSize(|b.inputIds|, multiple))
  {
    NoPadding(b);
  }

  lemma NoPadding(b: MicroBatch)
    requires b.loraNumTokens != []
    ensures Padded(b, 0) == b
  {
    var p := Padded(b, 0);
    assert p.inputIds == b.inputIds && p.lossMask == b.lossMask && p.advantages == b.advantages;
    assert p.logprobs == b.logprobs && p.positionIds == b.positionIds && p.temperatures == b.temperatures;
    assert p.envNames == b.envNames && p.rewards == b.rewards && p.loraNumTokens == b.loraNumTokens;
    assert p.teacherLogprobs == b.teacherLogprobs by {
      if b.teacherLogprobs.Some? { assert b.teacherLogprobs.value + Repeat(0.0, 0) == b.teacherLogprobs.value; }
    }
    assert p.tokenTypes == b.tokenTypes by {
      if b.tokenTypes.Some? { assert b.tokenTypes.value + Repeat(0, 0) == b.tokenTypes.value; }
    }
  }

  /* ---------- How full ---------- */

  predicate AllFit(bins: seq<MicroBatch>, max: nat) {
    forall b :: 0 <= b < |bins| ==> |bins[b].inputIds| <= max
  }

  lemma PlaceFits(bins: seq<MicroBatch>, t: Tagged, max: nat, loras: nat)
    requires t.idx < loras && Bins(bins, loras) && AllFit(bins, max) && Size(t) <= max
    ensures AllFit(Place(bins, t, max, loras), max)
  {
  }

  /** No bin exceeds the capacity, given that no sample does. */
  lemma {:induction false} BinsFit(samples: seq<Tagged>, max: nat, loras: nat, n: nat)
    requires n <= |samples| && Adapters(samples, loras)
    requires forall i :: 0 <= i < |samples| ==> Size(samples[i]) <= max
    ensures AllFit(Pack(samples, max, loras, n), max)
  {
    if n > 0 {
      BinsFit(samples, max, loras, n - 1);
      PlaceFits(Pack(samples, max, loras, n - 1), samples[n - 1], max, loras);
    }
  }

  predicate SameKind(b: MicroBatch, mode: string) {
    !b.multimodal && b.mode == mode
  }

  /** Any two text bins of one mode are too full to be one. */
  predicate Apart(bins: seq<MicroBatch>, max: nat) {
    forall b, c :: 0 <= b < c < |bins| && !bins[b].multimodal && !bins[c].multimodal && bins[b].mode == bins[c].mode ==>
      |bins[b].inputIds| + |bins[c].inputIds| > max
  }

  lemma PlaceKeepsApart(bins: seq<MicroBatch>, t: Tagged, max: nat, loras: nat)
    requires t.idx < loras && Bins(bins, loras) && Apart(bins, max)
    ensures Apart(Place(bins, t, max, loras), max)
  {
    var next := Place(bins, t, max, loras);
    forall b, c | 0 <= b < c < |next| && !next[b].multimodal && !next[c].multimodal && next[b].mode == next[c].mode
      ensures |next[b].inputIds| + |next[c].inputIds| > max
    {
      if c < |bins| {
        assert |bins[b].inputIds| + |bins[c].inputIds| > max;
      } else {
        assert !Fits(bins[b], t.sample, max);
      }
    }
  }

  lemma {:induction false} BinsCannotMerge(samples: seq<Tagged>, max: nat, loras: nat, n: nat)
    requires n <= |samples| && Adapters(samples, loras)
    ensures Apart(Pack(samples, max, loras, n), max)
  {
    if n > 0 {
      BinsCannotMerge(samples, max, loras, n - 1);
      PlaceKeepsApart(Pack(samples, max, loras, n - 1), samples[n - 1], max, loras);
    }
  }

  /** Lengths of the text bins of one mode. */
  function Loads(bins: seq<MicroBatch>, mode: string, n: nat): seq<nat>
    requires n <= |bins|
  {
    if n == 0 then []
    else if SameKind(bins[n - 1], mode) then Loads(bins, mode, n - 1) + [|bins[n - 1].inputIds|]
    else Loads(bins, mode, n - 1)
  }

  function Sum(xs: seq<nat>): nat {
    if xs == [] then 0 else Sum(xs[..|xs| - 1]) + xs[|xs| - 1]
  }

  lemma SumNext(xs: seq<nat>, x: nat)
    ensures Sum(xs + [x]) == Sum(xs) + x
  {
    assert (xs + [x])[..|xs|] == xs;
  }

  /** Tokens of the text samples of one mode. */
  function Tokens(samples: seq<Tagged>, mode: string, n: nat): nat
    requires n <= |samples|
  {
    if n == 0 then 0
    else Tokens(samples, mode, n - 1) + if SameKind(samples[n - 1].sample, mode) then Size(samples[n - 1]) else 0
  }

  lemma {:induction false} LoadsAfterJoin(bins: seq<MicroBatch>, bin: MicroBatch, c: nat, mode: string, n: nat)
    requires n <= |bins| && c < |bins| && bin.mode == bins[c].mode && bin.multimodal == bins[c].multimodal
    requires |bin.inputIds| >= |bins[c].inputIds|
    ensures Sum(Loads(bins[c := bin], mode, n)) ==
      Sum(Loads(bins, mode, n)) + (if c < n && SameKind(bins[c], mode) then |bin.inputIds| - |bins[c].inputIds| else 0)
  {
    if n > 0 {
      LoadsAfterJoin(bins, bin, c, mode, n - 1);
      var next := bins[c := bin];
      assert SameKind(next[n - 1], mode) == SameKind(bins[n - 1], mode);
      SumNext(Loads(bins, mode, n - 1), |bins[n - 1].inputIds|);
      SumNext(Loads(next, mode, n - 1), |next[n - 1].inputIds|);
    }
  }

  lemma {:induction false} LoadsPrefix(bins: seq<MicroBatch>, bin: MicroBatch, mode: string, n: nat)
    requires n <= |bins|
    ensures Loads(bins + [bin], mode, n) == Loads(bins, mode, n)
  {
    if n > 0 { LoadsPrefix(bins, bin, mode, n - 1); }
  }

  lemma PlaceAddsLoad(bins: seq<MicroBatch>, t: Tagged, max: nat, loras: nat, mode: string)
    requires t.idx < loras && Bins(bins, loras)
    ensures var next := Place(bins, t, max, loras);
      Sum(Loads(next, mode, |next|)) ==
        Sum(Loads(bins, mode, |bins|)) + (if SameKind(t.sample, mode) then Size(t) else 0)
  {
    var c := Chosen(bins, t.sample, max);
    if c < |bins| {
      LoadsAfterJoin(bins, Joined(bins[c], t), c, mode, |bins|);
    } else {
      var next := bins + [Opened(t, loras)];
      LoadsPrefix(bins, Opened(t, loras), mode, |bins|);
      assert Place(bins, t, max, loras) == next && next[|bins|] == Opened(t, loras);
      SumNext(Loads(bins, mode, |bins|), Size(t));
    }
  }

  /** No token of a mode is lost or added. */
  lemma {:induction false} LoadsAreTokens(samples: seq<Tagged>, max: nat, loras: nat, mode: string, n: nat)
    requires n <= |samples| && Adapters(samples, loras)
    ensures var bins := Pack(samples, max, loras, n); Sum(Loads(bins, mode, |bins|)) == Tokens(samples, mode, n)
  {
    if n > 0 {
      LoadsAreTokens(samples, max, loras, mode, n - 1);
      PlaceAddsLoad(Pack(samples, max, loras, n - 1), samples[n - 1], max, loras, mode);
    }
  }

  predicate PairsOver(loads: seq<nat>, max: nat) {
    forall x, y :: 0 <= x < y < |loads| ==> loads[x] + loads[y] > max
  }

  /** Each load is that of a bin. */
  predicate LoadsOf(loads: seq<nat>, bins: seq<MicroBatch>, mode: string, n: nat)
    requires n <= |bins|
  {
    forall x :: 0 <= x < |loads| ==> IsLoad(loads[x], bins, mode, n)
  }

  predicate IsLoad(load: nat, bins: seq<MicroBatch>, mode: string, n: nat)
    requires n <= |bins|
  {
    exists b :: 0 <= b < n && SameKind(bins[b], mode) && |bins[b].inputIds| == load
  }

  lemma LoadedBin(load: nat, bins: seq<MicroBatch>, mode: string, n: nat) returns (b: nat)
    requires n <= |bins| && IsLoad(load, bins, mode, n)
    ensures b < n && SameKind(bins[b], mode) && |bins[b].inputIds| == load
  {
    b :| 0 <= b < n && SameKind(bins[b], mode) && |bins[b].inputIds| == load;
  }

  lemma {:induction false} LoadsCannotMerge(bins: seq<MicroBatch>, mode: string, max: nat, n: nat)
    requires n <= |bins| && Apart(bins, max)
    ensures LoadsOf(Loads(bins, mode, n), bins, mode, n) && PairsOver(Loads(bins, mode, n), max)
  {
    if n > 0 {
      LoadsCannotMerge(bins, mode, max, n - 1);
      OneLoadMore(bins, mode, max, n, Loads(bins, mode, n - 1));
    }
  }

  lemma OneLoadMore(bins: seq<MicroBatch>, mode: string, max: nat, n: nat, before: seq<nat>)
    requires 0 < n <= |bins| && Apart(bins, max)
    requires LoadsOf(before, bins, mode, n - 1) && PairsOver(before, max)
    ensures LoadsOf(before, bins, mode, n)
    ensures SameKind(bins[n - 1], mode) ==>
      var loads := before + [|bins[n - 1].inputIds|]; LoadsOf(loads, bins, mode, n) && PairsOver(loads, max)
  {
    var loads := before + [|bins[n - 1].inputIds|];
    forall x | 0 <= x < |before| && SameKind(bins[n - 1], mode) ensures before[x] + |bins[n - 1].inputIds| > max {
      assert IsLoad(before[x], bins, mode, n - 1);
      var b := LoadedBin(before[x], bins, mode, n - 1);
    }
    forall x | 0 <= x < |before| ensures IsLoad(before[x], bins, mode, n) {
      assert IsLoad(before[x], bins, mode, n - 1);
      var b := LoadedBin(before[x], bins, mode, n - 1);
    }
    if SameKind(bins[n - 1], mode) {
      assert IsLoad(|bins[n - 1].inputIds|, bins, mode, n);
    }
  }

  /** Loads that pairwise exceed the capacity exceed it half as often as there are loads. */
  lemma {:induction false} PairsExceed(loads: seq<nat>, max: nat)
    requires PairsOver(loads, max)
    ensures Sum(loads) >= |loads| / 2 * (max + 1)
    decreases |loads|
  {
    if |loads| >= 2 {
      var n := |loads|;
      var rest := loads[..n - 2];
      PairsExceed(rest, max);
      assert loads[..n - 1] == rest + [loads[n - 2]];
      SumNext(rest, loads[n - 2]);
      OneMore(n / 2 - 1, max + 1);
    }
  }

  /* ---------- Against any other packing ---------- */

  /** What another packing puts into bin b of the first n samples. */
  function OtherLoad(samples: seq<Tagged>, mode: string, other: seq<nat>, b: nat, n: nat): nat
    requires n <= |samples| == |other|
  {
    if n == 0 then 0
    else
      var last := if SameKind(samples[n - 1].sample, mode) && other[n - 1] == b then Size(samples[n - 1]) else 0;
      OtherLoad(samples, mode, other, b, n - 1) + last
  }

  function OtherTotal(samples: seq<Tagged>, mode: string, other: seq<nat>, m: nat, n: nat): nat
    requires n <= |samples| == |other|
  {
    if m == 0 then 0 else OtherTotal(samples, mode, other, m - 1, n) + OtherLoad(samples, mode, other, m - 1, n)
  }

  lemma {:induction false} OtherTotalNext(samples: seq<Tagged>, mode: string, other: seq<nat>, m: nat, n: nat)
    requires 0 < n <= |samples| == |other|
    ensures OtherTotal(samples, mode, other, m, n) == OtherTotal(samples, mode, other, m, n - 1) +
      if SameKind(samples[n - 1].sample, mode) && other[n - 1] < m then Size(samples[n - 1]) else 0
  {
    if m > 0 { OtherTotalNext(samples, mode, other, m - 1, n); }
  }

  lemma {:induction false} OtherTotalIsTokens(samples: seq<Tagged>, mode: string, other: seq<nat>, m: nat, n: nat)
    requires n <= |samples| == |other|
    requires forall i :: 0 <= i < |samples| && SameKind(samples[i].sample, mode) ==> other[i] < m
    ensures OtherTotal(samples, mode, other, m, n) == Tokens(samples, mode, n)
  {
    if n > 0 {
      OtherTotalIsTokens(samples, mode, other, m, n - 1);
      OtherTotalNext(samples, mode, other, m, n);
    } else {
      NothingYet(samples, mode, other, m);
    }
  }

  lemma {:induction false} NothingYet(samples: seq<Tagged>, mode: string, other: seq<nat>, m: nat)
    requires |samples| == |other|
    ensures OtherTotal(samples, mode, other, m, 0) == 0
  {
    if m > 0 { NothingYet(samples, mode, other, m - 1); }
  }

  lemma {:induction false} OtherTotalBound(samples: seq<Tagged>, mode: string, other: seq<nat>, max: nat, m: nat)
    requires |samples| == |other|
    requires forall b :: 0 <= b < m ==> OtherLoad(samples, mode, other, b, |samples|) <= max
    ensures OtherTotal(samples, mode, other, m, |samples|) <= m * max
  {
    if m > 0 {
      OtherTotalBound(samples, mode, other, max, m - 1);
      OneMore(m - 1, max);
    }
  }

  /** `other` packs the text samples of the mode into m bins of the same capacity. */
  ghost predicate IsPacking(samples: seq<Tagged>, mode: string, max: nat, other: seq<nat>, m: nat) {
    && |other| == |samples|
    && (forall i :: 0 <= i < |samples| && SameKind(samples[i].sample, mode) ==> other[i] < m)
    && (forall b :: 0 <= b < m ==> OtherLoad(samples, mode, other, b, |samples|) <= max)
  }

  lemma CountBound(half: nat, m: nat, max: nat, total: nat)
    requires half * (max + 1) <= total <= m * max && m >= 1
    ensures half < m || half == 0
  {
    OneMoreRight(half, max);
    if half >= m {
      Monotone(m, half, max);
    }
  }

  lemma OneMoreRight(half: nat, max: nat)
    ensures half * (max + 1) == half * max + half
  {
  }

  lemma Monotone(m: nat, k: nat, x: nat)
    requires m <= k
    ensures m * x <= k * x
  {
  }

  /** Packing needs fewer than twice the bins of any other packing. */
  lemma FewBins(samples: seq<Tagged>, max: nat, loras: nat, mode: string, other: seq<nat>, m: nat)
    requires Adapters(samples, loras) && m >= 1 && IsPacking(samples, mode, max, other, m)
    ensures var bins := Pack(samples, max, loras, |samples|); |Loads(bins, mode, |bins|)| <= 2 * m - 1
  {
    var bins := Pack(samples, max, loras, |samples|);
    var loads := Loads(bins, mode, |bins|);
    BinsCannotMerge(samples, max, loras, |samples|);
    LoadsCannotMerge(bins, mode, max, |bins|);
    PairsExceed(loads, max);
    LoadsAreTokens(samples, max, loras, mode, |samples|);
    OtherTotalIsTokens(samples, mode, other, m, |samples|);
    OtherTotalBound(samples, mode, other, max, m);
    CountBound(|loads| / 2, m, max, Sum(loads));
  }
}
