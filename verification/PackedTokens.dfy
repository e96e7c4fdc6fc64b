/** What packed bins and the worker grid say about tokens: alignment, adapters, trained tokens. */
module PackedTokens {
  import opened Wrappers
  import opened Modulo
  import opened Segments
  import opened SequencePacking
  import opened PackingTheorems

  /* ---------- One value a token ---------- */

  predicate AllAligned(bins: seq<MicroBatch>) {
    forall b :: 0 <= b < |bins| ==> Aligned(bins[b])
  }

  lemma {:induction false} BinsAligned(samples: seq<Tagged>, max: nat, loras: nat, n: nat)
    requires n <= |samples| && Adapters(samples, loras)
    requires forall i :: 0 <= i < |samples| ==> Aligned(samples[i].sample)
    ensures AllAligned(Pack(samples, max, loras, n))
  {
    if n > 0 { BinsAligned(samples, max, loras, n - 1); }
  }

  /** Padding makes the length a multiple, keeps every list aligned and what was there in front. */
  lemma PaddingCompletes(b: MicroBatch, multiple: nat)
    requires multiple >= 1 && b.loraNumTokens != [] && Aligned(b)
    ensures var p := PadMicroBatch(b, multiple);
      && Aligned(p) && |p.inputIds| % multiple == 0 && |p.inputIds| < |b.inputIds| + multiple
      && b.inputIds <= p.inputIds && b.lossMask <= p.lossMask && b.positionIds <= p.positionIds
      && (forall i :: |b.inputIds| <= i < |p.inputIds| ==> !p.lossMask[i])
  {
    var n := |b.inputIds|;
    var q, r := n / multiple, n % multiple;
    if r == 0 {
      MultipleHasNoRemainder(1, multiple);
    } else {
      Rounded(n, multiple);
      UniqueRemainder(multiple - r, multiple, 0, multiple - r);
    }
  }

  lemma Rounded(n: nat, d: nat)
    requires d >= 1
    ensures (n + (d - n % d)) % d == 0
  {
    OneMore(n / d, d);
    MultipleHasNoRemainder(n / d + 1, d);
  }

  /** Teacher logprobs are whole wherever a sample has them. */
  ghost predicate TeachersWhole(samples: seq<Tagged>) {
    forall i :: 0 <= i < |samples| ==> SizeIs(samples[i].sample.teacherLogprobs, Size(samples[i]))
  }

  lemma {:induction false} TeachersCover(samples: seq<Tagged>, a: seq<nat>, b: nat)
    requires |a| <= |samples| && TeachersWhole(samples)
    ensures |Gather(TeacherLogprobs(samples), a, b)| <= |Gather(InputIds(samples), a, b)|
    ensures |Gather(TeacherLogprobs(samples), a, b)| == |Gather(InputIds(samples), a, b)| <==>
      forall i :: 0 <= i < |a| && a[i] == b && Size(samples[i]) > 0 ==> samples[i].sample.teacherLogprobs.Some?
  {
    if a != [] {
      TeachersCover(samples, a[..|a| - 1], b);
    }
  }

  /** No sample in the bin has teacher logprobs. */
  predicate Teacherless(samples: seq<Tagged>, a: seq<nat>, b: nat)
    requires |a| <= |samples|
  {
    forall i :: 0 <= i < |a| && a[i] == b ==> samples[i].sample.teacherLogprobs.None?
  }

  lemma TeacherlessNext(samples: seq<Tagged>, a: seq<nat>, c: nat, b: nat)
    requires |a| < |samples|
    ensures Teacherless(samples, a + [c], b) <==>
      Teacherless(samples, a, b) && (c == b ==> samples[|a|].sample.teacherLogprobs.None?)
  {
    var next := a + [c];
    assert next[..|a|] == a && next[|a|] == c;
    assert Teacherless(samples, next, b) ==> forall i :: 0 <= i < |a| ==> a[i] == next[i];
  }

  lemma {:induction false} TeacherlessExactlyWhen(samples: seq<Tagged>, max: nat, loras: nat, n: nat, b: nat)
    requires n <= |samples| && Adapters(samples, loras) && b < |Pack(samples, max, loras, n)|
    ensures Pack(samples, max, loras, n)[b].teacherLogprobs.None? <==>
            Teacherless(samples, Assign(samples, max, loras, n), b)
  {
    var bins, a := Pack(samples, max, loras, n - 1), Assign(samples, max, loras, n - 1);
    TeacherlessNext(samples, a, Chosen(bins, samples[n - 1].sample, max), b);
    if b < |bins| {
      TeacherlessExactlyWhen(samples, max, loras, n - 1, b);
    } else {
      AssignInRange(samples, max, loras, n - 1);
    }
  }

  /** A bin's teacher logprobs fit its tokens exactly when every sample in it with a token has them, or none has. */
  lemma TeacherAlignedExactlyWhen(samples: seq<Tagged>, max: nat, loras: nat, n: nat, b: nat)
    requires n <= |samples| && Adapters(samples, loras) && TeachersWhole(samples)
    requires b < |Pack(samples, max, loras, n)|
    ensures var bin, a := Pack(samples, max, loras, n)[b], Assign(samples, max, loras, n);
      SizeIs(bin.teacherLogprobs, |bin.inputIds|) <==>
      || (forall i :: 0 <= i < n && a[i] == b ==> samples[i].sample.teacherLogprobs.None?)
      || (forall i :: 0 <= i < n && a[i] == b && Size(samples[i]) > 0 ==> samples[i].sample.teacherLogprobs.Some?)
  {
    PackingConserves(samples, max, loras, n);
    var bin, a := Pack(samples, max, loras, n)[b], Assign(samples, max, loras, n);
    assert IsGathered(bin, samples, a, b);
    TeachersCover(samples, a, b);
    TeacherlessExactlyWhen(samples, max, loras, n, b);
  }

  function OneToken(teacher: Option<seq<real>>): MicroBatch {
    MicroBatch([7], [true], [None], [0.0], [0], [1.0], ["env"], [None], teacher, None, [], false, "rl")
  }

  /** A sample without teacher logprobs packed with one that has them shifts them onto the wrong token. */
  lemma TeacherMisaligned()
    ensures var samples := [Tagged(0, OneToken(None)), Tagged(0, OneToken(Some([0.5])))];
      var bins := Pack(samples, 2, 1, 2);
      |bins| == 1 && |bins[0].inputIds| == 2 && bins[0].teacherLogprobs == Some([0.5])
  {
    var samples := [Tagged(0, OneToken(None)), Tagged(0, OneToken(Some([0.5])))];
    assert Pack(samples, 2, 1, 0) == [];
    var first := Opened(samples[0], 1);
    assert Pack(samples, 2, 1, 1) == [first];
    assert Fits(first, samples[1].sample, 2);
    assert Pack(samples, 2, 1, 2) == [first][0 := Joined(first, samples[1])];
  }

  /* ---------- Adapters ---------- */

  lemma {:induction false} InsertSorts(sorted: seq<Tagged>, x: Tagged)
    requires InOrder(sorted)
    ensures InOrder(Insert(sorted, x))
    ensures forall y :: y in Insert(sorted, x) ==> y == x || y in sorted
  {
    if sorted != [] && Before(x, sorted[|sorted| - 1]) {
      var front, last := sorted[..|sorted| - 1], sorted[|sorted| - 1];
      InsertSorts(front, x);
      forall y | y in Insert(front, x) ensures !Before(last, y) {
        assert y in front ==> exists i :: 0 <= i < |front| && sorted[i] == y;
      }
      var r := Insert(front, x);
      forall i, j | 0 <= i < j < |r + [last]| ensures !Before((r + [last])[j], (r + [last])[i]) {
        assert r[i] in r;
      }
    } else if sorted != [] {
      var last := sorted[|sorted| - 1];
      forall i | 0 <= i < |sorted| ensures !Before(x, sorted[i]) {
        assert i == |sorted| - 1 || !Before(last, sorted[i]);
      }
    }
  }

  /** Adapters ascending, and the samples of one adapter from long to short. */
  predicate InOrder(samples: seq<Tagged>) {
    forall i, j :: 0 <= i < j < |samples| ==> !Before(samples[j], samples[i])
  }

  lemma {:induction false} SortSorts(samples: seq<Tagged>)
    ensures InOrder(SortSamples(samples))
  {
    if samples != [] {
      SortSorts(samples[..|samples| - 1]);
      InsertSorts(SortSamples(samples[..|samples| - 1]), samples[|samples| - 1]);
    }
  }

  /** The adapter of each token. */
  function Owners(samples: seq<Tagged>): (r: seq<seq<nat>>)
    ensures |r| == |samples| && forall i :: 0 <= i < |r| ==> r[i] == Repeat(samples[i].idx, Size(samples[i]))
  {
    seq(|samples|, i requires 0 <= i < |samples| => Repeat(samples[i].idx, Size(samples[i])))
  }

  lemma {:induction false} OwnersBelow(samples: seq<Tagged>, a: seq<nat>, b: nat, x: nat)
    requires |a| <= |samples| && forall i :: 0 <= i < |a| ==> samples[i].idx <= x
    ensures forall p :: 0 <= p < |Gather(Owners(samples), a, b)| ==> Gather(Owners(samples), a, b)[p] <= x
  {
    if a != [] { OwnersBelow(samples, a[..|a| - 1], b, x); }
  }

  predicate Below(a: seq<nat>, n: nat) {
    forall i :: 0 <= i < |a| ==> a[i] < n
  }

  lemma {:induction false} AssignInRange(samples: seq<Tagged>, max: nat, loras: nat, n: nat)
    requires n <= |samples| && Adapters(samples, loras)
    ensures Below(Assign(samples, max, loras, n), |Pack(samples, max, loras, n)|)
  {
    if n > 0 { AssignInRange(samples, max, loras, n - 1); }
  }

  /** Each bin counts the tokens of each adapter, and its tokens ascend by adapter. */
  lemma {:induction false} BinMatches(samples: seq<Tagged>, max: nat, loras: nat, n: nat, b: nat)
    requires n <= |samples| && Adapters(samples, loras) && InOrder(samples) && b < |Pack(samples, max, loras, n)|
    ensures CountsMatch(Pack(samples, max, loras, n)[b].loraNumTokens,
                        Gather(Owners(samples), Assign(samples, max, loras, n), b))
  {
    var bins, a := Pack(samples, max, loras, n - 1), Assign(samples, max, loras, n - 1);
    if b == |bins| {
      AssignInRange(samples, max, loras, n - 1);
    } else {
      BinMatches(samples, max, loras, n - 1, b);
    }
    PlacedBinMatches(bins, samples, a, max, loras, b);
  }

  lemma PlacedBinMatches(bins: seq<MicroBatch>, samples: seq<Tagged>, a: seq<nat>, max: nat, loras: nat, b: nat)
    requires |a| < |samples| && InOrder(samples) && samples[|a|].idx < loras && Bins(bins, loras)
    requires b < |Place(bins, samples[|a|], max, loras)|
    requires if b == |bins| then Below(a, b) else CountsMatch(bins[b].loraNumTokens, Gather(Owners(samples), a, b))
    ensures CountsMatch(Place(bins, samples[|a|], max, loras)[b].loraNumTokens,
                        Gather(Owners(samples), a + [Chosen(bins, samples[|a|].sample, max)], b))
  {
    var c := Chosen(bins, samples[|a|].sample, max);
    if b == |bins| {
      OpenMatches(samples, a, b, loras);
    } else if b == c {
      JoinMatches(bins[b].loraNumTokens, samples, a, b);
    } else {
      GatherNext(Owners(samples), a, c, b);
    }
  }

  lemma JoinMatches(counts: seq<nat>, samples: seq<Tagged>, a: seq<nat>, b: nat)
    requires |a| < |samples| && InOrder(samples) && samples[|a|].idx < |counts|
    requires CountsMatch(counts, Gather(Owners(samples), a, b))
    ensures var t := samples[|a|];
      CountsMatch(counts[t.idx := counts[t.idx] + Size(t)], Gather(Owners(samples), a + [b], b))
  {
    var t := samples[|a|];
    GatherNext(Owners(samples), a, b, b);
    OwnersBelow(samples, a, b, t.idx);
    MatchGrows(counts, Gather(Owners(samples), a, b), t.idx, Size(t));
  }

  lemma OpenMatches(samples: seq<Tagged>, a: seq<nat>, b: nat, loras: nat)
    requires |a| < |samples| && InOrder(samples) && samples[|a|].idx < loras
    requires forall i :: 0 <= i < |a| ==> a[i] != b
    ensures CountsMatch(Opened(samples[|a|], loras).loraNumTokens, Gather(Owners(samples), a + [b], b))
  {
    GatherNothing(Owners(samples), a, b);
    JoinMatches(Repeat<nat>(0, loras), samples, a, b);
  }

  /** In a padded bin, token p is of adapter l exactly when it lies between l's prefix sums; padding is the last's. */
  lemma AdaptersDelimited(samples: seq<Tagged>, max: nat, loras: nat, b: nat, multiple: nat, p: nat, l: nat)
    requires Adapters(samples, loras) && InOrder(samples) && l < loras && multiple >= 1
    requires b < |Pack(samples, max, loras, |samples|)|
    requires p < |PadMicroBatch(Pack(samples, max, loras, |samples|)[b], multiple).inputIds|
    ensures var counts := PadMicroBatch(Pack(samples, max, loras, |samples|)[b], multiple).loraNumTokens;
      var owners := Gather(Owners(samples), Assign(samples, max, loras, |samples|), b);
      var owner := if p < |owners| then owners[p] else loras - 1;
      owner == l <==> SumTo(counts, l) <= p < SumTo(counts, l + 1)
  {
    var bin := Pack(samples, max, loras, |samples|)[b];
    var owners := Gather(Owners(samples), Assign(samples, max, loras, |samples|), b);
    BinOwners(samples, max, loras, b);
    PadIsPadded(bin, multiple);
    PaddedDelimit(bin, owners, PaddingSize(|bin.inputIds|, multiple), p, l);
  }

  lemma PaddedDelimit(bin: MicroBatch, owners: seq<nat>, padding: nat, p: nat, l: nat)
    requires CountsMatch(bin.loraNumTokens, owners) && |owners| == |bin.inputIds| && l < |bin.loraNumTokens|
    requires p < |Padded(bin, padding).inputIds|
    ensures var counts := Padded(bin, padding).loraNumTokens;
      var owner := if p < |owners| then owners[p] else |bin.loraNumTokens| - 1;
      owner == l <==> SumTo(counts, l) <= p < SumTo(counts, l + 1)
  {
    var last: nat := |bin.loraNumTokens| - 1;
    MatchGrows(bin.loraNumTokens, owners, last, padding);
    CountsDelimit(AddToLast(bin.loraNumTokens, padding), owners + Repeat(last, padding), p, l);
  }

  lemma BinOwners(samples: seq<Tagged>, max: nat, loras: nat, b: nat)
    requires Adapters(samples, loras) && InOrder(samples) && b < |Pack(samples, max, loras, |samples|)|
    ensures var bin := Pack(samples, max, loras, |samples|)[b];
      var owners := Gather(Owners(samples), Assign(samples, max, loras, |samples|), b);
      CountsMatch(bin.loraNumTokens, owners) && |owners| == |bin.inputIds|
  {
    PackingConserves(samples, max, loras, |samples|);
    assert IsGathered(Pack(samples, max, loras, |samples|)[b], samples, Assign(samples, max, loras, |samples|), b);
    OwnersLength(samples, Assign(samples, max, loras, |samples|), b);
    BinMatches(samples, max, loras, |samples|, b);
  }

  lemma {:induction false} OwnersLength(samples: seq<Tagged>, a: seq<nat>, b: nat)
    requires |a| <= |samples|
    ensures |Gather(Owners(samples), a, b)| == |Gather(InputIds(samples), a, b)|
  {
    if a != [] { OwnersLength(samples, a[..|a| - 1], b); }
  }

  /* ---------- Trained tokens and the grid ---------- */

  lemma {:induction false} TrainedAppend(x: seq<bool>, y: seq<bool>)
    ensures Trained(x + y) == Trained(x) + Trained(y)
  {
    if y == [] {
      assert x + y == x;
    } else {
      assert (x + y)[..|x + y| - 1] == x + y[..|y| - 1];
      TrainedAppend(x, y[..|y| - 1]);
    }
  }

  lemma {:induction false} TrainedNone(n: nat)
    ensures Trained(Repeat(false, n)) == 0
  {
    if n > 0 {
      assert Repeat(false, n)[..n - 1] == Repeat(false, n - 1);
      TrainedNone(n - 1);
    }
  }

  function TrainedBySamples(samples: seq<Tagged>, n: nat): nat
    requires n <= |samples|
  {
    if n == 0 then 0 else TrainedBySamples(samples, n - 1) + Trained(samples[n - 1].sample.lossMask)
  }

  lemma {:induction false} TrainedAfterJoin(bins: seq<MicroBatch>, bin: MicroBatch, c: nat, more: nat, n: nat)
    requires n <= |bins| && c < |bins| && Trained(bin.lossMask) == Trained(bins[c].lossMask) + more
    ensures TrainedIn(bins[c := bin], n) == TrainedIn(bins, n) + (if c < n then more else 0)
  {
    if n > 0 { TrainedAfterJoin(bins, bin, c, more, n - 1); }
  }

  lemma PlaceTrains(bins: seq<MicroBatch>, t: Tagged, max: nat, loras: nat)
    requires t.idx < loras && Bins(bins, loras)
    ensures var next := Place(bins, t, max, loras);
      TrainedIn(next, |next|) == TrainedIn(bins, |bins|) + Trained(t.sample.lossMask)
  {
    var c := Chosen(bins, t.sample, max);
    if c < |bins| {
      TrainedAppend(bins[c].lossMask, t.sample.lossMask);
      TrainedAfterJoin(bins, Joined(bins[c], t), c, Trained(t.sample.lossMask), |bins|);
    } else {
      TrainedPrefix(bins, bins + [Opened(t, loras)], |bins|);
    }
  }

  lemma {:induction false} PackTrains(samples: seq<Tagged>, max: nat, loras: nat, n: nat)
    requires n <= |samples| && Adapters(samples, loras)
    ensures var bins := Pack(samples, max, loras, n); TrainedIn(bins, |bins|) == TrainedBySamples(samples, n)
  {
    if n > 0 {
      PackTrains(samples, max, loras, n - 1);
      PlaceTrains(Pack(samples, max, loras, n - 1), samples[n - 1], max, loras);
    }
  }

  lemma {:induction false} PaddingTrainsNothing(bins: seq<MicroBatch>, multiple: nat, loras: nat, n: nat)
    requires multiple >= 1 && loras >= 1 && Bins(bins, loras) && n <= |bins|
    ensures TrainedIn(PaddedBins(bins, multiple, loras), n) == TrainedIn(bins, n)
  {
    if n > 0 {
      PaddingTrainsNothing(bins, multiple, loras, n - 1);
      var p := PaddingSize(|bins[n - 1].inputIds|, multiple);
      TrainedAppend(bins[n - 1].lossMask, Repeat(false, p));
      TrainedNone(p);
    }
  }

  lemma {:induction false} TrainedConcat(x: seq<MicroBatch>, y: seq<MicroBatch>)
    ensures TrainedIn(x + y, |x| + |y|) == TrainedIn(x, |x|) + TrainedIn(y, |y|)
  {
    if y == [] {
      assert x + y == x;
    } else {
      var front := y[..|y| - 1];
      TrainedConcat(x, front);
      TrainedPrefix(x + front, x + y, |x| + |front|);
      TrainedPrefix(front, y, |front|);
    }
  }

  lemma {:induction false} DummiesTrainNothing(b: MicroBatch, n: nat)
    ensures TrainedIn(Repeat(Dummy(b), n), n) == 0
  {
    if n > 0 {
      DummiesTrainNothing(b, n - 1);
      TrainedPrefix(Repeat(Dummy(b), n - 1), Repeat(Dummy(b), n), n - 1);
      TrainedNone(|b.inputIds|);
    }
  }

  lemma PadGroupTrains(group: seq<MicroBatch>, workers: nat)
    requires workers >= 1
    ensures TrainedIn(PadGroup(group, workers), |PadGroup(group, workers)|) == TrainedIn(group, |group|)
  {
    if group != [] {
      var dummies := Repeat(Dummy(group[0]), NumDummies(|group|, workers));
      TrainedConcat(group, dummies);
      DummiesTrainNothing(group[0], |dummies|);
    }
  }

  lemma {:induction false} ModalitiesTrain(bins: seq<MicroBatch>, n: nat)
    requires n <= |bins|
    ensures var mm, text := OfModality(bins, true, n), OfModality(bins, false, n);
      TrainedIn(mm, |mm|) + TrainedIn(text, |text|) == TrainedIn(bins, n)
  {
    if n > 0 {
      ModalitiesTrain(bins, n - 1);
      ModalityTrains(bins, true, n);
      ModalityTrains(bins, false, n);
    }
  }

  lemma ModalityTrains(bins: seq<MicroBatch>, multimodal: bool, n: nat)
    requires 0 < n <= |bins|
    ensures var before, now := OfModality(bins, multimodal, n - 1), OfModality(bins, multimodal, n);
      TrainedIn(now, |now|) == TrainedIn(before, |before|) +
        if bins[n - 1].multimodal == multimodal then Trained(bins[n - 1].lossMask) else 0
  {
    OneBatchMore(OfModality(bins, multimodal, n - 1), bins[n - 1]);
  }

  lemma OneBatchMore(group: seq<MicroBatch>, b: MicroBatch)
    ensures TrainedIn(group + [b], |group| + 1) == TrainedIn(group, |group|) + Trained(b.lossMask)
  {
    TrainedPrefix(group, group + [b], |group|);
  }

  lemma OrderedTrains(bins: seq<MicroBatch>, workers: nat)
    requires workers >= 1
    ensures TrainedIn(Ordered(bins, workers), |Ordered(bins, workers)|) == TrainedIn(bins, |bins|)
  {
    var mm, text := OfModality(bins, true, |bins|), OfModality(bins, false, |bins|);
    ModalitiesTrain(bins, |bins|);
    PadGroupTrains(mm, workers);
    PadGroupTrains(text, workers);
    TrainedConcat(PadGroup(mm, workers), PadGroup(text, workers));
  }

  /** The grid of a batch trains exactly the tokens its truncated samples train. */
  lemma GridTrainsTheSamples(samples: seq<Tagged>, seqLen: nat, workers: nat, loras: nat, multiple: nat)
    requires workers >= 1 && multiple >= 1 && loras >= 1 && Adapters(samples, loras)
    ensures var layout := Layout(samples, seqLen, workers, loras, multiple);
      TrainedIn(layout, |layout|) == TrainedBySamples(samples, |samples|)
  {
    var bins := Pack(samples, seqLen, loras, |samples|);
    PackTrains(samples, seqLen, loras, |samples|);
    PaddingTrainsNothing(bins, multiple, loras, |bins|);
    OrderedTrains(PaddedBins(bins, multiple, loras), workers);
  }

  /** The dummies that fill the last row of each modality. */
  function Dummies(bins: seq<MicroBatch>, workers: nat): seq<MicroBatch>
    requires workers >= 1
  {
    DummiesOf(OfModality(bins, true, |bins|), workers) + DummiesOf(OfModality(bins, false, |bins|), workers)
  }

  function DummiesOf(group: seq<MicroBatch>, workers: nat): seq<MicroBatch>
    requires workers >= 1
  {
    if group == [] then [] else Repeat(Dummy(group[0]), NumDummies(|group|, workers))
  }

  lemma OneMoreBatch(a: seq<MicroBatch>, b: seq<MicroBatch>, both: seq<MicroBatch>, x: MicroBatch)
    requires multiset(a) + multiset(b) == multiset(both)
    ensures multiset(a + [x]) + multiset(b) == multiset(both + [x])
    ensures multiset(a) + multiset(b + [x]) == multiset(both + [x])
  {
  }

  lemma {:induction false} ModalitiesPartition(bins: seq<MicroBatch>, n: nat)
    requires n <= |bins|
    ensures multiset(OfModality(bins, true, n)) + multiset(OfModality(bins, false, n)) == multiset(bins[..n])
  {
    if n == 0 {
      assert bins[..0] == [];
    } else {
      ModalitiesPartition(bins, n - 1);
      assert bins[..n] == bins[..n - 1] + [bins[n - 1]];
      OneMoreBatch(OfModality(bins, true, n - 1), OfModality(bins, false, n - 1), bins[..n - 1], bins[n - 1]);
    }
  }

  /** Every real micro batch is dealt out exactly once; all others are dummies with nothing to train. */
  lemma GridHoldsEachOnce(bins: seq<MicroBatch>, workers: nat)
    requires workers >= 1
    ensures multiset(Ordered(bins, workers)) == multiset(bins) + multiset(Dummies(bins, workers))
    ensures TrainedIn(Dummies(bins, workers), |Dummies(bins, workers)|) == 0
  {
    ModalitiesPartition(bins, |bins|);
    assert bins[..|bins|] == bins;
    GroupsHoldEachOnce(OfModality(bins, true, |bins|), OfModality(bins, false, |bins|), workers, multiset(bins));
  }

  lemma GroupsHoldEachOnce(mm: seq<MicroBatch>, text: seq<MicroBatch>, workers: nat, all: multiset<MicroBatch>)
    requires workers >= 1 && multiset(mm) + multiset(text) == all
    ensures var dummies := DummiesOf(mm, workers) + DummiesOf(text, workers);
      && multiset(PadGroup(mm, workers) + PadGroup(text, workers)) == all + multiset(dummies)
      && TrainedIn(dummies, |dummies|) == 0
  {
    PadGroupAdds(mm, workers);
    PadGroupAdds(text, workers);
    TrainedConcat(DummiesOf(mm, workers), DummiesOf(text, workers));
    Rearranged(mm, DummiesOf(mm, workers), text, DummiesOf(text, workers), all);
  }

  lemma Rearranged<T>(a: seq<T>, b: seq<T>, c: seq<T>, d: seq<T>, all: multiset<T>)
    requires multiset(a) + multiset(c) == all
    ensures multiset((a + b) + (c + d)) == all + multiset(b + d)
  {
  }

  lemma PadGroupAdds(group: seq<MicroBatch>, workers: nat)
    requires workers >= 1
    ensures PadGroup(group, workers) == group + DummiesOf(group, workers)
    ensures TrainedIn(DummiesOf(group, workers), |DummiesOf(group, workers)|) == 0
  {
    if group != [] { DummiesTrainNothing(group[0], NumDummies(|group|, workers)); }
  }

  predicate AllOf(group: seq<MicroBatch>, multimodal: bool) {
    forall i :: 0 <= i < |group| ==> group[i].multimodal == multimodal
  }

  lemma {:induction false} OfModalityHas(bins: seq<MicroBatch>, multimodal: bool, n: nat)
    requires n <= |bins|
    ensures AllOf(OfModality(bins, multimodal, n), multimodal)
  {
    if n > 0 { OfModalityHas(bins, multimodal, n - 1); }
  }

  lemma RowBelow(i: nat, rows: nat, d: nat)
    requires d >= 1
    ensures i < rows * d <==> i / d < rows
  {
    if i / d >= rows {
      AtLeast(i / d, rows, d);
    } else {
      AtLeast(rows, i / d + 1, d);
      OneMore(i / d, d);
    }
  }

  lemma AtLeast(k: nat, m: nat, d: nat)
    requires k >= m
    ensures k * d >= m * d
  {
  }

  /** Multimodal batches fill the first rows, text batches the others. */
  predicate ByModality(ordered: seq<MicroBatch>, mmCount: nat) {
    forall i :: 0 <= i < |ordered| ==> (ordered[i].multimodal <==> i < mmCount)
  }

  lemma OrderedByModality(bins: seq<MicroBatch>, workers: nat)
    requires workers >= 1
    ensures ByModality(Ordered(bins, workers), |PadGroup(OfModality(bins, true, |bins|), workers)|)
  {
    OfModalityHas(bins, true, |bins|);
    OfModalityHas(bins, false, |bins|);
    PadGroupHas(OfModality(bins, true, |bins|), workers, true);
    PadGroupHas(OfModality(bins, false, |bins|), workers, false);
  }

  lemma PadGroupHas(group: seq<MicroBatch>, workers: nat, multimodal: bool)
    requires workers >= 1 && AllOf(group, multimodal)
    ensures AllOf(PadGroup(group, workers), multimodal)
  {
    PadGroupAdds(group, workers);
  }

  /** All workers get equally many micro batches, and in each row all have the same modality. */
  lemma GridRows(ordered: seq<MicroBatch>, mmCount: nat, grid: seq<seq<MicroBatch>>)
    requires Strided(ordered, |ordered|, grid) && ByModality(ordered, mmCount)
    requires |ordered| % |grid| == 0 && mmCount % |grid| == 0
    ensures forall w :: 0 <= w < |grid| ==> |grid[w]| == |ordered| / |grid|
    ensures forall i :: 0 <= i < |ordered| ==>
      (grid[i % |grid|][i / |grid|].multimodal <==> i / |grid| < mmCount / |grid|)
  {
    forall i | 0 <= i < |ordered|
      ensures grid[i % |grid|][i / |grid|].multimodal <==> i / |grid| < mmCount / |grid|
    {
      RowBelow(i, mmCount / |grid|, |grid|);
    }
  }
}
