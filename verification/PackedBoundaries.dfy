/** The trainer finds the samples of a packed and padded bin again. */
module PackedBoundaries {
  import opened Wrappers
  import opened SequencePacking
  import opened PackingTheorems
  import opened SequenceBoundaries

  function Sizes(samples: seq<Tagged>): (r: seq<seq<nat>>)
    ensures |r| == |samples| && forall i :: 0 <= i < |r| ==> r[i] == [Size(samples[i])]
  {
    seq(|samples|, i requires 0 <= i < |samples| => [Size(samples[i])])
  }

  /** As prepared: position ids count from 0, and there is a token. */
  ghost predicate Numbered(samples: seq<Tagged>) {
    forall i :: 0 <= i < |samples| ==> Size(samples[i]) >= 1 && samples[i].sample.positionIds == Range(Size(samples[i]))
  }

  lemma {:induction false} PositionsAreRanges(samples: seq<Tagged>, a: seq<nat>, b: nat)
    requires |a| <= |samples| && Numbered(samples)
    ensures Gather(PositionIds(samples), a, b) == Ranges(Gather(Sizes(samples), a, b))
    ensures NonEmpty(Gather(Sizes(samples), a, b))
  {
    if a != [] {
      var n := |a| - 1;
      var front, c := a[..n], a[n];
      PositionsAreRanges(samples, front, b);
      assert a == front + [c];
      GatherNext(PositionIds(samples), front, c, b);
      GatherNext(Sizes(samples), front, c, b);
      OneSampleMore(Gather(PositionIds(samples), front, b), Gather(Sizes(samples), front, b), Size(samples[n]));
    }
  }

  lemma OneSampleMore(ids: seq<int>, lens: seq<nat>, size: nat)
    requires ids == Ranges(lens) && NonEmpty(lens) && size >= 1
    ensures ids + Range(size) == Ranges(lens + [size]) && NonEmpty(lens + [size])
  {
    assert (lens + [size])[..|lens|] == lens;
  }

  /** Lengths of the samples in bin b, in order. */
  function BinLengths(samples: seq<Tagged>, max: nat, loras: nat, b: nat): seq<nat>
    requires Adapters(samples, loras)
  {
    Gather(Sizes(samples), Assign(samples, max, loras, |samples|), b)
  }

  lemma BinPositions(samples: seq<Tagged>, max: nat, loras: nat, b: nat)
    requires Adapters(samples, loras) && Numbered(samples) && b < |Pack(samples, max, loras, |samples|)|
    ensures Pack(samples, max, loras, |samples|)[b].positionIds == Ranges(BinLengths(samples, max, loras, b))
    ensures NonEmpty(BinLengths(samples, max, loras, b))
  {
    PackingConserves(samples, max, loras, |samples|);
    var a := Assign(samples, max, loras, |samples|);
    assert IsGathered(Pack(samples, max, loras, |samples|)[b], samples, a, b);
    PositionsAreRanges(samples, a, b);
  }

  /** The trainer's offsets of a packed bin are its samples' prefix sums, padding being one more sequence. */
  lemma PackedBinBoundaries(samples: seq<Tagged>, max: nat, loras: nat, b: nat, multiple: nat)
    requires Adapters(samples, loras) && Numbered(samples) && b < |Pack(samples, max, loras, |samples|)|
    requires loras >= 1 && multiple >= 1
    ensures var bin := Pack(samples, max, loras, |samples|)[b];
      var padding := PaddingSize(|bin.inputIds|, multiple);
      var lens := BinLengths(samples, max, loras, b) + if padding > 0 then [padding] else [];
      var ids := PadMicroBatch(bin, multiple).positionIds;
      && ids != [] && lens != []
      && GetCuSeqlens(ids) == Boundaries(Offsets(lens), MaxOf(lens))
      && (ResponseLengths(ids) == lens <==> |lens| == 1 || forall i :: 0 <= i < |lens| ==> lens[i] >= 2)
  {
    var bin := Pack(samples, max, loras, |samples|)[b];
    BinPositions(samples, max, loras, b);
    BinsHaveSamples(samples, max, loras, |samples|, b);
    PaddedPositions(bin, multiple);
    RangesPadded(BinLengths(samples, max, loras, b), PaddingSize(|bin.inputIds|, multiple));
  }

  lemma PaddedPositions(bin: MicroBatch, multiple: nat)
    requires multiple >= 1 && bin.loraNumTokens != []
    ensures PadMicroBatch(bin, multiple).positionIds ==
            bin.positionIds + Range(PaddingSize(|bin.inputIds|, multiple))
  {
    PadIsPadded(bin, multiple);
  }

  /** One sample of three tokens in a bin padded to four: the trainer sees a single response of four tokens. */
  lemma OnePaddingTokenJoinsTheSample(t: Tagged, loras: nat)
    requires t.idx < loras && Numbered([t]) && Size(t) == 3
    ensures var bins := Pack([t], 4, loras, 1);
      && |bins| == 1
      && PadMicroBatch(bins[0], 4).positionIds == Ranges([3, 1])
      && ResponseLengths(PadMicroBatch(bins[0], 4).positionIds) == [4]
  {
    SingleTokenLosesItsLength();
    assert Pack([t], 4, loras, 0) == [];
    assert Pack([t], 4, loras, 1) == [Opened(t, loras)];
    assert Opened(t, loras).positionIds == [t][0].sample.positionIds;
    assert PadMicroBatch(Opened(t, loras), 4).positionIds == Range(3) + Range(1);
  }

  lemma RangesPadded(lens: seq<nat>, padding: nat)
    requires lens != [] && NonEmpty(lens)
    ensures var all := lens + if padding > 0 then [padding] else [];
      var ids := Ranges(lens) + Range(padding);
      && ids != []
      && GetCuSeqlens(ids) == Boundaries(Offsets(all), MaxOf(all))
      && (ResponseLengths(ids) == all <==> |all| == 1 || forall i :: 0 <= i < |all| ==> all[i] >= 2)
  {
    var all := lens + if padding > 0 then [padding] else [];
    if padding > 0 {
      assert all[..|lens|] == lens;
    } else {
      assert all == lens && Ranges(lens) + Range(0) == Ranges(lens);
    }
    CuSeqlensOfPacked(all);
    ResponseLengthsExactlyWhen(all);
  }

  /** No bin is without a sample. */
  lemma {:induction false} BinsHaveSamples(samples: seq<Tagged>, max: nat, loras: nat, n: nat, b: nat)
    requires n <= |samples| && Adapters(samples, loras) && b < |Pack(samples, max, loras, n)|
    ensures b in Assign(samples, max, loras, n)
    ensures Gather(Sizes(samples), Assign(samples, max, loras, n), b) != []
  {
    var bins, a := Pack(samples, max, loras, n - 1), Assign(samples, max, loras, n - 1);
    if b < |bins| {
      BinsHaveSamples(samples, max, loras, n - 1, b);
    }
    OneAssigned(samples, a, Chosen(bins, samples[n - 1].sample, max), b);
  }

  lemma OneAssigned(samples: seq<Tagged>, a: seq<nat>, c: nat, b: nat)
    requires |a| < |samples| && (c == b || (b in a && Gather(Sizes(samples), a, b) != []))
    ensures b in a + [c] && Gather(Sizes(samples), a + [c], b) != []
  {
    GatherNext(Sizes(samples), a, c, b);
    assert (a + [c])[|a|] == c;
  }
}
