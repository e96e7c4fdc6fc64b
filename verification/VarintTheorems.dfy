/** Laws of the sparse-index codec: the round trip, and exactly when the decoders agree. */
module VarintTheorems {
  import opened Wrappers
  import opened Bits
  import opened Varint

  /* ---------- The decoders agree ---------- */

  lemma Decoded64Extends(varints: seq<seq<Byte>>, varint: seq<Byte>)
    ensures Decoded64(varints + [varint]) == Decoded64(varints) + [Wrap64(LastOr0(Decoded64(varints)) + Value(varint))]
  {
    assert (varints + [varint])[..|varints|] == varints;
  }

  predicate NonNegativeSums(vs: seq<int>) {
    forall k :: 0 <= k < |vs| ==> vs[k] >= 0
  }

  lemma {:induction false} NoWrapWhenSumsFit(varints: seq<seq<Byte>>)
    requires AllFit(Decoded(varints))
    ensures Decoded64(varints) == Decoded(varints)
    ensures NonNegativeSums(Decoded(varints))
  {
    if varints != [] {
      var front, last := varints[..|varints| - 1], varints[|varints| - 1];
      assert varints == front + [last];
      DecodedExtends(front, last);
      Decoded64Extends(front, last);
      FitsInFront(Decoded(front), LastOr0(Decoded(front)) + Value(last));
      NoWrapWhenSumsFit(front);
    }
  }

  lemma FitsInFront(vs: seq<int>, v: int)
    requires AllFit(vs + [v])
    ensures AllFit(vs) && v < TWO_63
  {
    assert (vs + [v])[|vs|] == v;
    assert forall k :: 0 <= k < |vs| ==> (vs + [v])[k] == vs[k];
  }

  /** The stream ends inside a varint. */
  predicate EndsUnfinished(bytes: seq<Byte>) {
    bytes != [] && !Terminal(bytes[|bytes| - 1])
  }

  lemma TailMeansUnfinished(bytes: seq<Byte>)
    ensures Parse(bytes).tail != [] <==> EndsUnfinished(bytes)
  {
  }

  predicate SumsOverflow(bytes: seq<Byte>) {
    !AllFit(Decoded(Parse(bytes).complete))
  }

  predicate HasLongVarint(bytes: seq<Byte>) {
    !AllShort(Parse(bytes).complete)
  }

  /** On well-formed streams both decoders return the same indices, or both reject. */
  lemma DecodersAgree(bytes: seq<Byte>, count: nat)
    requires !EndsUnfinished(bytes) && !HasLongVarint(bytes) && !SumsOverflow(bytes)
    ensures Columnwise(bytes, count) == PublicDecode(bytes, count) == Sequential(bytes, count)
  {
    NoWrapWhenSumsFit(Parse(bytes).complete);
    TailMeansUnfinished(bytes);
  }

  /** They agree exactly when nothing is expected, the count is wrong, or both have a reason to reject or neither. */
  lemma DecodersAgreeExactly(bytes: seq<Byte>, count: nat)
    ensures PublicDecode(bytes, count) == Sequential(bytes, count) <==>
            (count > 0 && |Parse(bytes).complete| == count ==>
              (HasLongVarint(bytes) <==> EndsUnfinished(bytes) || SumsOverflow(bytes)))
  {
    TailMeansUnfinished(bytes);
    if !SumsOverflow(bytes) {
      NoWrapWhenSumsFit(Parse(bytes).complete);
    }
  }

  /** The column-wise decoder ignores an unfinished varint behind the last index; the sequential one rejects it. */
  lemma TrailingBytesAreIgnored(bytes: seq<Byte>, count: nat)
    requires count > 0 && |Parse(bytes).complete| == count
    requires EndsUnfinished(bytes) && !HasLongVarint(bytes) && !SumsOverflow(bytes)
    ensures PublicDecode(bytes, count) == Some(Decoded(Parse(bytes).complete)) && Sequential(bytes, count) == None
  {
    NoWrapWhenSumsFit(Parse(bytes).complete);
    TailMeansUnfinished(bytes);
  }

  /** Two bytes that split the decoders. */
  lemma TrailingBytesSplitTheDecoders()
    ensures PublicDecode([0x05, 0x80], 1) == Some([5])
    ensures Sequential([0x05, 0x80], 1) == None
  {
    FiveAndMore();
    FiveIsFine();
    TrailingBytesAreIgnored([0x05, 0x80], 1);
  }

  lemma FiveIsFine()
    ensures EndsUnfinished([0x05, 0x80]) && !HasLongVarint([0x05, 0x80]) && !SumsOverflow([0x05, 0x80])
  {
    FiveAndMore();
  }

  lemma FiveAndMore()
    ensures Parse([0x05, 0x80]) == Parsed([[0x05]], [0x80])
    ensures Decoded([[0x05]]) == [5]
  {
    var one: seq<Byte> := [0x05];
    ParseAppend([], 0x05);
    ParseAppend(one, 0x80);
    assert [] + one == one && one + [0x80] == [0x05, 0x80] && [] + [one] == [one];
    SingleByteValue(5);
    DecodedExtends([], one);
  }

  /* ---------- Round trip ---------- */

  /** One varint appended to a stream becomes one more complete varint. */
  lemma {:induction false} ParseVarint(bytes: seq<Byte>, diff: nat)
    ensures Parse(bytes + EncodeDiff(diff)) ==
            Parsed(Parse(bytes).complete + [Parse(bytes).tail + EncodeDiff(diff)], [])
    decreases diff
  {
    if diff < 0x80 {
      ParseAppend(bytes, diff);
    } else {
      var b := Continued(diff % 0x80);
      ParseAppend(bytes, b);
      ParseVarint(bytes + [b], diff / 0x80);
      DiffStep(bytes, diff);
      DiffStep(Parse(bytes).tail, diff);
    }
  }

  /** Reading a varint from its first byte. */
  lemma {:induction false} ValueFromFront(b: Byte, rest: seq<Byte>)
    ensures Value([b] + rest) == b % 0x80 + 0x80 * Value(rest)
    decreases |rest|
  {
    if rest == [] {
      assert ([b] + rest)[..0] == [];
    } else {
      var last := |rest| - 1;
      var payload := rest[last] % 0x80;
      ValueFromFront(b, rest[..last]);
      assert ([b] + rest)[..|rest|] == [b] + rest[..last];
      PlacedNext(payload, last);
    }
  }

  lemma PlacedNext(payload: nat, position: nat)
    requires payload < 0x80
    ensures Placed(payload, position + 1) == 0x80 * Placed(payload, position)
  {
    Pow2Seven();
    Pow2Add(7, 7 * position);
  }

  lemma {:induction false} ValueOfEncodeDiff(diff: nat)
    ensures Value(EncodeDiff(diff)) == diff
  {
    if diff < 0x80 {
      SingleByteValue(diff);
    } else {
      var b := Continued(diff % 0x80);
      var rest := EncodeDiff(diff / 0x80);
      ValueOfEncodeDiff(diff / 0x80);
      ValueFromFront(b, rest);
      LowBitsFirst(diff);
      assert EncodeDiff(diff) == [b] + rest;
    }
  }

  lemma LowBitsFirst(diff: nat)
    ensures Continued(diff % 0x80) % 0x80 + 0x80 * (diff / 0x80) == diff
  {
  }

  lemma {:induction false} EncodeDiffLength(diff: nat, k: nat)
    requires k >= 1 && diff < Pow2(7 * k)
    ensures |EncodeDiff(diff)| <= k
  {
    if diff >= 0x80 {
      Pow2Seven();
      if k > 1 {
        Pow2Add(7, 7 * (k - 1));
        EncodeDiffLength(diff / 0x80, k - 1);
      }
    }
  }

  lemma Pow2SixtyThree()
    ensures Pow2(63) == TWO_63
  {
    Pow2Seven();
    Pow2Add(7, 7);
    Pow2Add(14, 7);
    Pow2Add(21, 21);
    Pow2Add(42, 21);
  }

  predicate IndexSequence(xs: seq<int>) {
    SortedNonNegative(xs) && forall i :: 0 <= i < |xs| ==> xs[i] < TWO_63
  }

  lemma {:induction false} NonNegative(xs: seq<int>, i: nat)
    requires SortedNonNegative(xs) && i <= |xs|
    ensures Before(xs, i) >= 0
  {
    if i > 0 {
      NonNegative(xs, i - 1);
      assert Before(xs, i - 1) <= xs[i - 1];
    }
  }

  /** The varints an encoder writes for the first i indices. */
  function Chunks(xs: seq<int>, i: nat): (varints: seq<seq<Byte>>)
    requires i <= |xs| && SortedUpTo(xs, i)
    ensures |varints| == i
  {
    if i == 0 then [] else Chunks(xs, i - 1) + [EncodeDiff(xs[i - 1] - Before(xs, i - 1))]
  }

  lemma {:induction false} ParsePrefix(xs: seq<int>, i: nat)
    requires i <= |xs| && SortedUpTo(xs, i)
    ensures Parse(EncodePrefix(xs, i)) == Parsed(Chunks(xs, i), [])
  {
    if i > 0 {
      ParsePrefix(xs, i - 1);
      var diff := xs[i - 1] - Before(xs, i - 1);
      ParseVarint(EncodePrefix(xs, i - 1), diff);
      assert [] + EncodeDiff(diff) == EncodeDiff(diff);
    }
  }

  lemma DecodedWithValue(varints: seq<seq<Byte>>, varint: seq<Byte>, out: seq<int>, x: int)
    requires Decoded(varints) == out && Value(varint) == x - LastOr0(out)
    ensures Decoded(varints + [varint]) == out + [x]
  {
    DecodedExtends(varints, varint);
  }

  lemma PrefixOneMore(xs: seq<int>, i: nat)
    requires 0 < i <= |xs|
    ensures xs[..i] == xs[..i - 1] + [xs[i - 1]] && LastOr0(xs[..i - 1]) == Before(xs, i - 1)
  {
  }

  lemma {:induction false} ChunksDecode(xs: seq<int>, i: nat)
    requires i <= |xs| && SortedUpTo(xs, i)
    ensures Decoded(Chunks(xs, i)) == xs[..i]
  {
    if i > 0 {
      ChunksDecode(xs, i - 1);
      var diff := xs[i - 1] - Before(xs, i - 1);
      ValueOfEncodeDiff(diff);
      PrefixOneMore(xs, i);
      DecodedWithValue(Chunks(xs, i - 1), EncodeDiff(diff), xs[..i - 1], xs[i - 1]);
    }
  }

  lemma DiffIsShort(diff: nat)
    requires diff < TWO_63
    ensures |EncodeDiff(diff)| <= MAX_VARINT_BYTES
  {
    Pow2SixtyThree();
    EncodeDiffLength(diff, 9);
  }

  lemma {:induction false} ChunksAreShort(xs: seq<int>, i: nat)
    requires i <= |xs| && IndexSequence(xs)
    ensures AllShort(Chunks(xs, i))
  {
    if i > 0 {
      ChunksAreShort(xs, i - 1);
      NonNegative(xs, i - 1);
      DiffIsShort(xs[i - 1] - Before(xs, i - 1));
    }
  }

  /** Every decoder gives back every sorted sequence of non-negative 64-bit indices. */
  lemma RoundTrip(xs: seq<int>)
    requires IndexSequence(xs)
    ensures Sequential(Encode(xs), |xs|) == Some(xs)
    ensures Columnwise(Encode(xs), |xs|) == Some(xs)
    ensures PublicDecode(Encode(xs), |xs|) == Some(xs)
  {
    ParsePrefix(xs, |xs|);
    ChunksDecode(xs, |xs|);
    ChunksAreShort(xs, |xs|);
    assert xs[..|xs|] == xs;
    NoWrapWhenSumsFit(Chunks(xs, |xs|));
  }

  /** Different index sequences never share an encoding. */
  lemma EncodeIsInjective(xs: seq<int>, ys: seq<int>)
    requires SortedNonNegative(xs) && SortedNonNegative(ys) && Encode(xs) == Encode(ys)
    ensures xs == ys
  {
    ParsePrefix(xs, |xs|);
    ParsePrefix(ys, |ys|);
    ChunksDecode(xs, |xs|);
    ChunksDecode(ys, |ys|);
    assert xs[..|xs|] == xs && ys[..|ys|] == ys;
  }
}
