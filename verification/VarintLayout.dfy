/** What the index codec writes and accepts byte by byte: what another implementation has to agree on. */
module VarintLayout {
  import opened Wrappers
  import opened Bits
  import opened Varint
  import opened VarintTheorems

  /* ---------- Numbers ---------- */

  /** Digit i of a number in base 128, the lowest is digit 0. */
  function Digit(v: nat, i: nat): nat {
    if i == 0 then v % 0x80 else Digit(v / 0x80, i - 1)
  }

  function Power128(n: nat): nat {
    if n == 0 then 1 else 0x80 * Power128(n - 1)
  }

  /** A difference is its base-128 digits, lowest first, as few as hold it; each byte but the last has the high bit. */
  lemma {:induction false} CodeExactly(diff: nat, i: nat)
    requires i < |EncodeDiff(diff)|
    ensures var code := EncodeDiff(diff);
      && code[i] == Digit(diff, i) + (if i + 1 < |code| then 0x80 else 0)
      && (|code| == 1 || Power128(|code| - 1) <= diff) && diff < Power128(|code|)
  {
    if diff >= 0x80 {
      CodeExactly(diff / 0x80, if i > 0 then i - 1 else 0);
    } else {
      assert Power128(1) == 0x80 * Power128(0);
    }
  }

  /** What a varint means: the low seven bits of its bytes are the digits of its number. */
  lemma {:induction false} NumberExactly(varint: seq<Byte>, i: nat)
    ensures Digit(Value(varint), i) == if i < |varint| then varint[i] % 0x80 else 0
  {
    if varint == [] {
      ZeroDigits(i);
    } else {
      ValueFromFront(varint[0], varint[1..]);
      assert [varint[0]] + varint[1..] == varint;
      if i > 0 {
        NumberExactly(varint[1..], i - 1);
      }
    }
  }

  lemma {:induction false} ZeroDigits(i: nat)
    ensures Digit(0, i) == 0
  {
    if i > 0 {
      ZeroDigits(i - 1);
    }
  }

  /* ---------- Encoding ---------- */

  /** Exactly the ascending lists of non-negative indices can be encoded. */
  lemma SortedExactly(xs: seq<int>)
    ensures SortedNonNegative(xs) <==>
      (forall i :: 0 <= i < |xs| ==> 0 <= xs[i]) && (forall i, j :: 0 <= i < j < |xs| ==> xs[i] <= xs[j])
  {
    if SortedNonNegative(xs) {
      forall i, j | 0 <= i <= j < |xs| ensures 0 <= xs[i] <= xs[j] {
        NonNegative(xs, i + 1);
        Ascends(xs, i, j);
      }
    } else {
      var k :| 0 <= k < |xs| && Before(xs, k) > xs[k];
      assert k > 0 ==> xs[k - 1] > xs[k];
    }
  }

  lemma {:induction false} Ascends(xs: seq<int>, i: nat, j: nat)
    requires SortedNonNegative(xs) && i <= j < |xs|
    ensures xs[i] <= xs[j]
    decreases j
  {
    if i < j {
      Ascends(xs, i, j - 1);
      assert Before(xs, j) == xs[j - 1];
    }
  }

  /** Varints one behind the other. */
  function Joined(varints: seq<seq<Byte>>): seq<Byte> {
    if varints == [] then [] else Joined(varints[..|varints| - 1]) + varints[|varints| - 1]
  }

  /** Varint k is the code of the difference between index k and the one before. */
  predicate CodeIs(xs: seq<int>, varints: seq<seq<Byte>>, k: nat)
    requires k < |xs| == |varints|
  {
    Before(xs, k) <= xs[k] && varints[k] == EncodeDiff(xs[k] - Before(xs, k))
  }

  lemma {:induction false} ChunksJoined(xs: seq<int>, i: nat)
    requires SortedNonNegative(xs) && i <= |xs|
    ensures SortedUpTo(xs, i) && EncodePrefix(xs, i) == Joined(Chunks(xs, i))
  {
    if i > 0 {
      ChunksJoined(xs, i - 1);
      var diff := xs[i - 1] - Before(xs, i - 1);
      assert Chunks(xs, i)[..i - 1] == Chunks(xs, i - 1);
    }
  }

  lemma {:induction false} ChunkAt(xs: seq<int>, i: nat, k: nat)
    requires k < i <= |xs| && SortedUpTo(xs, i)
    ensures Before(xs, k) <= xs[k] && Chunks(xs, i)[k] == EncodeDiff(xs[k] - Before(xs, k))
  {
    if k < i - 1 {
      ChunkAt(xs, i - 1, k);
    }
  }

  /** The bytes of a list are the codes of its differences, one behind the other. */
  lemma EncodeExactly(xs: seq<int>)
    requires SortedNonNegative(xs)
    ensures var varints := Chunks(xs, |xs|);
      Encode(xs) == Joined(varints) && forall k: nat :: k < |xs| ==> CodeIs(xs, varints, k)
  {
    ChunksJoined(xs, |xs|);
    forall k: nat | k < |xs| ensures CodeIs(xs, Chunks(xs, |xs|), k) {
      ChunkAt(xs, |xs|, k);
    }
  }

  /* ---------- Decoding ---------- */

  predicate AllContinue(bytes: seq<Byte>) {
    forall i :: 0 <= i < |bytes| ==> bytes[i] >= 0x80
  }

  predicate IsVarint(varint: seq<Byte>) {
    varint != [] && varint[|varint| - 1] < 0x80 && AllContinue(varint[..|varint| - 1])
  }

  lemma {:induction false} ReadsOn(bytes: seq<Byte>, part: seq<Byte>)
    requires AllContinue(part)
    ensures Parse(bytes + part) == Parsed(Parse(bytes).complete, Parse(bytes).tail + part)
  {
    var p := Parse(bytes);
    if part == [] {
      assert bytes + part == bytes && p.tail + part == p.tail;
    } else {
      var front, b := part[..|part| - 1], part[|part| - 1];
      ReadsOn(bytes, front);
      ReadsOneMore(bytes + front, b, Parsed(p.complete, p.tail + front));
      Regroup(bytes, part);
      Regroup(p.tail, part);
    }
  }

  lemma ReadsOneMore(bytes: seq<Byte>, b: Byte, p: Parsed)
    requires Parse(bytes) == p
    ensures Parse(bytes + [b]) ==
      if b < 0x80 then Parsed(p.complete + [p.tail + [b]], []) else Parsed(p.complete, p.tail + [b])
  {
    ParseAppend(bytes, b);
  }

  lemma Regroup(a: seq<Byte>, part: seq<Byte>)
    requires part != []
    ensures a + part == a + part[..|part| - 1] + [part[|part| - 1]]
  {
  }

  lemma ReadsVarint(bytes: seq<Byte>, varint: seq<Byte>)
    requires Parse(bytes).tail == [] && IsVarint(varint)
    ensures Parse(bytes + varint) == Parsed(Parse(bytes).complete + [varint], [])
  {
    var front, b := varint[..|varint| - 1], varint[|varint| - 1];
    ReadsOn(bytes, front);
    ReadsOneMore(bytes + front, b, Parsed(Parse(bytes).complete, [] + front));
    Regroup(bytes, varint);
    Regroup([], varint);
    assert [] + varint == varint;
  }

  predicate AreVarints(varints: seq<seq<Byte>>) {
    forall k :: 0 <= k < |varints| ==> IsVarint(varints[k])
  }

  /** Cutting undoes joining. */
  lemma {:induction false} ParseJoined(varints: seq<seq<Byte>>)
    requires AreVarints(varints)
    ensures Parse(Joined(varints)) == Parsed(varints, [])
  {
    if varints != [] {
      var front, last := varints[..|varints| - 1], varints[|varints| - 1];
      ParseJoined(front);
      ReadsVarint(Joined(front), last);
      assert varints == front + [last];
    }
  }

  /** Index k is the number of its varint and the index before. */
  predicate IndexIs(indices: seq<int>, varints: seq<seq<Byte>>, k: nat)
    requires k < |indices| == |varints|
  {
    indices[k] == Wrap64(Before(indices, k) + Value(varints[k]))
  }

  predicate IndicesAre(indices: seq<int>, varints: seq<seq<Byte>>) {
    |indices| == |varints| && forall k: nat :: k < |varints| ==> IndexIs(indices, varints, k)
  }

  /** Each index is the number of its varint added to the index before. */
  lemma {:induction false} SumsExactly(varints: seq<seq<Byte>>, k: nat)
    requires k < |varints|
    ensures Decoded(varints)[k] == Before(Decoded(varints), k) + Value(varints[k])
    ensures IndexIs(Decoded64(varints), varints, k)
  {
    if k < |varints| - 1 {
      SumsExactly(varints[..|varints| - 1], k);
    }
  }


  lemma WrappedSums(varints: seq<seq<Byte>>)
    ensures IndicesAre(Decoded64(varints), varints)
  {
    forall k: nat | k < |varints| ensures IndexIs(Decoded64(varints), varints, k) {
      SumsExactly(varints, k);
    }
  }

  lemma DecodeParsed(bytes: seq<Byte>, varints: seq<seq<Byte>>)
    requires Parse(bytes) == Parsed(varints, [])
    ensures PublicDecode(bytes, |varints|) ==
      if forall k :: 0 <= k < |varints| ==> |varints[k]| <= 9 then Some(Decoded64(varints)) else None
  {
    if varints == [] {
      NoWrapWhenSumsFit(varints);
    }
  }

  /** The decoder takes a stream of varints unless one is longer than 9 bytes; sums wrap. */
  lemma DecodeExactly(varints: seq<seq<Byte>>)
    requires AreVarints(varints)
    ensures var indices := PublicDecode(Joined(varints), |varints|);
      && (indices.Some? <==> forall k :: 0 <= k < |varints| ==> |varints[k]| <= 9)
      && (indices.Some? ==> IndicesAre(indices.value, varints))
  {
    ParseJoined(varints);
    DecodeParsed(Joined(varints), varints);
    WrappedSums(varints);
  }

  /** The sequential decoder takes varints of any length but no sum from 2 to the 63 on. */
  lemma DecodeSequentiallyExactly(varints: seq<seq<Byte>>)
    requires AreVarints(varints)
    ensures var sums := Decoded(varints);
      && (forall k :: 0 <= k < |varints| ==> sums[k] == Before(sums, k) + Value(varints[k]))
      && Sequential(Joined(varints), |varints|) ==
           if forall k :: 0 <= k < |varints| ==> sums[k] < 0x8000_0000_0000_0000 then Some(sums) else None
  {
    ParseJoined(varints);
    forall k | 0 <= k < |varints| ensures Decoded(varints)[k] == Before(Decoded(varints), k) + Value(varints[k]) {
      SumsExactly(varints, k);
    }
  }

  lemma ShortAppend(varints: seq<seq<Byte>>, varint: seq<Byte>)
    ensures AllShort(varints + [varint]) <==> AllShort(varints) && |varint| <= 9
  {
    assert (varints + [varint])[|varints|] == varint;
    assert forall k :: 0 <= k < |varints| ==> (varints + [varint])[k] == varints[k];
  }

  /* ---------- What is refused ---------- */

  /** A byte stream that ends in a varint, or is empty. */
  predicate Finished(bytes: seq<Byte>) {
    bytes == [] || bytes[|bytes| - 1] < 0x80
  }

  /** How many bytes lack the high bit. */
  function Enders(bytes: seq<Byte>): nat {
    if bytes == [] then 0
    else Enders(bytes[..|bytes| - 1]) + if bytes[|bytes| - 1] < 0x80 then 1 else 0
  }

  /** A byte without the high bit stands behind nine that have it. */
  predicate EndsLong(bytes: seq<Byte>, e: nat)
    requires e < |bytes|
  {
    e >= 9 && bytes[e] < 0x80 && forall i :: e - 9 <= i < e ==> bytes[i] >= 0x80
  }

  predicate LongUpTo(bytes: seq<Byte>, n: nat)
    requires n <= |bytes|
  {
    exists e: nat :: e < n && EndsLong(bytes, e)
  }

  /** The unfinished varint is the longest run of bytes with the high bit at the end. */
  lemma {:induction false} TailExactly(bytes: seq<Byte>, n: nat)
    requires n <= |bytes|
    ensures var t := |Parse(bytes[..n]).tail|;
      && t <= n && (forall i :: n - t <= i < n ==> bytes[i] >= 0x80)
      && (t < n ==> bytes[n - t - 1] < 0x80)
  {
    if n > 0 {
      TailExactly(bytes, n - 1);
      ParseStep(bytes, n - 1);
    }
  }

  lemma {:induction false} ShortExactly(bytes: seq<Byte>, n: nat)
    requires n <= |bytes|
    ensures |Parse(bytes[..n]).complete| == Enders(bytes[..n])
    ensures AllShort(Parse(bytes[..n]).complete) <==> !LongUpTo(bytes, n)
  {
    if n > 0 {
      ShortExactly(bytes, n - 1);
      TailExactly(bytes, n - 1);
      ParseStep(bytes, n - 1);
      assert bytes[..n][..n - 1] == bytes[..n - 1];
      var p := Parse(bytes[..n - 1]);
      if bytes[n - 1] < 0x80 {
        ShortAppend(p.complete, p.tail + [bytes[n - 1]]);
        LongExactly(bytes, n - 1, |p.tail|);
      } else {
        assert !EndsLong(bytes, n - 1);
      }
    }
  }

  lemma LongExactly(bytes: seq<Byte>, e: nat, t: nat)
    requires t <= e < |bytes| && bytes[e] < 0x80
    requires forall i :: e - t <= i < e ==> bytes[i] >= 0x80
    requires t < e ==> bytes[e - t - 1] < 0x80
    ensures EndsLong(bytes, e) <==> t >= 9
  {
  }

  /**
   With nothing expected only the empty stream is accepted; otherwise exactly the streams with the expected number of
   bytes that lack the high bit, none of them behind nine that have it. What follows the last of them is not looked at.
   */
  lemma AcceptedExactly(bytes: seq<Byte>, count: nat)
    ensures PublicDecode(bytes, count).Some? <==>
      if count == 0 then bytes == []
      else Enders(bytes) == count && forall e: nat :: e < |bytes| ==> !EndsLong(bytes, e)
  {
    ShortExactly(bytes, |bytes|);
    assert bytes[..|bytes|] == bytes;
    EmptyParse(bytes);
  }

  /** The sequential decoder also refuses an unfinished end, but no long varint. */
  lemma AcceptedSequentiallyExactly(bytes: seq<Byte>, count: nat)
    ensures Sequential(bytes, count).Some? <==>
      Enders(bytes) == count && Finished(bytes) && forall k :: 0 <= k < count ==> Sum(bytes, k) < 0x8000_0000_0000_0000
  {
    ShortExactly(bytes, |bytes|);
    assert bytes[..|bytes|] == bytes;
    TailMeansUnfinished(bytes);
    FitExactly(bytes);
  }

  lemma FitExactly(bytes: seq<Byte>)
    ensures AllFit(Decoded(Parse(bytes).complete)) <==>
      forall k :: 0 <= k < |Parse(bytes).complete| ==> Sum(bytes, k) < 0x8000_0000_0000_0000
  {
    var vs := Decoded(Parse(bytes).complete);
    assert forall k :: 0 <= k < |vs| ==> Sum(bytes, k) == vs[k];
    if forall k :: 0 <= k < |vs| ==> Sum(bytes, k) < 0x8000_0000_0000_0000 {
      forall k | 0 <= k < |vs| ensures vs[k] < TWO_63 {
        assert Sum(bytes, k) < 0x8000_0000_0000_0000;
      }
    }
  }

  /** Index k of the stream over the integers. */
  function Sum(bytes: seq<Byte>, k: nat): int {
    var indices := Decoded(Parse(bytes).complete);
    if k < |indices| then indices[k] else 0
  }
}
