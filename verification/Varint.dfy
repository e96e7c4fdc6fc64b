/** The sparse-index codec: sorted indices are stored as base-128 differences (unsigned LEB128). */
module Varint {
  import opened Wrappers
  import opened Bits

  type Byte = b: int | 0 <= b < 0x100

  datatype EncodeError = NegativeIndex | UnsortedIndices

  datatype DecodeError =
    | UnexpectedBytes
    | Truncated
    | TooManyIndices
    | CountMismatch
    | DeltaTooLong
    | IndexOverflow

  /* ---------- What an encoder must produce ---------- */

  /** The index in front of position i, 0 at the start. */
  function Before(xs: seq<int>, i: nat): int
    requires i <= |xs|
  {
    if i == 0 then 0 else xs[i - 1]
  }

  /** The first i indices are non-negative and in order. */
  predicate SortedUpTo(xs: seq<int>, i: nat)
    requires i <= |xs|
  {
    forall k {:trigger Before(xs, k)} :: 0 <= k < i ==> Before(xs, k) <= xs[k]
  }

  predicate SortedNonNegative(xs: seq<int>) {
    SortedUpTo(xs, |xs|)
  }

  /** Pow2(7), spelled out for the solver. */
  lemma Pow2Seven()
    ensures Pow2(7) == 0x80
  {
    assert Pow2(3) == 8;
    Pow2Add(3, 4);
  }

  /** A 7-bit payload with the continuation bit set. */
  function Continued(payload: nat): (b: Byte)
    requires payload < 0x80
  {
    payload + 0x80
  }

  lemma ContinuedIsOr(payload: nat)
    requires payload < 0x80
    ensures Or(payload, 0x80) == Continued(payload)
  {
    Pow2Seven();
    OrDisjoint(payload, 7, 1);
  }

  function EncodeDiff(diff: nat): (bytes: seq<Byte>)
    ensures |bytes| >= 1
  {
    if diff < 0x80 then [diff] else [Continued(diff % 0x80)] + EncodeDiff(diff / 0x80)
  }

  /** The bytes of the first i indices. */
  function EncodePrefix(xs: seq<int>, i: nat): seq<Byte>
    requires i <= |xs| && SortedUpTo(xs, i)
  {
    if i == 0 then [] else EncodePrefix(xs, i - 1) + EncodeDiff(xs[i - 1] - Before(xs, i - 1))
  }

  function Encode(xs: seq<int>): seq<Byte>
    requires SortedNonNegative(xs)
  {
    EncodePrefix(xs, |xs|)
  }

  /* ---------- What a byte stream means ---------- */

  datatype Parsed = Parsed(complete: seq<seq<Byte>>, tail: seq<Byte>)

  predicate Terminal(b: Byte) { b < 0x80 }

  /** Cuts a stream after every byte without the continuation bit; `tail` is an unfinished varint. */
  function Parse(bytes: seq<Byte>): Parsed {
    if bytes == [] then Parsed([], [])
    else
      var last := |bytes| - 1;
      var front := Parse(bytes[..last]);
      if Terminal(bytes[last])
      then Parsed(front.complete + [front.tail + [bytes[last]]], [])
      else Parsed(front.complete, front.tail + [bytes[last]])
  }

  /** The number written by one varint, lowest 7 bits first. */
  function Value(varint: seq<Byte>): nat {
    if varint == [] then 0
    else
      var last := |varint| - 1;
      Value(varint[..last]) + Placed(varint[last] % 0x80, last)
  }

  /** A 7-bit payload shifted to the given byte position. */
  function Placed(payload: nat, position: nat): nat
    requires payload < 0x80
  {
    payload * Pow2(7 * position)
  }

  lemma PlacedBound(payload: nat, position: nat)
    requires payload < 0x80
    ensures Placed(payload, position) + Pow2(7 * position) <= Pow2(7 * (position + 1))
  {
    var place := Pow2(7 * position);
    Pow2Seven();
    Pow2Add(7, 7 * position);
    AtMostTimes(payload, place);
  }

  lemma AtMostTimes(payload: nat, place: nat)
    requires payload < 0x80
    ensures payload * place + place <= 0x80 * place
  {
    assert (payload + 1) * place <= 0x80 * place;
  }

  lemma {:induction false} ValueBound(varint: seq<Byte>)
    ensures Value(varint) < Pow2(7 * |varint|)
  {
    if varint != [] {
      var last := |varint| - 1;
      ValueBound(varint[..last]);
      PlacedBound(varint[last] % 0x80, last);
    }
  }

  function LastOr0(s: seq<int>): int {
    if s == [] then 0 else s[|s| - 1]
  }

  /** The indices a list of complete varints stands for: running sums over the integers. */
  function Decoded(varints: seq<seq<Byte>>): (s: seq<int>)
    ensures |s| == |varints|
  {
    if varints == [] then []
    else
      var front := Decoded(varints[..|varints| - 1]);
      front + [LastOr0(front) + Value(varints[|varints| - 1])]
  }

  /** The same sums in wrapping 64-bit arithmetic. */
  function Decoded64(varints: seq<seq<Byte>>): (s: seq<int>)
    ensures |s| == |varints|
  {
    if varints == [] then []
    else
      var front := Decoded64(varints[..|varints| - 1]);
      front + [Wrap64(LastOr0(front) + Value(varints[|varints| - 1]))]
  }

  predicate AllFit(vs: seq<int>) {
    forall k :: 0 <= k < |vs| ==> vs[k] < TWO_63
  }

  const MAX_VARINT_BYTES := 9

  predicate AllShort(varints: seq<seq<Byte>>) {
    forall k :: 0 <= k < |varints| ==> |varints[k]| <= MAX_VARINT_BYTES
  }

  /** What the byte-by-byte decoder returns, None when it raises. */
  function Sequential(bytes: seq<Byte>, count: nat): Option<seq<int>> {
    var p := Parse(bytes);
    var indices := Decoded(p.complete);
    if |p.complete| == count && p.tail == [] && AllFit(indices) then Some(indices) else None
  }

  /** What the column-wise decoder returns, None when it raises. */
  function Columnwise(bytes: seq<Byte>, count: nat): Option<seq<int>> {
    var p := Parse(bytes);
    if |p.complete| == count && AllShort(p.complete) then Some(Decoded64(p.complete)) else None
  }

  /** What `decode_varint_delta_indices` returns: with nothing expected it never looks at columns. */
  function PublicDecode(bytes: seq<Byte>, count: nat): Option<seq<int>> {
    if count == 0 then Sequential(bytes, 0) else Columnwise(bytes, count)
  }

  /* ---------- The code ---------- */

  lemma {:induction false} PrefixGrows(xs: seq<int>, i: nat, j: nat)
    requires SortedNonNegative(xs) && i <= j <= |xs|
    ensures |EncodePrefix(xs, i)| <= |EncodePrefix(xs, j)|
    decreases j
  {
    if i < j {
      PrefixGrows(xs, i, j - 1);
    }
  }

  /** First pass of the encoder: checks the order and counts the bytes the second pass will write. */
  method EncodedSize(indices: array<int>) returns (r: Result<nat, EncodeError>)
    ensures r.Ok? <==> SortedNonNegative(indices[..])
    ensures r.Ok? ==> r.value == |Encode(indices[..])|
    ensures r.Err? ==> exists i: nat ::
      i < indices.Length && SortedUpTo(indices[..], i) && indices[i] < Before(indices[..], i) &&
      (r.error == NegativeIndex <==> indices[i] < 0)
  {
    ghost var xs := indices[..];
    var encodedSize := 0;
    var previous := 0;
    var i := 0;
    while i < indices.Length
      invariant 0 <= i <= indices.Length
      invariant previous == Before(xs, i) >= 0
      invariant SortedUpTo(xs, i)
      invariant encodedSize == |EncodePrefix(xs, i)|
    {
      var current := indices[i];
      if current < 0 {
        assert xs[i] < Before(xs, i);
        return Err(NegativeIndex);
      }
      if current < previous {
        assert xs[i] < Before(xs, i);
        return Err(UnsortedIndices);
      }
      var diff := current - previous;
      previous := current;
      encodedSize := encodedSize + 1;
      ghost var whole := |EncodeDiff(diff)|;
      while diff >= 0x80
        invariant diff >= 0
        invariant encodedSize + |EncodeDiff(diff)| == |EncodePrefix(xs, i)| + whole + 1
      {
        diff := diff / 0x80;
        encodedSize := encodedSize + 1;
      }
      i := i + 1;
    }
    r := Ok(encodedSize);
  }

  /** The inner loop of the second pass: one difference, lowest 7 bits first. */
  method WriteDiff(encoded: array<Byte>, start: nat, difference: nat) returns (outputIndex: nat)
    requires start + |EncodeDiff(difference)| <= encoded.Length
    modifies encoded
    ensures outputIndex == start + |EncodeDiff(difference)|
    ensures encoded[..outputIndex] == old(encoded[..start]) + EncodeDiff(difference)
  {
    var diff := difference;
    outputIndex := start;
    ghost var before := encoded[..start];
    ghost var written: seq<Byte> := [];
    while diff >= 0x80
      invariant diff >= 0
      invariant written + EncodeDiff(diff) == EncodeDiff(difference)
      invariant outputIndex == start + |written| && outputIndex + |EncodeDiff(diff)| <= encoded.Length
      invariant encoded[..outputIndex] == before + written
    {
      DiffStep(written, diff);
      ContinuedIsOr(diff % 0x80);
      var b: Byte := Or(diff % 0x80, 0x80);
      encoded[outputIndex] := b;
      written := written + [b];
      outputIndex := outputIndex + 1;
      diff := diff / 0x80;
    }
    encoded[outputIndex] := diff;
    outputIndex := outputIndex + 1;
  }

  lemma DiffStep(written: seq<Byte>, diff: nat)
    requires diff >= 0x80
    ensures |EncodeDiff(diff)| == 1 + |EncodeDiff(diff / 0x80)|
    ensures written + EncodeDiff(diff) == written + [Continued(diff % 0x80)] + EncodeDiff(diff / 0x80)
  {
    var b := Continued(diff % 0x80);
    assert EncodeDiff(diff) == [b] + EncodeDiff(diff / 0x80);
  }

  /** Two passes: size, then bytes. The second pass fills the buffer exactly. */
  method EncodeVarintDeltaIndices(indices: array<int>) returns (r: Result<array<Byte>, EncodeError>)
    ensures r.Ok? <==> SortedNonNegative(indices[..])
    ensures r.Ok? ==> fresh(r.value) && r.value[..] == Encode(indices[..])
  {
    var size := EncodedSize(indices);
    if size.Err? {
      return Err(size.error);
    }
    ghost var xs := indices[..];
    var encoded := new Byte[size.value];
    var outputIndex := 0;
    var previous := 0;
    for i := 0 to indices.Length
      invariant indices[..] == xs
      invariant previous == Before(xs, i)
      invariant outputIndex == |EncodePrefix(xs, i)| <= encoded.Length
      invariant encoded[..outputIndex] == EncodePrefix(xs, i)
    {
      var current := indices[i];
      var diff := current - previous;
      previous := current;
      PrefixGrows(xs, i + 1, |xs|);
      outputIndex := WriteDiff(encoded, outputIndex, diff);
    }
    r := Ok(encoded);
  }

  /** The byte-by-byte decoder; storing a sum that does not fit a 64-bit tensor raises. */
  method DecodeSequential(bytes: seq<Byte>, expectedCount: nat) returns (r: Result<seq<int>, DecodeError>)
    ensures r.ToOption() == Sequential(bytes, expectedCount)
  {
    if expectedCount == 0 {
      EmptyParse(bytes);
      if |bytes| != 0 {
        return Err(UnexpectedBytes);
      }
      return Ok([]);
    }
    var out: seq<int> := [];
    var outIndex := 0;
    var current := 0;
    var diff := 0;
    var shift := 0;
    for i := 0 to |bytes|
      invariant outIndex == |out| <= expectedCount
      invariant Decoding(bytes, i, out, current, diff, shift)
    {
      var payload := bytes[i] % 0x80;
      PayloadAdds(bytes, i, out, current, diff, shift);
      ghost var before := diff;
      diff := Or(diff, payload * Pow2(shift));
      if bytes[i] >= 0x80 {
        ContinuationStep(bytes, i, out, current, before, shift, diff);
        shift := shift + 7;
        continue;
      }
      TerminalStep(bytes, i, out, current, before, shift, diff);
      if outIndex >= expectedCount {
        return Err(TooManyIndices);
      }
      current := current + diff;
      if current >= TWO_63 {
        return Err(IndexOverflow);
      }
      out := out + [current];
      outIndex := outIndex + 1;
      diff := 0;
      shift := 0;
    }
    assert bytes[..|bytes|] == bytes;
    if shift != 0 {
      return Err(Truncated);
    }
    if outIndex != expectedCount {
      return Err(CountMismatch);
    }
    r := Ok(out);
  }

  /** The loop variables of the sequential decoder after i bytes. */
  ghost predicate Decoding(bytes: seq<Byte>, i: nat, out: seq<int>, current: int, diff: int, shift: int)
    requires i <= |bytes|
  {
    var p := Parse(bytes[..i]);
    && out == Decoded(p.complete)
    && AllFit(out)
    && current == LastOr0(out)
    && diff == Value(p.tail)
    && shift == 7 * |p.tail|
  }

  lemma {:induction false} EmptyParse(bytes: seq<Byte>)
    ensures Parse(bytes).complete == [] && Parse(bytes).tail == [] <==> bytes == []
  {
  }

  lemma ValueExtends(varint: seq<Byte>, b: Byte)
    ensures Value(varint + [b]) == Value(varint) + Placed(b % 0x80, |varint|)
  {
    assert (varint + [b])[..|varint|] == varint;
  }

  lemma DecodedExtends(varints: seq<seq<Byte>>, varint: seq<Byte>)
    ensures Decoded(varints + [varint]) == Decoded(varints) + [LastOr0(Decoded(varints)) + Value(varint)]
  {
    assert (varints + [varint])[..|varints|] == varints;
  }

  /** Reading on only appends to the complete varints. */
  lemma {:induction false} ParseGrows(bytes: seq<Byte>, i: nat, j: nat)
    requires i <= j <= |bytes|
    ensures Parse(bytes[..i]).complete <= Parse(bytes[..j]).complete
    decreases j
  {
    if i < j {
      ParseGrows(bytes, i, j - 1);
      assert bytes[..j][..j - 1] == bytes[..j - 1];
    }
  }

  lemma {:induction false} DecodedGrows(varints: seq<seq<Byte>>, more: seq<seq<Byte>>)
    requires varints <= more
    ensures Decoded(varints) <= Decoded(more)
    decreases |more|
  {
    if |varints| < |more| {
      DecodedGrows(varints, more[..|more| - 1]);
    } else {
      assert varints == more;
    }
  }

  /** A running sum that is too large stays too large in the whole stream. */
  lemma OverflowStays(bytes: seq<Byte>, i: nat)
    requires i <= |bytes|
    requires !AllFit(Decoded(Parse(bytes[..i]).complete))
    ensures !AllFit(Decoded(Parse(bytes).complete))
  {
    assert bytes[..|bytes|] == bytes;
    ParseGrows(bytes, i, |bytes|);
    var short := Decoded(Parse(bytes[..i]).complete);
    var long := Decoded(Parse(bytes).complete);
    DecodedGrows(Parse(bytes[..i]).complete, Parse(bytes).complete);
    var k :| 0 <= k < |short| && short[k] >= TWO_63;
    assert long[k] == short[k];
  }

  lemma ParseStep(bytes: seq<Byte>, i: nat)
    requires i < |bytes|
    ensures var p, q := Parse(bytes[..i]), Parse(bytes[..i + 1]);
      q == if Terminal(bytes[i]) then Parsed(p.complete + [p.tail + [bytes[i]]], [])
           else Parsed(p.complete, p.tail + [bytes[i]])
  {
    assert bytes[..i + 1][..i] == bytes[..i];
  }

  /** "Or"-ing the next payload in computes the value of the longer varint. */
  lemma NextDiff(tail: seq<Byte>, b: Byte)
    ensures Or(Value(tail), b % 0x80 * Pow2(7 * |tail|)) == Value(tail + [b])
  {
    ValueBound(tail);
    OrDisjoint(Value(tail), 7 * |tail|, b % 0x80);
    ValueExtends(tail, b);
  }

  /** The varint that the byte at i continues or ends. */
  function Unfinished(bytes: seq<Byte>, i: nat): seq<Byte>
    requires i < |bytes|
  {
    Parse(bytes[..i]).tail + [bytes[i]]
  }

  lemma PayloadAdds(bytes: seq<Byte>, i: nat, out: seq<int>, current: int, diff: nat, shift: nat)
    requires i < |bytes| && Decoding(bytes, i, out, current, diff, shift)
    ensures Or(diff, bytes[i] % 0x80 * Pow2(shift)) == Value(Unfinished(bytes, i))
  {
    NextDiff(Parse(bytes[..i]).tail, bytes[i]);
  }

  lemma ContinuationStep(bytes: seq<Byte>, i: nat, out: seq<int>, current: int, diff: nat, shift: nat, newDiff: nat)
    requires i < |bytes| && bytes[i] >= 0x80 && Decoding(bytes, i, out, current, diff, shift)
    requires newDiff == Value(Unfinished(bytes, i))
    ensures Decoding(bytes, i + 1, out, current, newDiff, shift + 7)
  {
    ParseStep(bytes, i);
  }

  lemma TerminalStep(bytes: seq<Byte>, i: nat, out: seq<int>, current: int, diff: nat, shift: nat, newDiff: nat)
    requires i < |bytes| && bytes[i] < 0x80 && Decoding(bytes, i, out, current, diff, shift)
    requires newDiff == Value(Unfinished(bytes, i))
    ensures TerminalDone(bytes, i, out, current + newDiff)
  {
    var p := Parse(bytes[..i]);
    var varint := Unfinished(bytes, i);
    VarintEnds(bytes, i);
    DecodedExtends(p.complete, varint);
    IndexDone(bytes, i, out, current + newDiff, p.complete + [varint]);
  }

  lemma VarintEnds(bytes: seq<Byte>, i: nat)
    requires i < |bytes| && bytes[i] < 0x80
    ensures var p := Parse(bytes[..i]);
      && Parse(bytes[..i + 1]) == Parsed(p.complete + [p.tail + [bytes[i]]], [])
      && |p.complete| + 1 <= |Parse(bytes).complete|
  {
    ParseStep(bytes, i);
    ParseGrows(bytes, i + 1, |bytes|);
    assert bytes[..|bytes|] == bytes;
  }

  /** What reading a terminal byte at i achieves when the new running sum is `next`. */
  ghost predicate TerminalDone(bytes: seq<Byte>, i: nat, out: seq<int>, next: int)
    requires i < |bytes|
  {
    && (next < TWO_63 ==> Decoding(bytes, i + 1, out + [next], next, 0, 0))
    && (next >= TWO_63 ==> !AllFit(Decoded(Parse(bytes).complete)))
    && |Parse(bytes).complete| > |out|
  }

  lemma IndexDone(bytes: seq<Byte>, i: nat, out: seq<int>, next: int, varints: seq<seq<Byte>>)
    requires i < |bytes| && AllFit(out)
    requires Parse(bytes[..i + 1]) == Parsed(varints, [])
    requires Decoded(varints) == out + [next]
    requires |varints| <= |Parse(bytes).complete|
    ensures TerminalDone(bytes, i, out, next)
  {
    if next >= TWO_63 {
      assert (out + [next])[|out|] >= TWO_63;
      OverflowStays(bytes, i + 1);
    }
  }

  /* ---------- The vectorised decoder ---------- */

  /** Positions of the bytes without the continuation bit, in order. */
  function TerminalPositions(bytes: seq<Byte>): seq<nat> {
    if bytes == [] then []
    else
      var last := |bytes| - 1;
      TerminalPositions(bytes[..last]) + (if Terminal(bytes[last]) then [last] else [])
  }

  /** Where the varint after the given ends begins. */
  function NextStart(ends: seq<nat>): nat {
    if ends == [] then 0 else ends[|ends| - 1] + 1
  }

  /** 0, then one behind each end but the last. */
  function StartPositions(ends: seq<nat>): (starts: seq<nat>)
    ensures |starts| == |ends|
  {
    if ends == [] then []
    else StartPositions(ends[..|ends| - 1]) + [NextStart(ends[..|ends| - 1])]
  }

  function MaxOf(lengths: seq<int>): (m: int)
    ensures m >= 0 && forall k :: 0 <= k < |lengths| ==> lengths[k] <= m
    ensures m == 0 || m in lengths
  {
    if lengths == [] then 0
    else
      var rest := MaxOf(lengths[1..]);
      if lengths[0] > rest then lengths[0] else rest
  }

  function CumSum64(diffs: seq<int>): (s: seq<int>)
    ensures |s| == |diffs|
  {
    if diffs == [] then []
    else
      var front := CumSum64(diffs[..|diffs| - 1]);
      front + [Wrap64(LastOr0(front) + diffs[|diffs| - 1])]
  }

  /** `part` is what `bytes` holds from `start` up to, not including, `end`. */
  ghost predicate Holds(bytes: seq<Byte>, start: nat, end: int, part: seq<Byte>) {
    && start + |part| == end <= |bytes|
    && forall j :: 0 <= j < |part| ==> part[j] == bytes[start + j]
  }

  /** Start and end positions delimit exactly the complete varints. */
  ghost predicate Delimits(starts: seq<nat>, ends: seq<nat>, bytes: seq<Byte>, varints: seq<seq<Byte>>) {
    && |starts| == |ends| == |varints|
    && forall k :: 0 <= k < |ends| ==>
        starts[k] <= ends[k] && Holds(bytes, starts[k], ends[k] + 1, varints[k])
  }

  lemma DelimitsMore(starts: seq<nat>, ends: seq<nat>, bytes: seq<Byte>, varints: seq<seq<Byte>>, b: Byte)
    requires Delimits(starts, ends, bytes, varints)
    ensures Delimits(starts, ends, bytes + [b], varints)
  {
  }

  lemma HoldsMore(bytes: seq<Byte>, start: nat, part: seq<Byte>, b: Byte)
    requires Holds(bytes, start, |bytes|, part)
    ensures Holds(bytes + [b], start, |bytes| + 1, part + [b])
  {
    forall j | 0 <= j < |part + [b]| ensures (part + [b])[j] == (bytes + [b])[start + j] {
      if j < |part| {
        assert part[j] == bytes[start + j];
      }
    }
  }

  /** The positions delimit the complete varints, and the tail follows the last end. */
  ghost predicate Cut(bytes: seq<Byte>, ends: seq<nat>, p: Parsed) {
    && Delimits(StartPositions(ends), ends, bytes, p.complete)
    && Holds(bytes, NextStart(ends), |bytes|, p.tail)
  }

  lemma CutStep(bytes: seq<Byte>, ends: seq<nat>, p: Parsed, b: Byte)
    requires Cut(bytes, ends, p)
    ensures Cut(bytes + [b], ends, Parsed(p.complete, p.tail + [b]))
    ensures Cut(bytes + [b], ends + [|bytes|], Parsed(p.complete + [p.tail + [b]], []))
  {
    DelimitsMore(StartPositions(ends), ends, bytes, p.complete, b);
    HoldsMore(bytes, NextStart(ends), p.tail, b);
    assert (ends + [|bytes|])[..|ends|] == ends;
    assert StartPositions(ends + [|bytes|]) == StartPositions(ends) + [NextStart(ends)];
  }

  lemma PositionsAppend(bytes: seq<Byte>, b: Byte)
    ensures TerminalPositions(bytes + [b]) == TerminalPositions(bytes) + (if Terminal(b) then [|bytes|] else [])
  {
    assert (bytes + [b])[..|bytes|] == bytes;
  }

  lemma ParseAppend(bytes: seq<Byte>, b: Byte)
    ensures Parse(bytes + [b]) ==
            if Terminal(b) then Parsed(Parse(bytes).complete + [Parse(bytes).tail + [b]], [])
            else Parsed(Parse(bytes).complete, Parse(bytes).tail + [b])
  {
    assert (bytes + [b])[..|bytes|] == bytes;
  }

  lemma CutAppend(bytes: seq<Byte>, b: Byte)
    requires Cut(bytes, TerminalPositions(bytes), Parse(bytes))
    ensures Cut(bytes + [b], TerminalPositions(bytes + [b]), Parse(bytes + [b]))
  {
    PositionsAppend(bytes, b);
    ParseAppend(bytes, b);
    CutStep(bytes, TerminalPositions(bytes), Parse(bytes), b);
    assert TerminalPositions(bytes) + [] == TerminalPositions(bytes);
  }

  lemma {:induction false} PositionsDelimit(bytes: seq<Byte>)
    ensures Cut(bytes, TerminalPositions(bytes), Parse(bytes))
  {
    if bytes != [] {
      var front, b := bytes[..|bytes| - 1], bytes[|bytes| - 1];
      PositionsDelimit(front);
      CutAppend(front, b);
      assert bytes == front + [b];
    }
  }

  /** One slot of a column step: byte number `offset` of the varint at start..end, if it has one. */
  function OrByte(diff: nat, bytes: seq<Byte>, start: nat, end: nat, offset: nat): nat
    requires start <= end < |bytes|
  {
    if end - start + 1 > offset then Or(diff, bytes[start + offset] % 0x80 * Pow2(7 * offset)) else diff
  }

  function OrColumn(diffs: seq<nat>, bytes: seq<Byte>, starts: seq<nat>, ends: seq<nat>, offset: nat): (r: seq<nat>)
    requires |diffs| == |starts| == |ends|
    requires forall k :: 0 <= k < |ends| ==> starts[k] <= ends[k] < |bytes|
    ensures |r| == |diffs|
    ensures forall k :: 0 <= k < |r| ==> r[k] == OrByte(diffs[k], bytes, starts[k], ends[k], offset)
  {
    seq(|diffs|, k requires 0 <= k < |diffs| => OrByte(diffs[k], bytes, starts[k], ends[k], offset))
  }

  /** The first `offset` bytes of a varint, or all of it when it is shorter. */
  function FirstBytes(varint: seq<Byte>, offset: nat): seq<Byte> {
    if offset < |varint| then varint[..offset] else varint
  }

  lemma ColumnStep(bytes: seq<Byte>, start: nat, end: nat, varint: seq<Byte>, offset: nat)
    requires start <= end && Holds(bytes, start, end + 1, varint)
    ensures OrByte(Value(FirstBytes(varint, offset)), bytes, start, end, offset) ==
            Value(FirstBytes(varint, offset + 1))
  {
    if offset < |varint| {
      NextDiff(varint[..offset], varint[offset]);
      assert FirstBytes(varint, offset + 1) == varint[..offset] + [varint[offset]];
    }
  }

  /** After `offset` columns every slot holds the value of its varint's first bytes. */
  ghost predicate ColumnsDone(diffs: seq<nat>, varints: seq<seq<Byte>>, offset: nat) {
    && |diffs| == |varints|
    && forall k :: 0 <= k < |diffs| ==> diffs[k] == Value(FirstBytes(varints[k], offset))
  }

  lemma ColumnsAdvance(diffs: seq<nat>, bytes: seq<Byte>, starts: seq<nat>, ends: seq<nat>,
                       varints: seq<seq<Byte>>, offset: nat)
    requires Delimits(starts, ends, bytes, varints) && ColumnsDone(diffs, varints, offset)
    ensures ColumnsDone(OrColumn(diffs, bytes, starts, ends, offset), varints, offset + 1)
  {
    var next := OrColumn(diffs, bytes, starts, ends, offset);
    forall k | 0 <= k < |next| ensures next[k] == Value(FirstBytes(varints[k], offset + 1)) {
      ColumnStep(bytes, starts[k], ends[k], varints[k], offset);
    }
  }

  lemma {:induction false} CumSumDecodes(diffs: seq<int>, varints: seq<seq<Byte>>)
    requires |diffs| == |varints|
    requires forall k :: 0 <= k < |diffs| ==> diffs[k] == Value(varints[k])
    ensures CumSum64(diffs) == Decoded64(varints)
  {
    if diffs != [] {
      CumSumDecodes(diffs[..|diffs| - 1], varints[..|diffs| - 1]);
    }
  }

  function Lengths(starts: seq<int>, ends: seq<int>): (lengths: seq<int>)
    requires |starts| == |ends|
    ensures |lengths| == |ends|
    ensures forall k :: 0 <= k < |ends| ==> lengths[k] == ends[k] - starts[k] + 1
  {
    seq(|ends|, k requires 0 <= k < |ends| => ends[k] - starts[k] + 1)
  }

  lemma LengthsAreShort(starts: seq<nat>, ends: seq<nat>, bytes: seq<Byte>, varints: seq<seq<Byte>>)
    requires Delimits(starts, ends, bytes, varints)
    ensures forall k :: 0 <= k < |ends| ==> |varints[k]| <= MaxOf(Lengths(starts, ends))
    ensures MaxOf(Lengths(starts, ends)) <= MAX_VARINT_BYTES <==> AllShort(varints)
  {
    var lengths := Lengths(starts, ends);
    var m := MaxOf(lengths);
    assert forall k :: 0 <= k < |ends| ==> lengths[k] == |varints[k]|;
    if m > MAX_VARINT_BYTES {
      var k :| 0 <= k < |lengths| && lengths[k] == m;
      assert |varints[k]| > MAX_VARINT_BYTES;
    }
  }

  /** All columns of all varints: the loop over byte offsets. */
  method AssembleColumns(bytes: seq<Byte>, starts: seq<nat>, ends: seq<nat>, maxLength: nat,
                         ghost varints: seq<seq<Byte>>)
    returns (diffs: seq<nat>)
    requires Delimits(starts, ends, bytes, varints)
    requires forall k :: 0 <= k < |varints| ==> |varints[k]| <= maxLength
    ensures |diffs| == |varints| && forall k :: 0 <= k < |diffs| ==> diffs[k] == Value(varints[k])
  {
    diffs := seq(|ends|, _ => 0);
    for offset := 0 to maxLength
      invariant ColumnsDone(diffs, varints, offset)
    {
      ColumnsAdvance(diffs, bytes, starts, ends, varints, offset);
      diffs := OrColumn(diffs, bytes, starts, ends, offset);
    }
    forall k | 0 <= k < |diffs| ensures diffs[k] == Value(varints[k]) {
      assert FirstBytes(varints[k], maxLength) == varints[k];
    }
  }

  /** The column-wise decoder; `decode_varint_delta_indices` calls it with a positive count only. */
  method DecodeColumns(bytes: seq<Byte>, expectedCount: nat) returns (r: Result<seq<int>, DecodeError>)
    requires expectedCount > 0
    ensures r.ToOption() == Columnwise(bytes, expectedCount)
  {
    var ends := TerminalPositions(bytes);
    PositionsDelimit(bytes);
    ghost var varints := Parse(bytes).complete;
    if |ends| != expectedCount {
      if |bytes| > 0 && !Terminal(bytes[|bytes| - 1]) {
        return Err(Truncated);
      }
      if |ends| > expectedCount {
        return Err(TooManyIndices);
      }
      return Err(CountMismatch);
    }
    var starts := StartPositions(ends);
    var maxLength := MaxOf(Lengths(starts, ends));
    LengthsAreShort(starts, ends, bytes, varints);
    if maxLength > MAX_VARINT_BYTES {
      return Err(DeltaTooLong);
    }
    var diffs := AssembleColumns(bytes, starts, ends, maxLength, varints);
    CumSumDecodes(diffs, varints);
    r := Ok(CumSum64(diffs));
  }

  predicate HasContinuation(bytes: seq<Byte>) {
    exists i :: 0 <= i < |bytes| && bytes[i] >= 0x80
  }

  lemma SingleByteValue(b: Byte)
    requires b < 0x80
    ensures Value([b]) == b
  {
    assert [b][..0] == [];
  }

  lemma {:induction false} SingleByteVarints(bytes: seq<Byte>)
    requires !HasContinuation(bytes)
    ensures |Parse(bytes).complete| == |bytes| && Parse(bytes).tail == []
    ensures forall k :: 0 <= k < |bytes| ==> Parse(bytes).complete[k] == [bytes[k]]
  {
    if bytes != [] {
      var front := bytes[..|bytes| - 1];
      assert forall i :: 0 <= i < |front| ==> bytes[i] < 0x80;
      SingleByteVarints(front);
      assert Terminal(bytes[|bytes| - 1]);
    }
  }

  /** The public decoder: nothing expected, no continuation bit anywhere, or columns. */
  method DecodeVarintDeltaIndices(bytes: seq<Byte>, expectedCount: nat) returns (r: Result<seq<int>, DecodeError>)
    ensures r.ToOption() == PublicDecode(bytes, expectedCount)
  {
    if expectedCount == 0 {
      EmptyParse(bytes);
      if |bytes| != 0 {
        return Err(UnexpectedBytes);
      }
      return Ok([]);
    }
    if |bytes| == expectedCount && !HasContinuation(bytes) {
      SingleByteVarints(bytes);
      forall k | 0 <= k < |bytes| ensures bytes[k] == Value(Parse(bytes).complete[k]) {
        SingleByteValue(bytes[k]);
      }
      CumSumDecodes(bytes, Parse(bytes).complete);
      return Ok(CumSum64(bytes));
    }
    r := DecodeColumns(bytes, expectedCount);
  }
}
