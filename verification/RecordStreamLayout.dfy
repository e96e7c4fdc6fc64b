/** Where each byte of a delta stream stands, and which bytes are no stream: what two implementations must agree on. */
module RecordStreamLayout {
  import opened Wrappers
  import opened Varint
  import opened RecordStream

  /* ---------- Integers ---------- */

  /** Byte i counts 256 to the i. */
  lemma {:induction false} LittleEndian(bytes: seq<Byte>, b: Byte)
    ensures FromLE([]) == 0
    ensures FromLE(bytes + [b]) == FromLE(bytes) + b * Pow256(|bytes|)
  {
    if bytes == [] {
      assert [] + [b] == [b] && [b][1..] == [];
    } else {
      LittleEndian(bytes[1..], b);
      assert (bytes + [b])[1..] == bytes[1..] + [b];
      Shifted(FromLE(bytes[1..]), b, Pow256(|bytes| - 1));
    }
  }

  lemma Shifted(v: nat, b: nat, place: nat)
    ensures 0x100 * (v + b * place) == 0x100 * v + b * (0x100 * place)
  {
  }

  /* ---------- Records ---------- */

  /** The unsigned integer of n bytes from `at` on. */
  function Field(bytes: seq<Byte>, at: nat, n: nat): nat
    requires at + n <= |bytes|
  {
    FromLE(bytes[at..at + n])
  }

  /** How long the record is whose head the bytes begin with. */
  function RecordLength(version: nat, bytes: seq<Byte>): nat
    requires |bytes| >= 24
  {
    24 + Field(bytes, 0, 4) + (if version == 2 then 8 * Field(bytes, 6, 2) else 0)
      + Field(bytes, 8, 8) + Field(bytes, 16, 8) * DtypeSize(bytes[5])
  }

  /** The bytes begin with a record: a whole one with a known dtype and an index payload that fits its format. */
  predicate BeginsWithRecord(version: nat, bytes: seq<Byte>) {
    && |bytes| >= 24
    && (version == 1 ==> Field(bytes, 6, 2) == 0)
    && 1 <= bytes[5] <= 8
    && (|| bytes[4] == 0
        || (bytes[4] == 1 && Field(bytes, 8, 8) % 4 == 0)
        || (bytes[4] == 2 && Field(bytes, 8, 8) % 8 == 0))
    && RecordLength(version, bytes) <= |bytes|
  }

  /** The dimensions stand from `at` on, eight bytes each. */
  predicate DimsAre(bytes: seq<Byte>, at: nat, shape: seq<nat>)
    requires at + 8 * |shape| <= |bytes|
  {
    forall i :: 0 <= i < |shape| ==> shape[i] == Field(bytes, at + 8 * i, 8)
  }

  /** The parts of a record, one behind the other: head, name, dimensions, indices, values. */
  predicate RecordAt(version: nat, bytes: seq<Byte>, r: Record)
    requires |bytes| >= 24 && RecordLength(version, bytes) <= |bytes|
  {
    var shapeAt := 24 + Field(bytes, 0, 4);
    var indicesAt := shapeAt + if version == 2 then 8 * Field(bytes, 6, 2) else 0;
    var valuesAt := indicesAt + Field(bytes, 8, 8);
    && r.name == bytes[24..shapeAt]
    && (r.shape.Some? <==> version == 2)
    && (r.shape.Some? ==>
          |r.shape.value| == Field(bytes, 6, 2) && DimsAre(bytes, shapeAt, r.shape.value))
    && r.indexFormat == bytes[4] && r.dtype == bytes[5]
    && r.indices == bytes[indicesAt..valuesAt]
    && r.values == bytes[valuesAt..RecordLength(version, bytes)]
  }

  lemma {:induction false} DimAt(bytes: seq<Byte>, n: nat, i: nat)
    requires |bytes| >= 8 * n && i < n
    ensures ParseDims(bytes, n)[i] == Field(bytes, 8 * i, 8)
  {
    if i > 0 {
      DimAt(bytes[8..], n - 1, i - 1);
      PartOfPart(bytes, 8, |bytes|, 8 * (i - 1), 8 * (i - 1) + 8);
      assert bytes[8..|bytes|] == bytes[8..];
    }
  }

  /** The reader takes a record exactly when the bytes begin with one, and exactly its bytes. */
  lemma ParseExactly(version: nat, bytes: seq<Byte>)
    requires version == 1 || version == 2
    ensures var taken := ParseRecord(version, bytes);
      && (taken.Some? <==> BeginsWithRecord(version, bytes))
      && (taken.Some? ==>
            && RecordAt(version, bytes, taken.value.record)
            && taken.value.rest == bytes[RecordLength(version, bytes)..])
  {
    if |bytes| >= 24 {
      HeadFields(bytes);
      DtypesExactly(bytes[5]);
      if HeadAccepted(version, HeadAt(bytes)) {
        BodyExactly(version, bytes);
      }
    }
  }

  function HeadAt(bytes: seq<Byte>): Head
    requires |bytes| >= 24
  {
    Head(Field(bytes, 0, 4), bytes[4], bytes[5], Field(bytes, 6, 2), Field(bytes, 8, 8), Field(bytes, 16, 8))
  }

  lemma HeadFields(bytes: seq<Byte>)
    requires |bytes| >= 24
    ensures ParseHead(bytes[..24]) == HeadAt(bytes)
  {
    var head := bytes[..24];
    assert head[0..4] == bytes[0..4] && head[6..8] == bytes[6..8];
    assert head[8..16] == bytes[8..16] && head[16..24] == bytes[16..24];
  }

  /** Reading on from `at`. */
  lemma ReadAt(bytes: seq<Byte>, at: nat, n: nat)
    requires at <= |bytes|
    ensures ReadExact(bytes[at..], n) ==
      if at + n <= |bytes| then Some(Cut(bytes[at..at + n], bytes[at + n..])) else None
  {
    if at + n <= |bytes| {
      assert bytes[at..][..n] == bytes[at..at + n] && bytes[at..][n..] == bytes[at + n..];
    }
  }

  lemma PartOfPart(bytes: seq<Byte>, from: nat, to: nat, i: nat, j: nat)
    requires from <= to <= |bytes| && i <= j <= to - from
    ensures bytes[from..to][i..j] == bytes[from + i..from + j]
  {
    var whole := bytes[from..to];
    assert |whole[i..j]| == j - i;
    forall k | 0 <= k < j - i ensures whole[i..j][k] == bytes[from + i..from + j][k] {
      assert whole[i..j][k] == whole[i + k];
    }
  }

  lemma DimsAt(bytes: seq<Byte>, at: nat, n: nat)
    requires at + 8 * n <= |bytes|
    ensures DimsAre(bytes, at, ParseDims(bytes[at..at + 8 * n], n))
  {
    var dims := bytes[at..at + 8 * n];
    forall i | 0 <= i < n ensures ParseDims(dims, n)[i] == Field(bytes, at + 8 * i, 8) {
      DimAt(dims, n, i);
      PartOfPart(bytes, at, at + 8 * n, 8 * i, 8 * i + 8);
    }
  }

  lemma BodyExactly(version: nat, bytes: seq<Byte>)
    requires (version == 1 || version == 2) && |bytes| >= 24 && HeadAccepted(version, HeadAt(bytes))
    ensures TakenExactly(version, bytes, ParseBody(version, HeadAt(bytes), bytes[24..]))
  {
    if version == 2 {
      BodyWithShape(bytes);
    } else {
      BodyWithoutShape(bytes);
    }
  }

  lemma BodyWithShape(bytes: seq<Byte>)
    requires |bytes| >= 24 && HeadAccepted(2, HeadAt(bytes))
    ensures TakenExactly(2, bytes, ParseBody(2, HeadAt(bytes), bytes[24..]))
  {
    ShapeRead(bytes);
    ShapedExactly(bytes);
  }

  /** What the reader makes of the bytes behind a head that announces a shape. */
  function Shaped(bytes: seq<Byte>): Option<Taken>
    requires |bytes| >= 24
  {
    var shapeAt, dims := 24 + Field(bytes, 0, 4), Field(bytes, 6, 2);
    if shapeAt + 8 * dims > |bytes| then None
    else
      var shape := ParseDims(bytes[shapeAt..shapeAt + 8 * dims], dims);
      ParsePayload(HeadAt(bytes), bytes[24..shapeAt], Some(shape), bytes[shapeAt + 8 * dims..])
  }

  lemma ShapedExactly(bytes: seq<Byte>)
    requires |bytes| >= 24
    ensures TakenExactly(2, bytes, Shaped(bytes))
  {
    var shapeAt, dims := 24 + Field(bytes, 0, 4), Field(bytes, 6, 2);
    if shapeAt + 8 * dims > |bytes| {
      ShapeMissing(bytes, shapeAt + 8 * dims);
    } else {
      var shape := ParseDims(bytes[shapeAt..shapeAt + 8 * dims], dims);
      var taken := ParsePayload(HeadAt(bytes), bytes[24..shapeAt], Some(shape), bytes[shapeAt + 8 * dims..]);
      assert Shaped(bytes) == taken;
      assert TakenExactly(2, bytes, taken) by {
        ShapeAt(bytes, shapeAt, dims);
      }
    }
  }

  lemma ShapeMissing(bytes: seq<Byte>, at: nat)
    requires |bytes| >= 24 && at == 24 + Field(bytes, 0, 4) + 8 * Field(bytes, 6, 2) && at > |bytes|
    ensures TakenExactly(2, bytes, None)
  {
  }

  lemma ShapeAt(bytes: seq<Byte>, shapeAt: nat, dims: nat)
    requires |bytes| >= 24 && shapeAt == 24 + Field(bytes, 0, 4) && dims == Field(bytes, 6, 2)
    requires shapeAt + 8 * dims <= |bytes|
    ensures var shape := ParseDims(bytes[shapeAt..shapeAt + 8 * dims], dims);
      TakenExactly(2, bytes,
        ParsePayload(HeadAt(bytes), bytes[24..shapeAt], Some(shape), bytes[shapeAt + 8 * dims..]))
  {
    DimsAt(bytes, shapeAt, dims);
    BehindShape(bytes, shapeAt, ParseDims(bytes[shapeAt..shapeAt + 8 * dims], dims));
  }

  /** The payload behind a shape that has been read. */
  lemma BehindShape(bytes: seq<Byte>, shapeAt: nat, shape: seq<nat>)
    requires |bytes| >= 24 && shapeAt == 24 + Field(bytes, 0, 4) && |shape| == Field(bytes, 6, 2)
    requires shapeAt + 8 * |shape| <= |bytes| && DimsAre(bytes, shapeAt, shape)
    ensures TakenExactly(2, bytes,
      ParsePayload(HeadAt(bytes), bytes[24..shapeAt], Some(shape), bytes[shapeAt + 8 * |shape|..]))
  {
    PayloadExactly(HeadAt(bytes), bytes[24..shapeAt], Some(shape), bytes, shapeAt + 8 * |shape|);
  }

  /** What a reader of the version does with bytes whose head it accepts. */
  predicate TakenExactly(version: nat, bytes: seq<Byte>, taken: Option<Taken>)
    requires |bytes| >= 24
  {
    && (taken.Some? <==> RecordLength(version, bytes) <= |bytes| && IndexFits(bytes[4], Field(bytes, 8, 8)))
    && (taken.Some? ==>
          RecordAt(version, bytes, taken.value.record) && taken.value.rest == bytes[RecordLength(version, bytes)..])
  }

  lemma ShapeRead(bytes: seq<Byte>)
    requires |bytes| >= 24 && HeadAccepted(2, HeadAt(bytes))
    ensures ParseBody(2, HeadAt(bytes), bytes[24..]) == Shaped(bytes)
  {
    var h := HeadAt(bytes);
    ReadAt(bytes, 24, h.nameSize);
    if 24 + h.nameSize <= |bytes| {
      ReadAt(bytes, 24 + h.nameSize, h.reserved * 8);
    }
  }

  lemma BodyWithoutShape(bytes: seq<Byte>)
    requires |bytes| >= 24 && HeadAccepted(1, HeadAt(bytes))
    ensures TakenExactly(1, bytes, ParseBody(1, HeadAt(bytes), bytes[24..]))
  {
    var h := HeadAt(bytes);
    ReadAt(bytes, 24, h.nameSize);
    if 24 + h.nameSize <= |bytes| {
      PayloadExactly(h, bytes[24..24 + h.nameSize], None, bytes, 24 + h.nameSize);
    }
  }

  lemma PayloadExactly(h: Head, name: seq<Byte>, shape: Option<seq<nat>>, bytes: seq<Byte>, at: nat)
    requires at <= |bytes|
    ensures var end := at + h.indexSize + h.valueCount * DtypeSize(h.dtype);
      ParsePayload(h, name, shape, bytes[at..]) ==
      if end <= |bytes| && IndexFits(h.indexFormat, h.indexSize)
      then Some(Taken(Record(name, shape, h.indexFormat, h.dtype, bytes[at..at + h.indexSize],
                             bytes[at + h.indexSize..end]), bytes[end..]))
      else None
  {
    ReadAt(bytes, at, h.indexSize);
    if at + h.indexSize <= |bytes| {
      ReadAt(bytes, at + h.indexSize, h.valueCount * DtypeSize(h.dtype));
    }
  }

  /** Bytes a value: 2 for the first two dtypes, then 4, 8, 8, 4, 1 and 1; every other code is unknown. */
  lemma DtypesExactly(code: Byte)
    ensures DtypeSize(code) == if 1 <= code <= 8 then [2, 2, 4, 8, 8, 4, 1, 1][code - 1] else 0
    ensures DtypeSize(code) > 0 <==> 1 <= code <= 8
  {
  }

  /* ---------- Files ---------- */

  /** A file begins with PDELSTRM and its version, 1 or 2, in four bytes; the writer writes version 2. */
  lemma HeaderExactly(bytes: seq<Byte>)
    ensures var version := StreamVersion(bytes);
      && (version.Some? <==>
            && |bytes| >= 12
            && bytes[..8] == [0x50, 0x44, 0x45, 0x4C, 0x53, 0x54, 0x52, 0x4D]
            && (Field(bytes, 8, 4) == 1 || Field(bytes, 8, 4) == 2))
      && (version.Some? ==> version == Some(Field(bytes, 8, 4)))
    ensures FileHeader(2) == [0x50, 0x44, 0x45, 0x4C, 0x53, 0x54, 0x52, 0x4D, 2, 0, 0, 0]
  {
    assert ToLE(4, 2) == [2, 0, 0, 0];
  }

  /** What can be written: a known dtype, whole values, an index payload that fits its format, and sizes that fit. */
  lemma WritableExactly(r: Record)
    requires 1 <= r.dtype <= 8 && r.shape.Some?
    ensures var size := [2, 2, 4, 8, 8, 4, 1, 1][r.dtype - 1];
      Writable(r) <==>
        && |r.values| % size == 0
        && (|| r.indexFormat == 0
            || (r.indexFormat == 1 && |r.indices| % 4 == 0)
            || (r.indexFormat == 2 && |r.indices| % 8 == 0))
        && (forall i :: 0 <= i < |r.shape.value| ==> r.shape.value[i] < Pow256(8))
        && |r.name| < Pow256(4) && |r.shape.value| < Pow256(2) && |r.indices| < Pow256(8)
        && |r.values| / size < Pow256(8)
  {
    DtypesExactly(r.dtype);
  }

  /** The writer refuses exactly an unknown dtype, a missing shape and one with too many dimensions. */
  lemma RefusedExactly(r: Record)
    ensures WriterAccepts(r) <==> 1 <= r.dtype <= 8 && r.shape.Some? && |r.shape.value| < 65536
  {
    DtypesExactly(r.dtype);
    assert Pow256(2) == 65536;
  }
}
