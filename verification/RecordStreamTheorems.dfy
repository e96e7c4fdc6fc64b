/** The delta stream is uniquely decodable, and a cut one is noticed unless it falls between records. */
module RecordStreamTheorems {
  import opened Wrappers
  import opened Varint
  import opened RecordStream

  lemma ReadBack(a: seq<Byte>, b: seq<Byte>)
    ensures ReadExact(a + b, |a|) == Some(Cut(a, b))
  {
  }

  /** Four parts of a head, apart again. */
  lemma HeadParts(a: seq<Byte>, b: seq<Byte>, c: seq<Byte>, d: seq<Byte>, e: seq<Byte>)
    requires |a| == 4 && |b| == 2 && |c| == 2 && |d| == 8 && |e| == 8
    ensures var all := a + b + c + d + e;
      && |all| == HEAD_SIZE && all[0..4] == a && all[4..6] == b && all[6..8] == c && all[8..16] == d && all[16..24] == e
      && all[4] == b[0] && all[5] == b[1]
  {
  }

  lemma HeadRoundTrip(h: Head)
    requires Packable(h)
    ensures ParseHead(HeadBytes(h)) == h
  {
    HeadParts(ToLE(UINT32, h.nameSize), [h.indexFormat, h.dtype], ToLE(UINT16, h.reserved),
              ToLE(UINT64, h.indexSize), ToLE(UINT64, h.valueCount));
    LittleEndianRoundTrip(UINT32, h.nameSize);
    LittleEndianRoundTrip(UINT16, h.reserved);
    LittleEndianRoundTrip(UINT64, h.indexSize);
    LittleEndianRoundTrip(UINT64, h.valueCount);
  }

  lemma {:induction false} DimsRoundTrip(shape: seq<nat>)
    requires forall i :: 0 <= i < |shape| ==> shape[i] < Pow256(UINT64)
    ensures ParseDims(DimBytes(shape), |shape|) == shape
  {
    if shape != [] {
      LittleEndianRoundTrip(UINT64, shape[0]);
      DimsRoundTrip(shape[1..]);
      assert DimBytes(shape)[..8] == ToLE(UINT64, shape[0]);
      assert DimBytes(shape)[8..] == DimBytes(shape[1..]);
    }
  }

  lemma CountTimesSize(size: nat, values: nat)
    requires size == 1 || size == 2 || size == 4 || size == 8
    requires values % size == 0
    ensures values / size * size == values
  {
  }

  /** What follows the head, in order. */
  function BodyBytes(r: Record): seq<Byte>
    requires r.shape.Some?
  {
    r.name + (DimBytes(r.shape.value) + (r.indices + r.values))
  }

  lemma RecordIsHeadAndBody(r: Record)
    requires Writable(r)
    ensures RecordBytes(r) == HeadBytes(HeadOf(r)) + BodyBytes(r)
  {
    Associate(HeadBytes(HeadOf(r)), r.name, DimBytes(r.shape.value), r.indices, r.values);
  }

  lemma Associate(a: seq<Byte>, b: seq<Byte>, c: seq<Byte>, d: seq<Byte>, e: seq<Byte>)
    ensures a + b + c + d + e == a + (b + (c + (d + e)))
  {
  }

  lemma BodyRoundTrip(r: Record, rest: seq<Byte>)
    requires Writable(r)
    ensures ParseBody(2, HeadOf(r), BodyBytes(r) + rest) == Some(Taken(r, rest))
  {
    var dims := DimBytes(r.shape.value);
    DimsRoundTrip(r.shape.value);
    PayloadRoundTrip(r, rest);
    var payload := r.indices + (r.values + rest);
    BodyParts(r.name, dims, r.indices, r.values, rest);
    ReadBack(r.name, dims + payload);
    ReadBack(dims, payload);
  }

  lemma BodyParts(a: seq<Byte>, b: seq<Byte>, c: seq<Byte>, d: seq<Byte>, rest: seq<Byte>)
    ensures a + (b + (c + d)) + rest == a + (b + (c + (d + rest)))
  {
  }

  lemma PayloadRoundTrip(r: Record, rest: seq<Byte>)
    requires Writable(r)
    ensures ParsePayload(HeadOf(r), r.name, r.shape, r.indices + (r.values + rest)) == Some(Taken(r, rest))
  {
    CountTimesSize(DtypeSize(r.dtype), |r.values|);
    ReadBack(r.indices, r.values + rest);
    ReadBack(r.values, rest);
  }

  lemma RecordRoundTrip(r: Record, rest: seq<Byte>)
    requires Writable(r)
    ensures ParseRecord(2, RecordBytes(r) + rest) == Some(Taken(r, rest))
  {
    var head := HeadBytes(HeadOf(r));
    RecordIsHeadAndBody(r);
    assert RecordBytes(r) + rest == head + (BodyBytes(r) + rest);
    ReadBack(head, BodyBytes(r) + rest);
    HeadRoundTrip(HeadOf(r));
    BodyRoundTrip(r, rest);
  }

  /** The body of a record needs all its bytes. */
  lemma BodyNeedsAll(h: Head, bytes: seq<Byte>)
    requires HeadAccepted(2, h) && ParseBody(2, h, bytes).Some?
    ensures |bytes| >= h.nameSize + 8 * h.reserved + h.indexSize + h.valueCount * DtypeSize(h.dtype)
  {
  }

  lemma CutRecordRaises(r: Record, cut: seq<Byte>)
    requires Writable(r) && cut <= RecordBytes(r) && cut != RecordBytes(r)
    ensures ParseRecord(2, cut) == None
  {
    if |cut| >= HEAD_SIZE {
      var head := HeadBytes(HeadOf(r));
      RecordIsHeadAndBody(r);
      assert cut[..HEAD_SIZE] == RecordBytes(r)[..HEAD_SIZE] == head;
      HeadRoundTrip(HeadOf(r));
      CountTimesSize(DtypeSize(r.dtype), |r.values|);
      if ParseBody(2, HeadOf(r), cut[HEAD_SIZE..]).Some? {
        BodyNeedsAll(HeadOf(r), cut[HEAD_SIZE..]);
      }
    }
  }

  ghost predicate AllWritable(records: seq<Record>) {
    forall r :: r in records ==> Writable(r)
  }

  lemma ReadOneMore(r: Record, rest: seq<Byte>)
    requires Writable(r)
    ensures var others := ReadRecords(2, rest);
      ReadRecords(2, RecordBytes(r) + rest) == Reading([r] + others.records, others.ok)
  {
    RecordRoundTrip(r, rest);
    assert RecordBytes(r) != [];
  }

  /** Whole records are yielded, then the tail decides how reading ends. */
  lemma {:induction false} ReadWhole(records: seq<Record>, tail: seq<Byte>)
    requires AllWritable(records) && (tail == [] || ParseRecord(2, tail).None?)
    ensures ReadRecords(2, AllBytes(records) + tail) == Reading(records, tail == [])
  {
    if records == [] {
      assert AllBytes(records) + tail == tail;
    } else {
      var first, rest := RecordBytes(records[0]), AllBytes(records[1..]) + tail;
      assert AllBytes(records) + tail == first + rest;
      ReadWhole(records[1..], tail);
      ReadOneMore(records[0], rest);
      assert [records[0]] + records[1..] == records;
    }
  }

  lemma HeaderRoundTrip(rest: seq<Byte>)
    ensures StreamVersion(FileHeader(2) + rest) == Some(2)
  {
    var bytes := FileHeader(2) + rest;
    assert bytes[..8] == MAGIC;
    assert bytes[8..12] == ToLE(UINT32, 2);
    LittleEndianRoundTrip(UINT32, 2);
  }

  lemma ReadBehindHeader(rest: seq<Byte>)
    ensures ReadStream(FileHeader(2) + rest) == ReadRecords(2, rest)
  {
    HeaderRoundTrip(rest);
    assert (FileHeader(2) + rest)[FILE_HEADER_SIZE..] == rest;
  }

  /** Reading back what was written yields it. */
  lemma StreamRoundTrip(records: seq<Record>)
    requires AllWritable(records)
    ensures ReadStream(FileHeader(2) + AllBytes(records)) == Reading(records, true)
  {
    HeaderRoundTrip(AllBytes(records));
    ReadWhole(records, []);
    assert AllBytes(records) + [] == AllBytes(records);
  }

  lemma StreamIsUniquelyDecodable(a: seq<Record>, b: seq<Record>)
    requires AllWritable(a) && AllWritable(b) && AllBytes(a) == AllBytes(b)
    ensures a == b
  {
    StreamRoundTrip(a);
    StreamRoundTrip(b);
  }

  /** Bytes of the first k records. */
  function Boundary(records: seq<Record>, k: nat): nat
    requires AllWritable(records) && k <= |records|
  {
    |AllBytes(records[..k])|
  }

  lemma {:induction false} SplitAt(records: seq<Record>, k: nat)
    requires AllWritable(records) && k <= |records|
    ensures AllBytes(records) == AllBytes(records[..k]) + AllBytes(records[k..])
  {
    if k > 0 {
      SplitAt(records[1..], k - 1);
      assert records[..k][1..] == records[1..][..k - 1];
      assert records[1..][k - 1..] == records[k..];
    } else {
      assert records[..0] == [] && records[0..] == records;
    }
  }

  /** The records a cut leaves whole, found by walking from the front. */
  lemma {:induction false} CutPoint(records: seq<Record>, c: nat) returns (k: nat)
    requires AllWritable(records) && c <= |AllBytes(records)|
    ensures k <= |records| && Boundary(records, k) <= c
    ensures k < |records| ==> c < Boundary(records, k) + |RecordBytes(records[k])|
  {
    if records == [] || c < |RecordBytes(records[0])| {
      k := 0;
    } else {
      var j := CutPoint(records[1..], c - |RecordBytes(records[0])|);
      k := j + 1;
      assert records[..k][1..] == records[1..][..j];
    }
  }

  /**
   A file cut behind its header yields the records in front of the cut; reading it ends without an error
   exactly when the cut falls between two records.
   */
  lemma CutStreamYieldsPrefix(records: seq<Record>, c: nat) returns (k: nat)
    requires AllWritable(records) && c <= |AllBytes(records)|
    ensures k <= |records| && Boundary(records, k) <= c
    ensures k < |records| ==> c < Boundary(records, k + 1)
    ensures ReadStream(FileHeader(2) + AllBytes(records)[..c]) == Reading(records[..k], c == Boundary(records, k))
  {
    k := CutPoint(records, c);
    CutReads(records, k, c);
    ReadBehindHeader(AllBytes(records)[..c]);
    if k < |records| {
      NextBoundary(records, k);
    }
  }

  lemma CutReads(records: seq<Record>, k: nat, c: nat)
    requires AllWritable(records) && k <= |records| && Boundary(records, k) <= c <= |AllBytes(records)|
    requires k < |records| ==> c < Boundary(records, k) + |RecordBytes(records[k])|
    ensures ReadRecords(2, AllBytes(records)[..c]) == Reading(records[..k], c == Boundary(records, k))
  {
    SplitAt(records, k);
    var whole, behind := AllBytes(records[..k]), AllBytes(records[k..]);
    var tail := behind[..c - |whole|];
    if k < |records| {
      TailRaises(records, k, tail);
    }
    ReadWhole(records[..k], tail);
    CutOfSum(whole, behind, c);
  }

  lemma CutOfSum(whole: seq<Byte>, behind: seq<Byte>, c: nat)
    requires |whole| <= c <= |whole| + |behind|
    ensures (whole + behind)[..c] == whole + behind[..c - |whole|]
  {
  }

  lemma TailRaises(records: seq<Record>, k: nat, tail: seq<Byte>)
    requires AllWritable(records) && k < |records|
    requires tail <= AllBytes(records[k..]) && |tail| < |RecordBytes(records[k])|
    ensures tail == [] || ParseRecord(2, tail).None?
  {
    assert records[k..][0] == records[k];
    assert tail <= RecordBytes(records[k]);
    CutRecordRaises(records[k], tail);
  }

  lemma NextBoundary(records: seq<Record>, k: nat)
    requires AllWritable(records) && k < |records|
    ensures Boundary(records, k + 1) == Boundary(records, k) + |RecordBytes(records[k])|
  {
    assert records[..k + 1] == records[..k] + [records[k]];
    AllBytesAppend(records[..k], records[k]);
  }

  /** A file cut inside its header yields nothing and raises. */
  lemma CutHeaderRaises(records: seq<Record>, c: nat)
    requires AllWritable(records) && c < FILE_HEADER_SIZE
    ensures ReadStream((FileHeader(2) + AllBytes(records))[..c]) == Reading([], false)
  {
  }
}
