/** The delta stream file: a header, then self-delimiting records, one a changed tensor. */
module RecordStream {
  import opened Wrappers
  import opened Varint

  /* ---------- Little-endian integers ---------- */

  /** Bytes of the integers a stream holds. */
  const UINT16: nat := 2
  const UINT32: nat := 4
  const UINT64: nat := 8

  function Pow256(k: nat): nat {
    if k == 0 then 1 else 0x100 * Pow256(k - 1)
  }

  function ToLE(k: nat, v: nat): (bytes: seq<Byte>)
    ensures |bytes| == k
  {
    if k == 0 then [] else [v % 0x100] + ToLE(k - 1, v / 0x100)
  }

  function FromLE(bytes: seq<Byte>): nat {
    if bytes == [] then 0 else bytes[0] + 0x100 * FromLE(bytes[1..])
  }

  lemma {:induction false} LittleEndianRoundTrip(k: nat, v: nat)
    requires v < Pow256(k)
    ensures FromLE(ToLE(k, v)) == v
  {
    if k > 0 {
      LittleEndianRoundTrip(k - 1, v / 0x100);
      assert ToLE(k, v)[1..] == ToLE(k - 1, v / 0x100);
    }
  }

  /* ---------- Records ---------- */

  /** Index and value tensors are their bytes. Streams of version 1 carry no shape. */
  datatype Record = Record(
    name: seq<Byte>,
    shape: Option<seq<nat>>,
    indexFormat: Byte,
    dtype: Byte,
    indices: seq<Byte>,
    values: seq<Byte>)

  /** Bytes of one value, 0 for a code that is no dtype. */
  function DtypeSize(code: Byte): nat {
    match code
    case 1 => 2
    case 2 => 2
    case 3 => 4
    case 4 => 8
    case 5 => 8
    case 6 => 4
    case 7 => 1
    case 8 => 1
    case _ => 0
  }

  /** The index payload fits its format: varint bytes, int32 or int64. */
  predicate IndexFits(format: Byte, size: nat) {
    format == 0 || (format == 1 && size % 4 == 0) || (format == 2 && size % 8 == 0)
  }

  const HEAD_SIZE := 24

  datatype Head = Head(nameSize: nat, indexFormat: Byte, dtype: Byte, reserved: nat, indexSize: nat, valueCount: nat)

  predicate Packable(h: Head) {
    && h.nameSize < Pow256(UINT32) && h.reserved < Pow256(UINT16)
    && h.indexSize < Pow256(UINT64) && h.valueCount < Pow256(UINT64)
  }

  function HeadBytes(h: Head): (bytes: seq<Byte>)
    ensures |bytes| == HEAD_SIZE
  {
    ToLE(UINT32, h.nameSize) + [h.indexFormat, h.dtype] + ToLE(UINT16, h.reserved) + ToLE(UINT64, h.indexSize)
      + ToLE(UINT64, h.valueCount)
  }

  function ParseHead(bytes: seq<Byte>): Head
    requires |bytes| >= HEAD_SIZE
  {
    Head(FromLE(bytes[0..4]), bytes[4], bytes[5], FromLE(bytes[6..8]), FromLE(bytes[8..16]), FromLE(bytes[16..24]))
  }

  /** The dimensions as unsigned 64-bit integers. */
  function DimBytes(shape: seq<nat>): (bytes: seq<Byte>)
    ensures |bytes| == 8 * |shape|
  {
    if shape == [] then [] else ToLE(UINT64, shape[0]) + DimBytes(shape[1..])
  }

  function ParseDims(bytes: seq<Byte>, n: nat): (shape: seq<nat>)
    requires |bytes| >= 8 * n
    ensures |shape| == n
  {
    if n == 0 then [] else [FromLE(bytes[..8])] + ParseDims(bytes[8..], n - 1)
  }

  /** What the writer accepts; sizes are those a tensor and a path can have. */
  predicate Writable(r: Record) {
    && DtypeSize(r.dtype) > 0
    && |r.values| % DtypeSize(r.dtype) == 0
    && IndexFits(r.indexFormat, |r.indices|)
    && r.shape.Some? && (forall i :: 0 <= i < |r.shape.value| ==> r.shape.value[i] < Pow256(UINT64))
    && Packable(HeadOf(r))
  }

  function HeadOf(r: Record): Head
    requires DtypeSize(r.dtype) > 0 && r.shape.Some?
  {
    Head(|r.name|, r.indexFormat, r.dtype, |r.shape.value|, |r.indices|, |r.values| / DtypeSize(r.dtype))
  }

  function RecordBytes(r: Record): (bytes: seq<Byte>)
    requires Writable(r)
    ensures |bytes| == HEAD_SIZE + |r.name| + 8 * |r.shape.value| + |r.indices| + |r.values|
  {
    HeadBytes(HeadOf(r)) + r.name + DimBytes(r.shape.value) + r.indices + r.values
  }

  /** The next n bytes of a stream and what remains. */
  datatype Cut = Cut(data: seq<Byte>, rest: seq<Byte>)

  /** None when the stream is shorter. */
  function ReadExact(bytes: seq<Byte>, n: nat): Option<Cut> {
    if |bytes| < n then None else Some(Cut(bytes[..n], bytes[n..]))
  }

  /** A record and the stream behind it. */
  datatype Taken = Taken(record: Record, rest: seq<Byte>)

  predicate HeadAccepted(version: nat, h: Head) {
    (version == 1 ==> h.reserved == 0) && DtypeSize(h.dtype) > 0
  }

  /** The record at the start of the stream; None when the reader raises. */
  function ParseRecord(version: nat, bytes: seq<Byte>): Option<Taken> {
    var head := ReadExact(bytes, HEAD_SIZE);
    if head.None? || !HeadAccepted(version, ParseHead(head.value.data)) then None
    else ParseBody(version, ParseHead(head.value.data), head.value.rest)
  }

  function ParseBody(version: nat, h: Head, bytes: seq<Byte>): Option<Taken>
    requires HeadAccepted(version, h)
  {
    var name := ReadExact(bytes, h.nameSize);
    if name.None? then None
    else if version != 2 then ParsePayload(h, name.value.data, None, name.value.rest)
    else
      var dims := ReadExact(name.value.rest, h.reserved * 8);
      if dims.None? then None
      else ParsePayload(h, name.value.data, Some(ParseDims(dims.value.data, h.reserved)), dims.value.rest)
  }

  function ParsePayload(h: Head, name: seq<Byte>, shape: Option<seq<nat>>, bytes: seq<Byte>): Option<Taken> {
    var indices := ReadExact(bytes, h.indexSize);
    if indices.None? then None
    else
      var values := ReadExact(indices.value.rest, h.valueCount * DtypeSize(h.dtype));
      if values.None? || !IndexFits(h.indexFormat, h.indexSize) then None
      else Some(Taken(Record(name, shape, h.indexFormat, h.dtype, indices.value.data, values.value.data),
                      values.value.rest))
  }

  /** A record takes at least its head. */
  lemma RecordTakes(version: nat, bytes: seq<Byte>)
    requires ParseRecord(version, bytes).Some?
    ensures |ParseRecord(version, bytes).value.rest| + HEAD_SIZE <= |bytes|
  {
  }

  /** The records a reader yields, and whether it reached the end without raising. */
  datatype Reading = Reading(records: seq<Record>, ok: bool)

  function ReadRecords(version: nat, bytes: seq<Byte>): Reading
    decreases |bytes|
  {
    if bytes == [] then Reading([], true)
    else
      var first := ParseRecord(version, bytes);
      if first.None? then Reading([], false)
      else
        RecordTakes(version, bytes);
        var rest := ReadRecords(version, first.value.rest);
        Reading([first.value.record] + rest.records, rest.ok)
  }

  const MAGIC: seq<Byte> := [0x50, 0x44, 0x45, 0x4C, 0x53, 0x54, 0x52, 0x4D]
  const FILE_HEADER_SIZE := 12

  function FileHeader(version: nat): (bytes: seq<Byte>)
    ensures |bytes| == FILE_HEADER_SIZE
  {
    MAGIC + ToLE(UINT32, version)
  }

  /** None when the header is cut short, has the wrong magic or an unknown version. */
  function StreamVersion(bytes: seq<Byte>): Option<nat> {
    if |bytes| < FILE_HEADER_SIZE || bytes[..8] != MAGIC then None
    else
      var version := FromLE(bytes[8..12]);
      if version == 1 || version == 2 then Some(version) else None
  }

  function ReadStream(bytes: seq<Byte>): Reading {
    match StreamVersion(bytes)
    case None => Reading([], false)
    case Some(version) => ReadRecords(version, bytes[FILE_HEADER_SIZE..])
  }

  function AllBytes(records: seq<Record>): seq<Byte>
    requires forall r :: r in records ==> Writable(r)
  {
    if records == [] then [] else RecordBytes(records[0]) + AllBytes(records[1..])
  }

  /* ---------- The code ---------- */

  class StreamingDeltaWriter {
    var file: seq<Byte>
    ghost var written: seq<Record>

    /** The file is the header and the written records. */
    ghost predicate Valid()
      reads this
    {
      IsStream(file, written)
    }

    constructor ()
      ensures Valid() && written == []
    {
      file := FileHeader(2);
      written := [];
    }

    /** Appends one record; an unsupported dtype or too many dimensions raise before anything is written. */
    method WriteRecord(r: Record) returns (ok: bool)
      requires Valid()
      requires WriterAccepts(r) ==> Writable(r)
      modifies this
      ensures Valid()
      ensures ok <==> WriterAccepts(r)
      ensures written == if ok then old(written) + [r] else old(written)
    {
      if DtypeSize(r.dtype) == 0 || r.shape.None? || |r.shape.value| >= Pow256(UINT16) {
        return false;
      }
      var head := HeadBytes(HeadOf(r));
      var shapeBytes := if r.shape.value != [] then DimBytes(r.shape.value) else [];
      file := file + head + r.name + shapeBytes + r.indices + r.values;
      StreamGrows(old(file), written, r, head, shapeBytes);
      written := written + [r];
      ok := true;
    }
  }

  /** What the writer checks. */
  predicate WriterAccepts(r: Record) {
    DtypeSize(r.dtype) > 0 && r.shape.Some? && |r.shape.value| < Pow256(UINT16)
  }

  ghost predicate IsStream(file: seq<Byte>, written: seq<Record>) {
    (forall r :: r in written ==> Writable(r)) && file == FileHeader(2) + AllBytes(written)
  }

  lemma StreamGrows(file: seq<Byte>, written: seq<Record>, r: Record, head: seq<Byte>, dims: seq<Byte>)
    requires IsStream(file, written) && Writable(r)
    requires head == HeadBytes(HeadOf(r)) && dims == DimBytes(r.shape.value)
    ensures IsStream(file + head + r.name + dims + r.indices + r.values, written + [r])
  {
    AllBytesAppend(written, r);
    Appended(FileHeader(2), AllBytes(written), head, r.name, dims, r.indices, r.values);
  }

  lemma Appended(header: seq<Byte>, body: seq<Byte>, a: seq<Byte>, b: seq<Byte>, c: seq<Byte>, d: seq<Byte>,
                 e: seq<Byte>)
    ensures header + body + a + b + c + d + e == header + (body + (a + b + c + d + e))
  {
  }

  lemma {:induction false} AllBytesAppend(records: seq<Record>, r: Record)
    requires (forall x :: x in records ==> Writable(x)) && Writable(r)
    ensures AllBytes(records + [r]) == AllBytes(records) + RecordBytes(r)
  {
    if records == [] {
      assert AllBytes([r]) == RecordBytes(r) + AllBytes([]);
    } else {
      AllBytesAppend(records[1..], r);
      assert (records + [r])[1..] == records[1..] + [r];
      assert (records + [r])[0] == records[0];
    }
  }

  /** The reader's loop: everything it yields and how it ends. */
  method IterRecords(bytes: seq<Byte>) returns (records: seq<Record>, ok: bool)
    ensures Reading(records, ok) == ReadStream(bytes)
  {
    records := [];
    var version := StreamVersion(bytes);
    if version.None? {
      return [], false;
    }
    var stream := bytes[FILE_HEADER_SIZE..];
    while stream != []
      invariant Yielded(ReadStream(bytes), records, ReadRecords(version.value, stream))
      decreases |stream|
    {
      var record, rest := ReadOne(version.value, stream);
      if record.None? {
        return records, false;
      }
      records := records + [record.value];
      stream := rest;
    }
    ok := true;
  }

  /** What was yielded so far and what is still to be read make up the whole. */
  ghost predicate Yielded(whole: Reading, records: seq<Record>, rest: Reading) {
    whole == Reading(records + rest.records, rest.ok)
  }

  /** One round of the loop: header, name, shape, indices, values, each read in turn. */
  method ReadOne(version: nat, stream: seq<Byte>) returns (record: Option<Record>, rest: seq<Byte>)
    requires version == 1 || version == 2
    ensures ParseRecord(version, stream) == if record.Some? then Some(Taken(record.value, rest)) else None
    ensures record.Some? ==> |rest| < |stream|
  {
    var header := ReadExact(stream, HEAD_SIZE);
    if header.None? {
      return None, stream;
    }
    var h := ParseHead(header.value.data);
    if version == 1 && h.reserved != 0 {
      return None, stream;
    }
    if DtypeSize(h.dtype) == 0 {
      return None, stream;
    }
    var name := ReadExact(header.value.rest, h.nameSize);
    if name.None? {
      return None, stream;
    }
    rest := name.value.rest;
    var shape: Option<seq<nat>> := None;
    if version == 2 {
      var dims := ReadExact(rest, h.reserved * 8);
      if dims.None? {
        return None, stream;
      }
      shape := Some(ParseDims(dims.value.data, h.reserved));
      rest := dims.value.rest;
    }
    var indices := ReadExact(rest, h.indexSize);
    if indices.None? {
      return None, stream;
    }
    var values := ReadExact(indices.value.rest, h.valueCount * DtypeSize(h.dtype));
    if values.None? || !IndexFits(h.indexFormat, h.indexSize) {
      return None, stream;
    }
    rest := values.value.rest;
    record := Some(Record(name.value.data, shape, h.indexFormat, h.dtype, indices.value.data, values.value.data));
  }
}
