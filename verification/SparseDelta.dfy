/**
 Sparse deltas: which values of a tensor changed, what to add to them, how a model is rebuilt from a
 delta and how a delta is verified. Scalars are opaque; their arithmetic is a parameter, one per dtype.
 */
module SparseDelta {
  import opened Wrappers
  import opened Bits
  import opened Varint

  type Name = string

  /** Arithmetic of one dtype and of the wider dtype the extractor falls back to. */
  datatype Ops = Ops(
    eq: (int, int) -> bool,
    sub: (int, int) -> int,
    add: (int, int) -> int,
    widen: int -> int,
    wideSub: (int, int) -> int,
    wideAdd: (int, int) -> int,
    narrow: int -> int,
    close: (int, int) -> bool)

  type Arithmetic = int -> Ops

  datatype Tensor = Tensor(shape: seq<nat>, dtype: int, data: seq<int>)

  type Store = map<Name, Tensor>

  datatype IndexEncoding = Optimized | Naive

  datatype EncodedIndices = Varints(bytes: seq<Byte>) | Raw32(xs: seq<int>) | Raw64(xs: seq<int>)

  datatype Values = Values(wide: bool, data: seq<int>)

  /** One tensor of a delta, as both artifact forms store it. */
  datatype Entry = Entry(shape: seq<nat>, indices: EncodedIndices, values: Values)

  type Delta = map<Name, Entry>

  /* ---------- Index encodings ---------- */

  /** Turns a sorted index list into what an artifact stores. */
  type Encoder = seq<int> -> EncodedIndices

  function EncoderOf(encoding: IndexEncoding): Encoder {
    match encoding
    case Optimized => xs => if SortedNonNegative(xs) then Varints(Encode(xs)) else Raw64(xs)
    case Naive => xs => if forall i :: 0 <= i < |xs| ==> xs[i] < 0x8000_0000 then Raw32(xs) else Raw64(xs)
  }

  function DecodeIndices(e: EncodedIndices, count: nat): Option<seq<int>> {
    match e
    case Varints(bytes) => PublicDecode(bytes, count)
    case Raw32(xs) => if |xs| == count then Some(xs) else None
    case Raw64(xs) => if |xs| == count then Some(xs) else None
  }

  /* ---------- One tensor ---------- */

  /** Positions below n where target differs from base, in order. */
  function ChangedBelow(ops: Ops, base: seq<int>, target: seq<int>, n: nat): (xs: seq<int>)
    requires n <= |base| == |target|
    ensures forall k :: 0 <= k < |xs| ==> 0 <= xs[k] < n
  {
    if n == 0 then []
    else ChangedBelow(ops, base, target, n - 1) + if ops.eq(target[n - 1], base[n - 1]) then [] else [n - 1]
  }

  function Select(data: seq<int>, indices: seq<int>): (r: seq<int>)
    requires forall k :: 0 <= k < |indices| ==> 0 <= indices[k] < |data|
    ensures |r| == |indices|
    ensures forall k :: 0 <= k < |r| ==> r[k] == data[indices[k]]
  {
    seq(|indices|, k requires 0 <= k < |indices| => data[indices[k]])
  }

  function Zip(f: (int, int) -> int, xs: seq<int>, ys: seq<int>): (r: seq<int>)
    requires |xs| == |ys|
    ensures |r| == |xs| && forall k :: 0 <= k < |r| ==> r[k] == f(xs[k], ys[k])
  {
    seq(|xs|, k requires 0 <= k < |xs| => f(xs[k], ys[k]))
  }

  predicate AllEq(ops: Ops, xs: seq<int>, ys: seq<int>) {
    |xs| == |ys| && forall k :: 0 <= k < |xs| ==> ops.eq(xs[k], ys[k])
  }

  function Widened(ops: Ops, value: int, base: int): int {
    ops.wideSub(ops.widen(value), ops.widen(base))
  }

  /** Adding a delta value to a base value, in the wider dtype if the value is wide. */
  function Applied(ops: Ops, wide: bool, base: int, value: int): int {
    if wide then ops.narrow(ops.wideAdd(ops.widen(base), value)) else ops.add(base, value)
  }

  datatype Sparse = Sparse(indices: seq<int>, values: Values)

  /** Changed positions and the differences there; None when no exact difference exists. */
  function Extract(ops: Ops, base: seq<int>, target: seq<int>): Option<Sparse>
    requires |base| == |target|
  {
    var indices := ChangedBelow(ops, base, target, |base|);
    var b, t := Select(base, indices), Select(target, indices);
    var values := Zip(ops.sub, t, b);
    if AllEq(ops, Zip((x, v) => Applied(ops, false, x, v), b, values), t)
    then Some(Sparse(indices, Values(false, values)))
    else
      var wide := Zip((y, x) => Widened(ops, y, x), t, b);
      if AllEq(ops, Zip((x, v) => Applied(ops, true, x, v), b, wide), t) then Some(Sparse(indices, Values(true, wide)))
      else None
  }

  /** Copies the first n new values to their positions. */
  function PutFirst(flat: seq<int>, indices: seq<int>, updated: seq<int>, n: nat): (r: seq<int>)
    requires n <= |indices| == |updated|
    requires forall k :: 0 <= k < |indices| ==> 0 <= indices[k] < |flat|
    ensures |r| == |flat|
  {
    if n == 0 then flat else PutFirst(flat, indices, updated, n - 1)[indices[n - 1] := updated[n - 1]]
  }

  predicate InRange(indices: seq<int>, size: nat) {
    forall k :: 0 <= k < |indices| ==> 0 <= indices[k] < size
  }

  /** The tensor rebuilt from base; None when the code raises. */
  function Reconstruct(ops: Ops, base: seq<int>, indices: EncodedIndices, values: Values): Option<seq<int>> {
    var decoded := DecodeIndices(indices, |values.data|);
    if decoded.None? then None
    else if decoded.value == [] then Some(base)
    else if !InRange(decoded.value, |base|) || |decoded.value| != |values.data| then None
    else
      var updated := Zip((x, v) => Applied(ops, values.wide, x, v), Select(base, decoded.value), values.data);
      Some(PutFirst(base, decoded.value, updated, |updated|))
  }

  /* ---------- Whole models ---------- */

  /** `order` lists exactly `names`, each once. */
  predicate Lists(order: seq<Name>, names: set<Name>) {
    && (forall i :: 0 <= i < |order| ==> order[i] in names)
    && (forall name :: name in names ==> name in order)
    && (forall i, j :: 0 <= i < j < |order| ==> order[i] != order[j])
  }

  /** Tensors of one shape have equally many values, and an int64 index reaches them all. */
  predicate Alike(a: Tensor, b: Tensor) {
    |a.data| <= TWO_63 && (a.shape == b.shape ==> |a.data| == |b.data|)
  }

  datatype TensorDelta = Raises | Unchanged | Changed(entry: Entry)

  /** What extraction does with one pair of tensors. */
  function Compare(arith: Arithmetic, encode: Encoder, base: Tensor, target: Tensor): TensorDelta
    requires Alike(base, target)
  {
    if base.shape != target.shape || base.dtype != target.dtype then Raises
    else
      var sparse := Extract(arith(base.dtype), base.data, target.data);
      if sparse.None? then Raises
      else if sparse.value.indices == [] then Unchanged
      else Changed(Entry(base.shape, encode(sparse.value.indices), sparse.value.values))
  }

  /** Both models have the names. */
  predicate Comparable(base: Store, target: Store, order: seq<Name>) {
    forall i :: 0 <= i < |order| ==> order[i] in base && order[i] in target && Alike(base[order[i]], target[order[i]])
  }

  function ComparedFirst(arith: Arithmetic, encode: Encoder, base: Store, target: Store, order: seq<Name>, n: nat):
    (results: seq<TensorDelta>)
    requires n <= |order| && Comparable(base, target, order)
    ensures |results| == n
  {
    if n == 0 then []
    else ComparedFirst(arith, encode, base, target, order, n - 1)
         + [Compare(arith, encode, base[order[n - 1]], target[order[n - 1]])]
  }

  /** What comparing finds for each name. */
  function Compared(arith: Arithmetic, encode: Encoder, base: Store, target: Store, order: seq<Name>):
    (results: seq<TensorDelta>)
    requires Comparable(base, target, order)
    ensures |results| == |order|
  {
    ComparedFirst(arith, encode, base, target, order, |order|)
  }

  lemma {:induction false} ComparedAt(arith: Arithmetic, encode: Encoder, base: Store, target: Store, order: seq<Name>,
                                      n: nat, i: nat)
    requires i < n <= |order| && Comparable(base, target, order)
    ensures ComparedFirst(arith, encode, base, target, order, n)[i]
         == Compare(arith, encode, base[order[i]], target[order[i]])
  {
    if i < n - 1 { ComparedAt(arith, encode, base, target, order, n - 1, i); }
  }

  /** The delta of the first n names; None when the code raises on one of them. */
  function DeltaOf(order: seq<Name>, results: seq<TensorDelta>, n: nat): Option<Delta>
    requires n <= |order| == |results|
  {
    if n == 0 then Some(map[])
    else
      var rest := DeltaOf(order, results, n - 1);
      if rest.None? then None
      else match results[n - 1]
        case Raises => None
        case Unchanged => rest
        case Changed(entry) => Some(rest.value[order[n - 1] := entry])
  }

  /** One named entry, as the stream form writes it. */
  datatype Record = Record(name: Name, entry: Entry)

  function RecordsOf(order: seq<Name>, results: seq<TensorDelta>, n: nat): Option<seq<Record>>
    requires n <= |order| == |results|
  {
    if n == 0 then Some([])
    else
      var rest := RecordsOf(order, results, n - 1);
      if rest.None? then None
      else match results[n - 1]
        case Raises => None
        case Unchanged => rest
        case Changed(entry) => Some(rest.value + [Record(order[n - 1], entry)])
  }

  /** A stream read back as a delta; a repeated name is an error. */
  function Loaded(records: seq<Record>, n: nat): Option<Delta>
    requires n <= |records|
  {
    if n == 0 then Some(map[])
    else
      var rest := Loaded(records, n - 1);
      if rest.None? || records[n - 1].name in rest.value then None
      else Some(rest.value[records[n - 1].name := records[n - 1].entry])
  }

  /* ---------- Rebuilding and verifying ---------- */

  /** One tensor of the model rebuilt from base and delta. */
  function Rebuilt(arith: Arithmetic, base: Tensor, delta: Delta, name: Name): Option<seq<int>> {
    if name !in delta then Some(base.data)
    else if delta[name].shape != base.shape then None
    else Reconstruct(arith(base.dtype), base.data, delta[name].indices, delta[name].values)
  }

  predicate AllClose(ops: Ops, xs: seq<int>, ys: seq<int>) {
    |xs| == |ys| && forall k :: 0 <= k < |xs| ==> ops.close(xs[k], ys[k])
  }

  predicate Matches(arith: Arithmetic, base: Tensor, target: Tensor, delta: Delta, name: Name) {
    && Rebuilt(arith, base, delta, name).Some?
    && AllClose(arith(target.dtype), Rebuilt(arith, base, delta, name).value, target.data)
  }

  datatype Verdict = Bad | Match | Mismatch

  function Judge(arith: Arithmetic, base: Tensor, target: Tensor, delta: Delta, name: Name): Verdict {
    if base.shape != target.shape || Rebuilt(arith, base, delta, name).None? then Bad
    else if Matches(arith, base, target, delta, name) then Match
    else Mismatch
  }

  function JudgedFirst(arith: Arithmetic, base: Store, target: Store, delta: Delta, order: seq<Name>, n: nat):
    (verdicts: seq<Verdict>)
    requires n <= |order| && Comparable(base, target, order)
    ensures |verdicts| == n
  {
    if n == 0 then []
    else JudgedFirst(arith, base, target, delta, order, n - 1)
         + [Judge(arith, base[order[n - 1]], target[order[n - 1]], delta, order[n - 1])]
  }

  function Judged(arith: Arithmetic, base: Store, target: Store, delta: Delta,
                  order: seq<Name>): (verdicts: seq<Verdict>)
    requires Comparable(base, target, order)
    ensures |verdicts| == |order|
  {
    JudgedFirst(arith, base, target, delta, order, |order|)
  }

  lemma {:induction false} JudgedAt(arith: Arithmetic, base: Store, target: Store, delta: Delta, order: seq<Name>,
                                    n: nat, i: nat)
    requires i < n <= |order| && Comparable(base, target, order)
    ensures JudgedFirst(arith, base, target, delta, order, n)[i]
         == Judge(arith, base[order[i]], target[order[i]], delta, order[i])
  {
    if i < n - 1 { JudgedAt(arith, base, target, delta, order, n - 1, i); }
  }

  /** Mismatching names among the first n, at most `limit` of them; None when the code raises. */
  function Mismatches(order: seq<Name>, verdicts: seq<Verdict>, limit: nat, n: nat): Option<seq<Name>>
    requires n <= |order| == |verdicts|
  {
    if n == 0 then Some([])
    else
      var rest := Mismatches(order, verdicts, limit, n - 1);
      if rest.None? then None
      else match verdicts[n - 1]
        case Bad => None
        case Match => rest
        case Mismatch => if |rest.value| >= limit then rest else Some(rest.value + [order[n - 1]])
  }

  function ReportLimit(maxReport: int): nat {
    if maxReport >= 1 then maxReport else 1
  }

  function Verified(arith: Arithmetic, base: Store, target: Store, delta: Delta, order: seq<Name>, maxReport: int):
    Option<seq<Name>>
    requires Comparable(base, target, order)
  {
    if exists name :: name in delta && name !in order then None
    else Mismatches(order, Judged(arith, base, target, delta, order), ReportLimit(maxReport), |order|)
  }

  /* ---------- The code ---------- */

  datatype DeltaError =
    | ShapeMismatch(name: Name)
    | DtypeMismatch(name: Name)
    | NotExact(name: Name)
    | DuplicateRecord(name: Name)
    | UnexpectedName
    | BadEntry(name: Name)

  /** What a result says about its pair of tensors. */
  function Found(r: Result<Option<Entry>, DeltaError>): TensorDelta {
    match r
    case Err(_) => Raises
    case Ok(None) => Unchanged
    case Ok(Some(entry)) => Changed(entry)
  }

  method ExtractPair(arith: Arithmetic, encode: Encoder, base: Store, target: Store, order: seq<Name>, i: nat)
    returns (r: Result<Option<Entry>, DeltaError>)
    requires Comparable(base, target, order) && i < |order|
    ensures Found(r) == Compared(arith, encode, base, target, order)[i]
  {
    ComparedAt(arith, encode, base, target, order, |order|, i);
    var name := order[i];
    var b, t := base[name], target[name];
    if b.shape != t.shape {
      return Err(ShapeMismatch(name));
    }
    if b.dtype != t.dtype {
      return Err(DtypeMismatch(name));
    }
    var sparse := Extract(arith(b.dtype), b.data, t.data);
    if sparse.None? {
      return Err(NotExact(name));
    }
    if sparse.value.indices == [] {
      return Ok(None);
    }
    r := Ok(Some(Entry(b.shape, encode(sparse.value.indices), sparse.value.values)));
  }

  /** The file form: names in sorted order. */
  method ExtractSparseDelta(arith: Arithmetic, encode: Encoder, base: Store, target: Store, order: seq<Name>)
    returns (r: Result<Delta, DeltaError>)
    requires Comparable(base, target, order)
    ensures r.ToOption() == DeltaOf(order, Compared(arith, encode, base, target, order), |order|)
  {
    ghost var results := Compared(arith, encode, base, target, order);
    var deltaTensors: Delta := map[];
    for i := 0 to |order|
      invariant DeltaOf(order, results, i) == Some(deltaTensors)
    {
      var entry := ExtractPair(arith, encode, base, target, order, i);
      DeltaNext(order, results, i, deltaTensors);
      if entry.Err? {
        return Err(entry.error);
      }
      if entry.value.Some? {
        deltaTensors := deltaTensors[order[i] := entry.value.value];
      }
    }
    r := Ok(deltaTensors);
  }

  /** The stream form: one record a changed tensor, layer by layer. */
  method ExtractSparseDeltaStreaming(arith: Arithmetic, encode: Encoder, base: Store, target: Store,
                                     order: seq<Name>)
    returns (r: Result<seq<Record>, DeltaError>)
    requires Comparable(base, target, order)
    ensures r.ToOption() == RecordsOf(order, Compared(arith, encode, base, target, order), |order|)
  {
    ghost var results := Compared(arith, encode, base, target, order);
    var written: seq<Record> := [];
    for i := 0 to |order|
      invariant RecordsOf(order, results, i) == Some(written)
    {
      var entry := ExtractPair(arith, encode, base, target, order, i);
      RecordsNext(order, results, i, written);
      if entry.Err? {
        return Err(entry.error);
      }
      if entry.value.Some? {
        written := written + [Record(order[i], entry.value.value)];
      }
    }
    r := Ok(written);
  }

  lemma {:induction false} RaisesForGood(order: seq<Name>, results: seq<TensorDelta>, i: nat, n: nat)
    requires i <= n <= |order| == |results|
    ensures DeltaOf(order, results, i).None? ==> DeltaOf(order, results, n).None?
    ensures RecordsOf(order, results, i).None? ==> RecordsOf(order, results, n).None?
    decreases n
  {
    if i < n { RaisesForGood(order, results, i, n - 1); }
  }

  lemma DeltaNext(order: seq<Name>, results: seq<TensorDelta>, i: nat, delta: Delta)
    requires i < |order| == |results| && DeltaOf(order, results, i) == Some(delta)
    ensures results[i].Raises? ==> DeltaOf(order, results, |order|).None?
    ensures results[i].Unchanged? ==> DeltaOf(order, results, i + 1) == Some(delta)
    ensures results[i].Changed? ==> DeltaOf(order, results, i + 1) == Some(delta[order[i] := results[i].entry])
  {
    RaisesForGood(order, results, i + 1, |order|);
  }

  lemma RecordsNext(order: seq<Name>, results: seq<TensorDelta>, i: nat, records: seq<Record>)
    requires i < |order| == |results| && RecordsOf(order, results, i) == Some(records)
    ensures results[i].Raises? ==> RecordsOf(order, results, |order|).None?
    ensures results[i].Unchanged? ==> RecordsOf(order, results, i + 1) == Some(records)
    ensures results[i].Changed? ==>
      RecordsOf(order, results, i + 1) == Some(records + [Record(order[i], results[i].entry)])
  {
    RaisesForGood(order, results, i + 1, |order|);
  }

  method LoadStream(records: seq<Record>) returns (r: Result<Delta, DeltaError>)
    ensures r.ToOption() == Loaded(records, |records|)
  {
    var tensors: Delta := map[];
    for i := 0 to |records|
      invariant Loaded(records, i) == Some(tensors)
    {
      if records[i].name in tensors {
        DuplicateForGood(records, i + 1, |records|);
        return Err(DuplicateRecord(records[i].name));
      }
      tensors := tensors[records[i].name := records[i].entry];
    }
    r := Ok(tensors);
  }

  lemma {:induction false} DuplicateForGood(records: seq<Record>, i: nat, n: nat)
    requires i <= n <= |records| && Loaded(records, i).None?
    ensures Loaded(records, n).None?
    decreases n
  {
    if i < n { DuplicateForGood(records, i, n - 1); }
  }

  method CheckTensor(arith: Arithmetic, base: Store, target: Store, delta: Delta, order: seq<Name>, i: nat)
    returns (r: Result<bool, DeltaError>)
    requires Comparable(base, target, order) && i < |order|
    ensures match Judged(arith, base, target, delta, order)[i]
      case Bad => r.Err?
      case Match => r == Ok(true)
      case Mismatch => r == Ok(false)
  {
    JudgedAt(arith, base, target, delta, order, |order|, i);
    var name := order[i];
    if base[name].shape != target[name].shape {
      return Err(ShapeMismatch(name));
    }
    var reconstructed := Rebuilt(arith, base[name], delta, name);
    if reconstructed.None? {
      return Err(BadEntry(name));
    }
    r := Ok(AllClose(arith(target[name].dtype), reconstructed.value, target[name].data));
  }

  method VerifySparseDelta(arith: Arithmetic, base: Store, target: Store, delta: Delta, order: seq<Name>,
                           maxReport: int)
    returns (r: Result<seq<Name>, DeltaError>)
    requires Comparable(base, target, order)
    ensures r.ToOption() == Verified(arith, base, target, delta, order, maxReport)
  {
    if exists name :: name in delta && name !in order {
      return Err(UnexpectedName);
    }
    ghost var verdicts := Judged(arith, base, target, delta, order);
    var mismatches: seq<Name> := [];
    var reportLimit := ReportLimit(maxReport);
    for i := 0 to |order|
      invariant Mismatches(order, verdicts, reportLimit, i) == Some(mismatches)
    {
      var matches := CheckTensor(arith, base, target, delta, order, i);
      if matches.Err? {
        BadForGood(order, verdicts, reportLimit, i + 1, |order|);
        return Err(matches.error);
      }
      if !matches.value && |mismatches| < reportLimit {
        mismatches := mismatches + [order[i]];
      }
    }
    r := Ok(mismatches);
  }

  lemma {:induction false} BadForGood(order: seq<Name>, verdicts: seq<Verdict>, limit: nat, i: nat, n: nat)
    requires i <= n <= |order| == |verdicts| && Mismatches(order, verdicts, limit, i).None?
    ensures Mismatches(order, verdicts, limit, n).None?
    decreases n
  {
    if i < n { BadForGood(order, verdicts, limit, i, n - 1); }
  }
}
