/** What extraction, rebuilding and verification return, value by value and name by name, for all inputs. */
module SparseDeltaEffects {
  import opened Wrappers
  import opened Bits
  import opened Varint
  import opened VarintTheorems
  import opened SparseDelta
  import opened SparseDeltaTheorems

  /* ---------- One tensor ---------- */

  predicate Differs(ops: Ops, base: Tensor, target: Tensor, p: nat) {
    p < |base.data| && p < |target.data| && !ops.eq(target.data[p], base.data[p])
  }

  /** Adding the difference to the base value gives the target value, in the tensor's own dtype. */
  predicate NarrowExact(ops: Ops, b: int, t: int) {
    ops.eq(ops.add(b, ops.sub(t, b)), t)
  }

  /** The same in the wider dtype, rounded back at the end. */
  predicate WideExact(ops: Ops, b: int, t: int) {
    ops.eq(ops.narrow(ops.wideAdd(ops.widen(b), ops.wideSub(ops.widen(t), ops.widen(b)))), t)
  }

  ghost predicate NarrowFails(ops: Ops, base: Tensor, target: Tensor) {
    exists p: nat :: Differs(ops, base, target, p) && !NarrowExact(ops, base.data[p], target.data[p])
  }

  ghost predicate WideFails(ops: Ops, base: Tensor, target: Tensor) {
    exists p: nat :: Differs(ops, base, target, p) && !WideExact(ops, base.data[p], target.data[p])
  }

  /** Extraction raises on these tensors. */
  ghost predicate Refused(arith: Arithmetic, base: Tensor, target: Tensor) {
    || base.shape != target.shape || base.dtype != target.dtype
    || (NarrowFails(arith(base.dtype), base, target) && WideFails(arith(base.dtype), base, target))
  }

  ghost predicate HasChanged(arith: Arithmetic, base: Tensor, target: Tensor) {
    exists p: nat :: Differs(arith(base.dtype), base, target, p)
  }

  /**
   The entry of a changed tensor: its shape, the positions that differ in ascending order, encoded, and the difference
   at each, in the tensor's own dtype unless that is not exact everywhere.
   */
  ghost predicate Encodes(ops: Ops, encode: Encoder, base: Tensor, target: Tensor, entry: Entry) {
    && entry.shape == base.shape
    && (entry.values.wide <==> NarrowFails(ops, base, target))
    && exists xs :: Positions(ops, base, target, xs) && entry.indices == encode(xs)
                    && DifferencesAt(ops, base, target, xs, entry.values)
  }

  ghost predicate Positions(ops: Ops, base: Tensor, target: Tensor, xs: seq<int>) {
    && (forall j, k :: 0 <= j < k < |xs| ==> xs[j] < xs[k])
    && (forall k :: 0 <= k < |xs| ==> 0 <= xs[k])
    && (forall p: nat :: p in xs <==> Differs(ops, base, target, p))
  }

  ghost predicate DifferencesAt(ops: Ops, base: Tensor, target: Tensor, xs: seq<int>, values: Values) {
    && |values.data| == |xs|
    && (forall k :: 0 <= k < |xs| ==> 0 <= xs[k] < |base.data| && xs[k] < |target.data|)
    && forall k :: 0 <= k < |xs| ==>
         var b, t := base.data[xs[k]], target.data[xs[k]];
         values.data[k] == if values.wide then ops.wideSub(ops.widen(t), ops.widen(b)) else ops.sub(t, b)
  }

  lemma FailsExactly(ops: Ops, base: Tensor, target: Tensor)
    requires |base.data| == |target.data|
    ensures NarrowFails(ops, base, target) <==>
      exists i :: 0 <= i < |base.data| && !ops.eq(target.data[i], base.data[i])
                  && !Exact(ops, false, base.data[i], target.data[i])
    ensures WideFails(ops, base, target) <==>
      exists i :: 0 <= i < |base.data| && !ops.eq(target.data[i], base.data[i])
                  && !Exact(ops, true, base.data[i], target.data[i])
  {
    forall i: nat | i < |base.data|
      ensures NarrowExact(ops, base.data[i], target.data[i]) <==> Exact(ops, false, base.data[i], target.data[i])
      ensures WideExact(ops, base.data[i], target.data[i]) <==> Exact(ops, true, base.data[i], target.data[i])
      ensures Differs(ops, base, target, i) <==> !ops.eq(target.data[i], base.data[i])
    {
    }
    if i :| 0 <= i < |base.data| && !ops.eq(target.data[i], base.data[i])
            && !Exact(ops, false, base.data[i], target.data[i]) {
      assert Differs(ops, base, target, i);
    }
    if i :| 0 <= i < |base.data| && !ops.eq(target.data[i], base.data[i])
            && !Exact(ops, true, base.data[i], target.data[i]) {
      assert Differs(ops, base, target, i);
    }
  }

  lemma ChosenTry(ops: Ops, base: Tensor, target: Tensor)
    requires |base.data| == |target.data| && Extract(ops, base.data, target.data).Some?
    ensures var s := Extract(ops, base.data, target.data).value;
      && (s.values.wide <==> NarrowFails(ops, base, target))
      && Positions(ops, base, target, s.indices)
      && DifferencesAt(ops, base, target, s.indices, s.values)
  {
    var xs := ChangedBelow(ops, base.data, target.data, |base.data|);
    ChangedPositions(ops, base, target);
    WideWhenNarrowFails(ops, base, target);
    ValuesOfTry(ops, base.data, target.data, xs);
    assert Extract(ops, base.data, target.data).value.indices == xs;
  }

  lemma ChangedPositions(ops: Ops, base: Tensor, target: Tensor)
    requires |base.data| == |target.data|
    ensures Positions(ops, base, target, ChangedBelow(ops, base.data, target.data, |base.data|))
  {
    var xs := ChangedBelow(ops, base.data, target.data, |base.data|);
    ChangedExactly(ops, base.data, target.data, |base.data|);
    forall p: nat ensures p in xs <==> Differs(ops, base, target, p) {
      assert p in xs ==> p < |base.data|;
    }
  }

  lemma WideWhenNarrowFails(ops: Ops, base: Tensor, target: Tensor)
    requires |base.data| == |target.data| && Extract(ops, base.data, target.data).Some?
    ensures Extract(ops, base.data, target.data).value.values.wide <==> NarrowFails(ops, base, target)
  {
    var xs := ChangedBelow(ops, base.data, target.data, |base.data|);
    ChangedExactly(ops, base.data, target.data, |base.data|);
    TryFails(ops, base.data, target.data, false, xs);
    FailsExactly(ops, base, target);
    assert Extract(ops, base.data, target.data).value.values.wide
      <==> !TrySucceeds(ops, false, Select(base.data, xs), Select(target.data, xs));
  }

  lemma ValuesOfTry(ops: Ops, base: seq<int>, target: seq<int>, xs: seq<int>)
    requires |base| == |target| && InRange(xs, |base|)
    ensures var narrow := Zip(ops.sub, Select(target, xs), Select(base, xs));
      forall k :: 0 <= k < |xs| ==> narrow[k] == ops.sub(target[xs[k]], base[xs[k]])
    ensures var wide := Zip((y, x) => Widened(ops, y, x), Select(target, xs), Select(base, xs));
      forall k :: 0 <= k < |xs| ==>
        wide[k] == ops.wideSub(ops.widen(target[xs[k]]), ops.widen(base[xs[k]]))
  {
  }

  /** Comparing two tensors: refused, unchanged when no value differs, or an entry for exactly the changes. */
  lemma CompareExactly(arith: Arithmetic, encode: Encoder, base: Tensor, target: Tensor)
    requires Alike(base, target)
    ensures var c := Compare(arith, encode, base, target);
      && (c.Raises? <==> Refused(arith, base, target))
      && (c.Unchanged? <==> !Refused(arith, base, target) && !HasChanged(arith, base, target))
      && (c.Changed? ==> Encodes(arith(base.dtype), encode, base, target, c.entry))
  {
    if base.shape == target.shape && base.dtype == target.dtype {
      var ops := arith(base.dtype);
      ExtractRaisesExactlyWhen(ops, base.data, target.data);
      FailsExactly(ops, base, target);
      var sparse := Extract(ops, base.data, target.data);
      if sparse.Some? {
        ChosenTry(ops, base, target);
        var xs := sparse.value.indices;
        assert xs != [] ==> xs[0] in xs && Differs(ops, base, target, xs[0]);
        if HasChanged(arith, base, target) {
          var p: nat :| Differs(ops, base, target, p);
          assert p in xs;
        }
      }
    }
  }

  /* ---------- Whole models ---------- */

  /** The two tensors of name i. */
  ghost predicate RefusedAt(arith: Arithmetic, base: Store, target: Store, order: seq<Name>, i: nat)
    requires Comparable(base, target, order) && i < |order|
  {
    Refused(arith, base[order[i]], target[order[i]])
  }

  /** The delta holds an entry for name i exactly when a value of it changed, and it is the entry for the changes. */
  ghost predicate ToldAt(arith: Arithmetic, encode: Encoder, base: Store, target: Store, order: seq<Name>,
                         delta: Delta, i: nat)
    requires Comparable(base, target, order) && i < |order|
  {
    var b, t := base[order[i]], target[order[i]];
    && (order[i] in delta <==> HasChanged(arith, b, t))
    && (order[i] in delta ==> Encodes(arith(b.dtype), encode, b, t, delta[order[i]]))
  }

  /** Extraction raises exactly when a tensor is refused; else its delta tells exactly what changed, and no more. */
  lemma ExtractionExactly(arith: Arithmetic, encode: Encoder, base: Store, target: Store, order: seq<Name>)
    requires Comparable(base, target, order) && Distinct(order)
    ensures var d := DeltaOf(order, Compared(arith, encode, base, target, order), |order|);
      && (d.None? <==> exists i :: 0 <= i < |order| && RefusedAt(arith, base, target, order, i))
      && (d.Some? ==>
            && (forall i :: 0 <= i < |order| ==> ToldAt(arith, encode, base, target, order, d.value, i))
            && (forall name :: name in d.value ==> name in order))
  {
    var results := Compared(arith, encode, base, target, order);
    DeltaTellsAll(order, results, |order|);
    assert order[..|order|] == order;
    forall i | 0 <= i < |order|
      ensures results[i].Raises? <==> RefusedAt(arith, base, target, order, i)
    {
      ComparedAt(arith, encode, base, target, order, |order|, i);
      CompareExactly(arith, encode, base[order[i]], target[order[i]]);
    }
    var d := DeltaOf(order, results, |order|);
    if d.Some? {
      forall i | 0 <= i < |order| ensures ToldAt(arith, encode, base, target, order, d.value, i) {
        ComparedAt(arith, encode, base, target, order, |order|, i);
        CompareExactly(arith, encode, base[order[i]], target[order[i]]);
        assert Tells(d.value, order[i], results[i]);
      }
    }
  }

  predicate InPlace(order: seq<Name>, name: Name, i: int) {
    0 <= i < |order| && order[i] == name
  }

  /** Names of the first n places have no other place. */
  lemma PlacedBelow(order: seq<Name>, n: nat, names: seq<Name>)
    requires n <= |order| && Distinct(order) && forall k :: 0 <= k < |names| ==> names[k] in order[..n]
    ensures forall k, i :: 0 <= k < |names| && InPlace(order, names[k], i) ==> i < n
  {
    forall k, i | 0 <= k < |names| && InPlace(order, names[k], i) ensures i < n {
      var j :| 0 <= j < n && order[..n][j] == names[k];
      assert order[j] == names[k];
    }
  }

  /** The names stand in the order in which they are visited. */
  ghost predicate Ordered(order: seq<Name>, names: seq<Name>) {
    forall j, k, a, b ::
      0 <= j < k < |names| && InPlace(order, names[j], a) && InPlace(order, names[k], b) ==> a < b
  }

  lemma OneNameMore(order: seq<Name>, n: nat, names: seq<Name>)
    requires n < |order| && Distinct(order) && (forall k :: 0 <= k < |names| ==> names[k] in order[..n])
    requires Ordered(order, names)
    ensures Ordered(order, names + [order[n]])
  {
    PlacedBelow(order, n, names);
    var more := names + [order[n]];
    forall j, k, a, b | 0 <= j < k < |more| && InPlace(order, more[j], a) && InPlace(order, more[k], b) ensures a < b {
      assert InPlace(order, names[j], a);
      if k < |names| {
        assert InPlace(order, names[k], b);
      } else {
        assert b == n;
      }
    }
  }

  function NamesOf(records: seq<Record>): (names: seq<Name>)
    ensures |names| == |records| && forall k :: 0 <= k < |names| ==> names[k] == records[k].name
  {
    seq(|records|, k requires 0 <= k < |records| => records[k].name)
  }

  /** Records come in the order in which the names are visited. */
  lemma {:induction false} RecordsInOrder(order: seq<Name>, results: seq<TensorDelta>, n: nat)
    requires n <= |order| == |results| && Distinct(order) && RecordsOf(order, results, n).Some?
    ensures var names := NamesOf(RecordsOf(order, results, n).value);
      Ordered(order, names) && forall k :: 0 <= k < |names| ==> names[k] in order[..n]
  {
    if n > 0 {
      RecordsInOrder(order, results, n - 1);
      var before, now := RecordsOf(order, results, n - 1).value, RecordsOf(order, results, n).value;
      assert order[..n] == order[..n - 1] + [order[n - 1]];
      if |now| > |before| {
        OneNameMore(order, n - 1, NamesOf(before));
        assert NamesOf(now) == NamesOf(before) + [order[n - 1]];
      }
    }
  }

  /** A stream is refused exactly when a name repeats; else the map holds each record under its name. */
  lemma {:induction false} LoadedExactly(records: seq<Record>, n: nat)
    requires n <= |records|
    ensures var d := Loaded(records, n);
      && (d.None? <==> exists i, j :: 0 <= i < j < n && records[i].name == records[j].name)
      && (d.Some? ==>
            && (forall i :: 0 <= i < n ==> records[i].name in d.value && d.value[records[i].name] == records[i].entry)
            && (forall name :: name in d.value ==> exists i :: 0 <= i < n && records[i].name == name))
  {
    if n > 0 {
      LoadedExactly(records, n - 1);
    }
  }

  /** The optimized encoding is the varint code, the naive one the plain list in 32 bits where it fits, else in 64. */
  lemma EncodingsExactly(xs: seq<int>)
    requires SortedNonNegative(xs)
    ensures EncoderOf(Optimized)(xs) == Varints(Encode(xs))
    ensures EncoderOf(Naive)(xs) ==
      if xs == [] || xs[|xs| - 1] < 0x8000_0000 then Raw32(xs) else Raw64(xs)
  {
    if xs != [] && xs[|xs| - 1] < 0x8000_0000 {
      forall i | 0 <= i < |xs| ensures xs[i] < 0x8000_0000 {
        SortedBelowLast(xs, i);
      }
    }
  }

  lemma {:induction false} SortedBelowLast(xs: seq<int>, i: nat)
    requires SortedNonNegative(xs) && i < |xs|
    ensures xs[i] <= xs[|xs| - 1]
    decreases |xs| - i
  {
    if i < |xs| - 1 {
      SortedBelowLast(xs, i + 1);
      assert Before(xs, i + 1) <= xs[i + 1];
    }
  }

  /** Which indices an entry stores; a wrong number of them is refused. */
  lemma RawIndicesExactly(xs: seq<int>, count: nat)
    ensures DecodeIndices(Raw32(xs), count) == (if |xs| == count then Some(xs) else None)
    ensures DecodeIndices(Raw64(xs), count) == (if |xs| == count then Some(xs) else None)
  {
  }

  /* ---------- Rebuilding ---------- */

  /** The value at a listed position: the old one and its difference, in the wider dtype for wide values. */
  function Sum(ops: Ops, values: Values, b: int, k: nat): int
    requires k < |values.data|
  {
    if values.wide then ops.narrow(ops.wideAdd(ops.widen(b), values.data[k])) else ops.add(b, values.data[k])
  }

  predicate Once(xs: seq<int>, k: nat) {
    k < |xs| && forall j :: 0 <= j < |xs| && xs[j] == xs[k] ==> j == k
  }

  /**
   Rebuilding raises exactly on a wrong number of indices or one out of range; else every listed position has the sum
   and every other its old value.
   */
  lemma ReconstructExactly(ops: Ops, base: seq<int>, indices: EncodedIndices, values: Values)
    ensures var decoded, r := DecodeIndices(indices, |values.data|), Reconstruct(ops, base, indices, values);
      && (r.None? <==> decoded.None? || (exists k :: 0 <= k < |decoded.value| &&
                                           !(0 <= decoded.value[k] < |base|)))
      && (r.Some? ==>
            && |r.value| == |base| && |decoded.value| == |values.data|
            && (forall p :: 0 <= p < |base| && p !in decoded.value ==> r.value[p] == base[p])
            && (forall k :: 0 <= k < |decoded.value| && Once(decoded.value, k) ==>
                  0 <= decoded.value[k] < |base| &&
                  r.value[decoded.value[k]] == Sum(ops, values, base[decoded.value[k]], k)))
  {
    var decoded := DecodeIndices(indices, |values.data|);
    if decoded.Some? {
      DecodedCount(indices, |values.data|);
      if InRange(decoded.value, |base|) {
        var xs := decoded.value;
        var updated := Zip((x, v) => Applied(ops, values.wide, x, v), Select(base, xs), values.data);
        PutOnce(base, xs, updated, |updated|);
        assert xs[..|xs|] == xs;
      }
    }
  }

  lemma DecodedCount(indices: EncodedIndices, count: nat)
    ensures DecodeIndices(indices, count).Some? ==> |DecodeIndices(indices, count).value| == count
  {
    if indices.Varints? {
      PublicCount(indices.bytes, count);
    }
  }

  lemma PublicCount(bytes: seq<Byte>, count: nat)
    ensures PublicDecode(bytes, count).Some? ==> |PublicDecode(bytes, count).value| == count
  {
    DecodedLength(Parse(bytes).complete);
  }

  lemma {:induction false} DecodedLength(varints: seq<seq<Byte>>)
    ensures |Decoded(varints)| == |varints| && |Decoded64(varints)| == |varints|
  {
    if varints != [] { DecodedLength(varints[..|varints| - 1]); }
  }

  lemma {:induction false} PutOnce(flat: seq<int>, indices: seq<int>, updated: seq<int>, n: nat)
    requires n <= |indices| == |updated| && InRange(indices, |flat|)
    ensures var r := PutFirst(flat, indices, updated, n);
      && (forall k :: 0 <= k < n && Once(indices, k) ==> r[indices[k]] == updated[k])
      && (forall i :: 0 <= i < |flat| && i !in indices[..n] ==> r[i] == flat[i])
  {
    if n > 0 {
      PutOnce(flat, indices, updated, n - 1);
      assert indices[..n] == indices[..n - 1] + [indices[n - 1]];
    }
  }

  /** A tensor without an entry is the base tensor; one with an entry of another shape cannot be rebuilt. */
  lemma RebuiltExactly(arith: Arithmetic, base: Tensor, delta: Delta, name: Name)
    ensures Rebuilt(arith, base, delta, name) ==
      if name !in delta then Some(base.data)
      else if delta[name].shape == base.shape
      then Reconstruct(arith(base.dtype), base.data, delta[name].indices, delta[name].values)
      else None
    ensures Rebuilt(arith, base, delta, name).Some? ==> |Rebuilt(arith, base, delta, name).value| == |base.data|
  {
    if name in delta {
      ReconstructExactly(arith(base.dtype), base.data, delta[name].indices, delta[name].values);
    }
  }

  /* ---------- Verifying ---------- */

  /** Tensor i cannot be compared: the models disagree on its shape, or its entry cannot be rebuilt. */
  ghost predicate BadAt(arith: Arithmetic, base: Store, target: Store, delta: Delta, order: seq<Name>, i: nat)
    requires Comparable(base, target, order) && i < |order|
  {
    || base[order[i]].shape != target[order[i]].shape
    || Rebuilt(arith, base[order[i]], delta, order[i]).None?
  }

  /** Tensor i, rebuilt, has a value that is not close to its target. */
  ghost predicate FarAt(arith: Arithmetic, base: Store, target: Store, delta: Delta, order: seq<Name>, i: nat)
    requires Comparable(base, target, order) && i < |order| && !BadAt(arith, base, target, delta, order, i)
  {
    var r, t := Rebuilt(arith, base[order[i]], delta, order[i]).value, target[order[i]];
    exists p {:trigger r[p]} :: 0 <= p < |r| && p < |t.data| && !arith(t.dtype).close(r[p], t.data[p])
  }

  /** Every value of the rebuilt tensor i is close to its target. */
  ghost predicate CloseAt(arith: Arithmetic, base: Store, target: Store, delta: Delta, order: seq<Name>, i: nat)
    requires Comparable(base, target, order) && i < |order| && !BadAt(arith, base, target, delta, order, i)
  {
    var r, t := Rebuilt(arith, base[order[i]], delta, order[i]).value, target[order[i]];
    && |r| == |t.data|
    && forall p {:trigger r[p]} :: 0 <= p < |r| ==> arith(t.dtype).close(r[p], t.data[p])
  }

  lemma JudgedExactly(arith: Arithmetic, base: Store, target: Store, delta: Delta, order: seq<Name>, i: nat)
    requires Comparable(base, target, order) && i < |order|
    ensures var verdict := Judged(arith, base, target, delta, order)[i];
      && (verdict == Bad <==> BadAt(arith, base, target, delta, order, i))
      && (verdict == Match ==> CloseAt(arith, base, target, delta, order, i))
      && (verdict == Mismatch ==> FarAt(arith, base, target, delta, order, i))
  {
    JudgedAt(arith, base, target, delta, order, |order|, i);
    RebuiltExactly(arith, base[order[i]], delta, order[i]);
    if !BadAt(arith, base, target, delta, order, i) {
      var r, t := Rebuilt(arith, base[order[i]], delta, order[i]).value, target[order[i]];
      ClosePositions(arith(t.dtype), r, t.data);
    }
  }

  lemma ClosePositions(ops: Ops, xs: seq<int>, ys: seq<int>)
    requires |xs| == |ys|
    ensures AllClose(ops, xs, ys) ==> forall p {:trigger xs[p]} :: 0 <= p < |xs| ==> ops.close(xs[p], ys[p])
    ensures !AllClose(ops, xs, ys) ==> exists p {:trigger xs[p]} :: 0 <= p < |xs| && !ops.close(xs[p], ys[p])
  {
  }

  /**
   The verifier raises exactly on an unknown name or a tensor that cannot be compared. Else each reported name has a
   value that is not close; and every name it does not report has close values only, unless the report is full.
   */
  lemma VerifiedExactly(arith: Arithmetic, base: Store, target: Store, delta: Delta, order: seq<Name>, maxReport: int)
    requires Comparable(base, target, order) && Distinct(order)
    ensures var v := Verified(arith, base, target, delta, order, maxReport);
      var limit := if maxReport > 1 then maxReport else 1;
      && (v.None? <==>
            || (exists name :: name in delta && name !in order)
            || exists i :: 0 <= i < |order| && BadAt(arith, base, target, delta, order, i))
      && (v.Some? ==>
            && |v.value| <= limit
            && (forall name :: name in v.value ==> name in order)
            && (forall i :: 0 <= i < |order| && order[i] in v.value ==> FarAt(arith, base, target, delta, order, i))
            && (forall i :: 0 <= i < |order| && order[i] !in v.value ==>
                  |v.value| == limit || CloseAt(arith, base, target, delta, order, i)))
  {
    var verdicts := Judged(arith, base, target, delta, order);
    VerifierReportsExactly(order, verdicts, ReportLimit(maxReport), |order|);
    forall i | 0 <= i < |order|
      ensures verdicts[i] == Bad <==> BadAt(arith, base, target, delta, order, i)
      ensures verdicts[i] == Match ==> CloseAt(arith, base, target, delta, order, i)
      ensures verdicts[i] == Mismatch ==> FarAt(arith, base, target, delta, order, i)
    {
      JudgedExactly(arith, base, target, delta, order, i);
    }
  }

  /** The report is the first mismatches in the order of the names. */
  lemma {:induction false} ReportIsFirst(order: seq<Name>, verdicts: seq<Verdict>, limit: nat, n: nat)
    requires n <= |order| == |verdicts| && Distinct(order) && Mismatches(order, verdicts, limit, n).Some?
    ensures var found := Mismatches(order, verdicts, limit, n).value;
      && Ordered(order, found)
      && (forall k :: 0 <= k < |found| ==> found[k] in order[..n])
      && (forall i, a :: 0 <= i < n && 0 <= a < n && verdicts[i] == Mismatch && order[i] !in found ==>
            order[a] in found ==> a < i)
  {
    if n > 0 {
      ReportIsFirst(order, verdicts, limit, n - 1);
      VerifierReportsExactly(order, verdicts, limit, n - 1);
      assert order[..n] == order[..n - 1] + [order[n - 1]];
      var before, now := Mismatches(order, verdicts, limit, n - 1).value, Mismatches(order, verdicts, limit, n).value;
      if |now| > |before| {
        OneNameMore(order, n - 1, before);
      }
    }
  }
}
