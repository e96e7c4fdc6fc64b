/** A delta that extraction returns takes base to target, alone and in chains, in either form. */
module SparseDeltaTheorems {
  import opened Wrappers
  import opened Bits
  import opened Varint
  import opened VarintTheorems
  import opened SparseDelta

  /* ---------- Index encodings ---------- */

  ghost predicate Faithful(encode: Encoder) {
    forall xs {:trigger encode(xs)} :: IndexSequence(xs) && xs != [] ==> DecodeIndices(encode(xs), |xs|) == Some(xs)
  }

  lemma EncodersAreFaithful(encoding: IndexEncoding)
    ensures Faithful(EncoderOf(encoding))
  {
    forall xs | IndexSequence(xs) && xs != []
      ensures DecodeIndices(EncoderOf(encoding)(xs), |xs|) == Some(xs)
    {
      RoundTrip(xs);
    }
  }

  /* ---------- One tensor ---------- */

  /** The changed positions are exactly those that differ, in order. */
  lemma {:induction false} ChangedExactly(ops: Ops, base: seq<int>, target: seq<int>, n: nat)
    requires n <= |base| == |target|
    ensures var xs := ChangedBelow(ops, base, target, n);
      && (forall j, k :: 0 <= j < k < |xs| ==> xs[j] < xs[k])
      && (forall i :: 0 <= i < n ==> (i in xs <==> !ops.eq(target[i], base[i])))
  {
    if n > 0 { ChangedExactly(ops, base, target, n - 1); }
  }

  lemma IncreasingIsIndexSequence(xs: seq<int>, size: nat)
    requires InRange(xs, size) && size <= TWO_63
    requires forall j, k :: 0 <= j < k < |xs| ==> xs[j] < xs[k]
    ensures IndexSequence(xs)
  {
    forall k {:trigger Before(xs, k)} | 0 <= k < |xs| ensures Before(xs, k) <= xs[k] {
      if k > 0 { assert xs[k - 1] < xs[k]; }
    }
  }

  /** Each listed position gets its value, every other keeps its own. */
  lemma {:induction false} PutEach(flat: seq<int>, indices: seq<int>, updated: seq<int>, n: nat)
    requires n <= |indices| == |updated| && InRange(indices, |flat|)
    requires forall j, k :: 0 <= j < k < |indices| ==> indices[j] != indices[k]
    ensures var r := PutFirst(flat, indices, updated, n);
      && (forall k :: 0 <= k < n ==> r[indices[k]] == updated[k])
      && (forall i :: 0 <= i < |flat| && i !in indices[..n] ==> r[i] == flat[i])
  {
    if n > 0 {
      PutEach(flat, indices, updated, n - 1);
      assert indices[..n] == indices[..n - 1] + [indices[n - 1]];
    }
  }

  /** A difference that brings a base value to its target, in the extractor's first or second try. */
  predicate Exact(ops: Ops, wide: bool, base: int, target: int) {
    ops.eq(Applied(ops, wide, base, if wide then Widened(ops, target, base) else ops.sub(target, base)), target)
  }

  /** The values of one try, for the changed positions. */
  function Differences(ops: Ops, wide: bool, b: seq<int>, t: seq<int>): (r: seq<int>)
    requires |b| == |t|
    ensures |r| == |t|
    ensures forall k :: 0 <= k < |r| ==> r[k] == if wide then Widened(ops, t[k], b[k]) else ops.sub(t[k], b[k])
  {
    if wide then Zip((y, x) => Widened(ops, y, x), t, b) else Zip(ops.sub, t, b)
  }

  predicate TrySucceeds(ops: Ops, wide: bool, b: seq<int>, t: seq<int>)
    requires |b| == |t|
  {
    AllEq(ops, Zip((x, v) => Applied(ops, wide, x, v), b, Differences(ops, wide, b, t)), t)
  }

  lemma TryFails(ops: Ops, base: seq<int>, target: seq<int>, wide: bool, xs: seq<int>)
    requires |base| == |target| && InRange(xs, |base|)
    requires forall i :: 0 <= i < |base| ==> (i in xs <==> !ops.eq(target[i], base[i]))
    ensures !TrySucceeds(ops, wide, Select(base, xs), Select(target, xs)) <==>
      exists i :: 0 <= i < |base| && !ops.eq(target[i], base[i]) && !Exact(ops, wide, base[i], target[i])
  {
    var b, t := Select(base, xs), Select(target, xs);
    var tried := Zip((x, v) => Applied(ops, wide, x, v), b, Differences(ops, wide, b, t));
    assert forall k :: 0 <= k < |xs| ==> (ops.eq(tried[k], t[k]) <==> Exact(ops, wide, base[xs[k]], target[xs[k]]));
    if k :| 0 <= k < |xs| && !ops.eq(tried[k], t[k]) {
      assert xs[k] in xs;
    }
    if i :| 0 <= i < |base| && i in xs && !Exact(ops, wide, base[i], target[i]) {
      var k :| 0 <= k < |xs| && xs[k] == i;
      assert !ops.eq(tried[k], t[k]);
    }
  }

  /** Extraction raises exactly when one changed value has no exact narrow difference and one no exact wide one. */
  lemma ExtractRaisesExactlyWhen(ops: Ops, base: seq<int>, target: seq<int>)
    requires |base| == |target|
    ensures Extract(ops, base, target).None? <==>
      && (exists i :: 0 <= i < |base| && !ops.eq(target[i], base[i]) && !Exact(ops, false, base[i], target[i]))
      && (exists i :: 0 <= i < |base| && !ops.eq(target[i], base[i]) && !Exact(ops, true, base[i], target[i]))
  {
    ChangedExactly(ops, base, target, |base|);
    var xs := ChangedBelow(ops, base, target, |base|);
    TryFails(ops, base, target, false, xs);
    TryFails(ops, base, target, true, xs);
  }

  lemma Trans(ops: Ops, a: int, b: int, c: int)
    requires Congruent(ops) && ops.eq(a, b) && ops.eq(b, c)
    ensures ops.eq(a, c)
  {
  }

  lemma Through(ops: Ops, wide: bool, a: int, b: int, v: int, c: int)
    requires Congruent(ops) && ops.eq(a, b) && ops.eq(Applied(ops, wide, b, v), c)
    ensures ops.eq(Applied(ops, wide, a, v), c)
  {
  }

  /** Which positions changed, in order, and a difference for each that is exact. */
  ghost predicate Describes(ops: Ops, base: seq<int>, target: seq<int>, s: Sparse) {
    && |base| == |target|
    && InRange(s.indices, |base|)
    && (forall j, k :: 0 <= j < k < |s.indices| ==> s.indices[j] < s.indices[k])
    && (forall i :: 0 <= i < |base| ==> (i in s.indices <==> !ops.eq(target[i], base[i])))
    && |s.values.data| == |s.indices|
    && (forall k :: 0 <= k < |s.indices| ==>
          ops.eq(Applied(ops, s.values.wide, base[s.indices[k]], s.values.data[k]), target[s.indices[k]]))
  }

  lemma ExtractDescribes(ops: Ops, base: seq<int>, target: seq<int>)
    requires |base| == |target| && Extract(ops, base, target).Some?
    ensures Describes(ops, base, target, Extract(ops, base, target).value)
  {
    ChangedExactly(ops, base, target, |base|);
    var s := Extract(ops, base, target).value;
    SelectedIsExact(ops, base, target, s.indices, s.values);
  }

  lemma SelectedIsExact(ops: Ops, base: seq<int>, target: seq<int>, xs: seq<int>, values: Values)
    requires |base| == |target| && InRange(xs, |base|) && |values.data| == |xs|
    requires AllEq(ops, Zip((x, v) => Applied(ops, values.wide, x, v), Select(base, xs), values.data),
                   Select(target, xs))
    ensures forall k :: 0 <= k < |xs| ==>
      ops.eq(Applied(ops, values.wide, base[xs[k]], values.data[k]), target[xs[k]])
  {
    var tried, t := Zip((x, v) => Applied(ops, values.wide, x, v), Select(base, xs), values.data), Select(target, xs);
    forall k | 0 <= k < |xs| ensures ops.eq(Applied(ops, values.wide, base[xs[k]], values.data[k]), target[xs[k]]) {
      assert ops.eq(tried[k], t[k]);
    }
  }

  ghost predicate Symmetric(ops: Ops) {
    forall a, b :: ops.eq(a, b) ==> ops.eq(b, a)
  }

  lemma Flip(ops: Ops, a: int, b: int)
    requires Symmetric(ops) && ops.eq(a, b)
    ensures ops.eq(b, a)
  {
  }

  /** Equality a delta may be applied through: a base equal to b reaches what b reaches. NaN reaches nothing. */
  ghost predicate Congruent(ops: Ops) {
    && Symmetric(ops)
    && (forall a, b, c :: ops.eq(a, b) && ops.eq(b, c) ==> ops.eq(a, c))
    && (forall a, b, c, v, wide :: ops.eq(a, b) && ops.eq(Applied(ops, wide, b, v), c) ==>
          ops.eq(Applied(ops, wide, a, v), c))
  }

  lemma PutBack(ops: Ops, start: seq<int>, indices: seq<int>, values: Values)
    requires InRange(indices, |start|) && |indices| == |values.data|
    requires forall j, k :: 0 <= j < k < |indices| ==> indices[j] < indices[k]
    ensures var updated := Zip((x, v) => Applied(ops, values.wide, x, v), Select(start, indices), values.data);
      var r := PutFirst(start, indices, updated, |updated|);
      && (forall i :: 0 <= i < |start| && i !in indices ==> r[i] == start[i])
      && (forall k :: 0 <= k < |indices| ==>
            r[indices[k]] == Applied(ops, values.wide, start[indices[k]], values.data[k]))
  {
    var updated := Zip((x, v) => Applied(ops, values.wide, x, v), Select(start, indices), values.data);
    PutEach(start, indices, updated, |updated|);
    assert indices[..|indices|] == indices;
  }

  /** The listed values of `start` with their differences added, all others kept. */
  ghost predicate Patched(ops: Ops, start: seq<int>, s: Sparse, r: seq<int>) {
    && |r| == |start| && InRange(s.indices, |start|) && |s.values.data| == |s.indices|
    && (forall i :: 0 <= i < |start| && i !in s.indices ==> r[i] == start[i])
    && (forall k :: 0 <= k < |s.indices| ==>
          r[s.indices[k]] == Applied(ops, s.values.wide, start[s.indices[k]], s.values.data[k]))
  }

  lemma ReconstructPatches(ops: Ops, encode: Encoder, base: seq<int>, target: seq<int>, start: seq<int>, s: Sparse)
    requires Describes(ops, base, target, s) && s.indices != []
    requires |start| == |base| <= TWO_63 && Faithful(encode)
    ensures var r := Reconstruct(ops, start, encode(s.indices), s.values);
      r.Some? && Patched(ops, start, s, r.value)
  {
    IncreasingIsIndexSequence(s.indices, |base|);
    assert DecodeIndices(encode(s.indices), |s.indices|) == Some(s.indices);
    PutBack(ops, start, s.indices, s.values);
  }

  /** From base itself rebuilding reaches target everywhere; under Congruent, from anything equal to base. */
  lemma PatchReachesTarget(ops: Ops, base: seq<int>, target: seq<int>, start: seq<int>, s: Sparse, r: seq<int>)
    requires Describes(ops, base, target, s) && Patched(ops, start, s, r) && Symmetric(ops)
    requires start == base || (Congruent(ops) && AllEq(ops, start, base))
    ensures AllEq(ops, r, target)
  {
    forall i | 0 <= i < |r| ensures ops.eq(r[i], target[i]) {
      if i in s.indices {
        var k :| 0 <= k < |s.indices| && s.indices[k] == i;
        assert r[s.indices[k]] == Applied(ops, s.values.wide, start[s.indices[k]], s.values.data[k]);
        if start != base {
          Through(ops, s.values.wide, start[i], base[i], s.values.data[k], target[i]);
        }
      } else {
        Flip(ops, target[i], base[i]);
        if start != base {
          Trans(ops, start[i], base[i], target[i]);
        }
      }
    }
  }

  /* ---------- Whole models ---------- */

  /** The delta says about a name what comparing its tensors found. */
  predicate Tells(delta: Delta, name: Name, result: TensorDelta) {
    match result
    case Raises => false
    case Unchanged => name !in delta
    case Changed(entry) => name in delta && delta[name] == entry
  }

  predicate Distinct(order: seq<Name>) {
    forall i, j :: 0 <= i < j < |order| ==> order[i] != order[j]
  }

  /** The delta holds exactly the changed tensors; there is none exactly when a comparison raises. */
  lemma {:induction false} DeltaTellsAll(order: seq<Name>, results: seq<TensorDelta>, n: nat)
    requires n <= |order| == |results| && Distinct(order)
    ensures var d := DeltaOf(order, results, n);
      && (d.None? <==> exists i :: 0 <= i < n && results[i].Raises?)
      && (d.Some? ==> forall i :: 0 <= i < n ==> Tells(d.value, order[i], results[i]))
      && (d.Some? ==> forall name :: name in d.value ==> name in order[..n])
  {
    if n > 0 {
      DeltaTellsAll(order, results, n - 1);
      assert order[..n] == order[..n - 1] + [order[n - 1]];
      var rest, d := DeltaOf(order, results, n - 1), DeltaOf(order, results, n);
      if rest.None? {
        var i :| 0 <= i < n - 1 && results[i].Raises?;
      }
      if d.Some? {
        assert order[n - 1] !in order[..n - 1];
        forall i | 0 <= i < n ensures Tells(d.value, order[i], results[i]) {
          assert i < n - 1 ==> Tells(rest.value, order[i], results[i]) && order[i] != order[n - 1];
        }
      }
    }
  }

  lemma {:induction false} LoadedPrefix(records: seq<Record>, r: Record, n: nat)
    requires n <= |records|
    ensures Loaded(records + [r], n) == Loaded(records, n)
  {
    if n > 0 { LoadedPrefix(records, r, n - 1); }
  }

  /** Reading the stream form back gives the file form of the same order. */
  lemma {:induction false} StreamLoadsDelta(order: seq<Name>, results: seq<TensorDelta>, n: nat)
    requires n <= |order| == |results| && Distinct(order)
    ensures var records := RecordsOf(order, results, n);
      DeltaOf(order, results, n) == if records.None? then None else Loaded(records.value, |records.value|)
  {
    if n > 0 {
      StreamLoadsDelta(order, results, n - 1);
      DeltaTellsAll(order, results, n - 1);
      var records := RecordsOf(order, results, n - 1);
      if records.Some? && results[n - 1].Changed? {
        var r := Record(order[n - 1], results[n - 1].entry);
        LoadedPrefix(records.value, r, |records.value|);
        assert order[n - 1] !in order[..n - 1];
      }
    }
  }

  /** Two deltas that tell the same of the same names are one. */
  lemma SameTale(names: set<Name>, results: map<Name, TensorDelta>, d: Delta, e: Delta)
    requires forall name :: name in names ==> name in results
    requires forall name :: name in names ==> Tells(d, name, results[name]) && Tells(e, name, results[name])
    requires forall name :: name in d || name in e ==> name in names
    ensures d == e
  {
    forall name | name in names ensures (name in d <==> name in e) && (name in d ==> d[name] == e[name]) {
      assert Tells(d, name, results[name]) && Tells(e, name, results[name]);
    }
  }

  /** The order in which names are visited does not matter: same delta, or none either way. */
  lemma OrderDoesNotMatter(names: set<Name>, results: map<Name, TensorDelta>,
                           o1: seq<Name>, r1: seq<TensorDelta>, o2: seq<Name>, r2: seq<TensorDelta>)
    requires Lists(o1, names) && Lists(o2, names) && names <= results.Keys
    requires |r1| == |o1| && forall i :: 0 <= i < |o1| ==> r1[i] == results[o1[i]]
    requires |r2| == |o2| && forall i :: 0 <= i < |o2| ==> r2[i] == results[o2[i]]
    ensures DeltaOf(o1, r1, |o1|) == DeltaOf(o2, r2, |o2|)
  {
    RaisesTogether(names, results, o1, r1, o2, r2);
    RaisesTogether(names, results, o2, r2, o1, r1);
    DeltaTellsAll(o1, r1, |o1|);
    DeltaTellsAll(o2, r2, |o2|);
    var d, e := DeltaOf(o1, r1, |o1|), DeltaOf(o2, r2, |o2|);
    if d.Some? && e.Some? {
      DeltaTellsNames(names, results, o1, r1, d.value);
      DeltaTellsNames(names, results, o2, r2, e.value);
      SameTale(names, results, d.value, e.value);
    }
  }

  lemma DeltaTellsNames(names: set<Name>, results: map<Name, TensorDelta>, order: seq<Name>, r: seq<TensorDelta>,
                        d: Delta)
    requires Lists(order, names) && names <= results.Keys
    requires |r| == |order| && forall i :: 0 <= i < |order| ==> r[i] == results[order[i]]
    requires DeltaOf(order, r, |order|) == Some(d)
    ensures forall name :: name in names ==> Tells(d, name, results[name])
    ensures forall name :: name in d ==> name in names
  {
    DeltaTellsAll(order, r, |order|);
    forall name | name in names ensures Tells(d, name, results[name]) {
      var i :| 0 <= i < |order| && order[i] == name;
      assert Tells(d, order[i], r[i]);
    }
  }

  lemma RaisesTogether(names: set<Name>, results: map<Name, TensorDelta>,
                       o1: seq<Name>, r1: seq<TensorDelta>, o2: seq<Name>, r2: seq<TensorDelta>)
    requires Lists(o1, names) && Lists(o2, names) && names <= results.Keys
    requires |r1| == |o1| && forall i :: 0 <= i < |o1| ==> r1[i] == results[o1[i]]
    requires |r2| == |o2| && forall i :: 0 <= i < |o2| ==> r2[i] == results[o2[i]]
    ensures (exists i :: 0 <= i < |r1| && r1[i].Raises?) ==> exists i :: 0 <= i < |r2| && r2[i].Raises?
  {
    if i :| 0 <= i < |r1| && r1[i].Raises? {
      assert o1[i] in o2;
      var j :| 0 <= j < |o2| && o2[j] == o1[i];
      assert r2[j].Raises?;
    }
  }

  /** File form and stream form carry the same delta, whatever order each visits the names in. */
  lemma FormsAgree(arith: Arithmetic, encode: Encoder, base: Store, target: Store, names: set<Name>,
                   fileOrder: seq<Name>, streamOrder: seq<Name>)
    requires Lists(fileOrder, names) && Lists(streamOrder, names)
    requires Comparable(base, target, fileOrder) && Comparable(base, target, streamOrder)
    ensures var file := DeltaOf(fileOrder, Compared(arith, encode, base, target, fileOrder), |fileOrder|);
      var stream := RecordsOf(streamOrder, Compared(arith, encode, base, target, streamOrder), |streamOrder|);
      file == if stream.None? then None else Loaded(stream.value, |stream.value|)
  {
    var r1, r2 := Compared(arith, encode, base, target, fileOrder), Compared(arith, encode, base, target, streamOrder);
    var results := ResultOf(fileOrder, r1);
    forall j | 0 <= j < |streamOrder| ensures r2[j] == results[streamOrder[j]] {
      var i :| 0 <= i < |fileOrder| && fileOrder[i] == streamOrder[j];
      ComparedAt(arith, encode, base, target, fileOrder, |fileOrder|, i);
      ComparedAt(arith, encode, base, target, streamOrder, |streamOrder|, j);
      assert results[fileOrder[i]] == r1[i];
    }
    OrderDoesNotMatter(names, results, fileOrder, r1, streamOrder, r2);
    StreamLoadsDelta(streamOrder, r2, |streamOrder|);
  }

  function ResultOf(order: seq<Name>, results: seq<TensorDelta>): (m: map<Name, TensorDelta>)
    requires |order| == |results| && Distinct(order)
    ensures forall i :: 0 <= i < |order| ==> order[i] in m && m[order[i]] == results[i]
  {
    if order == [] then map[]
    else ResultOf(order[..|order| - 1], results[..|order| - 1])[order[|order| - 1] := results[|order| - 1]]
  }

  /** One tensor of the model, rebuilt from base or, under Congruent, from something equal to base. */
  lemma RebuiltMatches(arith: Arithmetic, encode: Encoder, base: Tensor, target: Tensor, start: seq<int>, delta: Delta,
                       name: Name)
    requires Alike(base, target) && Faithful(encode) && Symmetric(arith(base.dtype))
    requires Tells(delta, name, Compare(arith, encode, base, target))
    requires start == base.data || (Congruent(arith(base.dtype)) && AllEq(arith(base.dtype), start, base.data))
    ensures base.shape == target.shape && base.dtype == target.dtype
    ensures var r := Rebuilt(arith, base.(data := start), delta, name);
      r.Some? && AllEq(arith(base.dtype), r.value, target.data)
  {
    var ops := arith(base.dtype);
    ExtractDescribes(ops, base.data, target.data);
    var s := Extract(ops, base.data, target.data).value;
    if s.indices != [] {
      ReconstructPatches(ops, encode, base.data, target.data, start, s);
      var r := Rebuilt(arith, base.(data := start), delta, name).value;
      PatchReachesTarget(ops, base.data, target.data, start, s, r);
    } else {
      assert Patched(ops, start, s, start);
      PatchReachesTarget(ops, base.data, target.data, start, s, start);
    }
  }

  /** The delta of two models, as either form delivers it. */
  ghost predicate IsDelta(arith: Arithmetic, encode: Encoder, base: Store, target: Store, order: seq<Name>,
                          delta: Delta) {
    && Comparable(base, target, order)
    && DeltaOf(order, Compared(arith, encode, base, target, order), |order|) == Some(delta)
  }

  lemma DeltaTells(arith: Arithmetic, encode: Encoder, base: Store, target: Store, order: seq<Name>, delta: Delta,
                   i: nat)
    requires IsDelta(arith, encode, base, target, order, delta) && Distinct(order) && i < |order|
    ensures Tells(delta, order[i], Compare(arith, encode, base[order[i]], target[order[i]]))
  {
    var results := Compared(arith, encode, base, target, order);
    DeltaTellsAll(order, results, |order|);
    assert Tells(delta, order[i], results[i]);
    ComparedAt(arith, encode, base, target, order, |order|, i);
  }

  /** Equal values are close ones. */
  ghost predicate EqIsClose(ops: Ops) {
    forall a, b :: ops.eq(a, b) ==> ops.close(a, b)
  }

  lemma TensorMatches(arith: Arithmetic, encode: Encoder, base: Tensor, target: Tensor, delta: Delta, name: Name)
    requires Alike(base, target) && Faithful(encode)
    requires Symmetric(arith(base.dtype)) && EqIsClose(arith(base.dtype))
    requires Tells(delta, name, Compare(arith, encode, base, target))
    ensures base.shape == target.shape && Matches(arith, base, target, delta, name)
  {
    RebuiltMatches(arith, encode, base, target, base.data, delta, name);
    assert base.(data := base.data) == base;
    CloseWhereEq(arith(base.dtype), Rebuilt(arith, base, delta, name).value, target.data);
  }

  lemma CloseWhereEq(ops: Ops, xs: seq<int>, ys: seq<int>)
    requires AllEq(ops, xs, ys) && EqIsClose(ops)
    ensures AllClose(ops, xs, ys)
  {
    forall k | 0 <= k < |xs| ensures ops.close(xs[k], ys[k]) {
      CloseIfEq(ops, xs[k], ys[k]);
    }
  }

  lemma CloseIfEq(ops: Ops, a: int, b: int)
    requires EqIsClose(ops) && ops.eq(a, b)
    ensures ops.close(a, b)
  {
  }

  /** Whenever extraction returns, the verifier finds no mismatch. */
  lemma VerifierAccepts(arith: Arithmetic, encode: Encoder, base: Store, target: Store, order: seq<Name>, delta: Delta,
                        maxReport: int)
    requires IsDelta(arith, encode, base, target, order, delta) && Distinct(order) && Faithful(encode)
    requires forall name :: name in order && name in base ==>
      Symmetric(arith(base[name].dtype)) && EqIsClose(arith(base[name].dtype))
    ensures Verified(arith, base, target, delta, order, maxReport) == Some([])
  {
    assert forall name :: name in delta ==> name in order by {
      DeltaTellsAll(order, Compared(arith, encode, base, target, order), |order|);
      assert order[..|order|] == order;
    }
    var verdicts := Judged(arith, base, target, delta, order);
    forall i | 0 <= i < |order| ensures verdicts[i] == Match {
      DeltaTells(arith, encode, base, target, order, delta, i);
      TensorMatches(arith, encode, base[order[i]], target[order[i]], delta, order[i]);
      JudgedAt(arith, base, target, delta, order, |order|, i);
    }
    NoMismatch(order, verdicts, ReportLimit(maxReport), |order|);
  }

  lemma {:induction false} NoMismatch(order: seq<Name>, verdicts: seq<Verdict>, limit: nat, n: nat)
    requires n <= |order| == |verdicts| && forall i :: 0 <= i < |order| ==> verdicts[i] == Match
    ensures Mismatches(order, verdicts, limit, n) == Some([])
  {
    if n > 0 { NoMismatch(order, verdicts, limit, n - 1); }
  }

  /** The verifier reports only mismatches, in order, and below the limit all of them. */
  lemma {:induction false} VerifierReportsExactly(order: seq<Name>, verdicts: seq<Verdict>, limit: nat, n: nat)
    requires n <= |order| == |verdicts| && Distinct(order)
    ensures var found := Mismatches(order, verdicts, limit, n);
      && (found.None? <==> exists i :: 0 <= i < n && verdicts[i] == Bad)
      && (found.Some? ==>
            && |found.value| <= limit
            && (forall name :: name in found.value ==>
                  exists i :: 0 <= i < n && order[i] == name && verdicts[i] == Mismatch)
            && (|found.value| < limit ==>
                  forall i :: 0 <= i < n && verdicts[i] == Mismatch ==> order[i] in found.value))
  {
    if n > 0 {
      VerifierReportsExactly(order, verdicts, limit, n - 1);
    }
  }

  /* ---------- Chains ---------- */

  /** The first n deltas applied one after the other to one tensor. */
  function Chained(arith: Arithmetic, start: Tensor, deltas: seq<Delta>, name: Name, n: nat): Option<seq<int>>
    requires n <= |deltas|
  {
    if n == 0 then Some(start.data)
    else
      var before := Chained(arith, start, deltas, name, n - 1);
      if before.None? then None else Rebuilt(arith, start.(data := before.value), deltas[n - 1], name)
  }

  ghost predicate IsChain(arith: Arithmetic, encode: Encoder, models: seq<Store>, order: seq<Name>,
                          deltas: seq<Delta>) {
    && |models| == |deltas| + 1
    && forall j :: 0 <= j < |deltas| ==> IsDelta(arith, encode, models[j], models[j + 1], order, deltas[j])
  }

  /** Applying the deltas of consecutive models to the first model reaches the last one. */
  lemma {:induction false} ChainReachesLast(arith: Arithmetic, encode: Encoder, models: seq<Store>, order: seq<Name>,
                                            deltas: seq<Delta>, i: nat, n: nat)
    requires IsChain(arith, encode, models, order, deltas) && Distinct(order) && Faithful(encode)
    requires i < |order| && 1 <= n <= |deltas|
    requires order[i] in models[0] && Congruent(arith(models[0][order[i]].dtype))
    ensures var name := order[i];
      && name in models[0] && name in models[n]
      && models[n][name].shape == models[0][name].shape && models[n][name].dtype == models[0][name].dtype
      && Chained(arith, models[0][name], deltas, name, n).Some?
      && AllEq(arith(models[0][name].dtype), Chained(arith, models[0][name], deltas, name, n).value,
               models[n][name].data)
    decreases n
  {
    var name, base, target := order[i], models[n - 1], models[n];
    assert IsDelta(arith, encode, base, target, order, deltas[n - 1]);
    assert IsDelta(arith, encode, models[0], models[1], order, deltas[0]);
    DeltaTells(arith, encode, base, target, order, deltas[n - 1], i);
    if n > 1 {
      ChainReachesLast(arith, encode, models, order, deltas, i, n - 1);
    }
    var before := Chained(arith, models[0][name], deltas, name, n - 1).value;
    RebuiltMatches(arith, encode, base[name], target[name], before, deltas[n - 1], name);
    assert base[name].(data := before) == models[0][name].(data := before);
  }

  /* ---------- Arithmetic with NaN, infinities and two zeros ---------- */

  const POS_ZERO := 0
  const NEG_ZERO := 1
  const NAN := 2
  const POS_INF := 3
  const NEG_INF := 4

  /** Codes from 5 on are 1, 2, 3 and so on, negative codes are themselves. */
  function NumberOf(code: int): int {
    if code >= 5 then code - 4 else if code < 0 then code else 0
  }

  function CodeOf(number: int): int {
    if number > 0 then number + 4 else if number < 0 then number else POS_ZERO
  }

  predicate SameFloat(a: int, b: int) {
    a != NAN && b != NAN && (a == b || (0 <= a <= NEG_ZERO && 0 <= b <= NEG_ZERO))
  }

  function AddFloats(a: int, b: int): int {
    if a == NAN || b == NAN || (a == POS_INF && b == NEG_INF) || (a == NEG_INF && b == POS_INF) then NAN
    else if a == POS_INF || b == POS_INF then POS_INF
    else if a == NEG_INF || b == NEG_INF then NEG_INF
    else if a == NEG_ZERO && b == NEG_ZERO then NEG_ZERO
    else CodeOf(NumberOf(a) + NumberOf(b))
  }

  function NegatedFloat(a: int): int {
    match a
    case 0 => NEG_ZERO
    case 1 => POS_ZERO
    case 2 => NAN
    case 3 => NEG_INF
    case 4 => POS_INF
    case _ => CodeOf(-NumberOf(a))
  }

  function FloatLike(): Ops {
    Ops((a, b) => SameFloat(a, b), (a, b) => AddFloats(a, NegatedFloat(b)), (a, b) => AddFloats(a, b), a => a,
        (a, b) => AddFloats(a, NegatedFloat(b)), (a, b) => AddFloats(a, b), a => a, (a, b) => SameFloat(a, b))
  }

  /** The equality chains need is one that floats have, although inf + -inf and NaN equal nothing. */
  lemma FloatsAreCongruent()
    ensures Congruent(FloatLike())
    ensures exists a, v :: SameFloat(a, a) && SameFloat(v, v) && !SameFloat(AddFloats(a, v), AddFloats(a, v))
  {
    var ops := FloatLike();
    forall a, b, c, v, wide | ops.eq(a, b) && ops.eq(Applied(ops, wide, b, v), c)
      ensures ops.eq(Applied(ops, wide, a, v), c)
    {
      EqualFloatsAddAlike(a, b, v);
    }
    assert !SameFloat(AddFloats(POS_INF, NEG_INF), AddFloats(POS_INF, NEG_INF));
  }

  lemma EqualFloatsAddAlike(a: int, b: int, v: int)
    requires SameFloat(a, b)
    ensures AddFloats(a, v) == AddFloats(b, v) || SameFloat(AddFloats(a, v), AddFloats(b, v))
  {
  }
}
