/**
 Tokens grouped by expert, run through the experts and brought back: slot k of token t asks for one expert or,
 with -1, for none. Hidden states are vectors over the reals.
 */
module ExpertPermutation {
  import opened Wrappers
  import opened Segments

  /** A valid slot: its token, its place in the token's row, and its expert. */
  datatype Slot = Slot(token: nat, k: nat, expert: int)

  const NO_EXPERT := -1

  /** Valid slots of one token, in row order, among the first n places. */
  function RowSlots(indices: seq<seq<int>>, t: nat, n: nat): (slots: seq<Slot>)
    requires t < |indices| && n <= |indices[t]|
    ensures forall i :: 0 <= i < |slots| ==>
      slots[i].token == t && slots[i].k < n && slots[i].expert == indices[t][slots[i].k]
  {
    if n == 0 then []
    else if indices[t][n - 1] == NO_EXPERT then RowSlots(indices, t, n - 1)
    else RowSlots(indices, t, n - 1) + [Slot(t, n - 1, indices[t][n - 1])]
  }

  /** What the mask selects: the valid slots of the first n tokens, row by row. */
  function ValidSlots(indices: seq<seq<int>>, n: nat): (slots: seq<Slot>)
    requires n <= |indices|
    ensures forall i :: 0 <= i < |slots| ==>
      && slots[i].token < n && slots[i].k < |indices[slots[i].token]|
      && slots[i].expert == indices[slots[i].token][slots[i].k]
  {
    if n == 0 then [] else ValidSlots(indices, n - 1) + RowSlots(indices, n - 1, |indices[n - 1]|)
  }

  function Experts(slots: seq<Slot>): (r: seq<int>)
    ensures |r| == |slots| && forall i :: 0 <= i < |r| ==> r[i] == slots[i].expert
  {
    seq(|slots|, i requires 0 <= i < |slots| => slots[i].expert)
  }

  /** Each token repeated as often as it has valid slots. */
  function RepeatInterleave(indices: seq<seq<int>>, n: nat): seq<nat>
    requires n <= |indices|
  {
    if n == 0 then []
    else RepeatInterleave(indices, n - 1) + seq(|RowSlots(indices, n - 1, |indices[n - 1]|)|, _ => n - 1)
  }

  /** Inserts position p behind every position whose key is not larger. */
  function InsertPosition(order: seq<nat>, keys: seq<int>, p: nat): (r: seq<nat>)
    requires p < |keys| && forall i :: 0 <= i < |order| ==> order[i] < |keys|
    ensures |r| == |order| + 1 && forall i :: 0 <= i < |r| ==> r[i] == p || r[i] in order
  {
    if order == [] || keys[order[|order| - 1]] <= keys[p] then order + [p]
    else InsertPosition(order[..|order| - 1], keys, p) + [order[|order| - 1]]
  }

  /** Stable argsort of the first n keys. */
  function Argsort(keys: seq<int>, n: nat): (order: seq<nat>)
    requires n <= |keys|
    ensures |order| == n && forall i :: 0 <= i < n ==> order[i] < n
  {
    if n == 0 then [] else InsertPosition(Argsort(keys, n - 1), keys, n - 1)
  }

  function Pick<T>(xs: seq<T>, order: seq<nat>): (r: seq<T>)
    requires forall i :: 0 <= i < |order| ==> order[i] < |xs|
    ensures |r| == |order| && forall i :: 0 <= i < |r| ==> r[i] == xs[order[i]]
  {
    seq(|order|, i requires 0 <= i < |order| => xs[order[i]])
  }

  datatype Permuted<T> = Permuted(hidden: seq<T>, scores: seq<real>, indices: seq<nat>)

  /** Scores have the shape of indices, one row a token. */
  predicate Shaped<T>(hidden: seq<T>, indices: seq<seq<int>>, scores: seq<seq<real>>) {
    |hidden| == |indices| == |scores| && forall t :: 0 <= t < |indices| ==> |scores[t]| == |indices[t]|
  }

  function ValidScores(indices: seq<seq<int>>, scores: seq<seq<real>>): (r: seq<real>)
    requires |scores| == |indices| && forall t :: 0 <= t < |indices| ==> |scores[t]| == |indices[t]|
    ensures |r| == |ValidSlots(indices, |indices|)|
  {
    var slots := ValidSlots(indices, |indices|);
    seq(|slots|, i requires 0 <= i < |slots| => scores[slots[i].token][slots[i].k])
  }

  function PermuteTokens<T>(hidden: seq<T>, indices: seq<seq<int>>, scores: seq<seq<real>>): Permuted<T>
    requires Shaped(hidden, indices, scores)
  {
    var slots := ValidSlots(indices, |indices|);
    var order := Argsort(Experts(slots), |slots|);
    InterleavedTokens(indices, |indices|);
    var tokens := Pick(RepeatInterleave(indices, |indices|), order);
    Permuted(Pick(hidden, tokens), Pick(ValidScores(indices, scores), order), tokens)
  }

  type Row = seq<real>

  predicate Dims(rows: seq<Row>, dim: nat) {
    forall i :: 0 <= i < |rows| ==> |rows[i]| == dim
  }

  function Zeros(n: nat, dim: nat): (rows: seq<Row>)
    ensures |rows| == n && Dims(rows, dim)
  {
    Repeat(Repeat(0.0, dim), n)
  }

  function AddRows(a: Row, b: Row): (r: Row)
    requires |a| == |b|
    ensures |r| == |a| && forall c :: 0 <= c < |r| ==> r[c] == a[c] + b[c]
  {
    seq(|a|, c requires 0 <= c < |a| => a[c] + b[c])
  }

  /** Adds the first n rows to the outputs their indices name. */
  function ScatterAdd(out: seq<Row>, indices: seq<nat>, rows: seq<Row>, dim: nat, n: nat): (r: seq<Row>)
    requires Dims(out, dim) && Dims(rows, dim)
    requires n <= |indices| == |rows| && forall i :: 0 <= i < |indices| ==> indices[i] < |out|
    ensures |r| == |out| && Dims(r, dim)
  {
    if n == 0 then out
    else
      var before := ScatterAdd(out, indices, rows, dim, n - 1);
      before[indices[n - 1] := AddRows(before[indices[n - 1]], rows[n - 1])]
  }

  function UnpermuteTokens(permuted: seq<Row>, indices: seq<nat>, numTokens: nat, dim: nat): (r: seq<Row>)
    requires Dims(permuted, dim)
    requires |indices| == |permuted| && forall i :: 0 <= i < |indices| ==> indices[i] < numTokens
    ensures |r| == numTokens && Dims(r, dim)
  {
    ScatterAdd(Zeros(numTokens, dim), indices, permuted, dim, |indices|)
  }

  /* ---------- Grouping ---------- */

  /** Interleaving repeats exactly the tokens of the valid slots. */
  lemma {:induction false} InterleavedTokens(indices: seq<seq<int>>, n: nat)
    requires n <= |indices|
    ensures var slots := ValidSlots(indices, n);
      |RepeatInterleave(indices, n)| == |slots| &&
      forall i :: 0 <= i < |slots| ==> RepeatInterleave(indices, n)[i] == slots[i].token
  {
    if n > 0 { InterleavedTokens(indices, n - 1); }
  }

  /** Position a comes before b: a smaller key, or the same key and an earlier position. */
  predicate Precedes(keys: seq<int>, a: nat, b: nat)
    requires a < |keys| && b < |keys|
  {
    keys[a] < keys[b] || (keys[a] == keys[b] && a < b)
  }

  /** Sorted by key, equal keys in their original order. */
  predicate StableOrder(order: seq<nat>, keys: seq<int>)
    requires forall i :: 0 <= i < |order| ==> order[i] < |keys|
  {
    forall i, j :: 0 <= i < j < |order| ==> Precedes(keys, order[i], order[j])
  }

  lemma AppendKeepsOrder(order: seq<nat>, keys: seq<int>, x: nat)
    requires x < |keys| && (forall i :: 0 <= i < |order| ==> order[i] < |keys|) && StableOrder(order, keys)
    requires order != [] ==> Precedes(keys, order[|order| - 1], x)
    ensures StableOrder(order + [x], keys)
  {
    var last := |order| - 1;
    forall i | 0 <= i < |order| ensures Precedes(keys, order[i], x) {
      assert i == last || Precedes(keys, order[i], order[last]);
    }
  }

  lemma {:induction false} InsertKeepsOrder(order: seq<nat>, keys: seq<int>, p: nat)
    requires p < |keys| && (forall i :: 0 <= i < |order| ==> order[i] < p) && StableOrder(order, keys)
    ensures StableOrder(InsertPosition(order, keys, p), keys)
  {
    if order == [] || keys[order[|order| - 1]] <= keys[p] {
      AppendKeepsOrder(order, keys, p);
    } else {
      var front, last := order[..|order| - 1], order[|order| - 1];
      InsertKeepsOrder(front, keys, p);
      var r := InsertPosition(front, keys, p);
      var end := r[|r| - 1];
      assert end == p || end in front;
      assert forall i :: 0 <= i < |front| ==> front[i] == order[i] && Precedes(keys, order[i], last);
      assert Precedes(keys, p, last);
      AppendKeepsOrder(r, keys, last);
    }
  }

  /** The argsort is stable and sorts. */
  lemma {:induction false} ArgsortSorts(keys: seq<int>, n: nat)
    requires n <= |keys|
    ensures StableOrder(Argsort(keys, n), keys)
  {
    if n > 0 {
      ArgsortSorts(keys, n - 1);
      InsertKeepsOrder(Argsort(keys, n - 1), keys, n - 1);
    }
  }

  lemma {:induction false} PickInserted<T>(xs: seq<T>, order: seq<nat>, keys: seq<int>, p: nat)
    requires |xs| == |keys| && p < |keys| && forall i :: 0 <= i < |order| ==> order[i] < |keys|
    ensures multiset(Pick(xs, InsertPosition(order, keys, p))) == multiset(Pick(xs, order)) + multiset{xs[p]}
  {
    if order == [] || keys[order[|order| - 1]] <= keys[p] {
      assert Pick(xs, order + [p]) == Pick(xs, order) + [xs[p]];
    } else {
      var front, last := order[..|order| - 1], order[|order| - 1];
      PickInserted(xs, front, keys, p);
      assert Pick(xs, InsertPosition(front, keys, p) + [last]) == Pick(xs, InsertPosition(front, keys, p)) + [xs[last]];
      assert Pick(xs, order) == Pick(xs, front) + [xs[last]];
    }
  }

  lemma OneMoreOf<T>(xs: seq<T>, n: nat)
    requires 0 < n <= |xs|
    ensures multiset(xs[..n]) == multiset(xs[..n - 1]) + multiset{xs[n - 1]}
  {
    assert xs[..n] == xs[..n - 1] + [xs[n - 1]];
  }

  /** Picking by the argsort rearranges. */
  lemma {:induction false} PickRearranges<T>(xs: seq<T>, keys: seq<int>, n: nat)
    requires n <= |xs| == |keys|
    ensures multiset(Pick(xs, Argsort(keys, n))) == multiset(xs[..n])
  {
    if n > 0 {
      PickRearranges(xs, keys, n - 1);
      PickInserted(xs, Argsort(keys, n - 1), keys, n - 1);
      OneMoreOf(xs, n);
    }
  }

  /** The valid slots in the order of the permuted rows. */
  function PermutedSlots(indices: seq<seq<int>>): (slots: seq<Slot>)
    ensures |slots| == |ValidSlots(indices, |indices|)|
  {
    var slots := ValidSlots(indices, |indices|);
    Pick(slots, Argsort(Experts(slots), |slots|))
  }

  /** Row i is slot i of the valid slots, stably ordered by expert: its token's state, its score, its token. */
  lemma PermutedIsStableGrouping<T>(hidden: seq<T>, indices: seq<seq<int>>, scores: seq<seq<real>>)
    requires Shaped(hidden, indices, scores)
    ensures var p, slots := PermuteTokens(hidden, indices, scores), PermutedSlots(indices);
      && |p.hidden| == |p.scores| == |p.indices| == |slots|
      && multiset(slots) == multiset(ValidSlots(indices, |indices|))
      && (forall i :: 0 <= i < |slots| ==> RowIsSlot(p, hidden, indices, scores, slots[i], i))
      && (forall i, j :: 0 <= i < j < |slots| ==> slots[i].expert <= slots[j].expert)
      && (forall i, j :: 0 <= i < j < |slots| && slots[i].expert == slots[j].expert ==> Earlier(slots[i], slots[j]))
  {
    var all := ValidSlots(indices, |indices|);
    var keys := Experts(all);
    InterleavedTokens(indices, |indices|);
    ArgsortSorts(keys, |all|);
    PickRearranges(all, keys, |all|);
    assert all[..|all|] == all;
    SlotsInOrder(indices, |indices|);
    var order, slots := Argsort(keys, |all|), PermutedSlots(indices);
    forall i, j | 0 <= i < j < |slots|
      ensures slots[i].expert <= slots[j].expert
      ensures slots[i].expert == slots[j].expert ==> Earlier(slots[i], slots[j])
    {
      assert Precedes(keys, order[i], order[j]);
    }
  }

  predicate RowIsSlot<T(==)>(p: Permuted<T>, hidden: seq<T>, indices: seq<seq<int>>, scores: seq<seq<real>>, slot: Slot,
                             i: nat)
    requires Shaped(hidden, indices, scores) && i < |p.hidden| && i < |p.scores| && i < |p.indices|
  {
    && slot.token < |indices| && slot.k < |indices[slot.token]| && indices[slot.token][slot.k] == slot.expert
    && p.indices[i] == slot.token && p.hidden[i] == hidden[slot.token] && p.scores[i] == scores[slot.token][slot.k]
  }

  /** Row by row, place by place. */
  predicate Earlier(a: Slot, b: Slot) {
    a.token < b.token || (a.token == b.token && a.k < b.k)
  }

  predicate InOrder(slots: seq<Slot>) {
    forall i, j :: 0 <= i < j < |slots| ==> Earlier(slots[i], slots[j])
  }

  lemma {:induction false} RowInOrder(indices: seq<seq<int>>, t: nat, n: nat)
    requires t < |indices| && n <= |indices[t]|
    ensures InOrder(RowSlots(indices, t, n))
  {
    if n > 0 { RowInOrder(indices, t, n - 1); }
  }

  lemma InOrderAppends(a: seq<Slot>, b: seq<Slot>)
    requires InOrder(a) && InOrder(b) && forall i, j :: 0 <= i < |a| && 0 <= j < |b| ==> Earlier(a[i], b[j])
    ensures InOrder(a + b)
  {
  }

  lemma {:induction false} SlotsInOrder(indices: seq<seq<int>>, n: nat)
    requires n <= |indices|
    ensures InOrder(ValidSlots(indices, n))
  {
    if n > 0 {
      SlotsInOrder(indices, n - 1);
      RowInOrder(indices, n - 1, |indices[n - 1]|);
      InOrderAppends(ValidSlots(indices, n - 1), RowSlots(indices, n - 1, |indices[n - 1]|));
    }
  }

  /** Exactly the places that name an expert are valid slots. */
  lemma {:induction false} ValidExactly(indices: seq<seq<int>>, n: nat, s: Slot)
    requires n <= |indices|
    ensures s in ValidSlots(indices, n) <==>
      s.token < n && s.k < |indices[s.token]| && indices[s.token][s.k] == s.expert && s.expert != -1
  {
    if n > 0 {
      ValidExactly(indices, n - 1, s);
      RowExactly(indices, n - 1, |indices[n - 1]|, s);
    }
  }

  lemma {:induction false} RowExactly(indices: seq<seq<int>>, t: nat, n: nat, s: Slot)
    requires t < |indices| && n <= |indices[t]|
    ensures s in RowSlots(indices, t, n) <==>
      s.token == t && s.k < n && indices[t][s.k] == s.expert && s.expert != NO_EXPERT
  {
    if n > 0 { RowExactly(indices, t, n - 1, s); }
  }

  /* ---------- Bringing results back ---------- */

  /** What the slots of token t contribute. */
  function TokenSum(slots: seq<Slot>, result: Slot -> real, t: nat): real {
    if slots == [] then 0.0
    else
      var last := slots[|slots| - 1];
      TokenSum(slots[..|slots| - 1], result, t) + if last.token == t then result(last) else 0.0
  }

  lemma TokenSumNext(slots: seq<Slot>, s: Slot, result: Slot -> real, t: nat)
    ensures TokenSum(slots + [s], result, t) == TokenSum(slots, result, t) + if s.token == t then result(s) else 0.0
  {
    assert (slots + [s])[..|slots|] == slots;
  }

  lemma {:induction false} TokenSumAppend(a: seq<Slot>, b: seq<Slot>, result: Slot -> real, t: nat)
    ensures TokenSum(a + b, result, t) == TokenSum(a, result, t) + TokenSum(b, result, t)
  {
    if b == [] {
      assert a + b == a;
    } else {
      var front, s := b[..|b| - 1], b[|b| - 1];
      assert a + b == a + front + [s];
      TokenSumAppend(a, front, result, t);
      TokenSumNext(a + front, s, result, t);
    }
  }

  lemma Cancel(x: multiset<Slot>, y: multiset<Slot>, s: Slot)
    requires x + multiset{s} == y + multiset{s}
    ensures x == y
  {
    forall e | e in x || e in y ensures x[e] == y[e] {
      assert (x + multiset{s})[e] == (y + multiset{s})[e];
    }
  }

  /** Order does not matter. */
  lemma {:induction false} TokenSumRearranged(a: seq<Slot>, b: seq<Slot>, result: Slot -> real, t: nat)
    requires multiset(a) == multiset(b)
    ensures TokenSum(a, result, t) == TokenSum(b, result, t)
    decreases |a|
  {
    assert |a| == |multiset(a)| == |multiset(b)| == |b|;
    if a != [] {
      var front, s := a[..|a| - 1], a[|a| - 1];
      assert a == front + [s];
      assert s in multiset(b);
      var i :| 0 <= i < |b| && b[i] == s;
      var left, right := b[..i], b[i + 1..];
      assert b == left + [s] + right;
      assert multiset(front) + multiset{s} == multiset(a);
      assert multiset(left + right) + multiset{s} == multiset(b);
      Cancel(multiset(front), multiset(left + right), s);
      TokenSumRearranged(front, left + right, result, t);
      TokenSumNext(left, s, result, t);
      TokenSumAppend(left + [s], right, result, t);
      TokenSumAppend(left, right, result, t);
    }
  }

  /** Scattering adds to each token what its slots contribute, coordinate by coordinate. */
  lemma {:induction false} ScatterSums(slots: seq<Slot>, tokens: seq<nat>, rows: seq<Row>, result: Slot -> real,
                                       out: seq<Row>, dim: nat, n: nat, t: nat, c: nat)
    requires n <= |slots| == |tokens| == |rows| && t < |out| && c < dim && Dims(out, dim) && Dims(rows, dim)
    requires forall i :: 0 <= i < |slots| ==>
      tokens[i] == slots[i].token && tokens[i] < |out| && rows[i][c] == result(slots[i])
    ensures ScatterAdd(out, tokens, rows, dim, n)[t][c] == out[t][c] + TokenSum(slots[..n], result, t)
  {
    if n > 0 {
      ScatterSums(slots, tokens, rows, result, out, dim, n - 1, t, c);
      assert slots[..n] == slots[..n - 1] + [slots[n - 1]];
      TokenSumNext(slots[..n - 1], slots[n - 1], result, t);
    }
  }

  lemma {:induction false} OtherRowsAddNothing(indices: seq<seq<int>>, n: nat, result: Slot -> real, t: nat)
    requires n <= |indices| && t >= n
    ensures TokenSum(ValidSlots(indices, n), result, t) == 0.0
  {
    if n > 0 {
      OtherRowsAddNothing(indices, n - 1, result, t);
      TokenSumAppend(ValidSlots(indices, n - 1), RowSlots(indices, n - 1, |indices[n - 1]|), result, t);
      RowForOther(indices, n - 1, |indices[n - 1]|, result, t);
    }
  }

  lemma {:induction false} RowForOther(indices: seq<seq<int>>, r: nat, n: nat, result: Slot -> real, t: nat)
    requires r < |indices| && n <= |indices[r]| && t != r
    ensures TokenSum(RowSlots(indices, r, n), result, t) == 0.0
  {
    if n > 0 {
      RowForOther(indices, r, n - 1, result, t);
      TokenSumAppend(RowSlots(indices, r, n - 1), [Slot(r, n - 1, indices[r][n - 1])], result, t);
    }
  }

  /** A token's share of all valid slots is the sum over its own row. */
  lemma {:induction false} TokenSumIsRowSum(indices: seq<seq<int>>, n: nat, result: Slot -> real, t: nat)
    requires t < n <= |indices|
    ensures TokenSum(ValidSlots(indices, n), result, t) == TokenSum(RowSlots(indices, t, |indices[t]|), result, t)
  {
    var row := RowSlots(indices, n - 1, |indices[n - 1]|);
    TokenSumAppend(ValidSlots(indices, n - 1), row, result, t);
    if t == n - 1 {
      OtherRowsAddNothing(indices, n - 1, result, t);
    } else {
      TokenSumIsRowSum(indices, n - 1, result, t);
      RowForOther(indices, n - 1, |indices[n - 1]|, result, t);
    }
  }

  /** Whatever is computed per slot, each token gets the sum over its own valid slots. */
  lemma UnpermuteSumsOwnSlots<T>(hidden: seq<T>, indices: seq<seq<int>>, scores: seq<seq<real>>, result: Slot -> real,
                                 rows: seq<Row>, dim: nat, t: nat, c: nat)
    requires Shaped(hidden, indices, scores) && t < |indices| && c < dim
    requires |rows| == |PermutedSlots(indices)| && Dims(rows, dim)
    requires forall i :: 0 <= i < |rows| ==> rows[i][c] == result(PermutedSlots(indices)[i])
    ensures var p := PermuteTokens(hidden, indices, scores);
      && |p.indices| == |rows| && (forall i :: 0 <= i < |p.indices| ==> p.indices[i] < |indices|)
      && UnpermuteTokens(rows, p.indices, |indices|, dim)[t][c]
           == TokenSum(RowSlots(indices, t, |indices[t]|), result, t)
  {
    var p, slots := PermuteTokens(hidden, indices, scores), PermutedSlots(indices);
    PermutedIsStableGrouping(hidden, indices, scores);
    forall i | 0 <= i < |slots| ensures p.indices[i] == slots[i].token && p.indices[i] < |indices| {
      assert RowIsSlot(p, hidden, indices, scores, slots[i], i);
    }
    ScatterSums(slots, p.indices, rows, result, Zeros(|indices|, dim), dim, |slots|, t, c);
    assert slots[..|slots|] == slots;
    TokenSumRearranged(slots, ValidSlots(indices, |indices|), result, t);
    TokenSumIsRowSum(indices, |indices|, result, t);
  }

  /* ---------- Segments ---------- */

  /** How often the first n places of a row name the expert. */
  function NamedIn(row: seq<int>, e: nat, n: nat): nat
    requires n <= |row|
  {
    if n == 0 then 0 else NamedIn(row, e, n - 1) + if row[n - 1] == e then 1 else 0
  }

  /** How often the first n tokens name the expert. */
  function Named(indices: seq<seq<int>>, e: nat, n: nat): nat
    requires n <= |indices|
  {
    if n == 0 then 0 else Named(indices, e, n - 1) + NamedIn(indices[n - 1], e, |indices[n - 1]|)
  }

  /** Every place of the row names one of n experts or none. */
  predicate RowNames(row: seq<int>, n: nat) {
    forall k :: 0 <= k < |row| ==> NO_EXPERT <= row[k] < n
  }

  /** Every place names one of the experts or none, and the counts say how often each is named. */
  ghost predicate TokensPerExpert(indices: seq<seq<int>>, counts: seq<nat>) {
    && (forall t :: 0 <= t < |indices| ==> RowNames(indices[t], |counts|))
    && (forall e :: 0 <= e < |counts| ==> counts[e] == Named(indices, e, |indices|))
  }

  predicate AllNamed(slots: seq<Slot>) {
    forall i :: 0 <= i < |slots| ==> slots[i].expert >= 0
  }

  function Owners(slots: seq<Slot>): (r: seq<nat>)
    requires AllNamed(slots)
    ensures |r| == |slots| && forall i :: 0 <= i < |r| ==> r[i] == slots[i].expert
  {
    seq(|slots|, i requires 0 <= i < |slots| => slots[i].expert)
  }

  lemma OwnersNext(slots: seq<Slot>, s: Slot, e: nat)
    requires AllNamed(slots + [s])
    ensures AllNamed(slots)
    ensures Count(Owners(slots + [s]), e) == Count(Owners(slots), e) + if s.expert == e then 1 else 0
  {
    assert forall i :: 0 <= i < |slots| ==> (slots + [s])[i] == slots[i];
    assert (slots + [s])[|slots|] == s;
    assert Owners(slots + [s])[..|slots|] == Owners(slots);
  }

  lemma OwnersAppend(a: seq<Slot>, b: seq<Slot>, e: nat)
    requires AllNamed(a) && AllNamed(b)
    ensures AllNamed(a + b) && Count(Owners(a + b), e) == Count(Owners(a), e) + Count(Owners(b), e)
  {
    assert Owners(a + b) == Owners(a) + Owners(b);
    CountAppend(Owners(a), Owners(b), e);
  }

  lemma {:induction false} RowCount(indices: seq<seq<int>>, t: nat, n: nat, e: nat, experts: nat)
    requires t < |indices| && n <= |indices[t]| && RowNames(indices[t], experts)
    ensures var row := RowSlots(indices, t, n); AllNamed(row) && Count(Owners(row), e) == NamedIn(indices[t], e, n)
  {
    if n > 0 {
      RowCount(indices, t, n - 1, e, experts);
      if indices[t][n - 1] != NO_EXPERT {
        OwnersNext(RowSlots(indices, t, n - 1), Slot(t, n - 1, indices[t][n - 1]), e);
      }
    }
  }

  lemma {:induction false} SlotsCount(indices: seq<seq<int>>, n: nat, e: nat, experts: nat)
    requires n <= |indices| && forall t :: 0 <= t < |indices| ==> RowNames(indices[t], experts)
    ensures var slots := ValidSlots(indices, n); AllNamed(slots) && Count(Owners(slots), e) == Named(indices, e, n)
  {
    if n > 0 {
      SlotsCount(indices, n - 1, e, experts);
      RowCount(indices, n - 1, |indices[n - 1]|, e, experts);
      OwnersAppend(ValidSlots(indices, n - 1), RowSlots(indices, n - 1, |indices[n - 1]|), e);
    }
  }

  lemma PermutedNamed(indices: seq<seq<int>>, counts: seq<nat>)
    requires TokensPerExpert(indices, counts)
    ensures AllNamed(ValidSlots(indices, |indices|)) && AllNamed(PermutedSlots(indices))
    ensures forall i :: 0 <= i < |PermutedSlots(indices)| ==> PermutedSlots(indices)[i].expert < |counts|
  {
    var slots := ValidSlots(indices, |indices|);
    SlotsCount(indices, |indices|, 0, |counts|);
    var order := Argsort(Experts(slots), |slots|);
    forall i | 0 <= i < |slots| ensures 0 <= PermutedSlots(indices)[i].expert < |counts| {
      assert slots[order[i]].expert >= 0;
    }
  }

  /** Sorting does not change how often an expert is named. */
  lemma PermutedCount(indices: seq<seq<int>>, counts: seq<nat>, e: nat)
    requires TokensPerExpert(indices, counts) && e < |counts|
    ensures AllNamed(PermutedSlots(indices)) && Count(Owners(PermutedSlots(indices)), e) == counts[e]
  {
    PermutedNamed(indices, counts);
    var slots := ValidSlots(indices, |indices|);
    var owners, order := Owners(slots), Argsort(Experts(slots), |slots|);
    SlotsCount(indices, |indices|, e, |counts|);
    PickRearranges(owners, Experts(slots), |slots|);
    assert owners[..|slots|] == owners;
    assert Owners(PermutedSlots(indices)) == Pick(owners, order);
    CountIsMultiplicity(owners, e);
    CountIsMultiplicity(Pick(owners, order), e);
  }

  lemma PermutedMatch(indices: seq<seq<int>>, counts: seq<nat>)
    requires TokensPerExpert(indices, counts)
    ensures AllNamed(PermutedSlots(indices)) && CountsMatch(counts, Owners(PermutedSlots(indices)))
  {
    PermutedNamed(indices, counts);
    var slots := ValidSlots(indices, |indices|);
    var owners, order := Owners(PermutedSlots(indices)), Argsort(Experts(slots), |slots|);
    ArgsortSorts(Experts(slots), |slots|);
    forall i, j | 0 <= i < j < |owners| ensures owners[i] <= owners[j] {
      assert Precedes(Experts(slots), order[i], order[j]);
    }
    forall e | 0 <= e < |counts| ensures counts[e] == Count(owners, e) {
      PermutedCount(indices, counts, e);
    }
  }

  /** Cut by the counts, the permuted rows fall into the segments of the experts: segment e is exactly e's rows. */
  lemma SegmentsAreExperts(indices: seq<seq<int>>, counts: seq<nat>, i: nat, e: nat)
    requires TokensPerExpert(indices, counts) && i < |PermutedSlots(indices)| && e < |counts|
    ensures SumTo(counts, |counts|) == |PermutedSlots(indices)|
    ensures PermutedSlots(indices)[i].expert == e <==> SumTo(counts, e) <= i < SumTo(counts, e + 1)
  {
    PermutedMatch(indices, counts);
    CountsCover(counts, Owners(PermutedSlots(indices)));
    CountsDelimit(counts, Owners(PermutedSlots(indices)), i, e);
  }

  /* ---------- Experts ---------- */

  /** Coordinate c of what an expert makes of a row; it may depend on the whole row. */
  type Expert = (nat, Row, nat) -> real

  function OutputAt(expert: Expert, e: nat, row: Row, c: nat): real {
    expert(e, row, c)
  }

  function Output(expert: Expert, e: nat, row: Row): (r: Row)
    ensures |r| == |row| && forall c :: 0 <= c < |r| ==> r[c] == OutputAt(expert, e, row, c)
  {
    seq(|row|, c requires 0 <= c < |row| => OutputAt(expert, e, row, c))
  }

  function OnSegment(expert: Expert, e: nat, rows: seq<Row>): (r: seq<Row>)
    ensures |r| == |rows| && forall i :: 0 <= i < |r| ==> r[i] == Output(expert, e, rows[i])
  {
    seq(|rows|, i requires 0 <= i < |rows| => Output(expert, e, rows[i]))
  }

  /** The first e experts, each on its segment. */
  function RunTo(expert: Expert, rows: seq<Row>, counts: seq<nat>, e: nat): (r: seq<Row>)
    requires e <= |counts| && SumTo(counts, e) <= |rows|
    ensures |r| == SumTo(counts, e)
  {
    if e == 0 then []
    else
      var segment := rows[SumTo(counts, e - 1)..SumTo(counts, e)];
      RunTo(expert, rows, counts, e - 1) + OnSegment(expert, e - 1, segment)
  }

  /** All experts, each on its segment; rows beyond the segments come out as zeros. */
  function RunExperts(expert: Expert, rows: seq<Row>, counts: seq<nat>, dim: nat): (r: seq<Row>)
    requires SumTo(counts, |counts|) <= |rows|
    ensures |r| == |rows|
  {
    RunTo(expert, rows, counts, |counts|) + Zeros(|rows| - SumTo(counts, |counts|), dim)
  }

  method RunExpertsForLoop(expert: Expert, x: seq<Row>, counts: seq<nat>, dim: nat) returns (out: seq<Row>)
    requires SumTo(counts, |counts|) <= |x|
    ensures out == RunExperts(expert, x, counts, dim)
  {
    out := [];
    var start := 0;
    for e := 0 to |counts|
      invariant start == SumTo(counts, e) <= |x|
      invariant out == RunTo(expert, x, counts, e)
    {
      SumGrows(counts, e + 1, |counts|);
      var split := x[start..start + counts[e]];
      out := out + OnSegment(expert, e, split);
      start := start + counts[e];
    }
    out := out + Zeros(|x| - start, dim);
  }

  /** A row within segment e meets expert e. */
  lemma {:induction false} RowMeets(expert: Expert, rows: seq<Row>, counts: seq<nat>, n: nat, e: nat, i: nat)
    requires e < n <= |counts| && SumTo(counts, n) <= |rows| && SumTo(counts, e) <= i < SumTo(counts, e + 1)
    ensures i < SumTo(counts, n) && RunTo(expert, rows, counts, n)[i] == Output(expert, e, rows[i])
  {
    SumGrows(counts, e + 1, n);
    if e < n - 1 {
      SumGrows(counts, e + 1, n - 1);
      RowMeets(expert, rows, counts, n - 1, e, i);
    }
  }

  /** Running the experts over the segments of the permuted rows gives each row to the expert its slot names. */
  lemma ExpertsMeetTheirRows(expert: Expert, rows: seq<Row>, indices: seq<seq<int>>, counts: seq<nat>, dim: nat, i: nat)
    requires TokensPerExpert(indices, counts) && |rows| == |PermutedSlots(indices)| && i < |rows|
    ensures SumTo(counts, |counts|) == |rows| && 0 <= PermutedSlots(indices)[i].expert < |counts|
    ensures RunExperts(expert, rows, counts, dim)[i] == Output(expert, PermutedSlots(indices)[i].expert, rows[i])
  {
    PermutedNamed(indices, counts);
    var e := PermutedSlots(indices)[i].expert;
    SegmentsAreExperts(indices, counts, i, e);
    RowMeets(expert, rows, counts, |counts|, e, i);
  }

  /* ---------- Dispatch and combine ---------- */

  function Times(a: real, b: real): real {
    a * b
  }

  function Scale(row: Row, score: real): (r: Row)
    ensures |r| == |row| && forall c :: 0 <= c < |r| ==> r[c] == Times(row[c], score)
  {
    seq(|row|, c requires 0 <= c < |row| => Times(row[c], score))
  }

  function Scaled(rows: seq<Row>, scores: seq<real>): (r: seq<Row>)
    requires |rows| == |scores|
    ensures |r| == |rows| && forall i :: 0 <= i < |r| ==> r[i] == Scale(rows[i], scores[i])
  {
    seq(|rows|, i requires 0 <= i < |rows| => Scale(rows[i], scores[i]))
  }

  /** The permuted rows as they reach the summation: scores apply in front of the experts or behind them. */
  function ResultRows(p: Permuted<Row>, scoreBefore: bool, expert: Expert, counts: seq<nat>, dim: nat): (r: seq<Row>)
    requires |p.hidden| == |p.scores| && SumTo(counts, |counts|) <= |p.hidden|
    ensures |r| == |p.hidden|
  {
    if scoreBefore then RunExperts(expert, Scaled(p.hidden, p.scores), counts, dim)
    else Scaled(RunExperts(expert, p.hidden, counts, dim), p.scores)
  }

  /** What one slot contributes to coordinate c of its token. */
  function Contribution(hidden: seq<Row>, scores: seq<seq<real>>, scoreBefore: bool, expert: Expert, c: nat,
                        s: Slot): real
  {
    if s.token < |hidden| && s.token < |scores| && s.k < |scores[s.token]| && s.expert >= 0 then
      RowContribution(hidden[s.token], scores[s.token][s.k], scoreBefore, expert, c, s.expert)
    else 0.0
  }

  function RowContribution(row: Row, score: real, scoreBefore: bool, expert: Expert, c: nat, e: nat): real {
    if scoreBefore then OutputAt(expert, e, Scale(row, score), c) else Times(OutputAt(expert, e, row, c), score)
  }

  lemma ResultRowIs(p: Permuted<Row>, indices: seq<seq<int>>, scoreBefore: bool, expert: Expert, counts: seq<nat>,
                    dim: nat, i: nat, c: nat)
    requires TokensPerExpert(indices, counts) && |p.hidden| == |p.scores| == |PermutedSlots(indices)|
    requires i < |p.hidden| && |p.hidden[i]| == dim && c < dim
    ensures SumTo(counts, |counts|) == |p.hidden| && PermutedSlots(indices)[i].expert >= 0
    ensures var r := ResultRows(p, scoreBefore, expert, counts, dim)[i];
      && |r| == dim
      && r[c] == RowContribution(p.hidden[i], p.scores[i], scoreBefore, expert, c, PermutedSlots(indices)[i].expert)
  {
    ExpertsMeetTheirRows(expert, if scoreBefore then Scaled(p.hidden, p.scores) else p.hidden, indices, counts, dim, i);
  }

  lemma RowContributes(hidden: seq<Row>, indices: seq<seq<int>>, scores: seq<seq<real>>, scoreBefore: bool,
                       expert: Expert, counts: seq<nat>, dim: nat, i: nat, c: nat)
    requires Shaped(hidden, indices, scores) && Dims(hidden, dim) && TokensPerExpert(indices, counts)
    requires i < |PermutedSlots(indices)| && c < dim
    ensures var p := PermuteTokens(hidden, indices, scores);
      && |p.hidden| == |p.scores| == |PermutedSlots(indices)| == SumTo(counts, |counts|)
      && var r := ResultRows(p, scoreBefore, expert, counts, dim)[i];
      && |r| == dim
      && r[c] == Contribution(hidden, scores, scoreBefore, expert, c, PermutedSlots(indices)[i])
  {
    PermutedIsStableGrouping(hidden, indices, scores);
    var p, slot := PermuteTokens(hidden, indices, scores), PermutedSlots(indices)[i];
    assert RowIsSlot(p, hidden, indices, scores, slot, i);
    ResultRowIs(p, indices, scoreBefore, expert, counts, dim, i, c);
  }

  /**
   Grouping keeps the meaning: permuting, running each expert on its segment and adding up gives token t the
   scored results of exactly its own experts, in every coordinate.
   */
  lemma LayerIsPerToken(hidden: seq<Row>, indices: seq<seq<int>>, scores: seq<seq<real>>, scoreBefore: bool,
                        expert: Expert, counts: seq<nat>, dim: nat, t: nat, c: nat)
    requires Shaped(hidden, indices, scores) && Dims(hidden, dim) && TokensPerExpert(indices, counts)
    requires t < |indices| && c < dim
    ensures var p := PermuteTokens(hidden, indices, scores);
      && |p.hidden| == |p.scores| == |p.indices| == SumTo(counts, |counts|)
      && (forall i :: 0 <= i < |p.indices| ==> p.indices[i] < |indices|)
      && var rows := ResultRows(p, scoreBefore, expert, counts, dim);
      && Dims(rows, dim)
      && UnpermuteTokens(rows, p.indices, |indices|, dim)[t][c]
           == TokenSum(RowSlots(indices, t, |indices[t]|),
                       s => Contribution(hidden, scores, scoreBefore, expert, c, s), t)
  {
    var p, slots := PermuteTokens(hidden, indices, scores), PermutedSlots(indices);
    var result := s => Contribution(hidden, scores, scoreBefore, expert, c, s);
    PermutedIsStableGrouping(hidden, indices, scores);
    PermutedMatch(indices, counts);
    CountsCover(counts, Owners(slots));
    var rows := ResultRows(p, scoreBefore, expert, counts, dim);
    forall i | 0 <= i < |rows| ensures |rows[i]| == dim && rows[i][c] == result(slots[i]) {
      RowContributes(hidden, indices, scores, scoreBefore, expert, counts, dim, i, c);
    }
    UnpermuteSumsOwnSlots(hidden, indices, scores, result, rows, dim, t, c);
  }
}
