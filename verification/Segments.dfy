/** Lists grouped by owner: how often each owner occurs delimits where its elements are. */
module Segments {
  import opened Wrappers

  function Count(owners: seq<nat>, l: nat): nat {
    if owners == [] then 0
    else Count(owners[..|owners| - 1], l) + if owners[|owners| - 1] == l then 1 else 0
  }

  predicate Ascending(owners: seq<nat>) {
    forall p, q :: 0 <= p < q < |owners| ==> owners[p] <= owners[q]
  }

  ghost predicate CountsMatch(counts: seq<nat>, owners: seq<nat>) {
    && (forall l :: 0 <= l < |counts| ==> counts[l] == Count(owners, l))
    && (forall p :: 0 <= p < |owners| ==> owners[p] < |counts|)
    && Ascending(owners)
  }

  lemma {:induction false} CountRepeat(owners: seq<nat>, x: nat, n: nat, l: nat)
    ensures Count(owners + Repeat(x, n), l) == Count(owners, l) + if l == x then n else 0
  {
    if n > 0 {
      CountRepeat(owners, x, n - 1, l);
      assert (owners + Repeat(x, n))[..|owners| + n - 1] == owners + Repeat(x, n - 1);
    } else {
      assert owners + Repeat(x, 0) == owners;
    }
  }

  /** More elements of the highest owner so far. */
  lemma MatchGrows(counts: seq<nat>, owners: seq<nat>, x: nat, n: nat)
    requires CountsMatch(counts, owners) && x < |counts|
    requires forall p :: 0 <= p < |owners| ==> owners[p] <= x
    ensures CountsMatch(counts[x := counts[x] + n], owners + Repeat(x, n))
  {
    forall l | 0 <= l < |counts| ensures counts[x := counts[x] + n][l] == Count(owners + Repeat(x, n), l) {
      CountRepeat(owners, x, n, l);
    }
  }

  lemma {:induction false} CountAppend(a: seq<nat>, b: seq<nat>, l: nat)
    ensures Count(a + b, l) == Count(a, l) + Count(b, l)
  {
    if b == [] {
      assert a + b == a;
    } else {
      assert (a + b)[..|a + b| - 1] == a + b[..|b| - 1];
      CountAppend(a, b[..|b| - 1], l);
    }
  }

  /** The order of the elements does not matter to the count. */
  lemma {:induction false} CountIsMultiplicity(owners: seq<nat>, l: nat)
    ensures Count(owners, l) == multiset(owners)[l]
  {
    if owners != [] {
      CountIsMultiplicity(owners[..|owners| - 1], l);
      assert owners == owners[..|owners| - 1] + [owners[|owners| - 1]];
    }
  }

  function SumTo(counts: seq<nat>, l: nat): nat
    requires l <= |counts|
  {
    if l == 0 then 0 else SumTo(counts, l - 1) + counts[l - 1]
  }

  lemma {:induction false} SumGrows(counts: seq<nat>, j: nat, k: nat)
    requires j <= k <= |counts|
    ensures SumTo(counts, j) <= SumTo(counts, k)
  {
    if j < k { SumGrows(counts, j, k - 1); }
  }

  function CountBelow(owners: seq<nat>, l: nat): nat {
    if owners == [] then 0
    else CountBelow(owners[..|owners| - 1], l) + if owners[|owners| - 1] < l then 1 else 0
  }

  lemma {:induction false} BelowNext(owners: seq<nat>, l: nat)
    ensures CountBelow(owners, l + 1) == CountBelow(owners, l) + Count(owners, l)
    ensures CountBelow(owners, 0) == 0
  {
    if owners != [] { BelowNext(owners[..|owners| - 1], l); }
  }

  lemma {:induction false} SumIsBelow(counts: seq<nat>, owners: seq<nat>, l: nat)
    requires CountsMatch(counts, owners) && l <= |counts|
    ensures SumTo(counts, l) == CountBelow(owners, l)
  {
    if l > 0 {
      SumIsBelow(counts, owners, l - 1);
      BelowNext(owners, l - 1);
    } else {
      BelowNext(owners, 0);
    }
  }

  lemma {:induction false} BelowSplits(owners: seq<nat>, l: nat, p: nat)
    requires Ascending(owners) && p < |owners|
    ensures owners[p] < l <==> p < CountBelow(owners, l)
    ensures CountBelow(owners, l) <= |owners|
  {
    var last := |owners| - 1;
    var front := owners[..last];
    BelowAtMost(front, l);
    if p < last {
      BelowSplits(front, l, p);
      if owners[last] < l {
        BelowAll(front, l);
      }
    } else if owners[last] < l {
      BelowAll(front, l);
    }
  }

  lemma {:induction false} BelowAtMost(owners: seq<nat>, l: nat)
    ensures CountBelow(owners, l) <= |owners|
  {
    if owners != [] { BelowAtMost(owners[..|owners| - 1], l); }
  }

  lemma {:induction false} BelowAll(owners: seq<nat>, l: nat)
    requires forall p :: 0 <= p < |owners| ==> owners[p] < l
    ensures CountBelow(owners, l) == |owners|
  {
    if owners != [] { BelowAll(owners[..|owners| - 1], l); }
  }

  /** Prefix sums of the counts delimit each owner's elements. */
  lemma CountsDelimit(counts: seq<nat>, owners: seq<nat>, p: nat, l: nat)
    requires CountsMatch(counts, owners) && p < |owners| && l < |counts|
    ensures owners[p] == l <==> SumTo(counts, l) <= p < SumTo(counts, l + 1)
  {
    SumIsBelow(counts, owners, l);
    SumIsBelow(counts, owners, l + 1);
    BelowSplits(owners, l, p);
    BelowSplits(owners, l + 1, p);
  }

  /** The segments cover the whole list. */
  lemma CountsCover(counts: seq<nat>, owners: seq<nat>)
    requires CountsMatch(counts, owners)
    ensures SumTo(counts, |counts|) == |owners|
  {
    SumIsBelow(counts, owners, |counts|);
    BelowAll(owners, |counts|);
  }
}
