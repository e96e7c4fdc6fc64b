/** Where packed sequences begin, read back from their position ids. */
module SequenceBoundaries {
  import opened Wrappers

  /* ---------- Cumulative sequence lengths ---------- */

  /** Positions of the zeros, in order. */
  function ZeroStarts(ids: seq<int>): seq<int> {
    if ids == [] then []
    else if ids[|ids| - 1] == 0 then ZeroStarts(ids[..|ids| - 1]) + [|ids| - 1]
    else ZeroStarts(ids[..|ids| - 1])
  }

  /** Each run of equal elements once. */
  function UniqueConsecutive(xs: seq<int>): seq<int> {
    if |xs| <= 1 then xs
    else if xs[|xs| - 1] == xs[|xs| - 2] then UniqueConsecutive(xs[..|xs| - 1])
    else UniqueConsecutive(xs[..|xs| - 1]) + [xs[|xs| - 1]]
  }

  function Minus(ends: seq<int>, starts: seq<int>): (r: seq<int>)
    requires |ends| == |starts|
    ensures |r| == |ends| && forall k {:trigger r[k]} :: 0 <= k < |r| ==> r[k] == ends[k] - starts[k]
  {
    seq(|ends|, k requires 0 <= k < |ends| => ends[k] - starts[k])
  }

  function CumSum(xs: seq<int>): (r: seq<int>)
    ensures |r| == |xs|
  {
    if xs == [] then []
    else
      var before := CumSum(xs[..|xs| - 1]);
      before + [(if before == [] then 0 else before[|before| - 1]) + xs[|xs| - 1]]
  }

  function MaxOf(xs: seq<int>): (m: int)
    requires xs != []
    ensures m in xs && forall k :: 0 <= k < |xs| ==> xs[k] <= m
  {
    if |xs| == 1 then xs[0]
    else
      var m := MaxOf(xs[..|xs| - 1]);
      if m >= xs[|xs| - 1] then m else xs[|xs| - 1]
  }

  datatype Boundaries = Boundaries(cuSeqlens: seq<int>, maxSeqlen: int)

  function Starts(ids: seq<int>): (starts: seq<int>)
    ensures starts != []
  {
    UniqueNonEmpty([0] + ZeroStarts(ids));
    UniqueConsecutive([0] + ZeroStarts(ids))
  }

  function GetCuSeqlens(ids: seq<int>): Boundaries
    requires ids != []
  {
    var starts := Starts(ids);
    var ends := starts[1..] + [|ids|];
    var seqlens := Minus(ends, starts);
    Boundaries([0] + CumSum(seqlens), MaxOf(seqlens))
  }

  lemma {:induction false} UniqueNonEmpty(xs: seq<int>)
    requires xs != []
    ensures UniqueConsecutive(xs) != [] && UniqueConsecutive(xs)[0] == xs[0]
  {
    if |xs| > 1 { UniqueNonEmpty(xs[..|xs| - 1]); }
  }

  predicate Increasing(xs: seq<int>) {
    forall j, k :: 0 <= j < k < |xs| ==> xs[j] < xs[k]
  }

  lemma {:induction false} ZeroStartsExactly(ids: seq<int>)
    ensures Increasing(ZeroStarts(ids))
    ensures forall x :: x in ZeroStarts(ids) <==> 0 <= x < |ids| && ids[x] == 0
  {
    if ids != [] {
      var front := ids[..|ids| - 1];
      ZeroStartsExactly(front);
      var before := ZeroStarts(front);
      forall k | 0 <= k < |before| ensures before[k] < |front| { assert before[k] in before; }
    }
  }

  lemma UniqueNext(xs: seq<int>, x: int)
    requires xs != []
    ensures UniqueConsecutive(xs + [x]) ==
      if x == xs[|xs| - 1] then UniqueConsecutive(xs) else UniqueConsecutive(xs) + [x]
  {
    assert (xs + [x])[..|xs|] == xs;
  }

  function WithZero(xs: seq<int>): seq<int> {
    if xs != [] && xs[0] == 0 then xs else [0] + xs
  }

  lemma WithZeroNext(xs: seq<int>, x: int)
    requires x >= 0 && (xs != [] ==> xs[|xs| - 1] < x)
    ensures WithZero(xs + [x]) == if xs == [] && x == 0 then WithZero(xs) else WithZero(xs) + [x]
  {
  }

  /** A leading zero in front of an increasing list is dropped or kept, whichever makes it increasing. */
  lemma {:induction false} UniqueWithZero(xs: seq<int>)
    requires Increasing(xs) && forall k :: 0 <= k < |xs| ==> xs[k] >= 0
    ensures UniqueConsecutive([0] + xs) == WithZero(xs)
  {
    if xs != [] {
      var front, x := xs[..|xs| - 1], xs[|xs| - 1];
      assert xs == front + [x];
      assert [0] + xs == ([0] + front) + [x];
      UniqueWithZero(front);
      UniqueNext([0] + front, x);
      WithZeroNext(front, x);
    }
  }

  /** Differences add up again. */
  lemma {:induction false} Telescopes(starts: seq<int>, total: int, n: nat)
    requires starts != [] && starts[0] == 0 && n <= |starts|
    ensures var all := starts + [total];
      [0] + CumSum(Minus(all[1..], starts)[..n]) == all[..n + 1]
  {
    var all := starts + [total];
    var diffs := Minus(all[1..], starts);
    if n > 0 {
      Telescopes(starts, total, n - 1);
      assert diffs[..n][..n - 1] == diffs[..n - 1];
      var before := CumSum(diffs[..n - 1]);
      assert ([0] + before)[n - 1] == all[n - 1];
    }
  }

  /** The offsets are 0, every zero position and the end, in order: true of whole sequences and of shards alike. */
  lemma CuSeqlensExactly(ids: seq<int>)
    requires ids != []
    ensures var cu := GetCuSeqlens(ids).cuSeqlens;
      && cu == Starts(ids) + [|ids|]
      && Increasing(cu)
      && forall x :: x in cu <==> x == 0 || x == |ids| || (0 <= x < |ids| && ids[x] == 0)
  {
    StartsExactly(ids);
    Telescopes(Starts(ids), |ids|, |Starts(ids)|);
    CuIsStarts(Starts(ids), |ids|);
    WithEnd(Starts(ids), |ids|);
  }

  lemma WithEnd(starts: seq<int>, total: int)
    requires Increasing(starts) && forall x :: x in starts ==> x < total
    ensures Increasing(starts + [total])
    ensures forall x :: x in starts + [total] <==> x in starts || x == total
  {
    forall k | 0 <= k < |starts| ensures starts[k] < total { assert starts[k] in starts; }
  }

  lemma CuIsStarts(starts: seq<int>, total: int)
    requires starts != []
    requires [0] + CumSum(Minus((starts + [total])[1..], starts)[..|starts|]) == (starts + [total])[..|starts| + 1]
    ensures [0] + CumSum(Minus(starts[1..] + [total], starts)) == starts + [total]
  {
    var all := starts + [total];
    assert starts[1..] + [total] == all[1..];
    assert Minus(all[1..], starts)[..|starts|] == Minus(all[1..], starts);
    assert all[..|starts| + 1] == all;
  }

  lemma StartsExactly(ids: seq<int>)
    ensures Increasing(Starts(ids)) && Starts(ids)[0] == 0
    ensures forall x :: x in Starts(ids) <==> x == 0 || (0 <= x < |ids| && ids[x] == 0)
  {
    ZeroStartsExactly(ids);
    var zeros := ZeroStarts(ids);
    forall k | 0 <= k < |zeros| ensures zeros[k] >= 0 { assert zeros[k] in zeros; }
    UniqueWithZero(zeros);
    WithLeadingZero(zeros);
  }

  lemma WithLeadingZero(xs: seq<int>)
    requires Increasing(xs) && forall k :: 0 <= k < |xs| ==> xs[k] >= 0
    ensures var ys := WithZero(xs);
      && Increasing(ys) && ys[0] == 0
      && forall x :: x in ys <==> x == 0 || x in xs
  {
  }

  /* ---------- Packed sequences ---------- */

  /** The position ids of sequences of these lengths, one after the other. */
  function Ranges(lens: seq<nat>): seq<int> {
    if lens == [] then [] else Ranges(lens[..|lens| - 1]) + Range(lens[|lens| - 1])
  }

  /** Where the first k sequences end. */
  function Offset(lens: seq<nat>, k: nat): nat
    requires k <= |lens|
  {
    if k == 0 then 0 else Offset(lens, k - 1) + lens[k - 1]
  }

  function Offsets(lens: seq<nat>): (r: seq<int>)
    ensures |r| == |lens| + 1 && forall k {:trigger r[k]} :: 0 <= k < |r| ==> r[k] == Offset(lens, k)
  {
    seq(|lens| + 1, k requires 0 <= k <= |lens| => Offset(lens, k))
  }

  lemma {:induction false} OffsetPrefix(lens: seq<nat>, n: nat, k: nat)
    requires k <= n <= |lens|
    ensures Offset(lens[..n], k) == Offset(lens, k)
  {
    if k > 0 { OffsetPrefix(lens, n, k - 1); }
  }

  lemma {:induction false} RangesLength(lens: seq<nat>)
    ensures |Ranges(lens)| == Offset(lens, |lens|)
  {
    if lens != [] {
      var n := |lens| - 1;
      RangesLength(lens[..n]);
      OffsetPrefix(lens, n, n);
    }
  }

  lemma {:induction false} OffsetGrows(lens: seq<nat>, j: nat, k: nat)
    requires j <= k <= |lens|
    ensures Offset(lens, j) <= Offset(lens, k)
    ensures j < k && (forall i :: 0 <= i < |lens| ==> lens[i] >= 1) ==> Offset(lens, j) < Offset(lens, k)
  {
    if j < k { OffsetGrows(lens, j, k - 1); }
  }

  /** The position id at offset d of sequence k is d. */
  lemma {:induction false} RangesAt(lens: seq<nat>, k: nat, d: nat)
    requires k < |lens| && d < lens[k]
    ensures Offset(lens, k) + d < |Ranges(lens)| && Ranges(lens)[Offset(lens, k) + d] == d
  {
    var n := |lens| - 1;
    var front := lens[..n];
    RangesLength(front);
    OffsetPrefix(lens, n, n);
    if k < n {
      RangesAt(front, k, d);
      OffsetPrefix(lens, n, k);
    }
  }

  /** The sequence position i falls into. */
  lemma {:induction false} Locate(lens: seq<nat>, i: nat) returns (k: nat)
    requires i < |Ranges(lens)|
    ensures k < |lens| && Offset(lens, k) <= i < Offset(lens, k) + lens[k]
  {
    var n := |lens| - 1;
    RangesLength(lens[..n]);
    OffsetPrefix(lens, n, n);
    if i < |Ranges(lens[..n])| {
      k := Locate(lens[..n], i);
      OffsetPrefix(lens, n, k);
    } else {
      k := n;
    }
  }

  ghost predicate NonEmpty(lens: seq<nat>) {
    forall i :: 0 <= i < |lens| ==> lens[i] >= 1
  }

  /** Two increasing lists with the same elements are one. */
  lemma {:induction false} SameIncreasing(xs: seq<int>, ys: seq<int>)
    requires Increasing(xs) && Increasing(ys) && forall x :: x in xs <==> x in ys
    ensures xs == ys
    decreases |xs|
  {
    assert ys == [] || ys[0] in ys;
    if xs == [] {
      assert ys == [];
    } else {
      assert xs[0] in xs;
      assert xs[0] in ys;
      var m, n := |xs| - 1, |ys| - 1;
      assert xs[m] in ys && ys[n] in xs;
      var fx, fy := xs[..m], ys[..n];
      forall x ensures x in fx <==> x in fy {
        assert x in xs <==> x in fx || x == xs[m];
        assert x in ys <==> x in fy || x == ys[n];
        assert x in fx ==> x < xs[m];
        assert x in fy ==> x < ys[n];
      }
      SameIncreasing(fx, fy);
    }
  }

  /** A zero is where a sequence begins. */
  lemma ZeroIsOffset(lens: seq<nat>, x: nat)
    requires NonEmpty(lens) && x < |Ranges(lens)| && Ranges(lens)[x] == 0
    ensures x in Offsets(lens)
  {
    var k := Locate(lens, x);
    RangesAt(lens, k, x - Offset(lens, k));
    assert Offsets(lens)[k] == x;
  }

  /** Every offset but the last is that of a zero. */
  lemma OffsetIsZero(lens: seq<nat>, x: int)
    requires NonEmpty(lens) && x in Offsets(lens)
    ensures x == Offset(lens, |lens|) || (0 <= x < |Ranges(lens)| && Ranges(lens)[x] == 0)
  {
    var k :| 0 <= k < |Offsets(lens)| && Offsets(lens)[k] == x;
    if k < |lens| { RangesAt(lens, k, 0); }
  }

  lemma EndsAreOffsets(lens: seq<nat>)
    ensures 0 in Offsets(lens) && Offset(lens, |lens|) in Offsets(lens)
  {
    assert Offsets(lens)[0] == 0 && Offsets(lens)[|lens|] == Offset(lens, |lens|);
  }

  lemma ZerosAreOffsets(lens: seq<nat>, x: int)
    requires lens != [] && NonEmpty(lens)
    ensures x in Offsets(lens) <==>
      x == 0 || x == |Ranges(lens)| || (0 <= x < |Ranges(lens)| && Ranges(lens)[x] == 0)
  {
    RangesLength(lens);
    EndsAreOffsets(lens);
    if x in Offsets(lens) {
      OffsetIsZero(lens, x);
    }
    if 0 <= x < |Ranges(lens)| && Ranges(lens)[x] == 0 {
      ZeroIsOffset(lens, x);
    }
  }

  lemma OffsetsIncrease(lens: seq<nat>)
    requires NonEmpty(lens)
    ensures Increasing(Offsets(lens))
  {
    forall j, k | 0 <= j < k <= |lens| ensures Offsets(lens)[j] < Offsets(lens)[k] {
      OffsetGrows(lens, j, k);
    }
  }

  /** Packing can be undone: the offsets are the prefix sums of the packed lengths. */
  lemma CuSeqlensOfPacked(lens: seq<nat>)
    requires lens != [] && NonEmpty(lens)
    ensures Ranges(lens) != []
    ensures GetCuSeqlens(Ranges(lens)) == Boundaries(Offsets(lens), MaxOf(lens))
  {
    RangesLength(lens);
    OffsetGrows(lens, 0, |lens|);
    StartsOfPacked(lens);
    CuSeqlensExactly(Ranges(lens));
    SeqlensOfPacked(lens, Starts(Ranges(lens)), |Ranges(lens)|);
  }

  lemma StartsOfPacked(lens: seq<nat>)
    requires lens != [] && NonEmpty(lens) && Ranges(lens) != []
    ensures Starts(Ranges(lens)) + [|Ranges(lens)|] == Offsets(lens)
  {
    var cu := GetCuSeqlens(Ranges(lens)).cuSeqlens;
    CuSeqlensExactly(Ranges(lens));
    OffsetsIncrease(lens);
    forall x ensures x in cu <==> x in Offsets(lens) {
      ZerosAreOffsets(lens, x);
    }
    SameIncreasing(cu, Offsets(lens));
  }

  lemma SeqlensOfPacked(lens: seq<nat>, starts: seq<int>, total: int)
    requires lens != [] && starts + [total] == Offsets(lens) && total == Offset(lens, |lens|)
    ensures starts != [] && Minus(starts[1..] + [total], starts) == lens
  {
    assert starts == (starts + [total])[..|lens|];
    LengthsFromOffsets(starts, total, lens);
  }

  /* ---------- Response lengths ---------- */

  /** Position i restarts at 0 behind a non-zero id and goes on with 1. */
  predicate Restarts(ids: seq<int>, i: int) {
    1 <= i < |ids| && ids[i] == 0 && ids[i - 1] != 0 && i + 1 < |ids| && ids[i + 1] == 1
  }

  /** 0 and the restarts below n. */
  function RestartsBelow(ids: seq<int>, n: nat): (r: seq<int>)
    ensures r != [] && r[0] == 0
  {
    if n <= 1 then [0]
    else if Restarts(ids, n - 1) then RestartsBelow(ids, n - 1) + [n - 1]
    else RestartsBelow(ids, n - 1)
  }

  function ResponseLengths(ids: seq<int>): seq<int> {
    var boundaries := RestartsBelow(ids, |ids|);
    Minus(boundaries[1..] + [|ids|], boundaries)
  }

  method GetResponseLengths(ids: seq<int>) returns (lengths: seq<int>)
    ensures lengths == ResponseLengths(ids)
  {
    var boundaries: seq<int> := [0];
    var i := 1;
    while i < |ids|
      invariant i == 1 || i <= |ids|
      invariant boundaries == RestartsBelow(ids, i)
    {
      if ids[i] == 0 && ids[i - 1] != 0 {
        if i + 1 < |ids| && ids[i + 1] == 1 {
          boundaries := boundaries + [i];
        }
      }
      i := i + 1;
    }
    assert boundaries == RestartsBelow(ids, |ids|);
    lengths := [];
    ghost var all := boundaries + [|ids|];
    for k := 0 to |boundaries|
      invariant lengths == Minus(all[1..], boundaries)[..k]
    {
      var start := boundaries[k];
      var end := if k + 1 < |boundaries| then boundaries[k + 1] else |ids|;
      lengths := lengths + [end - start];
    }
    assert boundaries[1..] + [|ids|] == all[1..];
  }

  lemma {:induction false} RestartsExactly(ids: seq<int>, n: nat)
    ensures Increasing(RestartsBelow(ids, n))
    ensures forall x :: x in RestartsBelow(ids, n) <==> x == 0 || (x < n && Restarts(ids, x))
  {
    if n > 1 {
      RestartsExactly(ids, n - 1);
      var before := RestartsBelow(ids, n - 1);
      assert forall k :: 0 <= k < |before| ==> before[k] in before;
    }
  }

  /** Packed sequences restart exactly where a sequence of two or more tokens follows one of two or more. */
  lemma PackedRestarts(lens: seq<nat>, x: int)
    requires NonEmpty(lens)
    ensures Restarts(Ranges(lens), x) <==>
      exists k :: 1 <= k < |lens| && x == Offset(lens, k) && lens[k] >= 2 && lens[k - 1] >= 2
  {
    if Restarts(Ranges(lens), x) {
      var k := RestartIsOffset(lens, x);
    }
    if k :| 1 <= k < |lens| && x == Offset(lens, k) && lens[k] >= 2 && lens[k - 1] >= 2 {
      OffsetRestarts(lens, k);
    }
  }

  lemma OffsetRestarts(lens: seq<nat>, k: nat)
    requires 1 <= k < |lens| && lens[k] >= 2 && lens[k - 1] >= 2
    ensures Restarts(Ranges(lens), Offset(lens, k))
  {
    RangesAt(lens, k, 0);
    RangesAt(lens, k, 1);
    RangesAt(lens, k - 1, lens[k - 1] - 1);
  }

  lemma RestartIsOffset(lens: seq<nat>, x: int) returns (k: nat)
    requires NonEmpty(lens) && Restarts(Ranges(lens), x)
    ensures 1 <= k < |lens| && x == Offset(lens, k) && lens[k] >= 2 && lens[k - 1] >= 2
  {
    k := Locate(lens, x);
    RangesAt(lens, k, x - Offset(lens, k));
    assert x == Offset(lens, k) && k >= 1;
    RangesAt(lens, k - 1, lens[k - 1] - 1);
    if lens[k] == 1 {
      var j := Locate(lens, x + 1);
      NextOffset(lens, k, j);
      RangesAt(lens, k + 1, 0);
    }
  }

  /** The position right behind sequence k is the start of another one. */
  lemma NextOffset(lens: seq<nat>, k: nat, j: nat)
    requires k < |lens| && j < |lens| && NonEmpty(lens)
    requires Offset(lens, j) <= Offset(lens, k + 1) < Offset(lens, j) + lens[j]
    ensures j == k + 1
  {
    if j <= k {
      OffsetGrows(lens, j + 1, k + 1);
    } else if j > k + 1 {
      OffsetGrows(lens, k + 1, j);
    }
  }

  lemma {:induction false} LengthsDetermine(bounds: seq<int>, total: int, lens: seq<nat>, k: nat)
    requires bounds != [] && bounds[0] == 0 && Minus(bounds[1..] + [total], bounds) == lens && k < |bounds|
    ensures bounds[k] == Offset(lens, k)
  {
    if k > 0 {
      LengthsDetermine(bounds, total, lens, k - 1);
      assert Minus(bounds[1..] + [total], bounds)[k - 1] == bounds[k] - bounds[k - 1];
    }
  }

  /** The lengths come back exactly when there is one sequence or none is a single token. */
  lemma ResponseLengthsExactlyWhen(lens: seq<nat>)
    requires lens != [] && NonEmpty(lens)
    ensures ResponseLengths(Ranges(lens)) == lens <==> |lens| == 1 || forall i :: 0 <= i < |lens| ==> lens[i] >= 2
  {
    if |lens| == 1 || forall i :: 0 <= i < |lens| ==> lens[i] >= 2 {
      LengthsComeBack(lens);
    }
    if ResponseLengths(Ranges(lens)) == lens && |lens| > 1 {
      forall i | 0 <= i < |lens| ensures lens[i] >= 2 {
        LongAround(lens, if i == 0 then 1 else i);
      }
    }
  }

  /** A single token behind a longer sequence is counted to that sequence. */
  lemma SingleTokenLosesItsLength()
    ensures Ranges([2, 1]) == [0, 1, 0] && ResponseLengths(Ranges([2, 1])) == [3]
    ensures Ranges([3, 1]) == [0, 1, 2, 0] && ResponseLengths(Ranges([3, 1])) == [4]
  {
    OneTokenBehind(2);
    OneTokenBehind(3);
    assert Ranges([2, 1]) == [0, 1, 0];
    assert Ranges([3, 1]) == [0, 1, 2, 0];
  }

  lemma OneTokenBehind(n: nat)
    requires n >= 1
    ensures Ranges([n, 1]) == Range(n) + Range(1)
    ensures ResponseLengths(Ranges([n, 1])) == [n + 1]
  {
    var ids := Range(n) + Range(1);
    assert [n, 1][..1] == [n] && [n][..0] == [];
    assert Ranges([n]) == Range(n);
    NoRestart(ids, |ids|);
  }

  lemma {:induction false} NoRestart(ids: seq<int>, n: nat)
    requires n <= |ids| && forall i :: 1 <= i < |ids| - 1 ==> ids[i] != 0
    ensures RestartsBelow(ids, n) == [0]
  {
    if n > 1 { NoRestart(ids, n - 1); }
  }

  lemma LengthsComeBack(lens: seq<nat>)
    requires lens != [] && NonEmpty(lens) && (|lens| == 1 || forall i :: 0 <= i < |lens| ==> lens[i] >= 2)
    ensures ResponseLengths(Ranges(lens)) == lens
  {
    RangesLength(lens);
    BoundsAreOffsets(lens);
    LengthsFromOffsets(RestartsBelow(Ranges(lens), |Ranges(lens)|), |Ranges(lens)|, lens);
  }

  lemma LengthsFromOffsets(bounds: seq<int>, total: int, lens: seq<nat>)
    requires lens != [] && bounds == Offsets(lens)[..|lens|] && total == Offset(lens, |lens|)
    ensures Minus(bounds[1..] + [total], bounds) == lens
  {
    forall k | 0 <= k < |lens| ensures Minus(bounds[1..] + [total], bounds)[k] == lens[k] {
      LengthAt(bounds, total, lens, k);
    }
  }

  lemma LengthAt(bounds: seq<int>, total: int, lens: seq<nat>, k: nat)
    requires k < |lens| && bounds == Offsets(lens)[..|lens|] && total == Offset(lens, |lens|)
    ensures Minus(bounds[1..] + [total], bounds)[k] == lens[k]
  {
    var next := if k + 1 < |lens| then bounds[k + 1] else total;
    assert (bounds[1..] + [total])[k] == next;
    assert next == Offset(lens, k + 1);
  }

  /** When the lengths come back, a sequence and the one in front of it are not single tokens. */
  lemma LongAround(lens: seq<nat>, k: nat)
    requires NonEmpty(lens) && 1 <= k < |lens| && ResponseLengths(Ranges(lens)) == lens
    ensures lens[k] >= 2 && lens[k - 1] >= 2
  {
    var ids := Ranges(lens);
    var bounds := RestartsBelow(ids, |ids|);
    RestartsExactly(ids, |ids|);
    LengthsDetermine(bounds, |ids|, lens, k);
    OffsetGrows(lens, 0, k);
    assert bounds[k] in bounds;
    var j := RestartIsOffset(lens, bounds[k]);
    if j < k { OffsetGrows(lens, j, k); } else if k < j { OffsetGrows(lens, k, j); }
  }

  lemma StartOrRestart(lens: seq<nat>, x: int)
    requires lens != [] && NonEmpty(lens) && (|lens| == 1 || forall i :: 0 <= i < |lens| ==> lens[i] >= 2)
    ensures x in Offsets(lens)[..|lens|] <==> x == 0 || (x < |Ranges(lens)| && Restarts(Ranges(lens), x))
  {
    var starts := Offsets(lens)[..|lens|];
    assert starts[0] == 0;
    if x in starts && x != 0 {
      var k :| 0 <= k < |lens| && starts[k] == x;
      OffsetRestarts(lens, k);
    }
    if Restarts(Ranges(lens), x) {
      var k := RestartIsOffset(lens, x);
      assert starts[k] == x;
    }
  }

  lemma BoundsAreOffsets(lens: seq<nat>)
    requires lens != [] && NonEmpty(lens) && (|lens| == 1 || forall i :: 0 <= i < |lens| ==> lens[i] >= 2)
    ensures RestartsBelow(Ranges(lens), |Ranges(lens)|) == Offsets(lens)[..|lens|]
  {
    var ids, starts := Ranges(lens), Offsets(lens)[..|lens|];
    RangesLength(lens);
    RestartsExactly(ids, |ids|);
    forall j, k | 0 <= j < k < |lens| ensures starts[j] < starts[k] {
      OffsetGrows(lens, j, k);
    }
    forall x ensures x in RestartsBelow(ids, |ids|) <==> x in starts {
      StartOrRestart(lens, x);
    }
    SameIncreasing(RestartsBelow(ids, |ids|), starts);
  }
}
