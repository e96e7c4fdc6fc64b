/** What merged samples hold: whose tokens, which of them train, and whose routing. */
module InterleavingTheorems {
  import opened Wrappers
  import opened TrajectoryInterleaving

  /* ---------- Chains of steps ---------- */

  function Len(steps: seq<Step>, k: nat): nat
    requires k < |steps|
  {
    |Tokens(steps[k])|
  }

  /** Ascending steps, each repeating in its prompt all tokens of the one before. */
  ghost predicate Chain(steps: seq<Step>, ks: seq<nat>) {
    && ks != []
    && (forall i :: 0 <= i < |ks| ==> ks[i] < |steps|)
    && (forall i, j :: 0 <= i < j < |ks| ==> ks[i] < ks[j] && Tokens(steps[ks[i]]) <= steps[ks[j]].promptIds)
  }

  function Last(ks: seq<nat>): nat
    requires ks != []
  {
    ks[|ks| - 1]
  }

  /** Steps ks merged one after the other into a sample of their own. */
  function Built(cfg: Settings, steps: seq<Step>, ks: seq<nat>): Active
    requires ks != [] && forall i :: 0 <= i < |ks| ==> ks[i] < |steps|
  {
    if |ks| == 1 then Opened(cfg, steps, ks[0])
    else Extended(cfg, Built(cfg, steps, ks[..|ks| - 1]), steps, Last(ks))
  }

  lemma BuiltNext(cfg: Settings, steps: seq<Step>, ks: seq<nat>, k: nat)
    requires ks != [] && k < |steps| && forall i :: 0 <= i < |ks| ==> ks[i] < |steps|
    ensures Built(cfg, steps, ks + [k]) == Extended(cfg, Built(cfg, steps, ks), steps, k)
  {
    assert (ks + [k])[..|ks|] == ks;
  }

  lemma ChainFront(steps: seq<Step>, ks: seq<nat>)
    requires Chain(steps, ks) && |ks| > 1
    ensures Chain(steps, ks[..|ks| - 1])
    ensures Tokens(steps[Last(ks[..|ks| - 1])]) <= steps[Last(ks)].promptIds
  {
  }

  /* ---------- Who is merged with whom ---------- */

  /** Built of a chain of steps below n. */
  ghost predicate GrownOne(cfg: Settings, active: Active, steps: seq<Step>, n: nat) {
    Chain(steps, active.steps) && Last(active.steps) < n && active == Built(cfg, steps, active.steps)
  }

  function ChainsOf(actives: seq<Active>): (chains: seq<seq<nat>>)
    ensures |chains| == |actives| && forall j :: 0 <= j < |chains| ==> chains[j] == actives[j].steps
  {
    seq(|actives|, j requires 0 <= j < |actives| => actives[j].steps)
  }

  predicate InSome(chains: seq<seq<nat>>, k: nat) {
    exists j :: 0 <= j < |chains| && k in chains[j]
  }

  /** Each step below n is in exactly one chain. */
  ghost predicate EachOnce(chains: seq<seq<nat>>, n: nat) {
    && (forall k :: 0 <= k < n ==> InSome(chains, k))
    && (forall i, j, k :: 0 <= i < j < |chains| && k in chains[i] ==> k !in chains[j])
    && (forall j, k :: 0 <= j < |chains| && k in chains[j] ==> k < n)
  }

  lemma {:induction false} PrefixIsLast(cfg: Settings, steps: seq<Step>, ks: seq<nat>)
    requires Chain(steps, ks)
    ensures Built(cfg, steps, ks).prefix == Tokens(steps[Last(ks)]) && Built(cfg, steps, ks).steps == ks
  {
    if |ks| > 1 {
      ChainFront(steps, ks);
      PrefixIsLast(cfg, steps, ks[..|ks| - 1]);
      assert ks == ks[..|ks| - 1] + [Last(ks)];
      ExtendedPrefix(cfg, Built(cfg, steps, ks[..|ks| - 1]), steps, Last(ks));
    }
  }

  lemma ExtendedPrefix(cfg: Settings, active: Active, steps: seq<Step>, k: nat)
    requires k < |steps|
    ensures var extended := Extended(cfg, active, steps, k);
      extended.prefix == Tokens(steps[k]) && extended.steps == active.steps + [k]
  {
  }

  lemma ChainGrows(steps: seq<Step>, ks: seq<nat>, k: nat)
    requires Chain(steps, ks) && Last(ks) < k < |steps| && Tokens(steps[Last(ks)]) <= steps[k].promptIds
    ensures Chain(steps, ks + [k])
  {
    forall i | 0 <= i < |ks| ensures ks[i] < k && Tokens(steps[ks[i]]) <= steps[k].promptIds {
      if i < |ks| - 1 {
        assert Tokens(steps[ks[i]]) <= steps[Last(ks)].promptIds;
        assert steps[Last(ks)].promptIds <= Tokens(steps[Last(ks)]);
      }
    }
  }

  lemma ExtendedGrown(cfg: Settings, active: Active, steps: seq<Step>, k: nat)
    requires k < |steps| && GrownOne(cfg, active, steps, k) && active.prefix <= steps[k].promptIds
    ensures GrownOne(cfg, Extended(cfg, active, steps, k), steps, k + 1)
  {
    PrefixIsLast(cfg, steps, active.steps);
    ChainGrows(steps, active.steps, k);
    BuiltNext(cfg, steps, active.steps, k);
  }

  /** The new step joins one chain or becomes one. */
  lemma NextStepOnce(chains: seq<seq<nat>>, m: nat, k: nat)
    requires EachOnce(chains, k) && m <= |chains|
    ensures EachOnce(if m < |chains| then chains[m := chains[m] + [k]] else chains + [[k]], k + 1)
  {
    var next := if m < |chains| then chains[m := chains[m] + [k]] else chains + [[k]];
    forall i | 0 <= i < k + 1 ensures InSome(next, i) {
      if i < k {
        assert InSome(chains, i);
        var j :| 0 <= j < |chains| && i in chains[j];
        assert i in next[j];
      } else {
        assert k in next[m];
      }
    }
  }

  lemma MergeKeepsOnce(cfg: Settings, actives: seq<Active>, steps: seq<Step>, k: nat)
    requires k < |steps| && EachOnce(ChainsOf(actives), k)
    ensures EachOnce(ChainsOf(Merge(cfg, actives, steps, k)), k + 1)
  {
    var m := FirstMatch(actives, steps[k].promptIds, 0);
    var chains := ChainsOf(actives);
    NextStepOnce(chains, m, k);
    assert ChainsOf(Merge(cfg, actives, steps, k)) ==
      if m < |chains| then chains[m := chains[m] + [k]] else chains + [[k]];
  }

  /** Each sample is built of a chain of steps. */
  lemma {:induction false} SampleIsChain(cfg: Settings, steps: seq<Step>, n: nat, j: nat)
    requires n <= |steps| && j < |MergeAll(cfg, steps, n)|
    ensures GrownOne(cfg, MergeAll(cfg, steps, n)[j], steps, n)
  {
    var actives, k := MergeAll(cfg, steps, n - 1), n - 1;
    if j < |actives| {
      SampleIsChain(cfg, steps, k, j);
    }
    MergedIsChain(cfg, actives, steps, k, j);
  }

  lemma MergedIsChain(cfg: Settings, actives: seq<Active>, steps: seq<Step>, k: nat, j: nat)
    requires k < |steps| && j < |Merge(cfg, actives, steps, k)|
    requires j < |actives| ==> GrownOne(cfg, actives[j], steps, k)
    ensures GrownOne(cfg, Merge(cfg, actives, steps, k)[j], steps, k + 1)
  {
    var m := FirstMatch(actives, steps[k].promptIds, 0);
    if j < |actives| && j == m {
      ExtendedGrown(cfg, actives[j], steps, k);
    }
  }

  /** Every step is merged into exactly one sample. */
  lemma {:induction false} MergingPartitions(cfg: Settings, steps: seq<Step>, n: nat)
    requires n <= |steps|
    ensures EachOnce(ChainsOf(MergeAll(cfg, steps, n)), n)
  {
    if n > 0 {
      MergingPartitions(cfg, steps, n - 1);
      MergeKeepsOnce(cfg, MergeAll(cfg, steps, n - 1), steps, n - 1);
    }
  }

  /* ---------- Tokens ---------- */

  lemma ExtendedTokens(cfg: Settings, s: Sample, step: Step, prefix: seq<int>)
    requires s.promptIds + s.completionIds == prefix <= step.promptIds
    ensures var t := ExtendSample(cfg, s, step, |prefix|);
      t.promptIds == s.promptIds && t.promptIds + t.completionIds == Tokens(step)
  {
    var added := step.promptIds[|prefix|..];
    assert step.promptIds == prefix + added;
    Regroup(s.promptIds, s.completionIds, added, step.completionIds);
  }

  lemma Regroup(a: seq<int>, b: seq<int>, c: seq<int>, d: seq<int>)
    ensures a + (b + c + d) == a + b + c + d
  {
  }

  /** A sample's tokens are those of its last step. */
  lemma {:induction false} SampleTokens(cfg: Settings, steps: seq<Step>, ks: seq<nat>)
    requires Chain(steps, ks)
    ensures var s := Built(cfg, steps, ks).sample;
      s.promptIds == steps[ks[0]].promptIds && s.promptIds + s.completionIds == Tokens(steps[Last(ks)])
  {
    if |ks| > 1 {
      var front := ks[..|ks| - 1];
      ChainFront(steps, ks);
      SampleTokens(cfg, steps, front);
      PrefixIsLast(cfg, steps, front);
      ExtendedTokens(cfg, Built(cfg, steps, front).sample, steps[Last(ks)], Tokens(steps[Last(front)]));
    }
  }

  /** They begin with the tokens of each of its steps. */
  lemma BeginsWithEachStep(steps: seq<Step>, ks: seq<nat>, i: nat)
    requires Chain(steps, ks) && i < |ks|
    ensures Tokens(steps[ks[i]]) <= Tokens(steps[Last(ks)])
  {
    if i < |ks| - 1 {
      assert Tokens(steps[ks[i]]) <= steps[Last(ks)].promptIds;
      assert steps[Last(ks)].promptIds <= Tokens(steps[Last(ks)]);
    }
  }

  /* ---------- What trains ---------- */

  /** Masks and logprobs have one value a token. */
  ghost predicate WellFormed(steps: seq<Step>) {
    forall k :: 0 <= k < |steps| ==>
      && |steps[k].promptMask| == |steps[k].promptIds|
      && |steps[k].completionMask| == |steps[k].completionIds|
      && |steps[k].completionLogprobs| == |steps[k].completionIds|
  }

  /** Token p was generated by step k. */
  predicate GeneratedBy(steps: seq<Step>, k: nat, p: nat)
    requires k < |steps|
  {
    |steps[k].promptIds| <= p < Len(steps, k)
  }

  /** What the sample must say of token p: its generating step's mask and logprob, nothing for other tokens. */
  ghost predicate Faithful(cfg: Settings, steps: seq<Step>, ks: seq<nat>, s: Sample, p: nat)
    requires WellFormed(steps) && forall i :: 0 <= i < |ks| ==> ks[i] < |steps|
    requires |s.promptIds| <= p && p - |s.promptIds| < |s.completionMask| == |s.completionLogprobs|
  {
    var at := p - |s.promptIds|;
    && (forall i :: 0 <= i < |ks| && GeneratedBy(steps, ks[i], p) ==>
          && s.completionMask[at] == (!cfg.hasError && steps[ks[i]].completionMask[p - |steps[ks[i]].promptIds|])
          && s.completionLogprobs[at] == steps[ks[i]].completionLogprobs[p - |steps[ks[i]].promptIds|])
    && ((forall i :: 0 <= i < |ks| ==> !GeneratedBy(steps, ks[i], p)) ==>
          !s.completionMask[at] && s.completionLogprobs[at] == 0.0)
  }

  ghost predicate AllFaithful(cfg: Settings, steps: seq<Step>, ks: seq<nat>, s: Sample)
    requires WellFormed(steps) && Chain(steps, ks)
  {
    && |s.completionMask| == |s.completionIds| && |s.completionLogprobs| == |s.completionIds|
    && s.completionTemperatures == Repeat(cfg.temperature, |s.completionIds|)
    && s.promptMask == steps[ks[0]].promptMask
    && forall p :: |s.promptIds| <= p < |s.promptIds| + |s.completionIds| ==> Faithful(cfg, steps, ks, s, p)
  }

  lemma OneStepFaithful(cfg: Settings, steps: seq<Step>, k: nat)
    requires WellFormed(steps) && k < |steps|
    ensures AllFaithful(cfg, steps, [k], MakeSample(cfg, steps[k]))
  {
  }

  lemma ExtendedFaithful(cfg: Settings, steps: seq<Step>, ks: seq<nat>, s: Sample, k: nat)
    requires WellFormed(steps) && k < |steps| && Chain(steps, ks) && Chain(steps, ks + [k])
    requires AllFaithful(cfg, steps, ks, s)
    requires s.promptIds + s.completionIds == Tokens(steps[Last(ks)])
    ensures AllFaithful(cfg, steps, ks + [k], ExtendSample(cfg, s, steps[k], Len(steps, Last(ks))))
  {
    var t, len := ExtendSample(cfg, s, steps[k], Len(steps, Last(ks))), Len(steps, Last(ks));
    assert (ks + [k])[|ks| - 1] == Last(ks) && (ks + [k])[|ks|] == k;
    assert len <= |steps[k].promptIds|;
    forall p | |t.promptIds| <= p < |t.promptIds| + |t.completionIds| ensures Faithful(cfg, steps, ks + [k], t, p) {
      if p < len {
        OldTokenFaithful(cfg, steps, ks, s, t, k, p);
      } else {
        NewTokenFaithful(cfg, steps, ks, s, k, p);
      }
    }
  }

  lemma OldTokenFaithful(cfg: Settings, steps: seq<Step>, ks: seq<nat>, s: Sample, t: Sample, k: nat, p: nat)
    requires WellFormed(steps) && k < |steps| && Chain(steps, ks) && Chain(steps, ks + [k])
    requires AllFaithful(cfg, steps, ks, s)
    requires |s.promptIds| <= p < Len(steps, Last(ks)) <= |steps[k].promptIds|
    requires |s.promptIds| + |s.completionIds| == Len(steps, Last(ks))
    requires t.promptIds == s.promptIds && s.completionMask <= t.completionMask
    requires s.completionLogprobs <= t.completionLogprobs && |t.completionMask| == |t.completionLogprobs|
    ensures Faithful(cfg, steps, ks + [k], t, p)
  {
    assert Faithful(cfg, steps, ks, s, p);
    var all := ks + [k];
    forall i | 0 <= i < |all| && GeneratedBy(steps, all[i], p) ensures i < |ks| {
    }
    forall i | 0 <= i < |ks| ensures all[i] == ks[i] {
    }
  }

  lemma NewTokenFaithful(cfg: Settings, steps: seq<Step>, ks: seq<nat>, s: Sample, k: nat, p: nat)
    requires WellFormed(steps) && k < |steps| && Chain(steps, ks) && Chain(steps, ks + [k])
    requires AllFaithful(cfg, steps, ks, s)
    requires |s.promptIds| + |s.completionIds| == Len(steps, Last(ks)) <= |steps[k].promptIds|
    requires Len(steps, Last(ks)) <= p < Len(steps, k)
    ensures Faithful(cfg, steps, ks + [k], ExtendSample(cfg, s, steps[k], Len(steps, Last(ks))), p)
  {
    var all := ks + [k];
    assert all[|ks|] == k;
    forall i | 0 <= i < |ks| ensures !GeneratedBy(steps, all[i], p) {
      EarlierIsShorter(steps, ks, i);
    }
    ExtendedAt(cfg, s, steps[k], Len(steps, Last(ks)), p - |s.promptIds|);
  }

  lemma EarlierIsShorter(steps: seq<Step>, ks: seq<nat>, i: nat)
    requires Chain(steps, ks) && i < |ks|
    ensures Len(steps, ks[i]) <= Len(steps, Last(ks))
  {
    BeginsWithEachStep(steps, ks, i);
  }

  /** The values an extension appends, one by one. */
  lemma ExtendedAt(cfg: Settings, s: Sample, step: Step, prefixLen: nat, at: nat)
    requires |s.completionMask| == |s.completionLogprobs| == |s.completionIds| <= at
    requires prefixLen == |s.promptIds| + |s.completionIds| <= |step.promptIds|
    requires |step.completionMask| == |step.completionLogprobs| == |step.completionIds|
    requires at + |s.promptIds| < |step.promptIds| + |step.completionIds|
    ensures var t, g := ExtendSample(cfg, s, step, prefixLen), at + |s.promptIds| - |step.promptIds|;
      && |t.completionMask| == |t.completionLogprobs| > at
      && t.completionMask[at] == (g >= 0 && !cfg.hasError && step.completionMask[g])
      && t.completionLogprobs[at] == if g >= 0 then step.completionLogprobs[g] else 0.0
  {
  }

  /** Each step's tokens carry that step's mask and logprobs at their own offsets; nothing else appended trains. */
  lemma {:induction false} SampleFaithful(cfg: Settings, steps: seq<Step>, ks: seq<nat>)
    requires WellFormed(steps) && Chain(steps, ks)
    ensures AllFaithful(cfg, steps, ks, Built(cfg, steps, ks).sample)
  {
    if |ks| == 1 {
      assert ks == [ks[0]];
      OneStepFaithful(cfg, steps, ks[0]);
    } else {
      var front, k := ks[..|ks| - 1], Last(ks);
      ChainFront(steps, ks);
      assert ks == front + [k];
      SampleFaithful(cfg, steps, front);
      SampleTokens(cfg, steps, front);
      PrefixIsLast(cfg, steps, front);
      ExtendedFaithful(cfg, steps, front, Built(cfg, steps, front).sample, k);
    }
  }

  /* ---------- Routing ---------- */

  /** Tokens a step has routing for: all but its last. */
  function RoutedLen(steps: seq<Step>, k: nat): nat
    requires k < |steps|
  {
    if Len(steps, k) == 0 then 0 else Len(steps, k) - 1
  }

  /** A step that carries routing has a row for every token but its last, as the engine captures it. */
  ghost predicate RowsFit(steps: seq<Step>, ks: seq<nat>)
    requires forall i :: 0 <= i < |ks| ==> ks[i] < |steps|
  {
    forall i :: 0 <= i < |ks| && steps[ks[i]].routed.Some? ==> |steps[ks[i]].routed.value| == RoutedLen(steps, ks[i])
  }

  /** The step saw the routing of token p. */
  predicate Saw(steps: seq<Step>, k: nat, p: nat)
    requires k < |steps|
  {
    steps[k].routed.Some? && p < |steps[k].routed.value|
  }

  /** Position in ks of the first step that saw the routing of token p. */
  function FirstRouting(steps: seq<Step>, ks: seq<nat>, p: nat, i: nat): (j: nat)
    requires i <= |ks| && forall i :: 0 <= i < |ks| ==> ks[i] < |steps|
    ensures i <= j <= |ks|
    ensures j < |ks| ==> Saw(steps, ks[j], p)
    ensures forall x :: i <= x < j ==> !Saw(steps, ks[x], p)
    decreases |ks| - i
  {
    if i == |ks| || Saw(steps, ks[i], p) then i else FirstRouting(steps, ks, p, i + 1)
  }

  /** The routing of token p by the simple definition: blank when no step saw it. */
  function RowOf(steps: seq<Step>, ks: seq<nat>, p: nat): Row
    requires forall i :: 0 <= i < |ks| ==> ks[i] < |steps|
  {
    var j := FirstRouting(steps, ks, p, 0);
    if j < |ks| then steps[ks[j]].routed.value[p] else Blank
  }

  predicate Seen(steps: seq<Step>, ks: seq<nat>, p: nat)
    requires forall i :: 0 <= i < |ks| ==> ks[i] < |steps|
  {
    FirstRouting(steps, ks, p, 0) < |ks|
  }

  /** From a up to b. */
  function Span(a: nat, b: nat): (r: seq<nat>)
    ensures |r| == (if a < b then b - a else 0) && forall i :: 0 <= i < |r| ==> r[i] == a + i
  {
    if a < b then seq(b - a, i => a + i) else []
  }

  /** The tokens whose rows are collected, in the order of the rows: a step without routing adds none. */
  function Places(steps: seq<Step>, ks: seq<nat>): seq<nat>
    requires ks != [] && forall i :: 0 <= i < |ks| ==> ks[i] < |steps|
  {
    if |ks| == 1 then Span(0, RoutedLen(steps, ks[0]))
    else
      var front := ks[..|ks| - 1];
      if steps[Last(ks)].routed.None? then Places(steps, front)
      else Places(steps, front) + Span(RoutedLen(steps, Last(front)), RoutedLen(steps, Last(ks)))
  }

  /** The rows are those of the tokens at these places. */
  ghost predicate RowsCollected(steps: seq<Step>, ks: seq<nat>, rows: seq<Row>, places: seq<nat>)
    requires forall i :: 0 <= i < |ks| ==> ks[i] < |steps|
  {
    |rows| == |places| && forall i {:trigger rows[i]} :: 0 <= i < |rows| ==>
      Seen(steps, ks, places[i]) && rows[i] == RowOf(steps, ks, places[i])
  }

  lemma JoinedNext(chunks: seq<seq<Row>>, c: seq<Row>)
    ensures Joined(chunks + [c]) == Joined(chunks) + c
  {
    assert (chunks + [c])[..|chunks|] == chunks;
  }

  /** Seam and new rows continue the rows where they stopped. */
  lemma ChunksJoin(chunks: seq<seq<Row>>, step: Step, prefixLen: nat)
    requires step.routed.Some?
    ensures var rows, next := step.routed.value, ExtendChunks(Some(chunks), step, prefixLen);
      && next.Some?
      && Joined(next.value) == Joined(chunks) +
           (if prefixLen == 0 then rows else From(rows, prefixLen - 1))
  {
    var rows := step.routed.value;
    if 0 < prefixLen <= |rows| {
      SeamJoins(chunks, rows, prefixLen);
    } else {
      assert chunks + [] == chunks;
      JoinedNext(chunks, From(rows, prefixLen));
      assert prefixLen > 0 ==> From(rows, prefixLen - 1) == [] && From(rows, prefixLen) == [];
    }
  }

  lemma SeamJoins(chunks: seq<seq<Row>>, rows: seq<Row>, at: nat)
    requires 0 < at <= |rows|
    ensures Joined(chunks + [rows[at - 1..at]] + [rows[at..]]) == Joined(chunks) + rows[at - 1..]
  {
    TwoJoin(chunks, rows[at - 1..at], rows[at..]);
    SeamAndRest(rows, at);
  }

  lemma SeamAndRest(rows: seq<Row>, at: nat)
    requires 0 < at <= |rows|
    ensures rows[at - 1..at] + rows[at..] == rows[at - 1..]
  {
  }

  lemma TwoJoin(chunks: seq<seq<Row>>, a: seq<Row>, b: seq<Row>)
    ensures Joined(chunks + [a] + [b]) == Joined(chunks) + (a + b)
  {
    JoinedNext(chunks, a);
    JoinedNext(chunks + [a], b);
    assert Joined(chunks) + a + b == Joined(chunks) + (a + b);
  }

  lemma {:induction false} SameFirst(steps: seq<Step>, ks: seq<nat>, k: nat, p: nat, i: nat)
    requires i <= |ks| && k < |steps| && (forall x :: 0 <= x < |ks| ==> ks[x] < |steps|)
    ensures var j, all := FirstRouting(steps, ks, p, i), ks + [k];
      j < |ks| || Saw(steps, k, p) ==> FirstRouting(steps, all, p, i) == j
    decreases |ks| - i
  {
    if i < |ks| {
      SameFirst(steps, ks, k, p, i + 1);
      assert (ks + [k])[i] == ks[i];
    } else {
      assert (ks + [k])[i] == k;
    }
  }

  /** What a step saw stays the row of its token. */
  lemma RowStays(steps: seq<Step>, ks: seq<nat>, k: nat, p: nat)
    requires k < |steps| && (forall x :: 0 <= x < |ks| ==> ks[x] < |steps|) && Seen(steps, ks, p)
    ensures Seen(steps, ks + [k], p) && RowOf(steps, ks + [k], p) == RowOf(steps, ks, p)
  {
    SameFirst(steps, ks, k, p, 0);
    var j := FirstRouting(steps, ks, p, 0);
    assert (ks + [k])[j] == ks[j];
  }

  /** A token beyond what the steps so far could see gets the row of the step that comes. */
  lemma RowComes(steps: seq<Step>, ks: seq<nat>, k: nat, p: nat)
    requires k < |steps| && Chain(steps, ks) && RowsFit(steps, ks) && Saw(steps, k, p)
    requires RoutedLen(steps, Last(ks)) <= p
    ensures Seen(steps, ks + [k], p) && RowOf(steps, ks + [k], p) == steps[k].routed.value[p]
  {
    forall x | 0 <= x < |ks| ensures !Saw(steps, ks[x], p) {
      EarlierIsShorter(steps, ks, x);
    }
    SameFirst(steps, ks, k, p, 0);
    assert (ks + [k])[|ks|] == k;
  }

  lemma RowsStay(steps: seq<Step>, ks: seq<nat>, k: nat, rows: seq<Row>, places: seq<nat>)
    requires k < |steps| && (forall x :: 0 <= x < |ks| ==> ks[x] < |steps|) && RowsCollected(steps, ks, rows, places)
    ensures RowsCollected(steps, ks + [k], rows, places)
  {
    forall i | 0 <= i < |rows|
      ensures Seen(steps, ks + [k], places[i]) && rows[i] == RowOf(steps, ks + [k], places[i])
    {
      assert rows[i] == RowOf(steps, ks, places[i]);
      RowStays(steps, ks, k, places[i]);
    }
  }

  lemma RowsCome(steps: seq<Step>, ks: seq<nat>, k: nat)
    requires k < |steps| && Chain(steps, ks) && RowsFit(steps, ks) && Len(steps, Last(ks)) <= Len(steps, k)
    requires steps[k].routed.Some? && |steps[k].routed.value| == RoutedLen(steps, k)
    ensures var from := RoutedLen(steps, Last(ks));
      RowsCollected(steps, ks + [k], From(steps[k].routed.value, from), Span(from, RoutedLen(steps, k)))
  {
    var from := RoutedLen(steps, Last(ks));
    var rows, places := From(steps[k].routed.value, from), Span(from, RoutedLen(steps, k));
    forall i | 0 <= i < |rows|
      ensures Seen(steps, ks + [k], places[i]) && rows[i] == RowOf(steps, ks + [k], places[i])
    {
      RowComes(steps, ks, k, from + i);
    }
  }

  lemma MoreRows(steps: seq<Step>, ks: seq<nat>, rows: seq<Row>, places: seq<nat>, more: seq<Row>, at: seq<nat>)
    requires forall x :: 0 <= x < |ks| ==> ks[x] < |steps|
    requires RowsCollected(steps, ks, rows, places) && RowsCollected(steps, ks, more, at)
    ensures RowsCollected(steps, ks, rows + more, places + at)
  {
    forall i | 0 <= i < |rows + more|
      ensures Seen(steps, ks, (places + at)[i]) && (rows + more)[i] == RowOf(steps, ks, (places + at)[i])
    {
      if i < |rows| {
        assert (rows + more)[i] == rows[i];
      } else {
        assert (rows + more)[i] == more[i - |rows|];
      }
    }
  }

  /** The chunks joined are the rows of the tokens at the collected places, in order. */
  lemma {:induction false} ChunksAreRows(cfg: Settings, steps: seq<Step>, ks: seq<nat>)
    requires Chain(steps, ks) && RowsFit(steps, ks) && steps[ks[0]].routed.Some?
    ensures var b := Built(cfg, steps, ks);
      b.chunks.Some? && RowsCollected(steps, ks, Joined(b.chunks.value), Places(steps, ks))
  {
    if |ks| == 1 {
      FirstChunk(cfg, steps, ks);
    } else {
      ChainFront(steps, ks);
      ChunksAreRows(cfg, steps, ks[..|ks| - 1]);
      ChunksGrow(cfg, steps, ks);
    }
  }

  lemma FirstChunk(cfg: Settings, steps: seq<Step>, ks: seq<nat>)
    requires Chain(steps, ks) && RowsFit(steps, ks) && |ks| == 1 && steps[ks[0]].routed.Some?
    ensures var b := Built(cfg, steps, ks);
      b.chunks.Some? && RowsCollected(steps, ks, Joined(b.chunks.value), Places(steps, ks))
  {
    var own := steps[ks[0]].routed.value;
    JoinedNext([], own);
    assert [] + [own] == [own];
    forall i | 0 <= i < |own| ensures Seen(steps, ks, i) && own[i] == RowOf(steps, ks, i) {
      assert Saw(steps, ks[0], i);
    }
  }

  lemma ChunksGrow(cfg: Settings, steps: seq<Step>, ks: seq<nat>)
    requires Chain(steps, ks) && RowsFit(steps, ks) && |ks| > 1 && Chain(steps, ks[..|ks| - 1])
    requires var b := Built(cfg, steps, ks[..|ks| - 1]);
      b.chunks.Some? && RowsCollected(steps, ks[..|ks| - 1], Joined(b.chunks.value), Places(steps, ks[..|ks| - 1]))
    ensures var b := Built(cfg, steps, ks);
      b.chunks.Some? && RowsCollected(steps, ks, Joined(b.chunks.value), Places(steps, ks))
  {
    var front := ks[..|ks| - 1];
    var rows, places := Joined(Built(cfg, steps, front).chunks.value), Places(steps, front);
    if steps[Last(ks)].routed.Some? {
      ChunksJoined(cfg, steps, ks);
      CollectedGrow(steps, ks, rows, places);
    } else {
      CollectedStay(steps, ks, rows, places);
    }
  }

  lemma CollectedStay(steps: seq<Step>, ks: seq<nat>, rows: seq<Row>, places: seq<nat>)
    requires |ks| > 1 && forall i :: 0 <= i < |ks| ==> ks[i] < |steps|
    requires RowsCollected(steps, ks[..|ks| - 1], rows, places)
    ensures RowsCollected(steps, ks, rows, places)
  {
    RowsStay(steps, ks[..|ks| - 1], Last(ks), rows, places);
    assert ks[..|ks| - 1] + [Last(ks)] == ks;
  }

  lemma CollectedGrow(steps: seq<Step>, ks: seq<nat>, rows: seq<Row>, places: seq<nat>)
    requires Chain(steps, ks) && RowsFit(steps, ks) && |ks| > 1 && Chain(steps, ks[..|ks| - 1])
    requires steps[Last(ks)].routed.Some? && RowsCollected(steps, ks[..|ks| - 1], rows, places)
    ensures var from := RoutedLen(steps, Last(ks[..|ks| - 1]));
      RowsCollected(steps, ks, rows + From(steps[Last(ks)].routed.value, from),
                    places + Span(from, RoutedLen(steps, Last(ks))))
  {
    var front := ks[..|ks| - 1];
    assert forall i :: 0 <= i < |front| ==> front[i] == ks[i];
    assert Len(steps, Last(front)) <= Len(steps, Last(ks));
    RowsGrow(steps, front, Last(ks), rows, places);
    assert front + [Last(ks)] == ks;
  }

  lemma RowsGrow(steps: seq<Step>, ks: seq<nat>, k: nat, rows: seq<Row>, places: seq<nat>)
    requires k < |steps| && Chain(steps, ks) && RowsFit(steps, ks) && Len(steps, Last(ks)) <= Len(steps, k)
    requires steps[k].routed.Some? && |steps[k].routed.value| == RoutedLen(steps, k)
    requires RowsCollected(steps, ks, rows, places)
    ensures var from := RoutedLen(steps, Last(ks));
      RowsCollected(steps, ks + [k], rows + From(steps[k].routed.value, from),
                    places + Span(from, RoutedLen(steps, k)))
  {
    var from := RoutedLen(steps, Last(ks));
    RowsStay(steps, ks, k, rows, places);
    RowsCome(steps, ks, k);
    MoreRows(steps, ks + [k], rows, places, From(steps[k].routed.value, from), Span(from, RoutedLen(steps, k)));
  }

  lemma ChunksJoined(cfg: Settings, steps: seq<Step>, ks: seq<nat>)
    requires |ks| > 1 && (forall i :: 0 <= i < |ks| ==> ks[i] < |steps|) && Chain(steps, ks[..|ks| - 1])
    requires Built(cfg, steps, ks[..|ks| - 1]).chunks.Some? && steps[Last(ks)].routed.Some?
    ensures var chunks := Built(cfg, steps, ks[..|ks| - 1]).chunks.value;
      var b := Built(cfg, steps, ks);
      && b.chunks.Some?
      && Joined(b.chunks.value) == Joined(chunks) +
           From(steps[Last(ks)].routed.value, RoutedLen(steps, Last(ks[..|ks| - 1])))
  {
    var front := ks[..|ks| - 1];
    PrefixIsLast(cfg, steps, front);
    ChunksJoin(Built(cfg, steps, front).chunks.value, steps[Last(ks)], Len(steps, Last(front)));
  }

  /** Steps without routing add no tokens that ought to have rows. */
  predicate NothingLost(steps: seq<Step>, ks: seq<nat>)
    requires forall i :: 0 <= i < |ks| ==> ks[i] < |steps|
  {
    forall i :: 0 < i < |ks| && steps[ks[i]].routed.None? ==> RoutedLen(steps, ks[i]) == RoutedLen(steps, ks[i - 1])
  }

  lemma {:induction false} PlacesExactly(steps: seq<Step>, ks: seq<nat>)
    requires Chain(steps, ks)
    ensures |Places(steps, ks)| <= RoutedLen(steps, Last(ks))
    ensures |Places(steps, ks)| == RoutedLen(steps, Last(ks)) <==> NothingLost(steps, ks)
    ensures NothingLost(steps, ks) ==> Places(steps, ks) == Span(0, RoutedLen(steps, Last(ks)))
  {
    if |ks| > 1 {
      var front := ks[..|ks| - 1];
      ChainFront(steps, ks);
      PlacesExactly(steps, front);
      LostFront(steps, ks);
      assert Len(steps, Last(front)) <= Len(steps, Last(ks));
    }
  }

  lemma LostFront(steps: seq<Step>, ks: seq<nat>)
    requires Chain(steps, ks) && |ks| > 1
    ensures NothingLost(steps, ks) <==>
      && NothingLost(steps, ks[..|ks| - 1])
      && (steps[Last(ks)].routed.None? ==> RoutedLen(steps, Last(ks)) == RoutedLen(steps, Last(ks[..|ks| - 1])))
  {
    var front := ks[..|ks| - 1];
    assert forall i :: 0 <= i < |front| ==> front[i] == ks[i];
    assert Last(front) == ks[|ks| - 2];
    if NothingLost(steps, front) &&
      (steps[Last(ks)].routed.None? ==> RoutedLen(steps, Last(ks)) == RoutedLen(steps, Last(front))) {
      forall i | 0 < i < |ks| && steps[ks[i]].routed.None?
        ensures RoutedLen(steps, ks[i]) == RoutedLen(steps, ks[i - 1])
      {
        assert i < |front| ==> front[i] == ks[i] && front[i - 1] == ks[i - 1];
      }
    }
  }

  lemma {:induction false} FirstDecides(cfg: Settings, steps: seq<Step>, ks: seq<nat>)
    requires ks != [] && forall i :: 0 <= i < |ks| ==> ks[i] < |steps|
    ensures Built(cfg, steps, ks).chunks.None? <==> steps[ks[0]].routed.None?
    ensures Built(cfg, steps, ks).sample.routed.None?
  {
    if |ks| > 1 { FirstDecides(cfg, steps, ks[..|ks| - 1]); }
  }

  /**
   Whatever steps carry routing: finalized routing is there exactly when the first step has some, it has one row
   a token, its rows are those of the collected places, in order, with blank ones behind them, and each sits at its
   own token, none missing but that of the last token, exactly when no step without routing added tokens.
   */
  lemma RoutingExactlyWhen(cfg: Settings, steps: seq<Step>, ks: seq<nat>)
    requires Chain(steps, ks) && RowsFit(steps, ks)
    ensures var s, places := Finalized(Built(cfg, steps, ks)), Places(steps, ks);
      && (s.routed.Some? <==> steps[ks[0]].routed.Some?)
      && (s.routed.Some? ==>
            && |s.routed.value| == |s.promptIds| + |s.completionIds| == Len(steps, Last(ks))
            && forall p :: 0 <= p < |s.routed.value| ==>
                 s.routed.value[p] == if p < |places| then RowOf(steps, ks, places[p]) else Blank)
      && (places == Span(0, RoutedLen(steps, Last(ks))) <==> NothingLost(steps, ks))
  {
    FirstDecides(cfg, steps, ks);
    PlacesExactly(steps, ks);
    SampleTokens(cfg, steps, ks);
    var b := Built(cfg, steps, ks);
    assert |b.sample.promptIds + b.sample.completionIds| == Len(steps, Last(ks));
    if steps[ks[0]].routed.Some? {
      ChunksAreRows(cfg, steps, ks);
    }
  }

  /** With nothing lost, routing has one row a token: the first one any merged step saw, and a blank last row. */
  lemma RoutingIsPerToken(cfg: Settings, steps: seq<Step>, ks: seq<nat>)
    requires Chain(steps, ks) && RowsFit(steps, ks) && steps[ks[0]].routed.Some? && NothingLost(steps, ks)
    ensures var s := Finalized(Built(cfg, steps, ks));
      && s.routed.Some? && |s.routed.value| == |s.promptIds| + |s.completionIds| == Len(steps, Last(ks))
      && (forall p :: 0 <= p < |s.routed.value| ==> s.routed.value[p] == RowOf(steps, ks, p))
      && (s.routed.value != [] ==> s.routed.value[|s.routed.value| - 1] == Blank)
  {
    RoutingExactlyWhen(cfg, steps, ks);
    RowsAreTokens(steps, ks, Finalized(Built(cfg, steps, ks)).routed.value, Places(steps, ks));
  }

  lemma RowsAreTokens(steps: seq<Step>, ks: seq<nat>, rows: seq<Row>, places: seq<nat>)
    requires Chain(steps, ks) && RowsFit(steps, ks)
    requires |rows| == Len(steps, Last(ks)) && places == Span(0, RoutedLen(steps, Last(ks)))
    requires forall p :: 0 <= p < |rows| ==> rows[p] == if p < |places| then RowOf(steps, ks, places[p]) else Blank
    ensures forall p :: 0 <= p < |rows| ==> rows[p] == RowOf(steps, ks, p)
    ensures rows != [] ==> rows[|rows| - 1] == Blank
  {
    if rows != [] {
      LastIsUnseen(steps, ks);
    }
    forall p | 0 <= p < |rows| ensures rows[p] == RowOf(steps, ks, p) {
      assert p < |places| ==> places[p] == p;
    }
  }

  lemma LastIsUnseen(steps: seq<Step>, ks: seq<nat>)
    requires Chain(steps, ks) && RowsFit(steps, ks) && Len(steps, Last(ks)) > 0
    ensures RowOf(steps, ks, Len(steps, Last(ks)) - 1) == Blank
  {
    var p := Len(steps, Last(ks)) - 1;
    forall x | 0 <= x < |ks| ensures !Saw(steps, ks[x], p) {
      EarlierIsShorter(steps, ks, x);
    }
  }

  /** Three steps, the second without routing: the third token's row sits at the second token, whose own is gone. */
  function Gap(): seq<Step> {
    [Step([1], [false], [2], [true], [0.0], Some([Experts(10)])),
     Step([1, 2], [false, false], [3], [true], [0.0], None),
     Step([1, 2, 3], [false, false, false], [4], [true], [0.0], Some([Experts(10), Experts(11), Experts(12)]))]
  }

  lemma SkippedRoutingShifts(cfg: Settings)
    ensures Chain(Gap(), [0, 1, 2]) && RowsFit(Gap(), [0, 1, 2]) && !NothingLost(Gap(), [0, 1, 2])
    ensures Finalized(Built(cfg, Gap(), [0, 1, 2])).routed == Some([Experts(10), Experts(12), Blank, Blank])
    ensures RowOf(Gap(), [0, 1, 2], 1) == Experts(11)
  {
    GapIsChain();
    GapPlaces();
    GapRows();
    TwoRowsOfFour(cfg, Gap(), [0, 1, 2]);
  }

  lemma TwoRowsOfFour(cfg: Settings, steps: seq<Step>, ks: seq<nat>)
    requires Chain(steps, ks) && RowsFit(steps, ks) && steps[ks[0]].routed.Some?
    requires Places(steps, ks) == [0, 2] && Len(steps, Last(ks)) == 4
    ensures Finalized(Built(cfg, steps, ks)).routed
         == Some([RowOf(steps, ks, 0), RowOf(steps, ks, 2), Blank, Blank])
  {
    RoutingExactlyWhen(cfg, steps, ks);
    var rows, places := Finalized(Built(cfg, steps, ks)).routed.value, Places(steps, ks);
    assert places[0] == 0 && places[1] == 2;
    FourRows(rows, rows[0], rows[1]);
  }

  lemma FourRows(rows: seq<Row>, first: Row, second: Row)
    requires |rows| == 4 && rows[0] == first && rows[1] == second && rows[2] == rows[3] == Blank
    ensures rows == [first, second, Blank, Blank]
  {
  }

  lemma GapIsChain()
    ensures Chain(Gap(), [0, 1, 2]) && RowsFit(Gap(), [0, 1, 2])
    ensures RoutedLen(Gap(), 0) == 1 && RoutedLen(Gap(), 1) == 2 && RoutedLen(Gap(), 2) == 3 && Len(Gap(), 2) == 4
  {
    assert Tokens(Gap()[0]) == [1, 2] && Tokens(Gap()[1]) == [1, 2, 3] && Tokens(Gap()[2]) == [1, 2, 3, 4];
  }

  lemma GapPlaces()
    ensures Places(Gap(), [0, 1, 2]) == [0, 2] && !NothingLost(Gap(), [0, 1, 2])
  {
    GapIsChain();
    var ks: seq<nat> := [0, 1, 2];
    assert ks[..2] == [0, 1] && [0, 1][..1] == [0];
    assert Places(Gap(), [0]) == [0];
    assert Places(Gap(), [0, 1]) == [0];
    assert Gap()[ks[1]].routed.None? && ks[0] == 0;
  }

  lemma GapRows()
    ensures RowOf(Gap(), [0, 1, 2], 0) == Experts(10)
    ensures RowOf(Gap(), [0, 1, 2], 1) == Experts(11)
    ensures RowOf(Gap(), [0, 1, 2], 2) == Experts(12)
  {
    var ks: seq<nat> := [0, 1, 2];
    assert ks[0] == 0 && ks[1] == 1 && ks[2] == 2;
  }

  /* ---------- The result ---------- */

  /** Every sample returned is that of a chain of steps; the chains share out the trajectory. */
  lemma InterleavedSamples(cfg: Settings, trajectory: seq<Option<Step>>)
    returns (steps: seq<Step>, chains: seq<seq<nat>>)
    requires Interleave(cfg, trajectory).Some?
    ensures |steps| == |trajectory| && forall k :: 0 <= k < |steps| ==> trajectory[k] == Some(steps[k])
    ensures var samples := Interleave(cfg, trajectory).value;
      |chains| == |samples| && forall j :: 0 <= j < |chains| ==>
        Chain(steps, chains[j]) && samples[j] == Finalized(Built(cfg, steps, chains[j]))
    ensures EachOnce(chains, |steps|)
  {
    steps := seq(|trajectory|, k requires 0 <= k < |trajectory| => trajectory[k].value);
    var actives := MergeAll(cfg, steps, |steps|);
    MergingPartitions(cfg, steps, |steps|);
    chains := ChainsOf(actives);
    forall j | 0 <= j < |actives|
      ensures Chain(steps, chains[j]) && actives[j] == Built(cfg, steps, chains[j])
    {
      SampleIsChain(cfg, steps, |steps|, j);
    }
  }
}
