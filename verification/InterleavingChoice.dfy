/** Which sample each step joins: the first one whose tokens its prompt repeats, or a new one. */
module InterleavingChoice {
  import opened Wrappers
  import opened TrajectoryInterleaving
  import opened InterleavingTheorems

  /** The last step of a chain below k. */
  function LastBelow(chain: seq<nat>, k: nat): (last: nat)
    requires chain != [] && chain[0] < k
    ensures last < k && last in chain
  {
    if chain[|chain| - 1] < k then chain[|chain| - 1] else LastBelow(chain[..|chain| - 1], k)
  }

  /** Chain j has begun before step k, whose prompt repeats all tokens of the chain's last step until then. */
  predicate Repeats(steps: seq<Step>, chains: seq<seq<nat>>, k: nat, j: int) {
    && 0 <= j < |chains| && k < |steps|
    && chains[j] != [] && chains[j][0] < k && LastBelow(chains[j], k) < |steps|
    && Tokens(steps[LastBelow(chains[j], k)]) <= steps[k].promptIds
  }

  predicate FirstRepeated(steps: seq<Step>, chains: seq<seq<nat>>, k: nat, j: int) {
    Repeats(steps, chains, k, j) && forall i :: 0 <= i < j ==> !Repeats(steps, chains, k, i)
  }

  /** Step k is in the first chain that it repeats, behind others; it begins a chain when it repeats none. */
  ghost predicate Placed(steps: seq<Step>, chains: seq<seq<nat>>, k: nat) {
    forall j :: 0 <= j < |chains| ==>
      && chains[j] != []
      && (k in chains[j] && chains[j][0] < k <==> FirstRepeated(steps, chains, k, j))
      && (chains[j][0] == k ==> forall i :: !Repeats(steps, chains, k, i))
  }

  /** Chains are in the order of their first steps. */
  ghost predicate InOrderOfBirth(chains: seq<seq<nat>>) {
    && (forall j :: 0 <= j < |chains| ==> chains[j] != [])
    && forall i, j :: 0 <= i < j < |chains| ==> chains[i][0] < chains[j][0]
  }

  function Chains(cfg: Settings, steps: seq<Step>, n: nat): seq<seq<nat>>
    requires n <= |steps|
  {
    ChainsOf(MergeAll(cfg, steps, n))
  }

  /** b continues a from step k on: chains of a grow by later steps, new chains hold later steps only. */
  ghost predicate Continues(a: seq<seq<nat>>, b: seq<seq<nat>>, k: nat) {
    && |a| <= |b|
    && (forall j :: 0 <= j < |a| ==> Grows(a[j], b[j], k))
    && (forall j :: |a| <= j < |b| ==> Late(b[j], k))
  }

  /** A chain of steps below k, and later ones behind. */
  ghost predicate Grows(a: seq<nat>, b: seq<nat>, k: nat) {
    Below(a, k) && a <= b && forall i :: |a| <= i < |b| ==> b[i] >= k
  }

  ghost predicate Late(b: seq<nat>, k: nat) {
    b != [] && forall i :: 0 <= i < |b| ==> b[i] >= k
  }

  /** A chain of steps below n. */
  predicate Below(chain: seq<nat>, n: nat) {
    chain != [] && forall i :: 0 <= i < |chain| ==> chain[i] < n
  }

  lemma ContinuesItself(a: seq<seq<nat>>, k: nat)
    requires forall j :: 0 <= j < |a| ==> Below(a[j], k)
    ensures Continues(a, a, k)
  {
    forall j | 0 <= j < |a| ensures Grows(a[j], a[j], k) {
    }
  }

  /** The lists of chains from the empty one on: step k joins chain joined[k] of list k. */
  ghost predicate Growth(lists: seq<seq<seq<nat>>>, joined: seq<nat>) {
    && |lists| == |joined| + 1 && lists[0] == []
    && forall k :: 0 <= k < |joined| ==> Joins(lists[k], lists[k + 1], k, joined[k])
  }

  lemma {:induction false} GrowthBelow(lists: seq<seq<seq<nat>>>, joined: seq<nat>, n: nat)
    requires Growth(lists, joined) && n < |lists|
    ensures forall j :: 0 <= j < |lists[n]| ==> Below(lists[n][j], n)
  {
    if n > 0 {
      GrowthBelow(lists, joined, n - 1);
      assert Joins(lists[n - 1], lists[n - 1 + 1], n - 1, joined[n - 1]);
      forall j | 0 <= j < |lists[n]| ensures Below(lists[n][j], n) {
        assert j < |lists[n - 1]| ==> Below(lists[n - 1][j], n - 1);
      }
    }
  }

  lemma {:induction false} GrowthContinues(lists: seq<seq<seq<nat>>>, joined: seq<nat>, k: nat, n: nat)
    requires Growth(lists, joined) && k <= n < |lists|
    ensures Continues(lists[k], lists[n], k)
    decreases n
  {
    if k == n {
      GrowthBelow(lists, joined, n);
      ContinuesItself(lists[n], n);
    } else {
      GrowthContinues(lists, joined, k, n - 1);
      assert Joins(lists[n - 1], lists[n - 1 + 1], n - 1, joined[n - 1]);
      OneStepContinues(lists[k], lists[n - 1], lists[n], k, n - 1, joined[n - 1]);
    }
  }

  lemma {:induction false} GrowthInOrder(lists: seq<seq<seq<nat>>>, joined: seq<nat>, n: nat)
    requires Growth(lists, joined) && n < |lists|
    ensures InOrderOfBirth(lists[n])
  {
    if n > 0 {
      GrowthInOrder(lists, joined, n - 1);
      GrowthBelow(lists, joined, n - 1);
      assert Joins(lists[n - 1], lists[n - 1 + 1], n - 1, joined[n - 1]);
      OneBirthMore(lists[n - 1], lists[n], n - 1, joined[n - 1]);
    }
  }

  lemma GrowthPlaces(steps: seq<Step>, lists: seq<seq<seq<nat>>>, joined: seq<nat>, k: nat, n: nat)
    requires Growth(lists, joined) && k < n < |lists|
    requires FirstOf(steps, lists[n], k, |lists[k]|, joined[k])
    ensures Placed(steps, lists[n], k)
  {
    GrowthContinues(lists, joined, k, n);
    GrowthContinues(lists, joined, k + 1, n);
    assert Joins(lists[k], lists[k + 1], k, joined[k]);
    PlacedFrom(steps, lists[k], lists[k + 1], lists[n], k, joined[k]);
  }

  /** The chains of the code, list by list. */
  function Lists(cfg: Settings, steps: seq<Step>): (r: seq<seq<seq<nat>>>)
    ensures |r| == |steps| + 1 && forall k :: 0 <= k < |r| ==> r[k] == Chains(cfg, steps, k)
  {
    seq(|steps| + 1, k requires 0 <= k <= |steps| => Chains(cfg, steps, k))
  }

  function Choices(cfg: Settings, steps: seq<Step>): (r: seq<nat>)
    ensures |r| == |steps| && forall k :: 0 <= k < |r| ==> r[k] == Joined(cfg, steps, k)
  {
    seq(|steps|, k requires 0 <= k < |steps| => Joined(cfg, steps, k))
  }

  lemma ChainsGrow(cfg: Settings, steps: seq<Step>)
    ensures Growth(Lists(cfg, steps), Choices(cfg, steps))
  {
    var lists, joined := Lists(cfg, steps), Choices(cfg, steps);
    assert Chains(cfg, steps, 0) == [];
    forall k | 0 <= k < |steps| ensures Joins(lists[k], lists[k + 1], k, joined[k]) {
      NextChains(cfg, steps, k, k + 1);
    }
  }

  lemma OneStepContinues(a: seq<seq<nat>>, b: seq<seq<nat>>, c: seq<seq<nat>>, k: nat, s: nat, m: nat)
    requires Continues(a, b, k) && k <= s && Joins(b, c, s, m)
    ensures Continues(a, c, k)
  {
    forall j | 0 <= j < |a| ensures Grows(a[j], c[j], k) {
      assert Grows(a[j], b[j], k);
    }
    forall j | |a| <= j < |c| ensures Late(c[j], k) {
      assert j < |b| ==> Late(b[j], k);
    }
  }

  /** What the chains were when step k came. */
  lemma ChainsAt(a: seq<seq<nat>>, b: seq<seq<nat>>, k: nat, j: nat)
    requires Continues(a, b, k) && j < |b|
    ensures b[j] != [] && (b[j][0] < k <==> j < |a|)
    ensures j < |a| ==> LastBelow(b[j], k) == Last(a[j])
  {
    if j < |a| {
      assert b[j][0] == a[j][0];
      LastOfPrefix(a[j], b[j], k);
    }
  }

  lemma {:induction false} LastOfPrefix(a: seq<nat>, b: seq<nat>, k: nat)
    requires a != [] && a <= b && (forall i :: 0 <= i < |a| ==> a[i] < k) && forall i :: |a| <= i < |b| ==> b[i] >= k
    ensures LastBelow(b, k) == a[|a| - 1]
    decreases |b|
  {
    if |b| > |a| {
      LastOfPrefix(a, b[..|b| - 1], k);
    } else {
      assert a == b;
    }
  }

  /** Whom step k repeats, in terms of the active samples it meets. */
  lemma RepeatsExactly(cfg: Settings, steps: seq<Step>, k: nat, j: int)
    requires k < |steps|
    ensures Repeats(steps, Chains(cfg, steps, |steps|), k, j) <==>
      0 <= j < |MergeAll(cfg, steps, k)| && MergeAll(cfg, steps, k)[j].prefix <= steps[k].promptIds
  {
    ChainsGrow(cfg, steps);
    GrowthContinues(Lists(cfg, steps), Choices(cfg, steps), k, |steps|);
    RepeatsThen(cfg, steps, Chains(cfg, steps, |steps|), k, j);
  }

  lemma RepeatsThen(cfg: Settings, steps: seq<Step>, b: seq<seq<nat>>, k: nat, j: int)
    requires k < |steps| && Continues(Chains(cfg, steps, k), b, k)
    ensures Repeats(steps, b, k, j) <==>
      0 <= j < |MergeAll(cfg, steps, k)| && MergeAll(cfg, steps, k)[j].prefix <= steps[k].promptIds
  {
    var a := Chains(cfg, steps, k);
    if 0 <= j < |b| {
      ChainsAt(a, b, k, j);
      if j < |a| {
        SampleIsChain(cfg, steps, k, j);
        PrefixIsLast(cfg, steps, a[j]);
      }
    }
  }

  /** The sample that takes a step is the first that matches, and there is none in front of it. */
  lemma {:induction false} FirstMatchIsFirst(actives: seq<Active>, prompt: seq<int>, j: nat)
    requires j <= |actives|
    ensures forall i :: j <= i < FirstMatch(actives, prompt, j) ==> !(actives[i].prefix <= prompt)
    decreases |actives| - j
  {
    if j < |actives| && !(actives[j].prefix <= prompt) {
      FirstMatchIsFirst(actives, prompt, j + 1);
    }
  }

  /** The chain that step k joins, among those there are. */
  function Joined(cfg: Settings, steps: seq<Step>, k: nat): (m: nat)
    requires k < |steps|
    ensures m <= |MergeAll(cfg, steps, k)| == |Chains(cfg, steps, k)|
  {
    FirstMatch(MergeAll(cfg, steps, k), steps[k].promptIds, 0)
  }

  /** Step k joins chain m of a, or begins one behind them. */
  predicate Joins(a: seq<seq<nat>>, b: seq<seq<nat>>, k: nat, m: nat) {
    m <= |a| && b == if m < |a| then a[m := a[m] + [k]] else a + [[k]]
  }

  lemma NextChains(cfg: Settings, steps: seq<Step>, k: nat, n: nat)
    requires k < |steps| && n == k + 1
    ensures Joins(Chains(cfg, steps, k), Chains(cfg, steps, n), k, Joined(cfg, steps, k))
  {
  }

  /** Chain m is the first that step k repeats, if it is one of these. */
  ghost predicate FirstOf(steps: seq<Step>, b: seq<seq<nat>>, k: nat, count: nat, m: nat) {
    && (m < count ==> Repeats(steps, b, k, m))
    && forall i :: Repeats(steps, b, k, i) ==> m <= i < count
  }

  /** The joined chain is repeated and none in front of it is. */
  lemma JoinedExactly(cfg: Settings, steps: seq<Step>, k: nat)
    requires k < |steps|
    ensures FirstOf(steps, Chains(cfg, steps, |steps|), k, |Chains(cfg, steps, k)|, Joined(cfg, steps, k))
  {
    FirstMatchIsFirst(MergeAll(cfg, steps, k), steps[k].promptIds, 0);
    forall i | Repeats(steps, Chains(cfg, steps, |steps|), k, i)
      ensures Joined(cfg, steps, k) <= i < |Chains(cfg, steps, k)|
    {
      RepeatsExactly(cfg, steps, k, i);
    }
    RepeatsExactly(cfg, steps, k, Joined(cfg, steps, k));
  }

  lemma StepIsPlaced(cfg: Settings, steps: seq<Step>, k: nat)
    requires k < |steps|
    ensures Placed(steps, Chains(cfg, steps, |steps|), k)
  {
    ChainsGrow(cfg, steps);
    JoinedExactly(cfg, steps, k);
    GrowthPlaces(steps, Lists(cfg, steps), Choices(cfg, steps), k, |steps|);
  }

  lemma PlacedFrom(steps: seq<Step>, a: seq<seq<nat>>, next: seq<seq<nat>>, b: seq<seq<nat>>, k: nat, m: nat)
    requires Continues(a, b, k) && Continues(next, b, k + 1) && Joins(a, next, k, m)
    requires FirstOf(steps, b, k, |a|, m)
    ensures Placed(steps, b, k)
  {
    forall j | 0 <= j < |b| ensures b[j] != [] && (k in b[j] <==> j == m) && (b[j][0] < k <==> j < |a|) {
      ChainsAt(a, b, k, j);
      InChain(a, next, b, k, m, j);
    }
    PlacedWhere(steps, b, k, |a|, m);
  }

  lemma PlacedWhere(steps: seq<Step>, b: seq<seq<nat>>, k: nat, count: nat, m: nat)
    requires m <= count && (m < count ==> Repeats(steps, b, k, m))
    requires forall i :: Repeats(steps, b, k, i) ==> m <= i < count
    requires forall j :: 0 <= j < |b| ==> b[j] != [] && (k in b[j] <==> j == m) && (b[j][0] < k <==> j < count)
    ensures Placed(steps, b, k)
  {
    forall j | 0 <= j < |b|
      ensures k in b[j] && b[j][0] < k <==> FirstRepeated(steps, b, k, j)
      ensures b[j][0] == k ==> forall i :: !Repeats(steps, b, k, i)
    {
      if b[j][0] == k {
        assert k in b[j];
      }
    }
  }

  lemma InChain(a: seq<seq<nat>>, next: seq<seq<nat>>, b: seq<seq<nat>>, k: nat, m: nat, j: nat)
    requires Continues(a, b, k) && Continues(next, b, k + 1) && j < |b| && Joins(a, next, k, m)
    ensures k in b[j] <==> j == m
  {
    if j < |next| {
      if j == m {
        assert next[m][|next[m]| - 1] == k;
        assert b[m][|next[m]| - 1] == k;
      } else {
        assert next[j] == a[j];
        forall i | 0 <= i < |b[j]| ensures b[j][i] != k {
          assert i < |a[j]| ==> b[j][i] == a[j][i] < k;
        }
      }
    }
  }

  lemma BirthOrder(cfg: Settings, steps: seq<Step>)
    ensures InOrderOfBirth(Chains(cfg, steps, |steps|))
  {
    ChainsGrow(cfg, steps);
    GrowthInOrder(Lists(cfg, steps), Choices(cfg, steps), |steps|);
  }

  lemma OneBirthMore(a: seq<seq<nat>>, b: seq<seq<nat>>, k: nat, m: nat)
    requires InOrderOfBirth(a) && Joins(a, b, k, m) && forall i :: 0 <= i < |a| ==> Below(a[i], k)
    ensures InOrderOfBirth(b)
  {
    forall i | 0 <= i < |a| ensures b[i] != [] && b[i][0] == a[i][0] {
    }
  }

  /* ---------- The result ---------- */

  /** Nothing is returned exactly for an empty trajectory or one with a step that has no tokens. */
  lemma NothingExactlyWhen(cfg: Settings, trajectory: seq<Option<Step>>)
    ensures Interleave(cfg, trajectory).None? <==>
      trajectory == [] || exists k :: 0 <= k < |trajectory| && trajectory[k] == None
  {
    assert forall k :: 0 <= k < |trajectory| ==> (trajectory[k].None? <==> trajectory[k] == None);
  }

  /**
   The samples returned are those of chains of steps in the order in which they begin, and every step is where it
   belongs: behind the first chain whose tokens its prompt repeats, or at the beginning of a chain of its own.
   */
  lemma InterleavedExactly(cfg: Settings, trajectory: seq<Option<Step>>)
    returns (steps: seq<Step>, chains: seq<seq<nat>>)
    requires Interleave(cfg, trajectory).Some?
    ensures |steps| == |trajectory| && forall k :: 0 <= k < |steps| ==> trajectory[k] == Some(steps[k])
    ensures var samples := Interleave(cfg, trajectory).value;
      |chains| == |samples| && forall j :: 0 <= j < |chains| ==>
        Chain(steps, chains[j]) && samples[j] == Finalized(Built(cfg, steps, chains[j]))
    ensures EachOnce(chains, |steps|) && InOrderOfBirth(chains)
    ensures forall k :: 0 <= k < |steps| ==> Placed(steps, chains, k)
  {
    steps := seq(|trajectory|, k requires 0 <= k < |trajectory| => trajectory[k].value);
    var actives := MergeAll(cfg, steps, |steps|);
    MergingPartitions(cfg, steps, |steps|);
    BirthOrder(cfg, steps);
    chains := ChainsOf(actives);
    forall j | 0 <= j < |actives| ensures Chain(steps, chains[j]) && actives[j] == Built(cfg, steps, chains[j]) {
      SampleIsChain(cfg, steps, |steps|, j);
    }
    forall k | 0 <= k < |steps| ensures Placed(steps, chains, k) {
      StepIsPlaced(cfg, steps, k);
    }
  }

  /** Every prompt repeats all tokens of the step before. */
  ghost predicate AlwaysExtends(steps: seq<Step>) {
    forall k :: 0 < k < |steps| ==> Tokens(steps[k - 1]) <= steps[k].promptIds
  }

  lemma {:induction false} OneChain(cfg: Settings, steps: seq<Step>, n: nat)
    requires 1 <= n <= |steps| && AlwaysExtends(steps)
    ensures |MergeAll(cfg, steps, n)| == 1 && MergeAll(cfg, steps, n)[0].prefix == Tokens(steps[n - 1])
  {
    if n > 1 {
      OneChain(cfg, steps, n - 1);
    } else {
      assert MergeAll(cfg, steps, 0) == [];
    }
  }

  /** A trajectory in which every step extends the one before becomes exactly one sample. */
  lemma ExtensionsMakeOneSample(cfg: Settings, steps: seq<Step>, trajectory: seq<Option<Step>>)
    requires steps != [] && AlwaysExtends(steps)
    requires |trajectory| == |steps| && forall k :: 0 <= k < |steps| ==> trajectory[k] == Some(steps[k])
    ensures Interleave(cfg, trajectory).Some? && |Interleave(cfg, trajectory).value| == 1
  {
    assert steps == seq(|trajectory|, k requires 0 <= k < |trajectory| => trajectory[k].value);
    OneChain(cfg, steps, |steps|);
  }

  /** A sample keeps the prompt mask of its first step, and every completion token has the rollout's temperature. */
  lemma {:induction false} SampleKeeps(cfg: Settings, steps: seq<Step>, ks: seq<nat>)
    requires ks != [] && forall i :: 0 <= i < |ks| ==> ks[i] < |steps|
    ensures var s := Built(cfg, steps, ks).sample;
      && s.promptIds == steps[ks[0]].promptIds && s.promptMask == steps[ks[0]].promptMask
      && |s.completionTemperatures| == |s.completionIds|
      && forall i :: 0 <= i < |s.completionTemperatures| ==> s.completionTemperatures[i] == cfg.temperature
  {
    if |ks| > 1 {
      SampleKeeps(cfg, steps, ks[..|ks| - 1]);
    }
  }

  /** Finalizing changes the routing only. */
  lemma FinalizingKeeps(active: Active)
    ensures Finalized(active) == active.sample.(routed := Finalized(active).routed)
  {
  }
}
