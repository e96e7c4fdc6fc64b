/**
 Multi-turn trajectories merged into training samples: a step whose prompt repeats everything some
 sample holds so far extends that sample, any other step starts a new one. Routing decisions are
 collected as chunks and joined once at the end.
 */
module TrajectoryInterleaving {
  import opened Wrappers

  /** The routing decision for one token; Blank is the row of zeros. */
  datatype Row = Blank | Experts(id: int)

  datatype Step = Step(
    promptIds: seq<int>,
    promptMask: seq<bool>,
    completionIds: seq<int>,
    completionMask: seq<bool>,
    completionLogprobs: seq<real>,
    routed: Option<seq<Row>>)

  datatype Sample = Sample(
    promptIds: seq<int>,
    promptMask: seq<bool>,
    completionIds: seq<int>,
    completionMask: seq<bool>,
    completionLogprobs: seq<real>,
    completionTemperatures: seq<real>,
    routed: Option<seq<Row>>)

  /** A sample that may still grow: what a prompt must repeat, its steps, and its routing chunks so far. */
  datatype Active = Active(prefix: seq<int>, sample: Sample, steps: seq<nat>, chunks: Option<seq<seq<Row>>>)

  datatype Settings = Settings(hasError: bool, temperature: real)

  function Tokens(step: Step): seq<int> {
    step.promptIds + step.completionIds
  }

  /** A rollout that errored trains nothing. */
  function StepMask(cfg: Settings, step: Step): (m: seq<bool>)
    ensures |m| == |step.completionMask|
  {
    if cfg.hasError then Repeat(false, |step.completionMask|) else step.completionMask
  }

  function MakeSample(cfg: Settings, step: Step): Sample {
    Sample(step.promptIds, step.promptMask, step.completionIds, StepMask(cfg, step), step.completionLogprobs,
           Repeat(cfg.temperature, |step.completionIds|), None)
  }

  function From<T>(s: seq<T>, n: nat): seq<T> {
    if n <= |s| then s[n..] else []
  }

  function ExtendSample(cfg: Settings, sample: Sample, step: Step, prefixLen: nat): Sample {
    var added := From(step.promptIds, prefixLen);
    sample.(
      completionIds := sample.completionIds + added + step.completionIds,
      completionMask := sample.completionMask + Repeat(false, |added|) + StepMask(cfg, step),
      completionLogprobs := sample.completionLogprobs + Repeat(0.0, |added|) + step.completionLogprobs,
      completionTemperatures := sample.completionTemperatures + Repeat(cfg.temperature, |added|)
                                + Repeat(cfg.temperature, |step.completionIds|))
  }

  /** The row of the token at the seam, which the step before could not know, then the step's own rows. */
  function ExtendChunks(chunks: Option<seq<seq<Row>>>, step: Step, prefixLen: nat): Option<seq<seq<Row>>> {
    if chunks.None? || step.routed.None? then chunks
    else
      var rows := step.routed.value;
      var seam := if 0 < prefixLen <= |rows| then [rows[prefixLen - 1..prefixLen]] else [];
      Some(chunks.value + seam + [From(rows, prefixLen)])
  }

  function Opened(cfg: Settings, steps: seq<Step>, k: nat): Active
    requires k < |steps|
  {
    Active(Tokens(steps[k]), MakeSample(cfg, steps[k]), [k],
           if steps[k].routed.Some? then Some([steps[k].routed.value]) else None)
  }

  function Extended(cfg: Settings, active: Active, steps: seq<Step>, k: nat): Active
    requires k < |steps|
  {
    Active(Tokens(steps[k]), ExtendSample(cfg, active.sample, steps[k], |active.prefix|), active.steps + [k],
           ExtendChunks(active.chunks, steps[k], |active.prefix|))
  }

  /** The first active sample from j on whose prefix the prompt repeats, or their number. */
  function FirstMatch(actives: seq<Active>, prompt: seq<int>, j: nat): (m: nat)
    requires j <= |actives|
    ensures j <= m <= |actives|
    ensures m < |actives| ==> actives[m].prefix <= prompt
    decreases |actives| - j
  {
    if j == |actives| || actives[j].prefix <= prompt then j else FirstMatch(actives, prompt, j + 1)
  }

  /** One step merged. */
  function Merge(cfg: Settings, actives: seq<Active>, steps: seq<Step>, k: nat): seq<Active>
    requires k < |steps|
  {
    var m := FirstMatch(actives, steps[k].promptIds, 0);
    if m < |actives| then actives[m := Extended(cfg, actives[m], steps, k)] else actives + [Opened(cfg, steps, k)]
  }

  /** The active samples after the first n steps. */
  function MergeAll(cfg: Settings, steps: seq<Step>, n: nat): seq<Active>
    requires n <= |steps|
  {
    if n == 0 then [] else Merge(cfg, MergeAll(cfg, steps, n - 1), steps, n - 1)
  }

  function Joined(chunks: seq<seq<Row>>): seq<Row> {
    if chunks == [] then [] else Joined(chunks[..|chunks| - 1]) + chunks[|chunks| - 1]
  }

  /** Cut or padded with blank rows to the expected length. */
  function AlignRoutedExperts(rows: seq<Row>, expectedLen: nat): (r: seq<Row>)
    ensures |r| == expectedLen
    ensures forall p :: 0 <= p < expectedLen ==> r[p] == if p < |rows| then rows[p] else Blank
  {
    if |rows| > expectedLen then rows[..expectedLen] else rows + Repeat(Blank, expectedLen - |rows|)
  }

  function Finalized(active: Active): Sample {
    match active.chunks
    case None => active.sample
    case Some(chunks) =>
      active.sample.(routed :=
        Some(AlignRoutedExperts(Joined(chunks), |active.sample.promptIds| + |active.sample.completionIds|)))
  }

  /** None for an empty trajectory or a step without tokens. */
  function Interleave(cfg: Settings, trajectory: seq<Option<Step>>): Option<seq<Sample>> {
    if trajectory == [] || exists k :: 0 <= k < |trajectory| && trajectory[k].None? then None
    else
      var steps := seq(|trajectory|, k requires 0 <= k < |trajectory| => trajectory[k].value);
      var actives := MergeAll(cfg, steps, |steps|);
      Some(seq(|actives|, j requires 0 <= j < |actives| => Finalized(actives[j])))
  }

  /* ---------- The code ---------- */

  method InterleaveRollout(cfg: Settings, trajectory: seq<Option<Step>>) returns (samples: Option<seq<Sample>>)
    ensures samples == Interleave(cfg, trajectory)
  {
    if trajectory == [] {
      return None;
    }
    var prepared: seq<Step> := [];
    for k := 0 to |trajectory|
      invariant |prepared| == k
      invariant forall i :: 0 <= i < k ==> trajectory[i] == Some(prepared[i])
    {
      if trajectory[k].None? {
        return None;
      }
      prepared := prepared + [trajectory[k].value];
    }
    ghost var steps := seq(|trajectory|, k requires 0 <= k < |trajectory| => trajectory[k].value);
    assert prepared == steps;
    var actives := MergeSteps(cfg, prepared);
    var done: seq<Sample> := [];
    for j := 0 to |actives|
      invariant |done| == j && forall i :: 0 <= i < j ==> done[i] == Finalized(actives[i])
    {
      var sample := actives[j].sample;
      if actives[j].chunks.Some? {
        var combined := Concatenate(actives[j].chunks.value);
        sample := sample.(routed := Some(AlignRoutedExperts(combined, |sample.promptIds| + |sample.completionIds|)));
      }
      done := done + [sample];
    }
    assert done == seq(|actives|, j requires 0 <= j < |actives| => Finalized(actives[j]));
    samples := Some(done);
  }

  method Concatenate(chunks: seq<seq<Row>>) returns (rows: seq<Row>)
    ensures rows == Joined(chunks)
  {
    rows := [];
    for c := 0 to |chunks|
      invariant rows == Joined(chunks[..c])
    {
      assert chunks[..c + 1][..c] == chunks[..c];
      rows := rows + chunks[c];
    }
    assert chunks[..|chunks|] == chunks;
  }

  method MergeSteps(cfg: Settings, steps: seq<Step>) returns (actives: seq<Active>)
    requires steps != []
    ensures actives == MergeAll(cfg, steps, |steps|)
  {
    actives := [Opened(cfg, steps, 0)];
    assert MergeAll(cfg, steps, 0) == [];
    for k := 1 to |steps|
      invariant actives == MergeAll(cfg, steps, k)
    {
      var prompt := steps[k].promptIds;
      var matched := 0;
      while matched < |actives| && !(actives[matched].prefix <= prompt)
        invariant matched <= |actives|
        invariant FirstMatch(actives, prompt, 0) == FirstMatch(actives, prompt, matched)
      {
        matched := matched + 1;
      }
      if matched < |actives| {
        actives := actives[matched := Extended(cfg, actives[matched], steps, k)];
      } else {
        actives := actives + [Opened(cfg, steps, k)];
      }
    }
  }
}
