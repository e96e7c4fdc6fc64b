/**
 Scheduler and inference pool together, delta mode with stage and commit, from scratch: the
 scheduler's checkpoint step drives the versions that the pool stages and commits.
 */
module PolicyRollout {
  import opened Wrappers
  import PL = PolicyLoop
  import PM = PoolModel
  import PT = PoolTheorems
  import PE = PoolEffects

  /** The rollout clients and recovery switch of the pool, and the scheduler's background-stage option. */
  datatype Config = Config(pool: PM.Config, background: bool)

  datatype System = System(loop: PL.Loop, pool: PM.Pool)

  function LoopConfig(cfg: Config): PL.Config {
    PL.Config(PL.Delta, cfg.background)
  }

  datatype Event =
    | SetStep(step: int)
    | Check(latest: nat)
    | Stage(stageReplies: PM.Replies)
    | StageAborted
    | Commit(missingReplies: PM.Replies, commitReplies: PM.Replies, scripts: PM.Scripts)
    | TaskEnded
    | Recover(recoverScripts: PM.Scripts)
    | Quarantine(client: nat)

  /** The published delta of a step is named by the step. */
  function StageStep(s: System, replies: PM.Replies): PM.Outcome
    requires s.loop.task.Some?
  {
    var version := s.loop.task.value.step;
    PM.StageWeights(s.pool, version, version, Some(version - 1), replies)
  }

  function Next(cfg: Config, s: System, event: Event): System
    requires PM.WellFormed(s.pool)
    ensures PM.WellFormed(Next(cfg, s, event).pool)
  {
    var lc := LoopConfig(cfg);
    match event
    case SetStep(step) => s.(loop := s.loop.(step := step))
    case Check(latest) => s.(loop := PL.Check(lc, s.loop, latest))
    case Stage(replies) =>
      if s.loop.task.Some? && s.loop.task.value.state == PL.Running then
        var o := StageStep(s, replies);
        System(PL.FinishStage(lc, s.loop, o.ok), o.pool)
      else s
    case StageAborted => s.(loop := PL.FinishStage(lc, s.loop, false))
    case Commit(missing, commit, scripts) =>
      if s.loop.task.Some? && s.loop.task.value.state == PL.Staged then
        var o := PM.CommitWeights(cfg.pool, s.pool, s.loop.task.value.step, missing, commit, scripts);
        System(PL.FinishCommit(s.loop, o.ok), o.pool)
      else s.(loop := PL.FinishCommit(s.loop, false))
    case TaskEnded => s.(loop := PL.FinishTask(s.loop))
    case Recover(scripts) => s.(pool := PM.RecoverUnhealthy(cfg.pool, s.pool, scripts))
    case Quarantine(client) =>
      if client < |cfg.pool.clients| then s.(pool := PM.QuarantineClient(cfg.pool, s.pool, client)) else s
  }

  /** Every server starts on the base model with nothing staged. */
  function Start(endpoints: nat): System {
    System(
      PL.Loop(0, 0, None),
      PM.Pool(seq(endpoints, _ => PM.Healthy), map[], map[], None,
              seq(endpoints, _ => PM.Server(PM.Deltas([]), map[])), {}))
  }

  function Run(cfg: Config, endpoints: nat, events: seq<Event>): (s: System)
    ensures PM.WellFormed(s.pool)
    decreases |events|
  {
    if events == [] then Start(endpoints)
    else Next(cfg, Run(cfg, endpoints, events[..|events| - 1]), events[|events| - 1])
  }

  /* ---------- The invariant ---------- */

  ghost predicate EntriesAreSteps(p: PM.Pool) {
    forall v :: v in p.entries ==> p.entries[v] == PM.Entry(v, v, Some(v - 1))
  }

  ghost predicate Inv(cfg: Config, s: System) {
    && PL.Inv(LoopConfig(cfg), s.loop)
    && PT.Inv(s.pool)
    && PT.ActiveOf(s.pool) == s.loop.ckptStep
    && (s.loop.task.Some? && s.loop.task.value.state == PL.Staged ==> s.loop.task.value.step in s.pool.entries)
    && EntriesAreSteps(s.pool)
  }

  lemma StartInv(cfg: Config, endpoints: nat)
    ensures Inv(cfg, Start(endpoints))
  {
    var p := Start(endpoints).pool;
    forall e | 0 <= e < |p.lease| && p.lease[e] == PM.Healthy ensures PT.ServesVersion(p, e, 0) {
      assert PT.Chain(p.entries, 0) == [];
    }
  }

  /** Staging asks for the version above the one every healthy endpoint serves, on top of that one. */
  lemma StageIsOnTop(cfg: Config, s: System, replies: PM.Replies)
    requires Inv(cfg, s) && s.loop.task.Some? && s.loop.task.value.state == PL.Running
    ensures Inv(cfg, Next(cfg, s, Stage(replies)))
    ensures var o, version := StageStep(s, replies), s.loop.task.value.step;
      && o.pool.active == s.pool.active
      && version == PT.ActiveOf(s.pool) + 1
      && (o.ok ==> version in o.pool.entries && o.pool.entries[version].base == Some(PT.ActiveOf(s.pool)))
  {
    StageOutcome(cfg, s, replies);
    AfterStage(cfg, s, StageStep(s, replies));
  }

  lemma StageOutcome(cfg: Config, s: System, replies: PM.Replies)
    requires Inv(cfg, s) && s.loop.task.Some? && s.loop.task.value.state == PL.Running
    ensures var o, version := StageStep(s, replies), s.loop.task.value.step;
      && PT.Inv(o.pool) && o.pool.active == s.pool.active
      && o.pool.entries == if o.ok then s.pool.entries[version := PM.Entry(version, version, Some(version - 1))]
                           else s.pool.entries
  {
    var version := s.loop.task.value.step;
    PT.StageKeepsInv(s.pool, version, version, Some(version - 1), replies);
    EntriesAfterStage(s.pool, version, version, Some(version - 1), replies);
  }

  lemma AfterStage(cfg: Config, s: System, o: PM.Outcome)
    requires Inv(cfg, s) && s.loop.task.Some? && s.loop.task.value.state == PL.Running
    requires PT.Inv(o.pool) && o.pool.active == s.pool.active
    requires var version := s.loop.task.value.step;
      o.pool.entries == if o.ok then s.pool.entries[version := PM.Entry(version, version, Some(version - 1))]
                        else s.pool.entries
    ensures Inv(cfg, System(PL.FinishStage(LoopConfig(cfg), s.loop, o.ok), o.pool))
  {
  }

  lemma EntriesAfterStage(p: PM.Pool, version: int, path: PM.Path, base: Option<int>, replies: PM.Replies)
    ensures var o := PM.StageWeights(p, version, path, base, replies);
      o.pool.entries == if o.ok then p.entries[version := PM.Entry(path, version, base)] else p.entries
  {
  }

  lemma CommitAdvances(cfg: Config, s: System, missing: PM.Replies, commit: PM.Replies, scripts: PM.Scripts)
    requires Inv(cfg, s) && s.loop.task.Some? && s.loop.task.value.state == PL.Staged
    ensures var t := Next(cfg, s, Commit(missing, commit, scripts));
      && Inv(cfg, t)
      && (t.loop.ckptStep == s.loop.ckptStep || t.loop.ckptStep == s.loop.ckptStep + 1)
      && t.pool.active == if t.loop.ckptStep == s.loop.ckptStep then s.pool.active else Some(t.loop.ckptStep)
  {
    PT.CommitKeepsInv(cfg.pool, s.pool, s.loop.task.value.step, missing, commit, scripts);
  }

  /** The scheduler half of a system step is a step of the policy loop alone, or nothing. */
  function LoopEvent(cfg: Config, s: System, event: Event): PL.Event
    requires PM.WellFormed(s.pool)
  {
    match event
    case SetStep(step) => PL.SetStep(step)
    case Check(latest) => PL.NewCheck(latest)
    case Stage(replies) => PL.StageEnded(s.loop.task.Some? && StageStep(s, replies).ok)
    case StageAborted => PL.StageEnded(false)
    case Commit(missing, commit, scripts) =>
      PL.CommitEnded(s.loop.task.Some? &&
        PM.CommitWeights(cfg.pool, s.pool, s.loop.task.value.step, missing, commit, scripts).ok)
    case TaskEnded => PL.TaskEnded
    case Recover(_) => PL.SetStep(s.loop.step)
    case Quarantine(_) => PL.SetStep(s.loop.step)
  }

  lemma StepRefinesLoop(cfg: Config, s: System, event: Event)
    requires PM.WellFormed(s.pool)
    ensures Next(cfg, s, event).loop == PL.Next(LoopConfig(cfg), s.loop, LoopEvent(cfg, s, event))
  {
  }

  lemma StepKeepsInv(cfg: Config, s: System, event: Event)
    requires Inv(cfg, s)
    ensures Inv(cfg, Next(cfg, s, event))
    ensures s.loop.ckptStep <= Next(cfg, s, event).loop.ckptStep <= s.loop.ckptStep + 1
  {
    StepRefinesLoop(cfg, s, event);
    PL.StepKeepsInv(LoopConfig(cfg), s.loop, LoopEvent(cfg, s, event));
    match event
    case SetStep(_) =>
    case Check(_) =>
    case StageAborted =>
    case TaskEnded =>
    case Stage(replies) =>
      if s.loop.task.Some? && s.loop.task.value.state == PL.Running { StageIsOnTop(cfg, s, replies); }
    case Commit(missing, commit, scripts) =>
      if s.loop.task.Some? && s.loop.task.value.state == PL.Staged { CommitAdvances(cfg, s, missing, commit, scripts); }
    case Recover(scripts) => PT.RecoverUnhealthyKeepsInv(cfg.pool, s.pool, scripts);
    case Quarantine(client) =>
      if client < |cfg.pool.clients| { PT.QuarantineKeepsInv(cfg.pool, s.pool, client); }
  }

  lemma {:induction false} RunKeepsInv(cfg: Config, endpoints: nat, events: seq<Event>)
    ensures Inv(cfg, Run(cfg, endpoints, events))
    decreases |events|
  {
    if events == [] {
      StartInv(cfg, endpoints);
    } else {
      RunKeepsInv(cfg, endpoints, events[..|events| - 1]);
      StepKeepsInv(cfg, Run(cfg, endpoints, events[..|events| - 1]), events[|events| - 1]);
    }
  }

  /* ---------- What every run promises ---------- */

  function Steps(n: int): seq<int> {
    seq(if n < 0 then 0 else n, i requires 0 <= i < n => i + 1)
  }

  /** Every healthy endpoint serves the base model with the deltas of steps 1..ckptStep applied in order. */
  lemma HealthyServeTheCheckpoint(cfg: Config, endpoints: nat, events: seq<Event>, e: PM.Endpoint)
    requires var p := Run(cfg, endpoints, events).pool; e < |p.lease| && p.lease[e] == PM.Healthy
    ensures var s := Run(cfg, endpoints, events);
      s.pool.servers[e].weights == PM.Deltas(Steps(s.loop.ckptStep))
  {
    RunKeepsInv(cfg, endpoints, events);
    InvServes(cfg, Run(cfg, endpoints, events), e);
  }

  lemma InvServes(cfg: Config, s: System, e: PM.Endpoint)
    requires Inv(cfg, s) && e < |s.pool.lease| && s.pool.lease[e] == PM.Healthy
    ensures s.pool.servers[e].weights == PM.Deltas(Steps(s.loop.ckptStep))
  {
    assert PT.ServesVersion(s.pool, e, s.loop.ckptStep);
    assert PT.Chain(s.pool.entries, s.loop.ckptStep) == Steps(s.loop.ckptStep);
  }

  /** The replay plan never raises: it is exactly the deltas 1..ckptStep, each on top of the one before. */
  lemma ReplayPlanIsComplete(cfg: Config, endpoints: nat, events: seq<Event>)
    ensures var s := Run(cfg, endpoints, events);
      var plan := PM.ReplayPlan(s.pool.entries, s.pool.active);
      && plan.Some? && |plan.value| == s.loop.ckptStep
      && forall i :: 0 <= i < |plan.value| ==> plan.value[i] == PM.Entry(i + 1, i + 1, Some(i))
  {
    RunKeepsInv(cfg, endpoints, events);
    PT.PlanIsTheChain(Run(cfg, endpoints, events).pool);
  }

  /** Every commit request ever sent found its server exactly one version behind, with that delta staged. */
  lemma CommitsArriveInTurn(cfg: Config, endpoints: nat, events: seq<Event>, c: PM.CommitCall)
    requires c in Run(cfg, endpoints, events).pool.commits
    ensures 1 <= c.version <= Run(cfg, endpoints, events).loop.ckptStep + 1
    ensures c.before.weights == PM.Deltas(Steps(c.version - 1))
    ensures c.version in c.before.staged && Some(c.before.staged[c.version]) == c.remembered
  {
    RunKeepsInv(cfg, endpoints, events);
    var s := Run(cfg, endpoints, events);
    assert PT.CommitInTurn(s.pool, c);
    assert PT.Chain(s.pool.entries, c.version - 1) == Steps(c.version - 1);
  }

  lemma RecoveryRestores(cfg: Config, s: System, e: PM.Endpoint, replies: nat -> PM.Reply)
    requires Inv(cfg, s) && e < |s.pool.lease| && s.pool.lease[e] != PM.Healthy
    ensures var q := PM.RecoverOne(s.pool, e, replies);
      if forall i :: 0 <= i <= 2 * s.loop.ckptStep ==> replies(i).ok
      then q.lease[e] == PM.Healthy && q.servers[e].weights == PM.Deltas(Steps(s.loop.ckptStep))
      else q.lease[e] == PM.Retired
  {
    PT.RecoverOneKeepsInv(s.pool, e, replies);
    assert PT.Chain(s.pool.entries, s.loop.ckptStep) == Steps(s.loop.ckptStep);
  }

  /** Each recovery attempt either restores an endpoint to the current checkpoint or leaves it retired. */
  lemma RecoveredServeTheCheckpoint(cfg: Config, endpoints: nat, events: seq<Event>, e: PM.Endpoint,
                                    replies: nat -> PM.Reply)
    requires var p := Run(cfg, endpoints, events).pool; e < |p.lease| && p.lease[e] != PM.Healthy
    ensures var s := Run(cfg, endpoints, events);
      var q := PM.RecoverOne(s.pool, e, replies);
      if forall i :: 0 <= i <= 2 * s.loop.ckptStep ==> replies(i).ok
      then q.lease[e] == PM.Healthy && q.servers[e].weights == PM.Deltas(Steps(s.loop.ckptStep))
      else q.lease[e] == PM.Retired
  {
    RunKeepsInv(cfg, endpoints, events);
    RecoveryRestores(cfg, Run(cfg, endpoints, events), e, replies);
  }

  /* ---------- Updates go through ---------- */

  lemma OneEventMore(cfg: Config, endpoints: nat, events: seq<Event>, event: Event)
    ensures Run(cfg, endpoints, events + [event]) == Next(cfg, Run(cfg, endpoints, events), event)
  {
    assert (events + [event])[..|events|] == events;
  }

  /** The answers e gives. */
  function From(replies: PM.Replies, e: PM.Endpoint): PM.Reply {
    replies(e)
  }

  lemma StageIs(cfg: Config, s: System, replies: PM.Replies)
    requires PM.WellFormed(s.pool) && s.loop.task.Some? && s.loop.task.value.state == PL.Running
    ensures var o := StageStep(s, replies);
      Next(cfg, s, Stage(replies)) == System(PL.FinishStage(LoopConfig(cfg), s.loop, o.ok), o.pool)
  {
  }

  lemma CommitIs(cfg: Config, s: System, restaged: PM.Replies, committed: PM.Replies, scripts: PM.Scripts)
    requires PM.WellFormed(s.pool) && s.loop.task.Some? && s.loop.task.value.state == PL.Staged
    ensures var o := PM.CommitWeights(cfg.pool, s.pool, s.loop.task.value.step, restaged, committed, scripts);
      Next(cfg, s, Commit(restaged, committed, scripts)) == System(PL.FinishCommit(s.loop, o.ok), o.pool)
  {
  }

  lemma RecoverIs(cfg: Config, s: System, scripts: PM.Scripts)
    requires PM.WellFormed(s.pool)
    ensures Next(cfg, s, Recover(scripts)) == s.(pool := PM.RecoverUnhealthy(cfg.pool, s.pool, scripts))
  {
  }

  /** Staging a wanted version: who takes the delta without being struck stays healthy and holds it. */
  lemma StageGoesThrough(cfg: Config, s: System, latest: nat, replies: PM.Replies, e: PM.Endpoint)
    requires Inv(cfg, s) && s.loop.task.None? && PL.Wanted(LoopConfig(cfg), s.loop, latest).Some?
    requires PE.IsHealthy(s.pool, e) && From(replies, e).ok && !From(replies, e).hit
    ensures var t := Next(cfg, Next(cfg, s, Check(latest)), Stage(replies));
      var version := s.loop.ckptStep + 1;
      && Inv(cfg, t)
      && t.loop == s.loop.(task := Some(PL.Task(version, PL.Staged)))
      && t.pool.active == s.pool.active && version in t.pool.entries
      && PE.IsHealthy(t.pool, e) && !PE.AnyMissing(t.pool, version)
  {
    var checked := Next(cfg, s, Check(latest));
    PL.CheckExactly(LoopConfig(cfg), s.loop, latest);
    StepKeepsInv(cfg, s, Check(latest));
    StageIsOnTop(cfg, checked, replies);
    StageIs(cfg, checked, replies);
    StageTaken(s.pool, s.loop.ckptStep + 1, replies, e);
  }

  lemma StageTaken(p: PM.Pool, version: int, replies: PM.Replies, e: PM.Endpoint)
    requires PM.WellFormed(p) && PE.IsHealthy(p, e) && From(replies, e).ok && !From(replies, e).hit
    ensures var o := PM.StageWeights(p, version, version, Some(version - 1), replies);
      && o.ok && o.pool.active == p.active && version in o.pool.entries
      && PE.IsHealthy(o.pool, e) && !PE.AnyMissing(o.pool, version)
  {
    PE.StageExactly(p, version, version, Some(version - 1), replies);
  }

  /** The state and all it promises, once an update has gone through. */
  ghost predicate Updated(before: System, after: System, e: PM.Endpoint) {
    && after.loop == before.loop.(ckptStep := before.loop.ckptStep + 1)
    && after.pool.active == Some(before.loop.ckptStep + 1)
    && (PE.IsHealthy(after.pool, e) && e < |after.pool.servers| ==>
          after.pool.servers[e].weights == PM.Deltas(Steps(after.loop.ckptStep)))
  }

  /**
   From any state of any run without a pending update: once a newer checkpoint is broadcast or due, one healthy
   endpoint that takes stage and commit is enough for the next checkpoint to be adopted, whatever happens on the
   others, and that endpoint serves it.
   */
  lemma UpdateGoesThrough(cfg: Config, endpoints: nat, events: seq<Event>, latest: nat, staged: PM.Replies,
                          restaged: PM.Replies, committed: PM.Replies, scripts: PM.Scripts, e: PM.Endpoint)
    requires var s := Run(cfg, endpoints, events);
      && s.loop.task.None? && PL.Wanted(LoopConfig(cfg), s.loop, latest).Some?
      && PE.IsHealthy(s.pool, e) && From(staged, e).ok && !From(staged, e).hit && From(committed, e).ok
    ensures
      var more := [Check(latest)] + [Stage(staged)] + [Commit(restaged, committed, scripts)] + [TaskEnded];
      Updated(Run(cfg, endpoints, events), Run(cfg, endpoints, events + more), e)
  {
    var s := Run(cfg, endpoints, events);
    RunKeepsInv(cfg, endpoints, events);
    FourEventsMore(cfg, endpoints, events, Check(latest), Stage(staged), Commit(restaged, committed, scripts),
                   TaskEnded);
    FourSteps(cfg, s, latest, staged, restaged, committed, scripts, e);
  }

  lemma FourSteps(cfg: Config, s: System, latest: nat, staged: PM.Replies, restaged: PM.Replies,
                  committed: PM.Replies, scripts: PM.Scripts, e: PM.Endpoint)
    requires Inv(cfg, s) && s.loop.task.None? && PL.Wanted(LoopConfig(cfg), s.loop, latest).Some?
    requires PE.IsHealthy(s.pool, e) && From(staged, e).ok && !From(staged, e).hit && From(committed, e).ok
    ensures Updated(s, AfterFour(cfg, s, Check(latest), Stage(staged), Commit(restaged, committed, scripts), TaskEnded),
                    e)
  {
    var t := Next(cfg, Next(cfg, s, Check(latest)), Stage(staged));
    StageGoesThrough(cfg, s, latest, staged, e);
    CommitGoesThrough(cfg, t, restaged, committed, scripts, e);
    AdoptedFrom(s, t, Next(cfg, Next(cfg, t, Commit(restaged, committed, scripts)), TaskEnded), e);
  }

  lemma AdoptedFrom(s: System, t: System, u: System, e: PM.Endpoint)
    requires t.loop == s.loop.(task := Some(PL.Task(s.loop.ckptStep + 1, PL.Staged))) && s.loop.task.None?
    requires Updated(t.(loop := t.loop.(task := None)), u, e)
    ensures Updated(s, u, e)
  {
  }

  function AfterFour(cfg: Config, s: System, a: Event, b: Event, c: Event, d: Event): System
    requires PM.WellFormed(s.pool)
  {
    Next(cfg, Next(cfg, Next(cfg, Next(cfg, s, a), b), c), d)
  }

  lemma CommitGoesThrough(cfg: Config, s: System, restaged: PM.Replies, committed: PM.Replies, scripts: PM.Scripts,
                          e: PM.Endpoint)
    requires Inv(cfg, s) && s.loop.task == Some(PL.Task(s.loop.ckptStep + 1, PL.Staged))
    requires s.loop.ckptStep + 1 in s.pool.entries
    requires PE.IsHealthy(s.pool, e) && !PE.AnyMissing(s.pool, s.loop.ckptStep + 1) && From(committed, e).ok
    ensures Updated(s.(loop := s.loop.(task := None)),
                    Next(cfg, Next(cfg, s, Commit(restaged, committed, scripts)), TaskEnded), e)
  {
    var t := Next(cfg, s, Commit(restaged, committed, scripts));
    CommitSucceeds(cfg, s, restaged, committed, scripts, e);
    CommitIs(cfg, s, restaged, committed, scripts);
    CommitAdvances(cfg, s, restaged, committed, scripts);
    var o := PM.CommitWeights(cfg.pool, s.pool, s.loop.ckptStep + 1, restaged, committed, scripts);
    Adopts(cfg, s, t, o, e);
  }

  lemma Adopts(cfg: Config, s: System, t: System, o: PM.Outcome, e: PM.Endpoint)
    requires s.loop.task == Some(PL.Task(s.loop.ckptStep + 1, PL.Staged)) && o.ok
    requires t == System(PL.FinishCommit(s.loop, o.ok), o.pool) && Inv(cfg, t)
    requires t.pool.active == if t.loop.ckptStep == s.loop.ckptStep then s.pool.active else Some(t.loop.ckptStep)
    ensures Updated(s.(loop := s.loop.(task := None)), Next(cfg, t, TaskEnded), e)
  {
    if PE.IsHealthy(t.pool, e) {
      InvServes(cfg, t, e);
    }
  }

  lemma CommitSucceeds(cfg: Config, s: System, restaged: PM.Replies, committed: PM.Replies, scripts: PM.Scripts,
                       e: PM.Endpoint)
    requires Inv(cfg, s) && s.loop.ckptStep + 1 in s.pool.entries
    requires PE.IsHealthy(s.pool, e) && !PE.AnyMissing(s.pool, s.loop.ckptStep + 1) && From(committed, e).ok
    ensures PM.CommitWeights(cfg.pool, s.pool, s.loop.ckptStep + 1, restaged, committed, scripts).ok
  {
    PE.CommitExactly(cfg.pool, s.pool, s.loop.ckptStep + 1, restaged, committed, scripts, e);
    assert PE.Holder(s.pool, s.loop.ckptStep + 1, restaged, e) && committed(e).ok;
  }

  lemma FourEventsMore(cfg: Config, endpoints: nat, events: seq<Event>, a: Event, b: Event, c: Event, d: Event)
    ensures Run(cfg, endpoints, events + ([a] + [b] + [c] + [d]))
         == AfterFour(cfg, Run(cfg, endpoints, events), a, b, c, d)
  {
    assert events + ([a] + [b] + [c] + [d]) == events + [a] + [b] + [c] + [d];
    OneEventMore(cfg, endpoints, events, a);
    OneEventMore(cfg, endpoints, events + [a], b);
    OneEventMore(cfg, endpoints, events + [a] + [b], c);
    OneEventMore(cfg, endpoints, events + [a] + [b] + [c], d);
  }

  /** e ends up as its script says: brought back to the checkpoint, retired, or left alone. */
  ghost predicate TreatedByScript(s: System, t: System, scripts: PM.Scripts, e: PM.Endpoint)
    requires e < |s.pool.lease| == |t.pool.lease| && |s.pool.lease| == |s.pool.servers| == |t.pool.servers|
  {
    var script := PE.ScriptOf(scripts, e);
    if script.due && script.alive then
      if forall i :: 0 <= i <= 2 * s.loop.ckptStep ==> script.replies(i).ok then
        && t.pool.servers[e].weights == PM.Deltas(Steps(s.loop.ckptStep))
        && (t.pool.lease[e] == PM.Healthy ||
            (t.pool.lease[e] == PM.Quarantine && exists y :: e < y < |s.pool.lease| && PE.Strikes(scripts, y, e)))
      else t.pool.lease[e] == PM.Retired
    else t.pool.lease[e] == s.pool.lease[e] && t.pool.servers[e] == s.pool.servers[e]
  }

  /** In every run a recovery treats each endpoint that is down by its script. */
  lemma RecoveryInRuns(cfg: Config, endpoints: nat, events: seq<Event>, scripts: PM.Scripts, e: PM.Endpoint)
    requires cfg.pool.recoveryEnabled && e < |Run(cfg, endpoints, events).pool.lease|
    requires var p := Run(cfg, endpoints, events).pool; p.lease[e] == PM.Quarantine || p.lease[e] == PM.Retired
    ensures var s, t := Run(cfg, endpoints, events), Run(cfg, endpoints, events + [Recover(scripts)]);
      && |t.pool.lease| == |s.pool.lease|
      && TreatedByScript(s, t, scripts, e)
  {
    var s := Run(cfg, endpoints, events);
    RunKeepsInv(cfg, endpoints, events);
    OneEventMore(cfg, endpoints, events, Recover(scripts));
    RecoverIs(cfg, s, scripts);
    RecoveryTreats(cfg, s, scripts, e);
  }

  lemma RecoveryTreats(cfg: Config, s: System, scripts: PM.Scripts, e: PM.Endpoint)
    requires Inv(cfg, s) && cfg.pool.recoveryEnabled && e < |s.pool.lease|
    requires s.pool.lease[e] == PM.Quarantine || s.pool.lease[e] == PM.Retired
    ensures TreatedByScript(s, s.(pool := PM.RecoverUnhealthy(cfg.pool, s.pool, scripts)), scripts, e)
  {
    PE.DownIsRecovered(cfg.pool, s.pool, scripts, e);
    assert PT.Chain(s.pool.entries, s.loop.ckptStep) == Steps(s.loop.ckptStep);
  }
}
