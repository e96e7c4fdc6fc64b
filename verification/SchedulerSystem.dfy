/**
 The whole scheduler in delta mode: policy loop, inference pool and rollout groups together. Adopting a
 checkpoint starts the off-policy update of the groups, and the update task ends with it.
 */
module SchedulerSystem {
  import opened Wrappers
  import PL = PolicyLoop
  import PM = PoolModel
  import PR = PolicyRollout
  import RG = RolloutGroups
  import RT = RolloutGroupTheorems

  datatype Config = Config(rollout: PR.Config, groups: RG.Config)

  datatype System = System(rollout: PR.System, groups: RG.State)

  datatype Event = Rollout(rolloutEvent: PR.Event) | Groups(groupEvent: RG.Event)

  predicate Adopting(s: PR.System) {
    s.loop.task.Some? && s.loop.task.value.state == PL.Adopted
  }

  /**
   The update task ends once the stale groups are dropped. With background staging, checks and commits
   are one coroutine, so no check happens while that update is in progress.
   */
  predicate Enabled(cfg: Config, s: System, event: Event) {
    match event
    case Rollout(TaskEnded) => s.groups.update.Some? ==> s.groups.update.value.stale == {}
    case Rollout(Check(_)) => !(cfg.rollout.background && Adopting(s.rollout))
    case Rollout(_) => true
    case Groups(UpdateBegins(_)) => false
    case Groups(UpdateEnds) => false
    case Groups(e) => RG.Enabled(cfg.groups, s.groups, e)
  }

  function Next(cfg: Config, s: System, event: Event): (t: System)
    requires PM.WellFormed(s.rollout.pool)
    ensures PM.WellFormed(t.rollout.pool)
  {
    match event
    case Groups(e) => s.(groups := RG.Next(cfg.groups, s.groups, e))
    case Rollout(e) =>
      var rollout := PR.Next(cfg.rollout, s.rollout, e);
      var ckptStep := rollout.loop.ckptStep;
      var groups :=
        if ckptStep != s.rollout.loop.ckptStep then RG.BeginUpdate(cfg.groups, s.groups, ckptStep)
        else if e.TaskEnded? && Adopting(s.rollout) then RG.EndUpdate(s.groups)
        else s.groups;
      System(rollout, groups)
  }

  function Run(cfg: Config, endpoints: nat, events: seq<Event>): (s: System)
    ensures PM.WellFormed(s.rollout.pool)
    decreases |events|
  {
    if events == [] then System(PR.Start(endpoints), RG.Start())
    else
      var before := Run(cfg, endpoints, events[..|events| - 1]);
      if Enabled(cfg, before, events[|events| - 1]) then Next(cfg, before, events[|events| - 1]) else before
  }

  ghost predicate Inv(cfg: Config, s: System) {
    && PR.Inv(cfg.rollout, s.rollout)
    && RT.Inv(cfg.groups, s.groups)
    && s.groups.ckpt == s.rollout.loop.ckptStep
    && (s.groups.update.Some? <==> Adopting(s.rollout))
  }

  /** Only a commit adopts a checkpoint, the next one, and only then a task is being adopted. */
  lemma RolloutStep(cfg: PR.Config, s: PR.System, e: PR.Event)
    requires PR.Inv(cfg, s) && (e.Check? ==> !(cfg.background && Adopting(s)))
    ensures var t := PR.Next(cfg, s, e);
      if t.loop.ckptStep != s.loop.ckptStep then !Adopting(s) && Adopting(t) && t.loop.ckptStep == s.loop.ckptStep + 1
      else if e.TaskEnded? then !Adopting(t)
      else Adopting(t) == Adopting(s)
  {
    PR.StepRefinesLoop(cfg, s, e);
    LoopStep(PR.LoopConfig(cfg), s.loop, PR.LoopEvent(cfg, s, e));
  }

  lemma LoopStep(cfg: PL.Config, s: PL.Loop, e: PL.Event)
    requires PL.Inv(cfg, s) && cfg.mode == PL.Delta
    ensures var t := PL.Next(cfg, s, e);
      var wasAdopting := s.task.Some? && s.task.value.state == PL.Adopted;
      var adopting := t.task.Some? && t.task.value.state == PL.Adopted;
      if t.ckptStep != s.ckptStep then !wasAdopting && adopting && t.ckptStep == s.ckptStep + 1
      else if e.TaskEnded? then !adopting
      else if e.NewCheck? && cfg.background && wasAdopting then true
      else adopting == wasAdopting
  {
  }

  lemma StepKeepsInv(cfg: Config, s: System, event: Event)
    requires Inv(cfg, s) && Enabled(cfg, s, event) && cfg.groups.groupSize >= 1 && cfg.groups.delta
    ensures Inv(cfg, Next(cfg, s, event))
  {
    match event
    case Groups(e) =>
      RT.StepKeepsInv(cfg.groups, s.groups, e);
      GroupStep(cfg.groups, s.groups, e);
    case Rollout(e) =>
      PR.StepKeepsInv(cfg.rollout, s.rollout, e);
      RolloutStep(cfg.rollout, s.rollout, e);
      var rollout := PR.Next(cfg.rollout, s.rollout, e);
      if rollout.loop.ckptStep != s.rollout.loop.ckptStep {
        RT.BeginUpdateKeepsInv(cfg.groups, s.groups, rollout.loop.ckptStep);
      } else if e.TaskEnded? && Adopting(s.rollout) {
        RT.EndUpdateKeepsInv(cfg.groups, s.groups);
      }
  }

  /** Group events leave checkpoint and update in progress alone. */
  lemma GroupStep(cfg: RG.Config, s: RG.State, e: RG.Event)
    requires !e.UpdateBegins? && !e.UpdateEnds?
    ensures var t := RG.Next(cfg, s, e); t.ckpt == s.ckpt && (t.update.Some? <==> s.update.Some?)
  {
  }

  lemma {:induction false} RunKeepsInv(cfg: Config, endpoints: nat, events: seq<Event>)
    requires cfg.groups.groupSize >= 1 && cfg.groups.delta
    ensures Inv(cfg, Run(cfg, endpoints, events))
    decreases |events|
  {
    if events == [] {
      PR.StartInv(cfg.rollout, endpoints);
    } else {
      var before := Run(cfg, endpoints, events[..|events| - 1]);
      RunKeepsInv(cfg, endpoints, events[..|events| - 1]);
      if Enabled(cfg, before, events[|events| - 1]) {
        StepKeepsInv(cfg, before, events[|events| - 1]);
      }
    }
  }

  /** Between updates a request in flight is exactly as old as the checkpoint it was salted with, and not too old. */
  lemma RequestsAreAsOldAsTheirSalt(cfg: Config, endpoints: nat, events: seq<Event>, t: RG.TaskId)
    requires cfg.groups.groupSize >= 1 && cfg.groups.delta
    requires t in Run(cfg, endpoints, events).groups.inflight && !Adopting(Run(cfg, endpoints, events).rollout)
    ensures var s := Run(cfg, endpoints, events);
      && s.groups.inflight[t].off == s.rollout.loop.ckptStep - s.groups.inflight[t].salt
      && s.groups.inflight[t].off <= cfg.groups.maxOff
  {
    RunKeepsInv(cfg, endpoints, events);
  }

  /** Meanwhile every healthy endpoint serves the base model with the deltas of steps 1..ckptStep applied in order. */
  lemma HealthyServeTheCheckpoint(cfg: Config, endpoints: nat, events: seq<Event>, e: PM.Endpoint)
    requires cfg.groups.groupSize >= 1 && cfg.groups.delta
    requires var p := Run(cfg, endpoints, events).rollout.pool; e < |p.lease| && p.lease[e] == PM.Healthy
    ensures var s := Run(cfg, endpoints, events).rollout;
      s.pool.servers[e].weights == PM.Deltas(PR.Steps(s.loop.ckptStep))
  {
    RunKeepsInv(cfg, endpoints, events);
    PR.InvServes(cfg.rollout, Run(cfg, endpoints, events).rollout, e);
  }

  /* ---------- The parts within the whole ---------- */

  /** Every step of the whole is one of a part alone, but that adopting a checkpoint begins the groups' update. */
  lemma StepIsOfTheParts(cfg: Config, s: System, event: Event)
    requires Inv(cfg, s) && Enabled(cfg, s, event) && cfg.groups.delta
    ensures var t := Next(cfg, s, event);
      match event
      case Groups(e) =>
        t.rollout == s.rollout && RG.Enabled(cfg.groups, s.groups, e) && t.groups == RG.Next(cfg.groups, s.groups, e)
      case Rollout(e) =>
        var moved := t.rollout.loop.ckptStep != s.rollout.loop.ckptStep;
        var ended := e == PR.TaskEnded && Adopting(s.rollout);
        && t.rollout == PR.Next(cfg.rollout, s.rollout, e)
        && (moved ==>
              && RG.Enabled(cfg.groups, s.groups, RG.UpdateBegins(t.rollout.loop.ckptStep))
              && t.groups == RG.Next(cfg.groups, s.groups, RG.UpdateBegins(t.rollout.loop.ckptStep)))
        && (ended ==>
              && !moved && RG.Enabled(cfg.groups, s.groups, RG.UpdateEnds)
              && t.groups == RG.Next(cfg.groups, s.groups, RG.UpdateEnds))
        && (!moved && !ended ==> t.groups == s.groups)
  {
    match event
    case Groups(_) =>
    case Rollout(e) => RolloutStep(cfg.rollout, s.rollout, e);
  }

  /** What a step of the whole is to the groups. */
  function GroupEvent(cfg: Config, s: System, event: Event): Option<RG.Event>
    requires PM.WellFormed(s.rollout.pool)
  {
    match event
    case Groups(e) => Some(e)
    case Rollout(e) =>
      var ckptStep := PR.Next(cfg.rollout, s.rollout, e).loop.ckptStep;
      if ckptStep != s.rollout.loop.ckptStep then Some(RG.UpdateBegins(ckptStep))
      else if e == PR.TaskEnded && Adopting(s.rollout) then Some(RG.UpdateEnds)
      else None
  }

  /** The events of the groups within the events of the whole. */
  function GroupEvents(cfg: Config, endpoints: nat, events: seq<Event>): seq<RG.Event>
    decreases |events|
  {
    if events == [] then []
    else
      var front, last := events[..|events| - 1], events[|events| - 1];
      var before := Run(cfg, endpoints, front);
      if !Enabled(cfg, before, last) || GroupEvent(cfg, before, last).None? then GroupEvents(cfg, endpoints, front)
      else GroupEvents(cfg, endpoints, front) + [GroupEvent(cfg, before, last).value]
  }

  /** The groups of the whole behave as they do alone, so all that holds of their runs holds here. */
  lemma {:induction false} GroupsRunAlone(cfg: Config, endpoints: nat, events: seq<Event>)
    requires cfg.groups.groupSize >= 1 && cfg.groups.delta
    ensures Run(cfg, endpoints, events).groups == RG.Run(cfg.groups, GroupEvents(cfg, endpoints, events))
    decreases |events|
  {
    if events != [] {
      var front, last := events[..|events| - 1], events[|events| - 1];
      var before := Run(cfg, endpoints, front);
      GroupsRunAlone(cfg, endpoints, front);
      RunKeepsInv(cfg, endpoints, front);
      if Enabled(cfg, before, last) {
        StepIsOfTheParts(cfg, before, last);
        if GroupEvent(cfg, before, last).Some? {
          OneGroupEventMore(cfg.groups, GroupEvents(cfg, endpoints, front), GroupEvent(cfg, before, last).value);
        }
      }
    }
  }

  lemma OneGroupEventMore(cfg: RG.Config, events: seq<RG.Event>, event: RG.Event)
    ensures RG.Run(cfg, events + [event]) ==
      if RG.Enabled(cfg, RG.Run(cfg, events), event) then RG.Next(cfg, RG.Run(cfg, events), event)
      else RG.Run(cfg, events)
  {
    assert (events + [event])[..|events|] == events;
  }
}
