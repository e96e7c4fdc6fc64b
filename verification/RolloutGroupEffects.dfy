/**
 What each step of the group bookkeeping does, and how every group ends: which request comes next, what a finished
 task changes, what an update drops, and that nothing is dropped for any other reason.
 */
module RolloutGroupEffects {
  import opened Wrappers
  import opened RolloutGroups
  import opened RolloutGroupTheorems

  /* ---------- Results ---------- */

  predicate AnyFailed(rollouts: seq<Rollout>) {
    exists k :: 0 <= k < |rollouts| && !rollouts[k].ok
  }

  /** The valid rollouts are those that are ok, in their order. */
  lemma ValidNext(rollouts: seq<Rollout>, r: Rollout)
    ensures Valid([]) == []
    ensures Valid(rollouts + [r]) == if r.ok then Valid(rollouts) + [r] else Valid(rollouts)
    ensures Failures(rollouts + [r]) == if r.ok then Failures(rollouts) else Failures(rollouts) + 1
  {
    assert (rollouts + [r])[..|rollouts|] == rollouts;
  }

  lemma {:induction false} FailuresExactly(rollouts: seq<Rollout>)
    ensures Failures(rollouts) > 0 <==> AnyFailed(rollouts)
  {
    if rollouts != [] {
      var front, last := rollouts[..|rollouts| - 1], rollouts[|rollouts| - 1];
      FailuresExactly(front);
      if AnyFailed(rollouts) && last.ok {
        var k :| 0 <= k < |rollouts| && !rollouts[k].ok;
        assert !front[k].ok;
      }
      if AnyFailed(front) {
        var k :| 0 <= k < |front| && !front[k].ok;
        assert !rollouts[k].ok;
      }
    }
  }

  /* ---------- Scheduling ---------- */

  /** The group's next request fits: one rollout, or all that remain of a group scored together. */
  predicate CanLaunch(s: State, capacity: int, g: GroupId) {
    && g in s.groups && s.groups[g].toSchedule > 0
    && (if s.groups[g].scored then s.groups[g].toSchedule else 1) <= capacity
  }

  /** The oldest group whose next request fits is next; else a new one, if there is room for all of it; else none. */
  lemma PickExactly(cfg: Config, s: State, scored: bool)
    requires Ids(s) && s.launching.None?
    ensures var q, capacity := Next(cfg, s, PickRequest(scored)), cfg.maxInflight - InflightRollouts(s);
      if capacity > 0 && exists g :: CanLaunch(s, capacity, g) then
        && q == s.(launching := q.launching)
        && q.launching.Some? && CanLaunch(s, capacity, q.launching.value)
        && forall g :: CanLaunch(s, capacity, g) ==> q.launching.value <= g
      else if capacity > 0 && capacity >= cfg.groupSize then
        q == s.(nextGroup := s.nextGroup + 1, launching := Some(s.nextGroup),
                groups := s.groups[s.nextGroup := Group(cfg.groupSize, [], 0, scored, None)])
      else q == s
  {
    var capacity := cfg.maxInflight - InflightRollouts(s);
    FirstFitFits(s.groups, capacity, 0, s.nextGroup);
    var first := FirstFit(s.groups, capacity, 0, s.nextGroup);
    assert first.Some? ==> CanLaunch(s, capacity, first.value);
    assert forall g: GroupId :: CanLaunch(s, capacity, g) ==> g < s.nextGroup && Fits(s.groups[g], capacity);
  }

  /** The chosen group, if still live with rollouts to schedule, gets its request, on the client it is pinned to. */
  lemma LaunchExactly(cfg: Config, s: State, client: int)
    ensures var q := Next(cfg, s, LaunchRequest(client));
      if s.launching.Some? && s.launching.value in s.groups && s.groups[s.launching.value].toSchedule > 0 then
        var g := s.launching.value;
        var group := s.groups[g];
        var count := if group.scored then group.toSchedule else 1;
        var used := if group.pinned.Some? then group.pinned.value else client;
        q == s.(launching := None, nextTask := s.nextTask + 1,
                groups := s.groups[g := group.(toSchedule := group.toSchedule - count, pinned := Some(used))],
                inflight := s.inflight[s.nextTask := Request(g, count, used, 0, s.ckpt, s.updates)])
      else q == s.(launching := None)
  {
  }

  /* ---------- Finished tasks ---------- */

  /** The group is gone with all its requests; nothing else is. */
  ghost predicate OnlyDropped(s: State, q: State, g: GroupId) {
    && q.groups == s.groups - {g}
    && (forall k :: k in q.inflight <==> k in s.inflight && s.inflight[k].group != g)
    && (forall k :: k in q.inflight ==> q.inflight[k] == s.inflight[k])
    && q == s.(groups := q.groups, inflight := q.inflight, log := q.log)
  }

  /** A finished task that makes its group unusable: cancelled, raised, or a failure in a group scored together. */
  predicate Ruins(group: Group, outcome: Outcome) {
    match outcome
    case Cancelled => true
    case Raised => true
    case Rollouts(rollouts) => group.scored && AnyFailed(rollouts)
  }

  /**
   A finished task drops its group only when it ruins it. Otherwise what it returned joins the group, which waits
   while outcomes are missing; once all are in it leaves, handed over with its valid rollouts if there are any.
   */
  lemma FinishExactly(cfg: Config, s: State, t: TaskId, outcome: Outcome)
    requires t in s.inflight && s.inflight[t].group in s.groups
    ensures var q := Next(cfg, s, FinishTask(t, outcome));
      var g := s.inflight[t].group;
      var group := s.groups[g];
      && q.log == (if outcome.Rollouts? then s.log + [Delivery(g, outcome.rollouts)] else s.log)
      && if Ruins(group, outcome) then OnlyDropped(s, q, g)
         else Joined(cfg, s, q, t, outcome.rollouts)
  {
    if outcome.Rollouts? {
      FailuresExactly(outcome.rollouts);
    }
  }

  ghost predicate Joined(cfg: Config, s: State, q: State, t: TaskId, rollouts: seq<Rollout>)
    requires t in s.inflight && s.inflight[t].group in s.groups
  {
    var g := s.inflight[t].group;
    var group := s.groups[g];
    var completed := group.completed + Valid(rollouts);
    && q.inflight == s.inflight - {t}
    && q.groups - {g} == s.groups - {g}
    && (g in q.groups <==> |group.completed| + group.failed + |rollouts| < cfg.groupSize)
    && (g in q.groups ==>
          q.groups[g] == group.(completed := completed, failed := group.failed + |rollouts| - |Valid(rollouts)|))
    && q.delivered == (if g in q.groups || completed == [] then s.delivered
                       else s.delivered + [Delivery(g, completed)])
    && q == s.(log := q.log, groups := q.groups, inflight := q.inflight, delivered := q.delivered)
  }

  /** A task nobody knows any more changes nothing, and one whose group is gone only leaves. */
  lemma LateFinish(cfg: Config, s: State, t: TaskId, outcome: Outcome)
    requires t in s.inflight ==> s.inflight[t].group !in s.groups
    ensures Next(cfg, s, FinishTask(t, outcome)) == s.(inflight := s.inflight - {t})
  {
    assert t !in s.inflight ==> s.inflight - {t} == s.inflight;
  }

  /* ---------- Updates ---------- */

  /** Some request of the group is as old as requests may become. */
  predicate TooOld(cfg: Config, s: State, g: GroupId) {
    exists t :: t in s.inflight && s.inflight[t].group == g && s.inflight[t].off >= cfg.maxOff
  }

  function DropEach(s: State, groups: seq<GroupId>): State {
    if groups == [] then s else DropStale(DropEach(s, groups[..|groups| - 1]), groups[|groups| - 1])
  }

  /** What an update does when it is not interrupted: it drops groups one by one, in this order. */
  function Update(cfg: Config, s: State, step: int, groups: seq<GroupId>): State {
    EndUpdate(DropEach(BeginUpdate(cfg, s, step), groups))
  }

  lemma StaleExactly(cfg: Config, s: State, g: GroupId)
    ensures g in StaleGroups(cfg, s) <==> TooOld(cfg, s, g)
  {
  }

  /** Half way through dropping: the groups of `gone` that were too old. */
  ghost predicate Dropping(cfg: Config, s: State, step: int, gone: seq<GroupId>, q: State) {
    && q.update.Some?
    && (forall g :: g in q.update.value.stale <==> TooOld(cfg, s, g) && g !in gone)
    && (forall t :: t in q.update.value.increment <==> t in s.inflight && !TooOld(cfg, s, s.inflight[t].group))
    && (forall g :: g in q.groups <==> g in s.groups && !(TooOld(cfg, s, g) && g in gone))
    && (forall g :: g in q.groups ==> q.groups[g] == s.groups[g])
    && (forall t :: t in q.inflight <==>
          t in s.inflight && !(TooOld(cfg, s, s.inflight[t].group) && s.inflight[t].group in gone))
    && (forall t :: t in q.inflight ==> q.inflight[t] == s.inflight[t])
    && q == s.(ckpt := step, updates := s.updates + 1, update := q.update, groups := q.groups, inflight := q.inflight)
  }

  lemma BeginDrops(cfg: Config, s: State, step: int)
    ensures Dropping(cfg, s, step, [], BeginUpdate(cfg, s, step))
  {
    forall g ensures g in StaleGroups(cfg, s) <==> TooOld(cfg, s, g) {
      StaleExactly(cfg, s, g);
    }
  }

  lemma DropOne(cfg: Config, s: State, step: int, gone: seq<GroupId>, q: State, g: GroupId)
    requires Dropping(cfg, s, step, gone, q)
    ensures Dropping(cfg, s, step, gone + [g], DropStale(q, g))
  {
    forall h ensures h in gone + [g] <==> h in gone || h == g {
    }
  }

  lemma {:induction false} DropMany(cfg: Config, s: State, step: int, groups: seq<GroupId>)
    ensures Dropping(cfg, s, step, groups, DropEach(BeginUpdate(cfg, s, step), groups))
  {
    if groups == [] {
      BeginDrops(cfg, s, step);
    } else {
      var front := groups[..|groups| - 1];
      DropMany(cfg, s, step, front);
      DropOne(cfg, s, step, front, DropEach(BeginUpdate(cfg, s, step), front), groups[|groups| - 1]);
      assert groups == front + [groups[|groups| - 1]];
    }
  }

  /** An update drops exactly the groups with a request too old, with all their requests; others grow older by one. */
  lemma UpdateExactly(cfg: Config, s: State, step: int, groups: seq<GroupId>)
    requires forall g :: TooOld(cfg, s, g) ==> g in groups
    ensures var q := Update(cfg, s, step, groups);
      && (forall g :: g in q.groups <==> g in s.groups && !TooOld(cfg, s, g))
      && (forall g :: g in q.groups ==> q.groups[g] == s.groups[g])
      && (forall t :: t in q.inflight <==> t in s.inflight && !TooOld(cfg, s, s.inflight[t].group))
      && (forall t :: t in q.inflight ==> q.inflight[t] == s.inflight[t].(off := s.inflight[t].off + 1))
      && q == s.(ckpt := step, updates := s.updates + 1, update := None, groups := q.groups, inflight := q.inflight)
  {
    DropMany(cfg, s, step, groups);
  }

  /** Cancelling leaves nothing in flight and no group, and changes nothing else. */
  lemma CancelExactly(cfg: Config, s: State)
    ensures Next(cfg, s, CancelAll) == s.(inflight := map[], groups := map[])
  {
  }

  /* ---------- How groups end ---------- */

  /** The step drops g: its task is lost or ruins it, it is too old for an update, or everything is cancelled. */
  predicate Drops(s: State, event: Event, g: GroupId) {
    match event
    case FinishTask(t, outcome) =>
      t in s.inflight && s.inflight[t].group == g && g in s.groups && Ruins(s.groups[g], outcome)
    case StaleDropped(h) => h == g && s.update.Some? && g in s.update.value.stale
    case CancelAll => true
    case _ => false
  }

  predicate Delivered(s: State, g: GroupId) {
    exists i :: 0 <= i < |s.delivered| && s.delivered[i] == Delivery(g, Returned(s.log, g))
  }

  /** Every outcome of g is in the record and none of them is valid. */
  predicate AllFailed(cfg: Config, s: State, g: GroupId) {
    Returned(s.log, g) == [] && Failed(s.log, g) >= cfg.groupSize
  }

  /** Outcomes of live groups are missing. */
  ghost predicate Unfinished(cfg: Config, s: State) {
    forall g :: g in s.groups ==> |s.groups[g].completed| + s.groups[g].failed < cfg.groupSize
  }

  /** One step: a live group stays live, is delivered, has only failures, or is dropped for one of the reasons. */
  lemma StepEnds(cfg: Config, s: State, event: Event, g: GroupId)
    requires Inv(cfg, s) && Enabled(cfg, s, event) && cfg.groupSize >= 1 && g in s.groups
    ensures var q := Next(cfg, s, event);
      g in q.groups || Delivered(q, g) || AllFailed(cfg, q, g) || Drops(s, event, g)
  {
    match event
    case FinishTask(t, outcome) =>
      if t in s.inflight && s.inflight[t].group == g && !Ruins(s.groups[g], outcome) {
        FinishExactly(cfg, s, t, outcome);
        LogGrows(s.log, Delivery(g, outcome.rollouts), g);
        var q := Next(cfg, s, event);
        if g !in q.groups && q.delivered != s.delivered {
          assert q.delivered[|s.delivered|] == Delivery(g, Returned(q.log, g));
        }
      }
    case PickRequest(_) =>
    case LaunchRequest(_) =>
    case UpdateBegins(_) =>
    case StaleDropped(_) =>
    case UpdateEnds =>
    case CancelAll =>
  }

  /** What has ended stays as it ended. */
  lemma StepKeepsEnds(cfg: Config, s: State, event: Event, g: GroupId)
    requires Inv(cfg, s) && Enabled(cfg, s, event) && g !in s.groups && g < s.nextGroup
    ensures var q := Next(cfg, s, event);
      && g !in q.groups && g < q.nextGroup
      && (Delivered(s, g) ==> Delivered(q, g)) && (AllFailed(cfg, s, g) ==> AllFailed(cfg, q, g))
  {
    var q := Next(cfg, s, event);
    SameReturns(cfg, s, event, g);
    StaysGone(cfg, s, event, g);
    DeliveriesStay(cfg, s, event);
    if i :| 0 <= i < |s.delivered| && s.delivered[i] == Delivery(g, Returned(s.log, g)) {
      assert q.delivered[i] == s.delivered[i];
    }
  }

  lemma StaysGone(cfg: Config, s: State, event: Event, g: GroupId)
    requires Ids(s) && Enabled(cfg, s, event) && g !in s.groups && g < s.nextGroup
    ensures var q := Next(cfg, s, event); g !in q.groups && g < q.nextGroup
  {
  }

  lemma DeliveriesStay(cfg: Config, s: State, event: Event)
    ensures s.delivered <= Next(cfg, s, event).delivered
  {
  }

  lemma SameReturns(cfg: Config, s: State, event: Event, g: GroupId)
    requires g !in s.groups
    ensures var q := Next(cfg, s, event);
      Returned(q.log, g) == Returned(s.log, g) && Failed(q.log, g) == Failed(s.log, g)
  {
    if event.FinishTask? && event.outcome.Rollouts? && event.task in s.inflight {
      LogGrows(s.log, Delivery(s.inflight[event.task].group, event.outcome.rollouts), g);
    }
  }

  lemma StepKeepsUnfinished(cfg: Config, s: State, event: Event)
    requires Unfinished(cfg, s) && cfg.groupSize >= 1
    ensures Unfinished(cfg, Next(cfg, s, event))
  {
  }

  /** Event k of the run happened and dropped g. */
  ghost predicate DroppedAt(cfg: Config, events: seq<Event>, k: nat, g: GroupId)
    requires k < |events|
  {
    var before := Run(cfg, events[..k]);
    g in before.groups && Enabled(cfg, before, events[k]) && Drops(before, events[k], g)
  }

  ghost predicate EverDropped(cfg: Config, events: seq<Event>, g: GroupId) {
    exists k :: 0 <= k < |events| && DroppedAt(cfg, events, k, g)
  }

  lemma StillDropped(cfg: Config, events: seq<Event>, event: Event, g: GroupId)
    ensures EverDropped(cfg, events, g) ==> EverDropped(cfg, events + [event], g)
  {
    if k :| 0 <= k < |events| && DroppedAt(cfg, events, k, g) {
      assert (events + [event])[..k] == events[..k] && (events + [event])[k] == events[k];
      assert DroppedAt(cfg, events + [event], k, g);
    }
  }

  /**
   In every run each group there ever was is live with outcomes missing, delivered with every valid rollout that
   its tasks returned, or over without a valid one, unless it was dropped for one of the reasons.
   */
  lemma {:induction false} GroupsEnd(cfg: Config, events: seq<Event>, g: GroupId)
    requires cfg.groupSize >= 1 && g < Run(cfg, events).nextGroup
    ensures var s := Run(cfg, events);
      && Unfinished(cfg, s)
      && (g in s.groups || Delivered(s, g) || AllFailed(cfg, s, g) || EverDropped(cfg, events, g))
    decreases |events|
  {
    if events != [] {
      var n := |events| - 1;
      var front, event := events[..n], events[n];
      var before := Run(cfg, front);
      RunKeepsInv(cfg, front);
      UnfinishedInRuns(cfg, front);
      StillDropped(cfg, front, event, g);
      assert events == front + [event];
      if g < before.nextGroup {
        GroupsEnd(cfg, front, g);
      }
      if Enabled(cfg, before, event) {
        StepKeepsUnfinished(cfg, before, event);
        LastStepEnds(cfg, events, g);
      }
    }
  }

  lemma {:induction false} UnfinishedInRuns(cfg: Config, events: seq<Event>)
    requires cfg.groupSize >= 1
    ensures Unfinished(cfg, Run(cfg, events))
    decreases |events|
  {
    if events != [] {
      UnfinishedInRuns(cfg, events[..|events| - 1]);
      StepKeepsUnfinished(cfg, Run(cfg, events[..|events| - 1]), events[|events| - 1]);
    }
  }

  lemma LastStepEnds(cfg: Config, events: seq<Event>, g: GroupId)
    requires cfg.groupSize >= 1 && events != [] && g < Run(cfg, events).nextGroup
    requires Enabled(cfg, Run(cfg, events[..|events| - 1]), events[|events| - 1])
    requires var s := Run(cfg, events[..|events| - 1]);
      && Inv(cfg, s)
      && (g < s.nextGroup ==> g in s.groups || Delivered(s, g) || AllFailed(cfg, s, g) || EverDropped(cfg, events, g))
    ensures var s := Run(cfg, events);
      g in s.groups || Delivered(s, g) || AllFailed(cfg, s, g) || EverDropped(cfg, events, g)
  {
    var n := |events| - 1;
    var before := Run(cfg, events[..n]);
    if g in before.groups {
      StepEnds(cfg, before, events[n], g);
      if Drops(before, events[n], g) {
        assert DroppedAt(cfg, events, n, g);
      }
    } else if g < before.nextGroup {
      StepKeepsEnds(cfg, before, events[n], g);
    }
  }

  /** A group with all its outcomes in, a valid one among them, has been handed over, unless it was dropped. */
  lemma WholeGroupsAreDelivered(cfg: Config, events: seq<Event>, g: GroupId)
    requires cfg.groupSize >= 1
    requires var log := Run(cfg, events).log;
      Returned(log, g) != [] && |Returned(log, g)| + Failed(log, g) >= cfg.groupSize
    ensures Delivered(Run(cfg, events), g) || EverDropped(cfg, events, g)
  {
    var s := Run(cfg, events);
    RunKeepsInv(cfg, events);
    if forall i :: 0 <= i < |s.log| ==> s.log[i].group != g {
      NothingReturned(s.log, g);
    }
    GroupsEnd(cfg, events, g);
  }
}
