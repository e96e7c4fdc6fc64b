/** The scheduler's group bookkeeping as it runs; each method is one stretch between two awaits. */
module RolloutScheduler {
  import opened Wrappers
  import opened RolloutGroups
  import T = RolloutGroupTheorems

  class RolloutScheduler {
    const cfg: Config
    var ckptStep: int
    var nextGroupId: nat
    var nextTask: nat
    var inflightRequests: map<TaskId, Request>
    var groups: map<GroupId, Group>
    var launching: Option<GroupId>
    var update: Option<Update>
    var delivered: seq<Delivery>
    var updates: nat
    ghost var log: seq<Delivery>

    ghost function View(): State
      reads this
    {
      State(ckptStep, nextGroupId, nextTask, inflightRequests, groups, launching, update, delivered, updates, log)
    }

    constructor (cfg: Config)
      ensures this.cfg == cfg && View() == Start() && T.Inv(cfg, View())
    {
      this.cfg := cfg;
      ckptStep, nextGroupId, nextTask, updates := 0, 0, 0, 0;
      inflightRequests, groups, launching, update, delivered, log := map[], map[], None, None, [], [];
    }

    method InflightRolloutCount() returns (count: nat)
      ensures count == InflightRollouts(View())
    {
      count := 0;
      for t := 0 to nextTask
        invariant count == CountIn(inflightRequests, None, t)
      {
        if t in inflightRequests {
          count := count + inflightRequests[t].count;
        }
      }
    }

    /** Takes the group's requests out of flight and forgets the group. */
    method DropGroup(g: GroupId) returns (count: nat)
      requires T.Ids(View())
      modifies this`inflightRequests, this`groups
      ensures View() == RolloutGroups.DropGroup(old(View()), g)
      ensures count == CountIn(old(inflightRequests), Some(g), nextTask)
    {
      count := 0;
      ghost var before := inflightRequests;
      for t := 0 to nextTask
        invariant forall k :: k in inflightRequests <==> k in before && (k >= t || before[k].group != g)
        invariant forall k :: k in inflightRequests ==> inflightRequests[k] == before[k]
        invariant groups == old(groups)
        invariant count == CountIn(before, Some(g), t)
      {
        if t in inflightRequests && inflightRequests[t].group == g {
          count := count + inflightRequests[t].count;
          inflightRequests := inflightRequests - {t};
        }
      }
      assert inflightRequests == Without(before, g);
      groups := groups - {g};
    }

    /** The choice of the next request's group; `picked` says whether there is one. */
    method ScheduleNextRequest(scored: bool) returns (picked: bool)
      requires launching.None?
      modifies this`nextGroupId, this`groups, this`launching
      ensures View() == Pick(cfg, old(View()), scored)
      ensures picked <==> launching.Some?
    {
      var inflight := InflightRolloutCount();
      var remaining := cfg.maxInflight - inflight;
      if remaining <= 0 {
        return false;
      }
      for g := 0 to nextGroupId
        invariant View() == old(View())
        invariant FirstFit(groups, remaining, 0, nextGroupId) == FirstFit(groups, remaining, g, nextGroupId)
      {
        if g in groups && groups[g].toSchedule > 0 {
          var cost := if groups[g].scored then groups[g].toSchedule else 1;
          if cost <= remaining {
            launching := Some(g);
            return true;
          }
        }
      }
      if remaining < cfg.groupSize {
        return false;
      }
      var g := nextGroupId;
      nextGroupId := nextGroupId + 1;
      groups := groups[g := Group(cfg.groupSize, [], 0, scored, None)];
      launching := Some(g);
      picked := true;
    }

    /** What is left of scheduling once the client is known. */
    method ScheduleRollout(client: int)
      modifies this`launching, this`groups, this`inflightRequests, this`nextTask
      ensures View() == Launch(old(View()), client)
    {
      if launching.None? {
        return;
      }
      var g := launching.value;
      launching := None;
      if g !in groups || groups[g].toSchedule == 0 {
        return;
      }
      var group := groups[g];
      var used := client;
      if group.pinned.Some? {
        used := group.pinned.value;
      } else {
        group := group.(pinned := Some(client));
      }
      var count := 1;
      if group.scored {
        count := group.toSchedule;
        group := group.(toSchedule := 0);
      } else {
        group := group.(toSchedule := group.toSchedule - 1);
      }
      groups := groups[g := group];
      inflightRequests := inflightRequests[nextTask := Request(g, count, used, 0, ckptStep, updates)];
      nextTask := nextTask + 1;
    }

    /** Valid rollouts of a result, in order, and the number of the others. */
    static method Partition(rollouts: seq<Rollout>) returns (valid: seq<Rollout>, failed: nat)
      ensures valid == Valid(rollouts) && failed == Failures(rollouts)
    {
      valid := [];
      for i := 0 to |rollouts|
        invariant valid == Valid(rollouts[..i])
      {
        assert rollouts[..i + 1][..i] == rollouts[..i];
        if rollouts[i].ok {
          valid := valid + [rollouts[i]];
        }
      }
      assert rollouts[..|rollouts|] == rollouts;
      failed := |rollouts| - |valid|;
    }

    /** Handles one finished task of the batch loop. */
    method HandleFinishedTask(t: TaskId, outcome: Outcome)
      requires T.Ids(View())
      modifies this`inflightRequests, this`groups, this`delivered, this`log
      ensures View() == Finish(cfg, old(View()), t, outcome)
    {
      if t !in inflightRequests {
        return;
      }
      var g := inflightRequests[t].group;
      inflightRequests := inflightRequests - {t};
      if g !in groups {
        return;
      }
      match outcome
      case Cancelled => var _ := DropGroup(g);
      case Raised => var _ := DropGroup(g);
      case Rollouts(rollouts) => AddResults(g, rollouts);
    }

    method AddResults(g: GroupId, rollouts: seq<Rollout>)
      requires T.Ids(View()) && g in groups
      modifies this`inflightRequests, this`groups, this`delivered, this`log
      ensures View() == Collect(cfg, old(View()).(log := old(log) + [Delivery(g, rollouts)]), g, rollouts)
    {
      assert g < nextGroupId;
      log := log + [Delivery(g, rollouts)];
      var group := groups[g];
      var valid, failed := Partition(rollouts);
      group := group.(failed := group.failed + failed);
      if failed > 0 && group.scored {
        var _ := DropGroup(g);
        return;
      }
      group := group.(completed := group.completed + valid);
      if |group.completed| + group.failed < cfg.groupSize {
        groups := groups[g := group];
        return;
      }
      groups := groups - {g};
      if group.completed != [] {
        delivered := delivered + [Delivery(g, group.completed)];
      }
    }

    /** First half of the off-policy update: decides, drops nothing yet. */
    method StartOffPolicyUpdate(step: int)
      requires T.Ids(View())
      modifies this`ckptStep, this`updates, this`update
      ensures View() == BeginUpdate(cfg, old(View()), step)
    {
      ckptStep := step;
      updates := updates + 1;
      var stale: set<GroupId> := {};
      for t := 0 to nextTask
        invariant stale ==
          set k | k in inflightRequests && k < t && inflightRequests[k].off >= cfg.maxOff :: inflightRequests[k].group
      {
        if t in inflightRequests && inflightRequests[t].off >= cfg.maxOff {
          stale := stale + {inflightRequests[t].group};
        }
      }
      assert stale == StaleGroups(cfg, old(View()));
      var increment: set<TaskId> := {};
      for t := 0 to nextTask
        invariant increment == set k | k in inflightRequests && k < t && inflightRequests[k].group !in stale
      {
        if t in inflightRequests && inflightRequests[t].group !in stale {
          increment := increment + {t};
        }
      }
      update := Some(Update(stale, increment));
      assert increment == BeginUpdate(cfg, old(View()), step).update.value.increment;
    }

    method DropStaleGroup(g: GroupId) returns (count: nat)
      requires T.Ids(View())
      modifies this`inflightRequests, this`groups, this`update
      ensures View() == DropStale(old(View()), g)
    {
      count := 0;
      if update.Some? && g in update.value.stale {
        count := DropGroup(g);
        update := Some(update.value.(stale := update.value.stale - {g}));
      }
    }

    /** Second half of the off-policy update: the survivors grow older. */
    method FinishOffPolicyUpdate()
      requires T.Ids(View()) && update.Some?
      modifies this`inflightRequests, this`update
      ensures View() == EndUpdate(old(View()))
    {
      var increment := update.value.increment;
      ghost var before := inflightRequests;
      for t := 0 to nextTask
        invariant update == old(update)
        invariant inflightRequests.Keys == before.Keys
        invariant forall k :: k in before ==>
          inflightRequests[k] == if k in increment && k < t then before[k].(off := before[k].off + 1) else before[k]
      {
        if t in increment && t in inflightRequests {
          inflightRequests := inflightRequests[t := inflightRequests[t].(off := inflightRequests[t].off + 1)];
        }
      }
      assert inflightRequests == Aged(before, increment);
      update := None;
    }

    method CancelInflightRollouts() returns (count: nat)
      modifies this`inflightRequests, this`groups
      ensures View() == Next(cfg, old(View()), CancelAll)
      ensures count == InflightRollouts(old(View()))
    {
      count := InflightRolloutCount();
      inflightRequests := map[];
      groups := map[];
    }
  }
}
