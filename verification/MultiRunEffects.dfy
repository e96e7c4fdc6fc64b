/** What a discovery, a published sync, its hooks and a rank that follows it do, table by table. */
module MultiRunEffects {
  import opened Wrappers
  import opened MultiRun
  import opened MultiRunTheorems

  /** All that the tables say of the run in slot i. */
  ghost predicate Shows(s: State, run: RunId, i: nat, config: Config, scaling: int) {
    && run in s.id2idx && s.id2idx[run] == i && i in s.idx2id && s.idx2id[i] == run && i !in s.unused
    && i in s.config && s.config[i] == config
    && i < |s.scaling| && s.scaling[i] == scaling
  }

  ghost predicate ShowsProgress(s: State, i: nat, progress: int) {
    i in s.progress && s.progress[i] == progress
  }

  /** No table knows slot i, and its factor is `scaling`. */
  ghost predicate Unused(s: State, i: nat, scaling: int) {
    && i in s.unused && i !in s.idx2id && i !in s.config && (forall run :: run in s.id2idx ==> s.id2idx[run] != i)
    && i < |s.scaling| && s.scaling[i] == scaling
  }

  /* ---------- Discovery ---------- */

  /** A run whose directory is still there, and one whose directory is gone. */
  lemma KnownRunExactly(before: State, runIds: set<RunId>, configs: map<RunId, Config>, after: State, run: RunId)
    requires Valid(before) && Discovered(before, runIds, configs, after) && run in before.id2idx
    ensures run in after.id2idx <==> run in runIds
    ensures var i := before.id2idx[run];
      run in runIds ==>
        && i in before.config && i in before.progress && i < |before.scaling|
        && Shows(after, run, i, before.config[i], before.scaling[i]) && ShowsProgress(after, i, before.progress[i])
  {
    DiscoveryKeepsLive(before, runIds, configs, after, run);
    if run in runIds {
      KeepsFactor(before, runIds, configs, after, run);
    }
  }

  lemma KeepsFactor(before: State, runIds: set<RunId>, configs: map<RunId, Config>, after: State, run: RunId)
    requires Valid(before) && Discovered(before, runIds, configs, after) && run in before.id2idx && run in runIds
    requires run in after.id2idx && after.id2idx[run] == before.id2idx[run]
    ensures var i := before.id2idx[run];
      i < |before.scaling| == |after.scaling| && after.scaling[i] == before.scaling[i]
  {
    var mid, slots :| DiscoveredVia(before, runIds, configs, mid, slots, after);
    var i := before.id2idx[run];
    assert after.idx2id[i] == run;
    FactorKept(before, before.id2idx.Keys - runIds, mid, slots, configs, after, i);
  }

  lemma FactorKept(before: State, runs: set<RunId>, mid: State, slots: map<RunId, nat>, configs: map<RunId, Config>,
                   after: State, i: nat)
    requires i < |before.scaling| == |mid.scaling| == |after.scaling| && slots.Keys <= configs.Keys
    requires DeletedScaling(before, runs, mid) && CreatedScaling(mid, slots, configs, true, after)
    requires !HadSlot(before, runs, i) && !HadSlot(after, slots.Keys, i)
    ensures after.scaling[i] == before.scaling[i]
  {
    assert after.scaling[i] == mid.scaling[i];
  }

  /** A run that was not known before. */
  lemma NewRunExactly(before: State, runIds: set<RunId>, configs: map<RunId, Config>, after: State, run: RunId)
    requires Valid(before) && Discovered(before, runIds, configs, after) && run !in before.id2idx
    ensures run in after.id2idx ==>
      && run in runIds && run in configs
      && Shows(after, run, after.id2idx[run], configs[run], configs[run].scaling)
      && ShowsProgress(after, after.id2idx[run], configs[run].startStep)
    ensures run in runIds && run in configs && run !in after.id2idx ==>
      forall i :: 0 <= i < |after.scaling| ==> i in after.idx2id
  {
    var mid, slots :| DiscoveredVia(before, runIds, configs, mid, slots, after);
    if run in after.id2idx {
      assert run in slots;
      var i := after.id2idx[run];
      assert i in after.idx2id && after.idx2id[i] == run && HadSlot(after, slots.Keys, i);
    }
  }

  /** A slot nobody has: marked when a run left it, otherwise as it was. */
  lemma FreeSlotExactly(before: State, runIds: set<RunId>, configs: map<RunId, Config>, after: State, i: nat)
    requires Valid(before) && Discovered(before, runIds, configs, after)
    requires i < |before.scaling| && i !in after.idx2id
    ensures Unused(after, i, if i in before.idx2id then 1000000 else before.scaling[i]) && i !in after.progress
  {
    var mid, slots :| DiscoveredVia(before, runIds, configs, mid, slots, after);
    assert after.scaling[i] == mid.scaling[i];
    if i in before.idx2id {
      KnownRunExactly(before, runIds, configs, after, before.idx2id[i]);
      assert before.id2idx[before.idx2id[i]] == i;
      assert HadSlot(before, before.id2idx.Keys - runIds, i);
    }
  }

  /**
   A discovery, table by table: known runs stay as they are while their directory is there; each other run with a
   configuration is entered with what the configuration asks for, or no slot is left; slots that were left are marked.
   */
  lemma DiscoveryExactly(before: State, runIds: set<RunId>, configs: map<RunId, Config>, after: State)
    requires Valid(before) && Discovered(before, runIds, configs, after)
    ensures |after.scaling| == |before.scaling| && after.ready == before.ready
    ensures forall run :: run in after.id2idx ==> run in runIds && (run in before.id2idx || run in configs)
    ensures forall run :: run in before.id2idx && run in runIds ==>
      var i := before.id2idx[run];
      && i in before.config && i in before.progress && i < |before.scaling|
      && Shows(after, run, i, before.config[i], before.scaling[i]) && ShowsProgress(after, i, before.progress[i])
    ensures forall run :: run in after.id2idx && run !in before.id2idx ==>
      && Shows(after, run, after.id2idx[run], configs[run], configs[run].scaling)
      && ShowsProgress(after, after.id2idx[run], configs[run].startStep)
    ensures (forall run :: run in runIds && run in configs ==> run in after.id2idx)
         || (forall i :: 0 <= i < |after.scaling| ==> i in after.idx2id)
    ensures forall i: nat :: i < |before.scaling| && i !in after.idx2id ==>
      Unused(after, i, if i in before.idx2id then 1000000 else before.scaling[i]) && i !in after.progress
  {
    forall run | run in before.id2idx
      ensures run in after.id2idx <==> run in runIds
      ensures run in runIds ==>
        var i := before.id2idx[run];
        && i in before.config && i in before.progress && i < |before.scaling|
        && Shows(after, run, i, before.config[i], before.scaling[i]) && ShowsProgress(after, i, before.progress[i])
    {
      KnownRunExactly(before, runIds, configs, after, run);
    }
    NewRunsExactly(before, runIds, configs, after);
    forall i: nat | i < |before.scaling| && i !in after.idx2id
      ensures Unused(after, i, if i in before.idx2id then 1000000 else before.scaling[i]) && i !in after.progress
    {
      FreeSlotExactly(before, runIds, configs, after, i);
    }
  }

  lemma NewRunsExactly(before: State, runIds: set<RunId>, configs: map<RunId, Config>, after: State)
    requires Valid(before) && Discovered(before, runIds, configs, after)
    ensures forall run :: run in after.id2idx && run !in before.id2idx ==>
      && run in runIds && run in configs
      && Shows(after, run, after.id2idx[run], configs[run], configs[run].scaling)
      && ShowsProgress(after, after.id2idx[run], configs[run].startStep)
    ensures (forall run :: run in runIds && run in configs ==> run in after.id2idx)
         || (forall i :: 0 <= i < |after.scaling| ==> i in after.idx2id)
  {
    forall run | run !in before.id2idx
      ensures run in after.id2idx ==>
        && run in runIds && run in configs
        && Shows(after, run, after.id2idx[run], configs[run], configs[run].scaling)
        && ShowsProgress(after, after.id2idx[run], configs[run].startStep)
    {
      NewRunExactly(before, runIds, configs, after, run);
    }
    if run :| run in runIds && run in configs && run !in after.id2idx {
      if run in before.id2idx {
        KnownRunExactly(before, runIds, configs, after, run);
      }
      NewRunExactly(before, runIds, configs, after, run);
    }
  }

  /* ---------- Syncs ---------- */

  /** What the master publishes: its slots, flags, factors and progress, and the configuration of every new run. */
  lemma PublishedExactly(s: State, lastSynced: map<RunId, nat>)
    requires Valid(s)
    ensures var data := Published(s, lastSynced);
      && data.id2idx == s.id2idx && data.ready == s.ready && data.scaling == s.scaling && data.progress == s.progress
      && (forall run :: run in data.newConfigs <==> run in s.id2idx && run !in lastSynced)
      && (forall run :: run in data.newConfigs ==>
            s.id2idx[run] in s.config && data.newConfigs[run] == s.config[s.id2idx[run]])
  {
  }

  /** A run the rank had already keeps slot and configuration; its factor is the published one of that slot. */
  lemma KeptRunExactly(rank: State, data: SyncData, next: State, run: RunId)
    requires Tables(rank) && |data.scaling| == |rank.scaling| && CaughtUp(rank, data, next)
    requires run in rank.id2idx && run in data.id2idx
    ensures var i := rank.id2idx[run];
      i in rank.config && i < |data.scaling| && Shows(next, run, i, rank.config[i], data.scaling[i])
  {
    var deleted, created :| CaughtUpVia(rank, data, deleted, created, next);
    var gone, made := GoneSlots(rank.id2idx, data.id2idx), NewSlots(rank.id2idx, data.id2idx);
    var i := rank.id2idx[run];
    DeletionKeeps(Copied(rank, data), gone.Keys, deleted, run);
    CreationKeeps(deleted, made, data.newConfigs, false, created, run);
    assert created.idx2id[i] == run && !HadSlot(Copied(rank, data), gone.Keys, i);
    assert created.scaling[i] == deleted.scaling[i];
  }

  /** A slot that the rank empties is marked, whoever gets it next; every other slot has the published factor. */
  lemma FactorsExactly(rank: State, data: SyncData, next: State, i: nat)
    requires Tables(rank) && |data.scaling| == |rank.scaling| && CaughtUp(rank, data, next) && i < |rank.scaling|
    ensures |next.scaling| == |rank.scaling|
    ensures next.scaling[i] ==
      if i in rank.idx2id && rank.idx2id[i] !in data.id2idx then 1000000 else data.scaling[i]
  {
    var deleted, created :| CaughtUpVia(rank, data, deleted, created, next);
    assert created.scaling[i] == deleted.scaling[i];
    assert HadSlot(Copied(rank, data), GoneSlots(rank.id2idx, data.id2idx).Keys, i) <==>
      i in rank.idx2id && rank.idx2id[i] !in data.id2idx;
  }

  /** A run new to the rank gets the published slot and configuration. */
  lemma AddedRunExactly(rank: State, data: SyncData, next: State, run: RunId)
    requires Tables(rank) && |data.scaling| == |rank.scaling| && CaughtUp(rank, data, next)
    requires run !in rank.id2idx && run in data.id2idx
    ensures run in data.newConfigs
    ensures var i := data.id2idx[run];
      i < |next.scaling| && Shows(next, run, i, data.newConfigs[run], next.scaling[i])
  {
    var deleted, created :| CaughtUpVia(rank, data, deleted, created, next);
    MadeRunHasData(deleted, NewSlots(rank.id2idx, data.id2idx), data.newConfigs, created, run);
  }

  /** A rank behind a sync, table by table. */
  lemma CatchUpExactly(rank: State, data: SyncData, next: State)
    requires Tables(rank) && |data.scaling| == |rank.scaling| && CaughtUp(rank, data, next)
    ensures next.ready == data.ready && next.progress == data.progress && |next.scaling| == |rank.scaling|
    ensures next.id2idx.Keys == data.id2idx.Keys
    ensures forall run :: run in data.id2idx && run in rank.id2idx ==>
      var i := rank.id2idx[run];
      i in rank.config && i < |data.scaling| && Shows(next, run, i, rank.config[i], data.scaling[i])
    ensures forall run :: run in data.id2idx && run !in rank.id2idx ==>
      var i := data.id2idx[run];
      run in data.newConfigs && i < |next.scaling| && Shows(next, run, i, data.newConfigs[run], next.scaling[i])
    ensures forall i: nat :: i < |rank.scaling| ==>
      next.scaling[i] == if i in rank.idx2id && rank.idx2id[i] !in data.id2idx then 1000000 else data.scaling[i]
  {
    SameRuns(rank, data, next);
    forall run | run in data.id2idx && run in rank.id2idx
      ensures var i := rank.id2idx[run];
        i in rank.config && i < |data.scaling| && Shows(next, run, i, rank.config[i], data.scaling[i])
    {
      KeptRunExactly(rank, data, next, run);
    }
    forall run | run in data.id2idx && run !in rank.id2idx
      ensures var i := data.id2idx[run];
        run in data.newConfigs && i < |next.scaling| && Shows(next, run, i, data.newConfigs[run], next.scaling[i])
    {
      AddedRunExactly(rank, data, next, run);
    }
    forall i: nat | i < |rank.scaling|
      ensures next.scaling[i] ==
        if i in rank.idx2id && rank.idx2id[i] !in data.id2idx then 1000000 else data.scaling[i]
    {
      FactorsExactly(rank, data, next, i);
    }
  }

  lemma SameRuns(rank: State, data: SyncData, next: State)
    requires Tables(rank) && |data.scaling| == |rank.scaling| && CaughtUp(rank, data, next)
    ensures next.ready == data.ready && next.progress == data.progress && |next.scaling| == |rank.scaling|
    ensures next.id2idx.Keys == data.id2idx.Keys
  {
    var deleted, created :| CaughtUpVia(rank, data, deleted, created, next);
    ProgressCopied(rank, data, deleted, created, next);
    AllRunsFollowed(rank.id2idx, data.id2idx, next.id2idx);
  }

  /* ---------- Hooks ---------- */

  function RunsCalled(calls: seq<HookCall>): set<RunId> {
    set c | c in calls :: c.run
  }

  /** Calls for different runs call as many runs. */
  lemma {:induction false} OneRunACall(calls: seq<HookCall>)
    requires forall j, k :: 0 <= j < k < |calls| ==> calls[j].run != calls[k].run
    ensures |RunsCalled(calls)| == |calls|
  {
    if calls != [] {
      var front, last := calls[..|calls| - 1], calls[|calls| - 1];
      OneRunACall(front);
      assert calls == front + [last];
      assert RunsCalled(calls) == RunsCalled(front) + {last.run};
    }
  }

  lemma {:induction false} SameBySize(part: set<RunId>, whole: set<RunId>)
    requires part <= whole && |part| == |whole|
    ensures part == whole
  {
    if whole != {} {
      EmptyOrMember(whole);
      var run :| run in whole;
      if run !in part {
        Fewer(part, whole - {run});
      }
      SameBySize(part - {run}, whole - {run});
      assert part == part - {run} + {run};
    }
  }

  lemma {:induction false} Fewer(part: set<RunId>, whole: set<RunId>)
    requires part <= whole
    ensures |part| <= |whole|
  {
    if part != {} {
      EmptyOrMember(part);
      var run :| run in part;
      Fewer(part - {run}, whole - {run});
    }
  }

  /** One call a run: every run of the table is called with its slot, and no other. */
  lemma CallsExactly(calls: seq<HookCall>, slots: map<RunId, nat>, deletion: bool, c: HookCall)
    requires OneCallEach(calls, slots, deletion)
    ensures c in calls <==> c.Deletion? == deletion && c.run in slots && slots[c.run] == c.idx
  {
    OneRunACall(calls);
    assert |slots.Keys| == |slots|;
    SameBySize(RunsCalled(calls), slots.Keys);
    if c.Deletion? == deletion && c.run in slots && slots[c.run] == c.idx {
      assert c.run in RunsCalled(calls);
      var d :| d in calls && d.run == c.run;
      assert d == c;
    }
  }

  /** The hooks of a sync: one deletion a run that is gone, with its old slot, then one creation a new run. */
  lemma HooksExactly(calls: seq<HookCall>, before: map<RunId, nat>, after: map<RunId, nat>)
    requires Hooks(calls, GoneSlots(before, after), NewSlots(before, after))
    ensures forall c :: c in calls <==>
      if c.Deletion? then c.run in before && c.run !in after && before[c.run] == c.idx
      else c.run in after && c.run !in before && after[c.run] == c.idx
    ensures forall j, k :: 0 <= j < k < |calls| ==> calls[j] != calls[k] && (calls[k].Deletion? ==> calls[j].Deletion?)
  {
    var gone, made := GoneSlots(before, after), NewSlots(before, after);
    var deletions, creations := calls[..|gone|], calls[|gone|..];
    assert calls == deletions + creations;
    forall c
      ensures c in calls <==>
        if c.Deletion? then c.run in before && c.run !in after && before[c.run] == c.idx
        else c.run in after && c.run !in before && after[c.run] == c.idx
    {
      CallsExactly(deletions, gone, true, c);
      CallsExactly(creations, made, false, c);
    }
    InTurn(calls, gone, made);
  }

  lemma InTurn(calls: seq<HookCall>, gone: map<RunId, nat>, made: map<RunId, nat>)
    requires Hooks(calls, gone, made)
    ensures forall j, k :: 0 <= j < k < |calls| ==> calls[j] != calls[k] && (calls[k].Deletion? ==> calls[j].Deletion?)
  {
    var n := |gone|;
    forall j, k | 0 <= j < k < |calls|
      ensures calls[j] != calls[k] && (calls[k].Deletion? ==> calls[j].Deletion?)
    {
      assert j < n ==> calls[..n][j] == calls[j];
      assert k < n ==> calls[..n][k] == calls[k];
      assert j >= n ==> calls[n..][j - n] == calls[j];
      assert k >= n ==> calls[n..][k - n] == calls[k];
    }
  }
}
