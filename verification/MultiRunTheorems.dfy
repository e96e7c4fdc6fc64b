/**
 Master and ranks over any number of syncs. Between two syncs the master trains and discovers, in any
 order and as often as it likes, and the other ranks train.
 */
module MultiRunTheorems {
  import opened Wrappers
  import opened MultiRun

  datatype World = World(master: State, synced: map<RunId, nat>, ranks: seq<State>)

  /* ---------- Between two syncs ---------- */

  /** Training changes progress and the flags of runs ready to update, and nothing else. */
  ghost predicate Trained(before: State, after: State) {
    && after == before.(progress := after.progress, ready := after.ready)
    && after.progress.Keys == before.progress.Keys && |after.ready| == |before.ready|
  }

  ghost predicate MasterStep(before: State, after: State) {
    Trained(before, after) || exists runIds, configs :: Discovered(before, runIds, configs, after)
  }

  /** The master's states from one sync to the next. */
  ghost predicate MasterRun(states: seq<State>) {
    states != [] && forall k :: 0 <= k < |states| - 1 ==> MasterStep(states[k], states[k + 1])
  }

  /** Slots nobody uses are marked. */
  ghost predicate Marked(s: State) {
    forall i :: i in s.unused && i < |s.scaling| ==> s.scaling[i] == UNUSED_SCALING
  }

  ghost predicate Sound(s: State) {
    Valid(s) && Marked(s)
  }

  lemma DeletionKeepsMarks(before: State, runs: set<RunId>, mid: State)
    requires Sound(before) && Valid(mid) && Deleted(before, runs, mid)
    ensures Marked(mid)
  {
    forall i | i in mid.unused && i < |mid.scaling| ensures mid.scaling[i] == UNUSED_SCALING {
      UnusedWasMarked(before, runs, mid, i);
    }
  }

  lemma UnusedWasMarked(before: State, runs: set<RunId>, mid: State, i: nat)
    requires Sound(before) && Valid(mid) && Deleted(before, runs, mid) && i in mid.unused && i < |mid.scaling|
    ensures mid.scaling[i] == UNUSED_SCALING
  {
    assert i in before.unused || i in before.idx2id;
    forall run | run in before.id2idx && run !in runs ensures before.id2idx[run] != i {
      assert run in mid.id2idx && mid.id2idx[run] in mid.idx2id;
    }
    assert i in before.idx2id ==> before.id2idx[before.idx2id[i]] == i;
  }

  lemma CreationKeepsMarks(mid: State, slots: map<RunId, nat>, configs: map<RunId, Config>, hook: bool, after: State)
    requires Sound(mid) && Valid(after) && Created(mid, slots, configs, hook, after)
    requires forall run :: run in slots ==> run !in mid.id2idx
    ensures Marked(after)
  {
    forall i | i in after.unused && i < |after.scaling| ensures after.scaling[i] == UNUSED_SCALING {
      UnusedBefore(mid, slots, after, i);
    }
  }

  lemma UnusedBefore(mid: State, slots: map<RunId, nat>, after: State, i: nat)
    requires Valid(mid) && Valid(after) && after.id2idx == mid.id2idx + slots && |after.scaling| == |mid.scaling|
    requires (forall run :: run in slots ==> run !in mid.id2idx) && i in after.unused
    ensures i in mid.unused && i < |mid.scaling|
  {
    assert i in mid.idx2id ==> mid.id2idx[mid.idx2id[i]] == i;
    forall run | run in mid.id2idx ensures mid.id2idx[run] != i {
      assert run in after.id2idx && after.id2idx[run] in after.idx2id;
    }
  }

  lemma MasterStepKeepsSound(before: State, after: State)
    requires Sound(before) && MasterStep(before, after)
    ensures Sound(after) && |after.scaling| == |before.scaling|
  {
    if !Trained(before, after) {
      var runIds, configs :| Discovered(before, runIds, configs, after);
      var mid, slots :| DiscoveredVia(before, runIds, configs, mid, slots, after);
      DeletionKeepsMarks(before, before.id2idx.Keys - runIds, mid);
      CreationKeepsMarks(mid, slots, configs, true, after);
    }
  }

  lemma {:induction false} MasterRunKeepsSound(states: seq<State>, k: nat)
    requires MasterRun(states) && Sound(states[0]) && k < |states|
    ensures Sound(states[k]) && |states[k].scaling| == |states[0].scaling|
  {
    if k > 0 {
      MasterRunKeepsSound(states, k - 1);
      MasterStepKeepsSound(states[k - 1], states[k]);
    }
  }

  /* ---------- Which runs keep their slots ---------- */

  /** The slots of a valid state follow from its runs. */
  lemma SlotsFollowFromRuns(a: State, b: State)
    requires Tables(a) && Tables(b) && a.id2idx == b.id2idx && |a.scaling| == |b.scaling|
    ensures a.idx2id == b.idx2id && a.unused == b.unused
  {
    forall i | i in a.idx2id || i in b.idx2id ensures i in a.idx2id && i in b.idx2id && a.idx2id[i] == b.idx2id[i] {
      if i in a.idx2id { SlotFollows(a, b, i); } else { SlotFollows(b, a, i); }
    }
  }

  lemma SlotFollows(a: State, b: State, i: nat)
    requires Tables(a) && Tables(b) && a.id2idx == b.id2idx && i in a.idx2id
    ensures i in b.idx2id && b.idx2id[i] == a.idx2id[i]
  {
    var run := a.idx2id[i];
    assert a.id2idx[run] == i && b.id2idx[run] == i;
  }

  /** A run in both states has the same slot and configuration in both. */
  ghost predicate Kept(before: State, after: State, run: RunId) {
    run in before.id2idx && run in after.id2idx ==>
      var i := before.id2idx[run];
      after.id2idx[run] == i && i in before.config && i in after.config && after.config[i] == before.config[i]
  }

  lemma DeletionKeeps(before: State, runs: set<RunId>, mid: State, run: RunId)
    requires Tables(mid) && Deleted(before, runs, mid) && run in before.id2idx && run !in runs
    ensures run in mid.id2idx && mid.id2idx[run] == before.id2idx[run] && SameData(before, mid, before.id2idx[run])
  {
    assert mid.id2idx[run] in mid.idx2id;
  }

  lemma CreationKeeps(mid: State, slots: map<RunId, nat>, configs: map<RunId, Config>, hook: bool, after: State,
                      run: RunId)
    requires Tables(after) && Created(mid, slots, configs, hook, after) && run in mid.id2idx && run !in slots
    ensures run in after.id2idx && after.id2idx[run] == mid.id2idx[run] && SameData(mid, after, mid.id2idx[run])
  {
    assert after.id2idx[run] in after.idx2id && after.idx2id[after.id2idx[run]] == run;
  }

  /** Discovery keeps slot, progress and configuration of every run whose directory is there, and forgets the others. */
  lemma DiscoveryKeepsLive(before: State, runIds: set<RunId>, configs: map<RunId, Config>, after: State, run: RunId)
    requires Discovered(before, runIds, configs, after) && run in before.id2idx
    ensures run in after.id2idx <==> run in runIds
    ensures run in runIds ==> after.id2idx[run] == before.id2idx[run] && SameData(before, after, before.id2idx[run])
  {
    var mid, slots :| DiscoveredVia(before, runIds, configs, mid, slots, after);
    if run in runIds {
      DeletionKeeps(before, before.id2idx.Keys - runIds, mid, run);
      CreationKeeps(mid, slots, configs, true, after, run);
    }
  }

  lemma MasterStepKeeps(before: State, after: State, run: RunId)
    requires Valid(before) && MasterStep(before, after)
    ensures Kept(before, after, run)
  {
    if Trained(before, after) {
      assert run in before.id2idx ==> before.id2idx[run] in before.idx2id;
    } else if run in before.id2idx {
      var runIds, configs :| Discovered(before, runIds, configs, after);
      DiscoveryKeepsLive(before, runIds, configs, after, run);
    }
  }

  /** A run that is there all the time keeps slot and configuration. */
  lemma {:induction false} StayingRunKeeps(states: seq<State>, k: nat, run: RunId)
    requires MasterRun(states) && Sound(states[0]) && k < |states|
    requires forall j :: 0 <= j <= k ==> run in states[j].id2idx
    ensures Kept(states[0], states[k], run)
  {
    MasterRunKeepsSound(states, k);
    if k > 0 {
      StayingRunKeeps(states, k - 1, run);
      MasterRunKeepsSound(states, k - 1);
      MasterStepKeeps(states[k - 1], states[k], run);
    } else {
      assert states[0].id2idx[run] in states[0].idx2id;
    }
  }

  /** Runs in both states keep slots and configurations. */
  ghost predicate Settled(before: State, after: State) {
    forall run :: Kept(before, after, run)
  }

  /** No run leaves and comes back between two syncs. */
  ghost predicate NobodyReturns(states: seq<State>)
    requires states != []
  {
    forall run, k :: 0 <= k < |states| && run in states[0].id2idx && run in states[|states| - 1].id2idx ==>
      run in states[k].id2idx
  }

  lemma StayingRunsSettle(states: seq<State>)
    requires MasterRun(states) && Sound(states[0]) && NobodyReturns(states)
    ensures Settled(states[0], states[|states| - 1])
  {
    var last := |states| - 1;
    forall run ensures Kept(states[0], states[last], run) {
      if run in states[0].id2idx && run in states[last].id2idx {
        StayingRunKeeps(states, last, run);
      }
    }
  }

  /** With one discovery between two syncs nobody can return. */
  lemma OneDiscoverySettles(states: seq<State>, d: nat)
    requires MasterRun(states) && Sound(states[0])
    requires forall k :: 0 <= k < |states| - 1 && k != d ==> Trained(states[k], states[k + 1])
    ensures Settled(states[0], states[|states| - 1])
  {
    forall run, k | 0 <= k < |states| && run in states[0].id2idx && run in states[|states| - 1].id2idx
      ensures run in states[k].id2idx
    {
      if k <= d { SameRunsSince(states, 0, k, d); } else { SameRunsSince(states, k, |states| - 1, d); }
    }
    StayingRunsSettle(states);
  }

  lemma {:induction false} SameRunsSince(states: seq<State>, j: nat, k: nat, d: nat)
    requires j <= k < |states| && (k <= d || d < j)
    requires forall k :: 0 <= k < |states| - 1 && k != d ==> Trained(states[k], states[k + 1])
    ensures states[k].id2idx == states[j].id2idx
    decreases k
  {
    if j < k {
      SameRunsSince(states, j, k - 1, d);
      assert Trained(states[k - 1], states[k - 1 + 1]);
    }
  }

  /* ---------- One sync ---------- */

  /** Same runs in the same slots with the same configurations. */
  ghost predicate SameTables(master: State, rank: State) {
    && Valid(rank) && |rank.scaling| == |master.scaling|
    && rank.id2idx == master.id2idx && rank.config == master.config
  }

  function SlotsOf(slots: map<RunId, nat>): set<nat> {
    set run | run in slots :: slots[run]
  }

  lemma SlotsAreUsed(s: State)
    requires Tables(s)
    ensures s.idx2id.Keys == SlotsOf(s.id2idx)
  {
    forall i: nat ensures i in s.idx2id <==> i in SlotsOf(s.id2idx) {
      if i in s.idx2id {
        var run := s.idx2id[i];
        assert run in s.id2idx && s.id2idx[run] == i;
      }
    }
  }

  /**
   A rank that got through all syncs so far: it has the runs of the last one, in those slots or others, and
   progress for the slots that the master used then.
   */
  ghost predicate Follows(synced: map<RunId, nat>, rank: State) {
    Tables(rank) && rank.id2idx.Keys == synced.Keys && rank.progress.Keys == SlotsOf(synced)
  }

  /** A run has to be forgotten whose slot on the rank was not one of the master's. */
  ghost predicate ProgressMissing(synced: map<RunId, nat>, after: map<RunId, nat>, slots: map<RunId, nat>) {
    exists run :: run in slots && run !in after && slots[run] !in SlotsOf(synced)
  }

  /** The rank keeps a run in slot i. */
  ghost predicate Held(after: map<RunId, nat>, slots: map<RunId, nat>, i: nat) {
    exists kept :: kept in slots && kept in after && slots[kept] == i
  }

  /** A new run's slot is that of a run which the rank keeps. */
  ghost predicate SlotHeld(after: map<RunId, nat>, slots: map<RunId, nat>) {
    exists run :: run in after && run !in slots && Held(after, slots, after[run])
  }

  lemma DeletableExactlyWhen(synced: map<RunId, nat>, after: map<RunId, nat>, rank: State)
    requires Follows(synced, rank)
    ensures Deletable(rank, GoneSlots(rank.id2idx, after).Keys) <==> !ProgressMissing(synced, after, rank.id2idx)
  {
    var gone := GoneSlots(rank.id2idx, after).Keys;
    forall run ensures run in gone <==> run in rank.id2idx && run !in after {
    }
  }

  lemma HeldExactlyWhen(after: map<RunId, nat>, rank: State, i: nat)
    requires Tables(rank)
    ensures Held(after, rank.id2idx, i) <==> i in rank.idx2id && rank.idx2id[i] in after
  {
    if i in rank.idx2id && rank.idx2id[i] in after {
      var kept := rank.idx2id[i];
      assert kept in rank.id2idx && kept in after && rank.id2idx[kept] == i;
    }
  }

  /** A slot that a new run is given is free on the rank unless it keeps a run in it. */
  lemma FreeUnlessHeld(after: map<RunId, nat>, rank: State, i: nat)
    requires Tables(rank) && i < |rank.scaling|
    ensures i in rank.unused + Freed(rank, GoneSlots(rank.id2idx, after).Keys) <==> !Held(after, rank.id2idx, i)
  {
    FreedExactly(rank, GoneSlots(rank.id2idx, after).Keys, i);
    HeldExactlyWhen(after, rank, i);
    assert i in rank.idx2id ==>
      (rank.idx2id[i] in GoneSlots(rank.id2idx, after).Keys <==> rank.idx2id[i] !in after);
  }

  lemma PlaceableExactlyWhen(after: State, rank: State)
    requires Tables(rank) && Tables(after) && |after.scaling| == |rank.scaling|
    ensures var free := rank.unused + Freed(rank, GoneSlots(rank.id2idx, after.id2idx).Keys);
      PlaceableIn(free, NewSlots(rank.id2idx, after.id2idx)) <==> !SlotHeld(after.id2idx, rank.id2idx)
  {
    var made := NewSlots(rank.id2idx, after.id2idx);
    var free := rank.unused + Freed(rank, GoneSlots(rank.id2idx, after.id2idx).Keys);
    forall run | run in made ensures made[run] in free <==> !Held(after.id2idx, rank.id2idx, made[run]) {
      assert after.id2idx[run] in after.idx2id;
      FreeUnlessHeld(after.id2idx, rank, made[run]);
    }
    forall a, b | a in made && b in made && made[a] == made[b] ensures a == b {
      assert after.idx2id[after.id2idx[a]] == a && after.idx2id[after.id2idx[b]] == b;
    }
    NewExactly(rank.id2idx, after.id2idx);
  }

  lemma NewExactly(before: map<RunId, nat>, after: map<RunId, nat>)
    ensures forall run :: run in NewSlots(before, after) <==> run in after && run !in before
    ensures forall run :: run in NewSlots(before, after) ==> NewSlots(before, after)[run] == after[run]
  {
  }

  /**
   A sync fails on a rank exactly when it has to forget a run it holds in a slot without progress, or the master
   gave a new run the slot in which the rank keeps another.
   */
  lemma SyncFailsExactlyWhen(synced: map<RunId, nat>, after: State, rank: State)
    requires Follows(synced, rank) && Valid(after) && |after.scaling| == |rank.scaling|
    ensures !Applicable(rank, Published(after, synced)) <==>
            ProgressMissing(synced, after.id2idx, rank.id2idx) || SlotHeld(after.id2idx, rank.id2idx)
  {
    DeletableExactlyWhen(synced, after.id2idx, rank);
    PlaceableExactlyWhen(after, rank);
    assert NewSlots(rank.id2idx, after.id2idx).Keys == Published(after, synced).newConfigs.Keys;
  }

  lemma InStepFollows(before: State, rank: State)
    requires SameTables(before, rank)
    ensures Follows(before.id2idx, rank)
  {
    SlotsAreUsed(rank);
  }

  /** On a rank in step it fails exactly when a new run took the slot of a run that moved. */
  lemma RankFailsExactlyWhen(before: State, after: State, rank: State)
    requires SameTables(before, rank) && Valid(after) && |after.scaling| == |before.scaling|
    ensures !Applicable(rank, Published(after, before.id2idx)) <==>
      exists run, moved :: run in after.id2idx && run !in before.id2idx && moved in before.id2idx
                           && moved in after.id2idx && after.id2idx[run] == before.id2idx[moved]
  {
    InStepFollows(before, rank);
    SyncFailsExactlyWhen(before.id2idx, after, rank);
    if SlotHeld(after.id2idx, before.id2idx) {
      var run :| run in after.id2idx && run !in before.id2idx && Held(after.id2idx, before.id2idx, after.id2idx[run]);
      var moved :| moved in before.id2idx && moved in after.id2idx && before.id2idx[moved] == after.id2idx[run];
    }
    if run, moved :| run in after.id2idx && run !in before.id2idx && moved in before.id2idx
                     && moved in after.id2idx && after.id2idx[run] == before.id2idx[moved] {
      assert Held(after.id2idx, before.id2idx, after.id2idx[run]);
    }
  }

  /** A sync that does not fail leaves the rank with the master's runs and progress, each known run in its old slot. */
  lemma KnownRunsStay(synced: map<RunId, nat>, after: State, rank: State, next: State)
    requires Follows(synced, rank) && Valid(after) && |after.scaling| == |rank.scaling|
    requires CaughtUp(rank, Published(after, synced), next)
    ensures Follows(after.id2idx, next) && |next.scaling| == |after.scaling|
    ensures next.progress == after.progress && next.ready == after.ready
    ensures forall run :: run in next.id2idx ==>
      next.id2idx[run] == if run in synced then rank.id2idx[run] else after.id2idx[run]
  {
    var data := Published(after, synced);
    var deleted, created :| CaughtUpVia(rank, data, deleted, created, next);
    AllRunsFollowed(rank.id2idx, after.id2idx, next.id2idx);
    SlotsAreUsed(after);
    ProgressCopied(rank, data, deleted, created, next);
  }

  lemma ProgressCopied(rank: State, data: SyncData, deleted: State, created: State, next: State)
    requires CaughtUpVia(rank, data, deleted, created, next)
    ensures Tables(next) && |next.scaling| == |data.scaling|
    ensures next.progress == data.progress && next.ready == data.ready
  {
  }

  lemma AllRunsFollowed(before: map<RunId, nat>, after: map<RunId, nat>, followed: map<RunId, nat>)
    requires followed == before - GoneSlots(before, after).Keys + NewSlots(before, after)
    ensures followed.Keys == after.Keys
    ensures forall run :: run in followed ==> followed[run] == if run in before then before[run] else after[run]
  {
    forall run ensures run in followed <==> run in after {
      RunFollowed(before, after, run);
    }
    forall run | run in followed ensures followed[run] == if run in before then before[run] else after[run] {
      RunFollowed(before, after, run);
    }
  }

  /** The runs a rank ends up with, and that they are the master's exactly when no run moved. */
  lemma RunsFollowedExactlyWhen(before: map<RunId, nat>, after: map<RunId, nat>, followed: map<RunId, nat>)
    requires followed == before - GoneSlots(before, after).Keys + NewSlots(before, after)
    ensures followed == after <==> Unmoved(before, after)
  {
    AllRunsFollowed(before, after, followed);
    if Unmoved(before, after) {
      assert forall run :: run in after ==> followed[run] == after[run];
    } else {
      var run :| run in before && run in after && after[run] != before[run];
      assert followed[run] != after[run];
    }
  }

  lemma RunFollowed(before: map<RunId, nat>, after: map<RunId, nat>, run: RunId)
    ensures var followed := before - GoneSlots(before, after).Keys + NewSlots(before, after);
      && (run in followed <==> run in after)
      && (run in after ==> followed[run] == if run in before then before[run] else after[run])
  {
  }

  /** The runs of the old master that the new one no longer has. */
  function GoneRuns(before: State, after: State): set<RunId> {
    before.id2idx.Keys - after.id2idx.Keys
  }

  /** The master's factors, but for slots of runs that are gone, which are marked unused. */
  ghost predicate ScalingFrom(before: State, after: State, rank: State) {
    && |rank.scaling| == |after.scaling|
    && forall i {:trigger rank.scaling[i]} :: 0 <= i < |rank.scaling| ==>
         rank.scaling[i] == if HadSlot(before, GoneRuns(before, after), i) then UNUSED_SCALING else after.scaling[i]
  }

  lemma RankScaling(before: State, after: State, rank: State, deleted: State, made: map<RunId, nat>,
                    configs: map<RunId, Config>, created: State)
    requires before.idx2id == rank.idx2id && rank.scaling == after.scaling && made.Keys <= configs.Keys
    requires |deleted.scaling| == |rank.scaling| && DeletedScaling(rank, GoneRuns(before, after), deleted)
    requires |created.scaling| == |deleted.scaling| && CreatedScaling(deleted, made, configs, false, created)
    ensures ScalingFrom(before, after, created)
  {
  }

  /** Everything a sync copies and derives, whatever happened to the configurations. */
  ghost predicate Followed(before: State, after: State, next: State) {
    && Valid(next) && next.id2idx == after.id2idx
    && next.progress == after.progress && next.ready == after.ready
    && ScalingFrom(before, after, next)
  }

  lemma CatchingUpFollows(before: State, after: State, rank: State, next: State)
    requires Valid(before) && Valid(after) && |after.scaling| == |before.scaling| && SameTables(before, rank)
    requires CaughtUp(rank, Published(after, before.id2idx), next)
    ensures next.id2idx == after.id2idx <==> Unmoved(before.id2idx, after.id2idx)
    ensures ScalingFrom(before, after, next)
    ensures next.id2idx == after.id2idx ==> Followed(before, after, next)
  {
    var data := Published(after, before.id2idx);
    var deleted, created :| CaughtUpVia(rank, data, deleted, created, next);
    RunsFollowedExactlyWhen(before.id2idx, after.id2idx, next.id2idx);
    CatchingUpScales(before, after, rank, deleted, created, next);
    if next.id2idx == after.id2idx {
      SlotsFollowFromRuns(created, after);
      NewProgressIsValid(created, data.progress);
    }
  }

  lemma CatchingUpScales(before: State, after: State, rank: State, deleted: State, created: State, next: State)
    requires Valid(before) && Valid(after) && |after.scaling| == |before.scaling| && SameTables(before, rank)
    requires CaughtUpVia(rank, Published(after, before.id2idx), deleted, created, next)
    ensures ScalingFrom(before, after, next)
  {
    var data := Published(after, before.id2idx);
    SlotsFollowFromRuns(before, rank);
    assert GoneSlots(rank.id2idx, data.id2idx).Keys == GoneRuns(before, after);
    var slots := NewSlots(rank.id2idx, data.id2idx);
    RankScaling(before, after, Copied(rank, data), deleted, slots, data.newConfigs, created);
  }

  lemma NewProgressIsValid(s: State, progress: map<nat, int>)
    requires Tables(s) && progress.Keys == s.idx2id.Keys
    ensures Valid(s.(progress := progress))
  {
  }

  /** A run the rank knew keeps the rank's configuration, a new one gets the master's. */
  lemma RankConfig(before: State, after: State, rank: State, next: State, run: RunId)
    requires Valid(before) && Valid(after) && |after.scaling| == |before.scaling| && SameTables(before, rank)
    requires CaughtUp(rank, Published(after, before.id2idx), next) && next.id2idx == after.id2idx
    requires run in after.id2idx
    ensures var i := after.id2idx[run];
      && i in next.config && i in after.config
      && (run in before.id2idx ==> i in before.config && next.config[i] == before.config[i])
      && (run !in before.id2idx ==> next.config[i] == after.config[i])
  {
    var data := Published(after, before.id2idx);
    var deleted, created :| CaughtUpVia(rank, data, deleted, created, next);
    var gone, made := GoneSlots(rank.id2idx, data.id2idx), NewSlots(rank.id2idx, data.id2idx);
    assert after.id2idx[run] in after.idx2id;
    if run in before.id2idx {
      DeletionKeeps(Copied(rank, data), gone.Keys, deleted, run);
      CreationKeeps(deleted, made, data.newConfigs, false, created, run);
    } else {
      MadeRunHasData(deleted, made, data.newConfigs, created, run);
    }
  }

  lemma MadeRunHasData(deleted: State, made: map<RunId, nat>, configs: map<RunId, Config>, created: State, run: RunId)
    requires Tables(created) && Created(deleted, made, configs, false, created) && run in made
    ensures run in created.id2idx && HasData(created, created.id2idx[run], configs[run])
  {
    assert created.id2idx[run] in created.idx2id && created.idx2id[created.id2idx[run]] == run;
  }

  /** Configurations agree after a sync exactly when no run came back with another one. */
  lemma ConfigsAgreeExactlyWhen(before: State, after: State, rank: State, next: State)
    requires Valid(before) && Valid(after) && |after.scaling| == |before.scaling| && SameTables(before, rank)
    requires CaughtUp(rank, Published(after, before.id2idx), next) && next.id2idx == after.id2idx
    ensures next.config == after.config <==> Settled(before, after)
  {
    CatchingUpFollows(before, after, rank, next);
    SlotsFollowFromRuns(next, after);
    if Settled(before, after) {
      forall i | i in after.idx2id ensures i in next.config && next.config[i] == after.config[i] {
        SlotConfigAgrees(before, after, rank, next, i);
      }
      SameConfigs(next, after);
    }
    if next.config == after.config {
      forall run ensures Kept(before, after, run) {
        RunWasKept(before, after, rank, next, run);
      }
    }
  }

  lemma SameConfigs(a: State, b: State)
    requires Valid(a) && Valid(b) && a.idx2id == b.idx2id
    requires forall i :: i in b.idx2id ==> i in a.config && a.config[i] == b.config[i]
    ensures a.config == b.config
  {
  }

  lemma RunWasKept(before: State, after: State, rank: State, next: State, run: RunId)
    requires Valid(before) && Valid(after) && |after.scaling| == |before.scaling| && SameTables(before, rank)
    requires CaughtUp(rank, Published(after, before.id2idx), next) && next.id2idx == after.id2idx
    requires next.config == after.config && Unmoved(before.id2idx, after.id2idx)
    ensures Kept(before, after, run)
  {
    if run in before.id2idx && run in after.id2idx {
      RankConfig(before, after, rank, next, run);
    }
  }

  lemma SlotConfigAgrees(before: State, after: State, rank: State, next: State, i: nat)
    requires Valid(before) && Valid(after) && |after.scaling| == |before.scaling| && SameTables(before, rank)
    requires CaughtUp(rank, Published(after, before.id2idx), next) && next.id2idx == after.id2idx
    requires Settled(before, after) && i in after.idx2id
    ensures i in next.config && i in after.config && next.config[i] == after.config[i]
  {
    var run := after.idx2id[i];
    assert run in after.id2idx && after.id2idx[run] == i;
    assert Kept(before, after, run);
    RankConfig(before, after, rank, next, run);
  }

  /* ---------- From sync to sync ---------- */

  ghost predicate Inv(w: World) {
    && Sound(w.master) && w.synced == w.master.id2idx
    && forall r :: 0 <= r < |w.ranks| ==> SameTables(w.master, w.ranks[r])
  }

  /** The master runs from one sync to the next, each rank trains, then all sync. */
  ghost predicate Period(w: World, states: seq<State>, trained: seq<State>, next: World) {
    && MasterRun(states) && states[0] == w.master && next.master == states[|states| - 1]
    && Valid(next.master) && next.synced == next.master.id2idx
    && |trained| == |w.ranks| == |next.ranks|
    && (forall r :: 0 <= r < |w.ranks| ==> Trained(w.ranks[r], trained[r]))
    && (forall r :: 0 <= r < |w.ranks| ==> CaughtUp(trained[r], Published(next.master, w.synced), next.ranks[r]))
  }

  /** Progress and flags agree too, as they do right behind a sync. */
  ghost predicate InStep(w: World) {
    && Inv(w)
    && forall r :: 0 <= r < |w.ranks| ==>
         w.ranks[r].progress == w.master.progress && w.ranks[r].ready == w.master.ready
  }

  lemma TrainingKeepsTables(w: World, trained: seq<State>, r: nat)
    requires Inv(w) && r < |trained| == |w.ranks| && Trained(w.ranks[r], trained[r])
    ensures SameTables(w.master, trained[r])
  {
    assert SameTables(w.master, w.ranks[r]);
  }

  lemma PeriodRank(w: World, states: seq<State>, trained: seq<State>, next: World, r: nat)
    requires Inv(w) && Period(w, states, trained, next) && r < |w.ranks|
    ensures Sound(next.master) && |next.master.scaling| == |w.master.scaling|
    ensures ScalingFrom(w.master, next.master, next.ranks[r])
    ensures SameTables(next.master, next.ranks[r]) <==> Settled(w.master, next.master)
    ensures Settled(w.master, next.master) ==> Followed(w.master, next.master, next.ranks[r])
  {
    MasterRunKeepsSound(states, |states| - 1);
    TrainingKeepsTables(w, trained, r);
    CatchingUpFollows(w.master, next.master, trained[r], next.ranks[r]);
    if Settled(w.master, next.master) {
      SettledMeansUnmoved(w.master, next.master);
    }
    if next.ranks[r].id2idx == next.master.id2idx {
      ConfigsAgreeExactlyWhen(w.master, next.master, trained[r], next.ranks[r]);
    }
  }

  lemma SettledMeansUnmoved(before: State, after: State)
    requires Settled(before, after)
    ensures Unmoved(before.id2idx, after.id2idx)
  {
    forall run | run in before.id2idx && run in after.id2idx ensures after.id2idx[run] == before.id2idx[run] {
      assert Kept(before, after, run);
    }
  }

  /** All ranks are in step behind a sync exactly when no run came back elsewhere or with another configuration. */
  lemma SyncAgreesExactlyWhen(w: World, states: seq<State>, trained: seq<State>, next: World)
    requires Inv(w) && Period(w, states, trained, next) && w.ranks != []
    ensures InStep(next) <==> Settled(w.master, next.master)
  {
    PeriodRank(w, states, trained, next, 0);
    if Settled(w.master, next.master) {
      forall r | 0 <= r < |next.ranks|
        ensures SameTables(next.master, next.ranks[r])
        ensures next.ranks[r].progress == next.master.progress && next.ranks[r].ready == next.master.ready
      {
        PeriodRank(w, states, trained, next, r);
      }
    } else {
      assert !SameTables(next.master, next.ranks[0]);
    }
  }

  /** Syncs one after the other that failed on no rank. */
  ghost predicate Periods(worlds: seq<World>, runs: seq<seq<State>>, trained: seq<seq<State>>) {
    && worlds != [] && |runs| == |trained| == |worlds| - 1
    && forall k :: 0 <= k < |runs| ==> Period(worlds[k], runs[k], trained[k], worlds[k + 1])
  }

  /** Every rank has the master's runs, whatever came back where. */
  ghost predicate AllFollow(w: World) {
    && Sound(w.master) && w.synced == w.master.id2idx
    && forall r :: 0 <= r < |w.ranks| ==>
         Follows(w.synced, w.ranks[r]) && |w.ranks[r].scaling| == |w.master.scaling|
  }

  lemma PeriodFollows(w: World, states: seq<State>, trained: seq<State>, next: World)
    requires AllFollow(w) && Period(w, states, trained, next)
    ensures AllFollow(next)
  {
    MasterRunKeepsSound(states, |states| - 1);
    forall r | 0 <= r < |next.ranks|
      ensures Follows(next.synced, next.ranks[r]) && |next.ranks[r].scaling| == |next.master.scaling|
    {
      assert Trained(w.ranks[r], trained[r]);
      RankFollowsOn(w.synced, next.master, w.ranks[r], trained[r], next.ranks[r]);
    }
  }

  lemma RankFollowsOn(synced: map<RunId, nat>, after: State, rank: State, trained: State, next: State)
    requires Follows(synced, rank) && Valid(after) && |after.scaling| == |rank.scaling| && Trained(rank, trained)
    requires CaughtUp(trained, Published(after, synced), next)
    ensures Follows(after.id2idx, next) && |next.scaling| == |after.scaling|
  {
    KnownRunsStay(synced, after, trained, next);
  }

  lemma {:induction false} RanksFollow(worlds: seq<World>, runs: seq<seq<State>>, trained: seq<seq<State>>, k: nat)
    requires Periods(worlds, runs, trained) && Inv(worlds[0]) && k < |worlds|
    ensures AllFollow(worlds[k])
  {
    if k > 0 {
      RanksFollow(worlds, runs, trained, k - 1);
      assert Period(worlds[k - 1], runs[k - 1], trained[k - 1], worlds[k - 1 + 1]);
      PeriodFollows(worlds[k - 1], runs[k - 1], trained[k - 1], worlds[k]);
    } else {
      forall r | 0 <= r < |worlds[0].ranks| ensures Follows(worlds[0].synced, worlds[0].ranks[r]) {
        InStepFollows(worlds[0].master, worlds[0].ranks[r]);
      }
    }
  }

  /** In every history, whatever came back where: when the next sync fails on a rank. */
  lemma NextSyncFailsExactlyWhen(worlds: seq<World>, runs: seq<seq<State>>, trained: seq<seq<State>>,
                                 states: seq<State>, rank: State, r: nat)
    requires Periods(worlds, runs, trained) && Inv(worlds[0])
    requires var w := worlds[|worlds| - 1];
      MasterRun(states) && states[0] == w.master && r < |w.ranks| && Trained(w.ranks[r], rank)
    ensures var synced, after := worlds[|worlds| - 1].synced, states[|states| - 1];
      && Valid(after)
      && (!Applicable(rank, Published(after, synced)) <==>
            ProgressMissing(synced, after.id2idx, rank.id2idx) || SlotHeld(after.id2idx, rank.id2idx))
  {
    RanksFollow(worlds, runs, trained, |worlds| - 1);
    MasterRunKeepsSound(states, |states| - 1);
    SyncFailsExactlyWhen(worlds[|worlds| - 1].synced, states[|states| - 1], rank);
  }

  /** As long as no run leaves and comes back, no sync fails. */
  lemma StayingRunsNeverFail(w: World, states: seq<State>, rank: State, r: nat)
    requires Inv(w) && MasterRun(states) && states[0] == w.master && NobodyReturns(states)
    requires r < |w.ranks| && Trained(w.ranks[r], rank)
    ensures Valid(states[|states| - 1]) && Applicable(rank, Published(states[|states| - 1], w.synced))
  {
    var after := states[|states| - 1];
    MasterRunKeepsSound(states, |states| - 1);
    StayingRunsSettle(states);
    assert SameTables(w.master, w.ranks[r]) && SameTables(w.master, rank);
    RankFailsExactlyWhen(w.master, after, rank);
    forall run, moved | run in after.id2idx && moved in w.master.id2idx && moved in after.id2idx
                        && after.id2idx[run] == w.master.id2idx[moved]
      ensures run == moved
    {
      assert Kept(w.master, after, moved);
      assert after.idx2id[after.id2idx[run]] == run && after.idx2id[after.id2idx[moved]] == moved;
    }
  }

  /** Periods one after the other, in none of which a run leaves and comes back. */
  ghost predicate History(worlds: seq<World>, runs: seq<seq<State>>, trained: seq<seq<State>>) {
    Periods(worlds, runs, trained) && forall k :: 0 <= k < |runs| ==> runs[k] != [] && NobodyReturns(runs[k])
  }

  /** Over every history all ranks have the master's tables, progress and flags behind each sync. */
  lemma {:induction false} RanksStayInStep(worlds: seq<World>, runs: seq<seq<State>>, trained: seq<seq<State>>, k: nat)
    requires History(worlds, runs, trained) && Inv(worlds[0]) && k < |worlds|
    ensures Inv(worlds[k]) && (k > 0 ==> InStep(worlds[k]))
  {
    if k > 0 {
      RanksStayInStep(worlds, runs, trained, k - 1);
      var w, next := worlds[k - 1], worlds[k];
      assert Period(w, runs[k - 1], trained[k - 1], worlds[k - 1 + 1]) && NobodyReturns(runs[k - 1]);
      assert MasterRun(runs[k - 1]);
      StayingRunsSettle(runs[k - 1]);
      if w.ranks == [] {
        MasterRunKeepsSound(runs[k - 1], |runs[k - 1]| - 1);
      } else {
        SyncAgreesExactlyWhen(w, runs[k - 1], trained[k - 1], next);
      }
    }
  }

  /** A rank's factor differs from the master's exactly at slots of gone runs whose factor the master has set again. */
  lemma ScalingDiffersExactlyWhen(w: World, states: seq<State>, trained: seq<State>, next: World, r: nat, i: nat)
    requires Inv(w) && Period(w, states, trained, next) && r < |w.ranks| && i < |next.master.scaling|
    ensures |next.ranks[r].scaling| == |next.master.scaling|
    ensures next.ranks[r].scaling[i] != next.master.scaling[i] <==>
      HadSlot(w.master, GoneRuns(w.master, next.master), i) && next.master.scaling[i] != UNUSED_SCALING
    ensures next.ranks[r].scaling[i] != next.master.scaling[i] ==> i in next.master.idx2id
  {
    PeriodRank(w, states, trained, next, r);
    FactorDiffers(w.master, next.master, next.ranks[r], i);
  }

  lemma FactorDiffers(before: State, after: State, rank: State, i: nat)
    requires ScalingFrom(before, after, rank) && Sound(after) && i < |after.scaling|
    ensures rank.scaling[i] != after.scaling[i] <==>
      HadSlot(before, GoneRuns(before, after), i) && after.scaling[i] != UNUSED_SCALING
    ensures rank.scaling[i] != after.scaling[i] ==> i in after.idx2id
  {
    assert i in after.unused || i in after.idx2id;
  }

  /* ---------- Examples ---------- */

  function Table(slots: map<RunId, nat>, runs: map<nat, RunId>, unused: set<nat>, configs: map<nat, Config>,
                 scaling: seq<int>): State
  {
    State(slots, runs, unused, map i | i in configs :: configs[i].startStep, configs, [], scaling)
  }

  /** One slot with one run in it. */
  function OneRun(run: RunId, factor: int, shown: int): State {
    Table(map[run := 0], map[0 := run], {}, map[0 := Config(0, factor)], [shown])
  }

  function NoRun(): State {
    Table(map[], map[], {0}, map[], [UNUSED_SCALING])
  }

  /** A slot freed and taken again before the sync leaves the rank without the new run's factor. */
  lemma ReusedSlotLosesItsFactor()
    ensures var before, after, rank := OneRun(1, 5, 5), OneRun(2, 7, 7), OneRun(2, 7, UNUSED_SCALING);
      var w, next := World(before, before.id2idx, [before]), World(after, after.id2idx, [rank]);
      && Inv(w) && Period(w, [before, after], [before], next)
      && next.ranks[0].scaling[0] != next.master.scaling[0]
  {
    OneRunValid(1, 5, 5);
    OneRunValid(2, 7, 7);
    MasterReuses();
    RankFollowsReuse();
    OneStepPeriod(OneRun(1, 5, 5), OneRun(2, 7, 7), OneRun(2, 7, UNUSED_SCALING));
  }

  /** Master and one rank in step; the master takes one step, the rank none, then they sync. */
  lemma OneStepPeriod(before: State, after: State, rank: State)
    requires Sound(before) && Valid(after) && MasterStep(before, after)
    requires CaughtUp(before, Published(after, before.id2idx), rank)
    ensures var w, next := World(before, before.id2idx, [before]), World(after, after.id2idx, [rank]);
      Inv(w) && Period(w, [before, after], [before], next)
  {
    assert Trained(before, before);
  }

  lemma OneRunValid(run: RunId, factor: int, shown: int)
    ensures Valid(OneRun(run, factor, shown))
    ensures OneRun(run, factor, shown).id2idx == map[run := 0]
    ensures Marked(OneRun(run, factor, shown))
  {
  }

  lemma NoRunValid()
    ensures Valid(NoRun())
  {
  }

  /** Whoever is left with no run gets run 2. */
  lemma RunTwoCreated(configs: map<RunId, Config>, hook: bool)
    requires configs == map[2 := Config(0, 7)]
    ensures Created(NoRun(), map[2 := 0], configs, hook, OneRun(2, 7, if hook then 7 else UNUSED_SCALING))
  {
    assert OneRun(2, 7, if hook then 7 else UNUSED_SCALING).id2idx == NoRun().id2idx + map[2 := 0];
  }

  lemma RunOneDeleted(shown: int)
    ensures Deleted(OneRun(1, 5, shown), {1}, NoRun())
  {
    assert NoRun().id2idx == OneRun(1, 5, shown).id2idx - {1};
  }

  lemma MasterReuses()
    ensures MasterStep(OneRun(1, 5, 5), OneRun(2, 7, 7))
  {
    OneRunValid(1, 5, 5);
    NoRunValid();
    RunOneDeleted(5);
    RunTwoCreated(map[2 := Config(0, 7)], true);
    OneRunValid(2, 7, 7);
    OneForTwo(OneRun(1, 5, 5), NoRun(), map[2 := 0], map[2 := Config(0, 7)], OneRun(2, 7, 7));
  }

  /** Run 1 goes and run 2 comes. */
  lemma OneForTwo(before: State, mid: State, slots: map<RunId, nat>, configs: map<RunId, Config>, after: State)
    requires before.id2idx.Keys == {1} && slots.Keys == configs.Keys == {2} && Valid(mid) && Valid(after)
    requires Deleted(before, {1}, mid) && Created(mid, slots, configs, true, after)
    ensures MasterStep(before, after)
  {
    DiscoveryIsStep(before, {1}, {2}, configs, mid, slots, after);
  }

  lemma ReusePublished()
    ensures var data := Published(OneRun(2, 7, 7), OneRun(1, 5, 5).id2idx);
      && data.newConfigs == map[2 := Config(0, 7)]
      && GoneSlots(OneRun(1, 5, 5).id2idx, data.id2idx).Keys == {1}
      && NewSlots(OneRun(1, 5, 5).id2idx, data.id2idx) == map[2 := 0]
      && Copied(OneRun(1, 5, 5), data) == OneRun(1, 5, 7)
  {
  }

  lemma RankFollowsReuse()
    ensures CaughtUp(OneRun(1, 5, 5), Published(OneRun(2, 7, 7), OneRun(1, 5, 5).id2idx), OneRun(2, 7, UNUSED_SCALING))
  {
    ReusePublished();
    RunOneDeleted(7);
    RunTwoCreated(map[2 := Config(0, 7)], false);
    OneRunValid(2, 7, UNUSED_SCALING);
    CaughtUpBy(OneRun(1, 5, 5), Published(OneRun(2, 7, 7), OneRun(1, 5, 5).id2idx), {1}, NoRun(), map[2 := 0],
               OneRun(2, 7, UNUSED_SCALING));
  }

  /** Run 1 alone in the first of two slots, nobody, and run 1 back behind run 2. */
  function Alone(): State {
    Table(map[1 := 0], map[0 := 1], {1}, map[0 := Config(0, 5)], [5, UNUSED_SCALING])
  }

  function Nobody(): State {
    Table(map[], map[], {0, 1}, map[], [UNUSED_SCALING, UNUSED_SCALING])
  }

  function Behind(): State {
    Table(map[2 := 0, 1 := 1], map[0 := 2, 1 := 1], {}, map[0 := Config(0, 7), 1 := Config(0, 5)], [7, 5])
  }

  /** Run 1 back behind run 2, which is gone again. */
  function Moved(): State {
    Table(map[1 := 1], map[1 := 1], {0}, map[1 := Config(0, 5)], [UNUSED_SCALING, 5])
  }

  /** A rank that followed from Alone to Moved: run 1 in its old slot, progress for the new one. */
  function Misplaced(): State {
    Alone().(scaling := Moved().scaling, progress := Moved().progress)
  }

  /** A run can come back in another slot with its own given to a new run: the sync fails. */
  lemma ReturningRunCannotBeFollowed()
    ensures SameTables(Alone(), Alone()) && MasterRun([Alone(), Nobody(), Behind()])
    ensures !Applicable(Alone(), Published(Behind(), Alone().id2idx))
  {
    RunOneLeaves();
    RunOneReturns();
    TwoSteps(Alone(), Nobody(), Behind());
    NewRunInOldSlot(Alone(), Behind(), 2, 1);
  }

  lemma NewRunInOldSlot(before: State, after: State, run: RunId, moved: RunId)
    requires SameTables(before, before) && Valid(after) && |after.scaling| == |before.scaling|
    requires run in after.id2idx && run !in before.id2idx && moved in before.id2idx && moved in after.id2idx
    requires after.id2idx[run] == before.id2idx[moved]
    ensures !Applicable(before, Published(after, before.id2idx))
  {
    RankFailsExactlyWhen(before, after, before);
  }

  /** With the new run gone again nothing fails: the rank keeps run 1 in slot 0 and has its progress in slot 1. */
  lemma MovedRunIsFollowedWrongly()
    ensures MasterRun([Alone(), Nobody(), Behind(), Moved()]) && Valid(Moved())
    ensures Applicable(Alone(), Published(Moved(), Alone().id2idx))
    ensures CaughtUp(Alone(), Published(Moved(), Alone().id2idx), Misplaced())
    ensures Misplaced().id2idx == map[1 := 0] && Moved().id2idx == map[1 := 1] && Misplaced().progress.Keys == {1}
  {
    MovesAndLeaves();
    AloneAndMoved();
    NobodyNewOrGone(Alone(), Moved());
  }

  lemma MovesAndLeaves()
    ensures MasterRun([Alone(), Nobody(), Behind(), Moved()])
  {
    RunOneLeaves();
    RunOneReturns();
    RunTwoLeaves();
    ThreeSteps(Alone(), Nobody(), Behind(), Moved());
  }

  lemma AloneAndMoved()
    ensures SameTables(Alone(), Alone()) && Valid(Moved())
    ensures |Alone().scaling| == |Moved().scaling| && Alone().ready == Moved().ready
    ensures Alone().id2idx == map[1 := 0] && Moved().id2idx == map[1 := 1] && Moved().progress.Keys == {1}
  {
    AloneDeleted();
    MovedIsValid();
  }

  /** The next discovery that finds run 1 gone makes the sync fail on that rank: slot 0 has no progress. */
  lemma MisplacedRunCannotBeForgotten()
    ensures MasterStep(Moved(), Nobody()) && Valid(Nobody())
    ensures !Applicable(Misplaced(), Published(Nobody(), Moved().id2idx))
  {
    MovedLeaves();
    assert Misplaced().id2idx == map[1 := 0] && Misplaced().progress.Keys == {1};
    LostRun(Misplaced(), Published(Nobody(), Moved().id2idx), 1);
  }

  lemma LostRun(rank: State, data: SyncData, run: RunId)
    requires run in rank.id2idx && run !in data.id2idx && rank.id2idx[run] !in rank.progress
    ensures !Applicable(rank, data)
  {
    assert run in GoneSlots(rank.id2idx, data.id2idx).Keys;
  }

  /** With nobody new and nobody gone a rank only takes over factors, flags and progress. */
  lemma NobodyNewOrGone(before: State, after: State)
    requires SameTables(before, before) && Valid(after) && |after.scaling| == |before.scaling|
    requires after.id2idx.Keys == before.id2idx.Keys && after.ready == before.ready
    ensures Applicable(before, Published(after, before.id2idx))
    ensures CaughtUp(before, Published(after, before.id2idx),
                     before.(scaling := after.scaling, progress := after.progress))
  {
    RankFailsExactlyWhen(before, after, before);
    NothingToDo(before, Published(after, before.id2idx));
  }

  lemma NothingToDo(rank: State, data: SyncData)
    requires Tables(rank) && |data.scaling| == |rank.scaling| && data.id2idx.Keys == rank.id2idx.Keys
    requires data.ready == rank.ready
    ensures CaughtUp(rank, data, rank.(scaling := data.scaling, progress := data.progress))
  {
    var copied := Copied(rank, data);
    assert GoneSlots(rank.id2idx, data.id2idx).Keys == {};
    assert NewSlots(rank.id2idx, data.id2idx) == map[];
    NothingDeleted(copied);
    NothingCreated(copied, data.newConfigs, false);
    CaughtUpBy(rank, data, {}, copied, map[], copied);
  }

  lemma NothingDeleted(s: State)
    requires Tables(s)
    ensures Deleted(s, {}, s)
  {
    assert s.id2idx == s.id2idx - {};
  }

  lemma ThreeSteps(a: State, b: State, c: State, d: State)
    requires MasterStep(a, b) && MasterStep(b, c) && MasterStep(c, d)
    ensures MasterRun([a, b, c, d])
  {
    var states := [a, b, c, d];
    forall k | 0 <= k < |states| - 1 ensures MasterStep(states[k], states[k + 1]) {
      assert k == 0 || k == 1 || k == 2;
    }
  }

  lemma MovedIsValid()
    ensures Valid(Moved()) && Moved().id2idx == map[1 := 1] && Moved().progress.Keys == {1}
  {
  }

  lemma BehindDeleted()
    ensures Deleted(Behind(), {2}, Moved())
  {
    assert Moved().id2idx == Behind().id2idx - {2};
  }

  lemma RunTwoLeaves()
    ensures Valid(Moved()) && MasterStep(Behind(), Moved())
  {
    BehindIsValid();
    MovedIsValid();
    BehindDeleted();
    NothingCreated(Moved(), map[], true);
    DiscoveryIsStep(Behind(), {2}, {1}, map[], Moved(), map[], Moved());
  }

  lemma MovedDeleted()
    ensures Deleted(Moved(), {1}, Nobody())
  {
    assert Nobody().id2idx == Moved().id2idx - {1};
  }

  lemma MovedLeaves()
    ensures Valid(Nobody()) && MasterStep(Moved(), Nobody())
  {
    var nobody: set<RunId> := {};
    MovedIsValid();
    BehindIsValid();
    MovedDeleted();
    NothingCreated(Nobody(), map[], true);
    DiscoveryIsStep(Moved(), {1}, nobody, map[], Nobody(), map[], Nobody());
  }

  lemma TwoSteps(a: State, b: State, c: State)
    requires MasterStep(a, b) && MasterStep(b, c)
    ensures MasterRun([a, b, c])
  {
    var states := [a, b, c];
    forall k | 0 <= k < |states| - 1 ensures MasterStep(states[k], states[k + 1]) {
      assert k == 0 || k == 1;
    }
  }

  lemma RunOneLeaves()
    ensures Sound(Alone()) && Valid(Nobody()) && MasterStep(Alone(), Nobody())
  {
    var nobody: set<RunId> := {};
    AloneDeleted();
    BehindIsValid();
    NothingCreated(Nobody(), map[], true);
    DiscoveryIsStep(Alone(), {1}, nobody, map[], Nobody(), map[], Nobody());
  }

  lemma DiscoveryIsStep(before: State, gone: set<RunId>, runIds: set<RunId>, configs: map<RunId, Config>, mid: State,
                        slots: map<RunId, nat>, after: State)
    requires gone == before.id2idx.Keys - runIds && Valid(mid) && Valid(after)
    requires Deleted(before, gone, mid) && Created(mid, slots, configs, true, after)
    requires slots.Keys == runIds - before.id2idx.Keys && configs.Keys == slots.Keys
    ensures MasterStep(before, after)
  {
    assert (runIds - before.id2idx.Keys) * configs.Keys == slots.Keys;
    assert DiscoveredVia(before, runIds, configs, mid, slots, after);
    assert Discovered(before, runIds, configs, after);
  }

  lemma RunOneReturns()
    ensures Valid(Behind()) && Behind().id2idx == map[2 := 0, 1 := 1] && MasterStep(Nobody(), Behind())
  {
    var configs := map[1 := Config(0, 5), 2 := Config(0, 7)];
    BehindIsValid();
    BehindCreated(configs);
    NobodyDeleted();
    DiscoveryIsStep(Nobody(), {}, {1, 2}, configs, Nobody(), map[2 := 0, 1 := 1], Behind());
  }

  lemma BehindIsValid()
    ensures Valid(Behind()) && Valid(Nobody()) && Nobody().id2idx == map[]
    ensures Behind().id2idx == map[2 := 0, 1 := 1]
  {
  }

  lemma AloneDeleted()
    ensures Sound(Alone()) && Alone().id2idx == map[1 := 0] && Deleted(Alone(), {1}, Nobody())
  {
    assert Nobody().id2idx == Alone().id2idx - {1};
  }

  lemma NobodyDeleted()
    ensures Deleted(Nobody(), {}, Nobody())
  {
    assert Nobody().id2idx == Nobody().id2idx - {};
  }

  lemma BehindCreated(configs: map<RunId, Config>)
    requires configs == map[1 := Config(0, 5), 2 := Config(0, 7)]
    ensures Created(Nobody(), map[2 := 0, 1 := 1], configs, true, Behind())
  {
    assert Behind().id2idx == Nobody().id2idx + map[2 := 0, 1 := 1];
  }
}
