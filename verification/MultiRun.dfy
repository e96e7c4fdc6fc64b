/**
 Runs that share one trainer: which slot each run has, on the master that discovers them and on the
 ranks that catch up. Configurations and run directories come from the file system. Sets are visited
 in any order, so an operation is described by a relation between the states around it.
 */
module MultiRun {
  import opened Wrappers

  /** Runs by number. */
  type RunId = int

  /** Start step and scaling factor a run's configuration asks for. */
  datatype Config = Config(startStep: int, scaling: int)

  /** Scaling factor of a slot that was freed. */
  const UNUSED_SCALING := 1000000

  datatype State = State(
    id2idx: map<RunId, nat>,
    idx2id: map<nat, RunId>,
    unused: set<nat>,
    progress: map<nat, int>,
    config: map<nat, Config>,
    ready: seq<bool>,
    scaling: seq<int>)

  /** The two maps are inverse, every slot is either used or unused, and every run in a slot has a configuration. */
  ghost predicate Tables(s: State) {
    && (forall run :: run in s.id2idx ==> s.id2idx[run] in s.idx2id && s.idx2id[s.id2idx[run]] == run)
    && (forall i :: i in s.idx2id ==> s.idx2id[i] in s.id2idx && s.id2idx[s.idx2id[i]] == i)
    && (forall i :: i in s.idx2id ==> i < |s.scaling|)
    && (forall i :: i in s.unused <==> 0 <= i < |s.scaling| && i !in s.idx2id)
    && s.config.Keys == s.idx2id.Keys
  }

  /** Exactly the runs in slots have progress, too: true of the master, and of a rank that has its slots. */
  ghost predicate Valid(s: State) {
    Tables(s) && s.progress.Keys == s.idx2id.Keys
  }

  function Slots(n: nat): (slots: set<nat>)
    ensures forall i :: i in slots <==> 0 <= i < n
  {
    if n == 0 then {} else Slots(n - 1) + {n - 1}
  }

  /* ---------- Deleting and creating ---------- */

  function DeleteOne(s: State, run: RunId): State
    requires run in s.id2idx && s.id2idx[run] < |s.scaling|
  {
    var i := s.id2idx[run];
    State(s.id2idx - {run}, s.idx2id - {i}, s.unused + {i}, s.progress - {i}, s.config - {i}, s.ready,
          s.scaling[i := UNUSED_SCALING])
  }

  function CreateOne(s: State, run: RunId, i: nat, config: Config): State {
    State(s.id2idx[run := i], s.idx2id[i := run], s.unused - {i}, s.progress[i := config.startStep],
          s.config[i := config], s.ready, s.scaling)
  }

  /** The master sets the scaling of a run it creates; other ranks do not. */
  function Hooked(s: State, i: nat, config: Config, hook: bool): State
    requires i < |s.scaling|
  {
    if hook then s.(scaling := s.scaling[i := config.scaling]) else s
  }

  predicate HadSlot(s: State, runs: set<RunId>, i: nat) {
    i in s.idx2id && s.idx2id[i] in runs
  }

  ghost predicate SameData(before: State, after: State, i: nat) {
    && i in before.config && i in after.config && after.config[i] == before.config[i]
    && (i in after.progress <==> i in before.progress)
    && (i in before.progress ==> after.progress[i] == before.progress[i])
  }

  ghost predicate HasData(s: State, i: nat, c: Config) {
    i in s.config && i in s.progress && s.config[i] == c && s.progress[i] == c.startStep
  }

  ghost predicate SameSize(before: State, after: State) {
    |after.scaling| == |before.scaling| && after.ready == before.ready
  }

  /** Exactly `runs` are gone: their slots are marked, all others are as before. */
  ghost predicate Deleted(before: State, runs: set<RunId>, after: State) {
    && SameSize(before, after)
    && after.id2idx == before.id2idx - runs
    && DeletedScaling(before, runs, after)
    && (forall i :: i in after.idx2id ==> SameData(before, after, i))
  }

  ghost predicate DeletedScaling(before: State, runs: set<RunId>, after: State)
    requires |after.scaling| == |before.scaling|
  {
    forall i {:trigger after.scaling[i]} :: 0 <= i < |after.scaling| ==>
      after.scaling[i] == if HadSlot(before, runs, i) then UNUSED_SCALING else before.scaling[i]
  }

  /** Exactly the runs of `slots` are new; on the master the discovery hook also sets their scaling. */
  ghost predicate Created(before: State, slots: map<RunId, nat>, configs: map<RunId, Config>, hook: bool,
                          after: State) {
    && SameSize(before, after) && slots.Keys <= configs.Keys
    && after.id2idx == before.id2idx + slots
    && CreatedScaling(before, slots, configs, hook, after)
    && CreatedData(before, slots, configs, after)
  }

  ghost predicate CreatedScaling(before: State, slots: map<RunId, nat>, configs: map<RunId, Config>, hook: bool,
                                 after: State)
    requires |after.scaling| == |before.scaling| && slots.Keys <= configs.Keys
  {
    forall i {:trigger after.scaling[i]} :: 0 <= i < |after.scaling| ==>
      after.scaling[i] == if hook && HadSlot(after, slots.Keys, i) then configs[after.idx2id[i]].scaling
                          else before.scaling[i]
  }

  ghost predicate CreatedData(before: State, slots: map<RunId, nat>, configs: map<RunId, Config>, after: State)
    requires slots.Keys <= configs.Keys
  {
    forall i :: i in after.idx2id ==>
      if after.idx2id[i] in slots then HasData(after, i, configs[after.idx2id[i]]) else SameData(before, after, i)
  }

  lemma DeleteOneValid(s: State, run: RunId)
    requires Tables(s) && run in s.id2idx
    ensures Tables(DeleteOne(s, run)) && (Valid(s) ==> Valid(DeleteOne(s, run)))
  {
  }

  lemma DeletedNext(before: State, runs: set<RunId>, mid: State, run: RunId)
    requires Tables(before) && Deleted(before, runs, mid) && run in mid.id2idx && mid.id2idx[run] < |mid.scaling|
    ensures Deleted(before, runs + {run}, DeleteOne(mid, run))
  {
    var after := DeleteOne(mid, run);
    assert before.id2idx[run] == mid.id2idx[run];
    forall i | 0 <= i < |after.scaling|
      ensures after.scaling[i] == if HadSlot(before, runs + {run}, i) then UNUSED_SCALING else before.scaling[i]
    {
      assert i == mid.id2idx[run] <==> i in before.idx2id && before.idx2id[i] == run;
    }
  }

  lemma SameProgress(before: State, runs: set<RunId>, mid: State, run: RunId)
    requires Tables(before) && Tables(mid) && Deleted(before, runs, mid) && run in mid.id2idx
    ensures run in before.id2idx && mid.id2idx[run] == before.id2idx[run]
    ensures mid.id2idx[run] in mid.progress <==> before.id2idx[run] in before.progress
  {
    assert mid.id2idx[run] in mid.idx2id;
  }

  /** Slot i and the run are strangers to every table. */
  ghost predicate Strangers(s: State, run: RunId, i: nat) {
    && run !in s.id2idx && i < |s.scaling| && i !in s.idx2id
    && forall k :: k in s.idx2id ==> s.idx2id[k] != run
  }

  lemma NoSlotYet(s: State, run: RunId, i: nat)
    requires Tables(s) && run !in s.id2idx && i in s.unused
    ensures Strangers(s, run, i)
  {
  }

  lemma CreateOneValid(s: State, run: RunId, i: nat, c: Config, hook: bool)
    requires Tables(s) && Strangers(s, run, i)
    ensures Tables(Hooked(CreateOne(s, run, i, c), i, c, hook))
    ensures Valid(s) ==> Valid(Hooked(CreateOne(s, run, i, c), i, c, hook))
  {
  }

  lemma CreatedNext(before: State, slots: map<RunId, nat>, configs: map<RunId, Config>, hook: bool, mid: State,
                    run: RunId, i: nat)
    requires Created(before, slots, configs, hook, mid) && Strangers(mid, run, i) && run in configs
    ensures Created(before, slots[run := i], configs, hook,
                    Hooked(CreateOne(mid, run, i, configs[run]), i, configs[run], hook))
  {
    var after := Hooked(CreateOne(mid, run, i, configs[run]), i, configs[run], hook);
    OneMoreRun(before.id2idx, slots, run, i);
    NextScaling(before, slots, configs, hook, mid, after, run, i);
    NextData(before, slots, configs, mid, after, run, i);
  }

  lemma OneMoreRun(before: map<RunId, nat>, slots: map<RunId, nat>, run: RunId, i: nat)
    ensures before + slots[run := i] == (before + slots)[run := i]
  {
  }

  lemma NextScaling(before: State, slots: map<RunId, nat>, configs: map<RunId, Config>, hook: bool, mid: State,
                    after: State, run: RunId, i: nat)
    requires |mid.scaling| == |before.scaling| && slots.Keys <= configs.Keys && run in configs
    requires CreatedScaling(before, slots, configs, hook, mid) && Strangers(mid, run, i)
    requires after.idx2id == mid.idx2id[i := run]
    requires after.scaling == if hook then mid.scaling[i := configs[run].scaling] else mid.scaling
    ensures CreatedScaling(before, slots[run := i], configs, hook, after)
  {
  }

  lemma NextData(before: State, slots: map<RunId, nat>, configs: map<RunId, Config>, mid: State, after: State,
                 run: RunId, i: nat)
    requires slots.Keys <= configs.Keys && CreatedData(before, slots, configs, mid)
    requires run in configs && Strangers(mid, run, i)
    requires after.idx2id == mid.idx2id[i := run] && after.config == mid.config[i := configs[run]]
    requires after.progress == mid.progress[i := configs[run].startStep]
    ensures CreatedData(before, slots[run := i], configs, after)
  {
    forall k | k in after.idx2id
      ensures if after.idx2id[k] in slots[run := i] then HasData(after, k, configs[after.idx2id[k]])
              else SameData(before, after, k)
    {
      if k != i {
        assert after.idx2id[k] == mid.idx2id[k];
        assert if mid.idx2id[k] in slots then HasData(mid, k, configs[mid.idx2id[k]]) else SameData(before, mid, k);
      }
    }
  }

  /* ---------- Discovery and catching up ---------- */

  /** Runs whose directory is gone are forgotten; new ones with a valid configuration get a slot while there is one. */
  ghost predicate Discovered(before: State, runIds: set<RunId>, configs: map<RunId, Config>, after: State) {
    exists mid, slots :: DiscoveredVia(before, runIds, configs, mid, slots, after)
  }

  ghost predicate DiscoveredVia(before: State, runIds: set<RunId>, configs: map<RunId, Config>, mid: State,
                                slots: map<RunId, nat>, after: State) {
    && Valid(mid) && Valid(after)
    && Deleted(before, before.id2idx.Keys - runIds, mid)
    && Created(mid, slots, configs, true, after)
    && slots.Keys <= runIds - before.id2idx.Keys
    && (slots.Keys == (runIds - before.id2idx.Keys) * configs.Keys || after.unused == {})
  }

  datatype SyncData = SyncData(id2idx: map<RunId, nat>, ready: seq<bool>, scaling: seq<int>,
                               newConfigs: map<RunId, Config>, progress: map<nat, int>)

  function NewSlots(before: map<RunId, nat>, after: map<RunId, nat>): map<RunId, nat> {
    after - before.Keys
  }

  function GoneSlots(before: map<RunId, nat>, after: map<RunId, nat>): map<RunId, nat> {
    before - after.Keys
  }

  /** What is copied before any run is touched. */
  function Copied(s: State, data: SyncData): State {
    s.(ready := data.ready, scaling := data.scaling)
  }

  /** Flags and scaling are copied first, then come deletions and creations, then the master's progress. */
  ghost predicate CaughtUp(before: State, data: SyncData, after: State) {
    exists deleted, created :: CaughtUpVia(before, data, deleted, created, after)
  }

  ghost predicate CaughtUpVia(before: State, data: SyncData, deleted: State, created: State, after: State) {
    && Tables(deleted) && Tables(created)
    && Deleted(Copied(before, data), GoneSlots(before.id2idx, data.id2idx).Keys, deleted)
    && Created(deleted, NewSlots(before.id2idx, data.id2idx), data.newConfigs, false, created)
    && after == created.(progress := data.progress)
  }

  lemma CaughtUpBy(before: State, data: SyncData, gone: set<RunId>, deleted: State, made: map<RunId, nat>,
                   created: State)
    requires gone == GoneSlots(before.id2idx, data.id2idx).Keys && made == NewSlots(before.id2idx, data.id2idx)
    requires Tables(deleted) && Tables(created)
    requires Deleted(Copied(before, data), gone, deleted)
    requires Created(deleted, made, data.newConfigs, false, created)
    ensures CaughtUp(before, data, created.(progress := data.progress))
  {
    assert CaughtUpVia(before, data, deleted, created, created.(progress := data.progress));
  }

  /** No run that is in both tables has another slot. */
  ghost predicate Unmoved(before: map<RunId, nat>, after: map<RunId, nat>) {
    forall run :: run in before && run in after ==> after[run] == before[run]
  }

  /** Forgetting a run takes its progress away, which fails when there is none. */
  predicate Deletable(s: State, runs: set<RunId>) {
    forall run :: run in runs && run in s.id2idx ==> s.id2idx[run] in s.progress
  }

  /** Slots the runs leave behind. */
  function Freed(s: State, runs: set<RunId>): set<nat> {
    set run | run in runs && run in s.id2idx :: s.id2idx[run]
  }

  /** Each run of `slots` gets a slot of its own among `free`. */
  ghost predicate PlaceableIn(free: set<nat>, slots: map<RunId, nat>) {
    && (forall run :: run in slots ==> slots[run] in free)
    && (forall a, b :: a in slots && b in slots && slots[a] == slots[b] ==> a == b)
  }

  /**
   A rank gets through a sync: it can forget the gone runs, and each new one comes with a configuration and a slot
   that is unused once the gone ones are forgotten. Slots of runs it knows are not looked at.
   */
  ghost predicate Applicable(s: State, data: SyncData) {
    var gone, made := GoneSlots(s.id2idx, data.id2idx), NewSlots(s.id2idx, data.id2idx);
    && Deletable(s, gone.Keys)
    && made.Keys <= data.newConfigs.Keys
    && PlaceableIn(s.unused + Freed(s, gone.Keys), made)
  }

  /** A creation is the reset of the slot's parameters and the creation hooks. */
  datatype HookCall = Deletion(idx: nat, run: RunId) | Creation(idx: nat, run: RunId)

  /** One call a run. */
  ghost predicate OneCallEach(calls: seq<HookCall>, slots: map<RunId, nat>, deletion: bool) {
    && |calls| == |slots|
    && (forall k :: 0 <= k < |calls| ==>
          calls[k].Deletion? == deletion && calls[k].run in slots && slots[calls[k].run] == calls[k].idx)
    && (forall j, k :: 0 <= j < k < |calls| ==> calls[j].run != calls[k].run)
  }

  /** Every deletion hook once, then every creation hook once. */
  ghost predicate Hooks(calls: seq<HookCall>, gone: map<RunId, nat>, made: map<RunId, nat>) {
    |calls| >= |gone| && OneCallEach(calls[..|gone|], gone, true) && OneCallEach(calls[|gone|..], made, false)
  }

  /** The runs of `todo` can be given their slots. */
  ghost predicate Placeable(s: State, slots: map<RunId, nat>, todo: set<RunId>) {
    && todo <= slots.Keys
    && (forall run :: run in todo ==> run !in s.id2idx && slots[run] in s.unused)
    && (forall a, b :: a in todo && b in todo && slots[a] == slots[b] ==> a == b)
  }

  lemma NothingCreated(s: State, configs: map<RunId, Config>, hook: bool)
    requires Tables(s)
    ensures Created(s, map[], configs, hook, s)
  {
    assert s.id2idx + map[] == s.id2idx;
  }

  /** Forgetting runs frees exactly their slots. */
  lemma ForgettingFrees(before: State, runs: set<RunId>, mid: State)
    requires Tables(before) && Tables(mid) && |mid.scaling| == |before.scaling| && mid.id2idx == before.id2idx - runs
    ensures mid.unused == before.unused + Freed(before, runs)
  {
    forall i ensures i in mid.unused <==> i in before.unused || i in Freed(before, runs) {
      if 0 <= i < |mid.scaling| {
        StillUsed(before, runs, mid, i);
        FreedExactly(before, runs, i);
      }
    }
  }

  lemma StillUsed(before: State, runs: set<RunId>, mid: State, i: nat)
    requires Tables(before) && Tables(mid) && mid.id2idx == before.id2idx - runs
    ensures i in mid.idx2id <==> i in before.idx2id && before.idx2id[i] !in runs
  {
    if i in mid.idx2id {
      var run := mid.idx2id[i];
      assert mid.id2idx[run] == i && before.id2idx[run] == i;
      assert before.idx2id[before.id2idx[run]] == run;
    }
    if i in before.idx2id && before.idx2id[i] !in runs {
      var run := before.idx2id[i];
      assert run in before.id2idx && before.id2idx[run] == i;
      assert run in mid.id2idx && mid.id2idx[run] == i;
    }
  }

  lemma FreedExactly(s: State, runs: set<RunId>, i: nat)
    requires Tables(s)
    ensures i in Freed(s, runs) <==> i in s.idx2id && s.idx2id[i] in runs
  {
    if i in Freed(s, runs) {
      var run :| run in runs && run in s.id2idx && s.id2idx[run] == i;
      assert s.idx2id[s.id2idx[run]] == run;
    }
    if i in s.idx2id && s.idx2id[i] in runs {
      var run := s.idx2id[i];
      assert run in runs && run in s.id2idx && s.id2idx[run] == i;
    }
  }

  /** With the gone runs forgotten, the new ones can be placed exactly when the sync is applicable. */
  lemma PlaceableAfterForgetting(s: State, gone: set<RunId>, mid: State, made: map<RunId, nat>)
    requires Tables(s) && Tables(mid) && |mid.scaling| == |s.scaling| && mid.id2idx == s.id2idx - gone
    requires made.Keys !! s.id2idx.Keys
    ensures Placeable(mid, made, made.Keys) <==> PlaceableIn(s.unused + Freed(s, gone), made)
  {
    ForgettingFrees(s, gone, mid);
  }

  lemma CopyKeepsTables(s: State, data: SyncData)
    requires Tables(s) && |data.scaling| == |s.scaling|
    ensures Tables(Copied(s, data))
  {
  }

  /** Once the gone runs are forgotten, applying the sync comes down to creating the new ones. */
  lemma RestExactlyWhen(s: State, data: SyncData, mid: State)
    requires Tables(s) && Tables(mid) && |mid.scaling| == |s.scaling|
    requires Deletable(s, GoneSlots(s.id2idx, data.id2idx).Keys)
    requires mid.id2idx == s.id2idx - GoneSlots(s.id2idx, data.id2idx).Keys
    ensures var made := NewSlots(s.id2idx, data.id2idx);
      && made.Keys !! mid.id2idx.Keys
      && (Applicable(s, data) <==> Creatable(mid, made, data.newConfigs, made.Keys))
  {
    PlaceableAfterForgetting(s, GoneSlots(s.id2idx, data.id2idx).Keys, mid, NewSlots(s.id2idx, data.id2idx));
  }

  /** Half way through creating: the runs of `todo` are still to come, and all can come exactly when these can. */
  ghost predicate Creating(before: State, slots: map<RunId, nat>, configs: map<RunId, Config>, todo: set<RunId>,
                           now: State) {
    && Tables(now) && todo <= slots.Keys && todo !! now.id2idx.Keys && slots.Keys - todo <= configs.Keys
    && Created(before, slots - todo, configs, false, now)
    && (Creatable(before, slots, configs, slots.Keys) <==> Creatable(now, slots, configs, todo))
  }

  ghost predicate Creatable(s: State, slots: map<RunId, nat>, configs: map<RunId, Config>, todo: set<RunId>) {
    todo <= configs.Keys && Placeable(s, slots, todo)
  }

  lemma CreatingNext(before: State, slots: map<RunId, nat>, configs: map<RunId, Config>, todo: set<RunId>, now: State,
                     run: RunId)
    requires Creating(before, slots, configs, todo, now) && run in todo && run in configs && slots[run] in now.unused
    ensures Creating(before, slots, configs, todo - {run}, CreateOne(now, run, slots[run], configs[run]))
  {
    var next := CreateOne(now, run, slots[run], configs[run]);
    NoSlotYet(now, run, slots[run]);
    CreateOneValid(now, run, slots[run], configs[run], false);
    CreatedNext(before, slots - todo, configs, false, now, run, slots[run]);
    OneLessToDo(slots, todo, run);
    StillPlaceable(now, slots, todo, run, configs[run]);
    assert todo <= configs.Keys <==> todo - {run} <= configs.Keys;
  }

  lemma OneLessToDo(slots: map<RunId, nat>, todo: set<RunId>, run: RunId)
    requires run in todo && run in slots
    ensures (slots - todo)[run := slots[run]] == slots - (todo - {run})
  {
  }

  /** Placing one run leaves the others placeable exactly when all were. */
  lemma StillPlaceable(s: State, slots: map<RunId, nat>, todo: set<RunId>, run: RunId, c: Config)
    requires todo <= slots.Keys && run in todo && run !in s.id2idx && slots[run] in s.unused
    ensures Placeable(s, slots, todo) <==> Placeable(CreateOne(s, run, slots[run], c), slots, todo - {run})
  {
    var next := CreateOne(s, run, slots[run], c);
    if Placeable(next, slots, todo - {run}) {
      forall a | a in todo && slots[a] == slots[run] ensures a == run {
        assert slots[run] !in next.unused;
      }
    }
  }

  /** Half way through adopting discovered runs. */
  ghost predicate Adopting(before: State, slots: map<RunId, nat>, configs: map<RunId, Config>, newRuns: set<RunId>,
                           todo: set<RunId>, now: State) {
    && Valid(now) && todo <= newRuns && todo !! now.id2idx.Keys
    && slots.Keys <= newRuns - todo && (slots.Keys == (newRuns - todo) * configs.Keys || now.unused == {})
    && Created(before, slots, configs, true, now)
  }

  lemma AdoptingNext(before: State, slots: map<RunId, nat>, configs: map<RunId, Config>, newRuns: set<RunId>,
                     todo: set<RunId>, now: State, run: RunId, i: nat)
    requires Adopting(before, slots, configs, newRuns, todo, now)
    requires run in todo && run in configs && i in now.unused
    ensures i < |now.scaling|
    ensures Adopting(before, slots[run := i], configs, newRuns, todo - {run},
                     Hooked(CreateOne(now, run, i, configs[run]), i, configs[run], true))
  {
    NoSlotYet(now, run, i);
    CreateOneValid(now, run, i, configs[run], true);
    CreatedNext(before, slots, configs, true, now, run, i);
    OneRunDone(newRuns, todo, run);
  }

  lemma OneRunDone(newRuns: set<RunId>, todo: set<RunId>, run: RunId)
    requires run in todo && todo <= newRuns
    ensures newRuns - (todo - {run}) == newRuns - todo + {run}
  {
  }

  lemma AdoptingSkips(before: State, slots: map<RunId, nat>, configs: map<RunId, Config>, newRuns: set<RunId>,
                      todo: set<RunId>, now: State, run: RunId)
    requires Adopting(before, slots, configs, newRuns, todo, now)
    requires run in todo && (run !in configs || now.unused == {})
    ensures Adopting(before, slots, configs, newRuns, todo - {run}, now)
  {
    OneRunDone(newRuns, todo, run);
  }

  /* ---------- The code ---------- */

  class RunManager {
    var id2idx: map<RunId, nat>
    var idx2id: map<nat, RunId>
    var unused: set<nat>
    var progress: map<nat, int>
    var config: map<nat, Config>
    var readyToUpdate: seq<bool>
    var scaling: seq<int>
    var lastSynced: map<RunId, nat>

    function View(): State
      reads this
    {
      State(id2idx, idx2id, unused, progress, config, readyToUpdate, scaling)
    }

    constructor (maxRuns: nat)
      ensures Valid(View()) && id2idx == map[] && lastSynced == map[]
      ensures scaling == Repeat(UNUSED_SCALING, maxRuns) && readyToUpdate == Repeat(false, maxRuns)
    {
      id2idx, idx2id, progress, config, lastSynced := map[], map[], map[], map[], map[];
      unused := Slots(maxRuns);
      scaling := Repeat(UNUSED_SCALING, maxRuns);
      readyToUpdate := Repeat(false, maxRuns);
    }

    /** The run is entered before its slot is taken out of the unused ones, which fails when it is not among them. */
    method CreateRunData(run: RunId, i: nat, c: Config) returns (ok: bool)
      modifies this`id2idx, this`idx2id, this`unused, this`progress, this`config
      ensures ok <==> i in old(unused)
      ensures View() == if ok then CreateOne(old(View()), run, i, c)
                        else old(View()).(id2idx := old(id2idx)[run := i])
    {
      id2idx := id2idx[run := i];
      if i !in unused {
        return false;
      }
      unused := unused - {i};
      idx2id := idx2id[i := run];
      progress := progress[i := c.startStep];
      config := config[i := c];
      ok := true;
    }

    /** Fails, with nothing changed, when the slot has no progress. */
    method DeleteRunData(run: RunId, i: nat) returns (ok: bool)
      requires Tables(View()) && run in id2idx && i == id2idx[run]
      modifies this`id2idx, this`idx2id, this`unused, this`progress, this`config, this`scaling
      ensures ok <==> i in old(progress)
      ensures View() == if ok then DeleteOne(old(View()), run) else old(View())
      ensures Tables(View()) && (Valid(old(View())) ==> Valid(View()))
    {
      if i !in progress {
        return false;
      }
      DeleteOneValid(View(), run);
      progress := progress - {i};
      config := config - {i};
      scaling := scaling[i := UNUSED_SCALING];
      unused := unused + {i};
      idx2id := idx2id - {i};
      id2idx := id2idx - {run};
      ok := true;
    }

    method DeleteRuns(runs: set<RunId>) returns (ok: bool)
      requires Tables(View()) && runs <= id2idx.Keys
      modifies this`id2idx, this`idx2id, this`unused, this`progress, this`config, this`scaling
      ensures ok <==> Deletable(old(View()), runs)
      ensures ok ==> Tables(View()) && Deleted(old(View()), runs, View())
      ensures Valid(old(View())) ==> ok && Valid(View())
    {
      var todo := runs;
      while todo != {}
        invariant todo <= runs && todo <= id2idx.Keys
        invariant Tables(View()) && Deleted(old(View()), runs - todo, View()) && Deletable(old(View()), runs - todo)
        invariant Valid(old(View())) ==> Valid(View())
        decreases todo
      {
        EmptyOrMember(todo);
        var run :| run in todo;
        ghost var now := View();
        DeletedNext(old(View()), runs - todo, now, run);
        SameProgress(old(View()), runs - todo, now, run);
        ok := DeleteRunData(run, id2idx[run]);
        if !ok {
          return;
        }
        assert runs - todo + {run} == runs - (todo - {run});
        todo := todo - {run};
      }
      assert runs - todo == runs;
      ok := true;
    }

    /** Master only. `configs` holds the valid configurations; a hook sets the scaling of a discovered run. */
    method DiscoverRuns(runIds: set<RunId>, configs: map<RunId, Config>)
      requires Valid(View())
      modifies this`id2idx, this`idx2id, this`unused, this`progress, this`config, this`scaling
      ensures Valid(View()) && Discovered(old(View()), runIds, configs, View())
    {
      var newRuns := runIds - id2idx.Keys;
      var _ := DeleteRuns(id2idx.Keys - runIds);
      ghost var mid := View();
      ghost var slots := AdoptRuns(newRuns, configs);
      assert DiscoveredVia(old(View()), runIds, configs, mid, slots, View());
    }

    /** Gives a slot to each run with a configuration, while there is one. */
    method AdoptRuns(newRuns: set<RunId>, configs: map<RunId, Config>) returns (ghost slots: map<RunId, nat>)
      requires Valid(View()) && newRuns !! id2idx.Keys
      modifies this`id2idx, this`idx2id, this`unused, this`progress, this`config, this`scaling
      ensures Valid(View()) && Created(old(View()), slots, configs, true, View())
      ensures slots.Keys <= newRuns && (slots.Keys == newRuns * configs.Keys || unused == {})
    {
      slots := map[];
      var todo := newRuns;
      NothingCreated(View(), configs, true);
      ghost var before := View();
      while todo != {}
        invariant Adopting(before, slots, configs, newRuns, todo, View())
        decreases todo
      {
        EmptyOrMember(todo);
        EmptyOrMember(unused);
        var run :| run in todo;
        if unused != {} && run in configs {
          var i: nat :| i in unused;
          AdoptingNext(before, slots, configs, newRuns, todo, View(), run, i);
          var _ := CreateRunData(run, i, configs[run]);
          scaling := scaling[i := configs[run].scaling];
          slots := slots[run := i];
        } else {
          AdoptingSkips(before, slots, configs, newRuns, todo, View(), run);
        }
        todo := todo - {run};
      }
      assert newRuns - todo == newRuns;
    }

    /** A rank other than the master follows the sync, if nothing fails; `calls` are the hooks it runs. */
    method CatchUp(data: SyncData) returns (ok: bool, calls: seq<HookCall>)
      requires Tables(View()) && |data.scaling| == |scaling|
      modifies this
      ensures lastSynced == old(lastSynced)
      ensures ok <==> Applicable(old(View()), data)
      ensures ok ==> CaughtUp(old(View()), data, View()) && Tables(View())
      ensures if ok then Hooks(calls, GoneSlots(old(id2idx), data.id2idx), NewSlots(old(id2idx), data.id2idx))
              else calls == []
    {
      var made, gone := NewSlots(id2idx, data.id2idx), GoneSlots(id2idx, data.id2idx);
      ghost var before := View();
      ghost var deleted;
      ok, deleted := FollowRuns(data, gone.Keys, made);
      if !ok {
        return false, [];
      }
      ghost var created := View();
      progress := data.progress;
      CaughtUpBy(before, data, gone.Keys, deleted, made, created);
      calls := RunHooks(gone, made);
    }

    /** Flags, factors, deletions and creations; `deleted` is the state between the last two. */
    method FollowRuns(data: SyncData, gone: set<RunId>, made: map<RunId, nat>) returns (ok: bool, ghost deleted: State)
      requires Tables(View()) && |data.scaling| == |scaling|
      requires gone == GoneSlots(id2idx, data.id2idx).Keys && made == NewSlots(id2idx, data.id2idx)
      modifies this
      ensures lastSynced == old(lastSynced)
      ensures ok <==> Applicable(old(View()), data)
      ensures ok ==> Tables(deleted) && Deleted(Copied(old(View()), data), gone, deleted)
      ensures ok ==> Tables(View()) && Created(deleted, made, data.newConfigs, false, View())
    {
      ghost var before := View();
      readyToUpdate := data.ready;
      scaling := data.scaling;
      CopyKeepsTables(before, data);
      ok := DeleteRuns(gone);
      deleted := View();
      if !ok {
        return;
      }
      RestExactlyWhen(before, data, deleted);
      ok := CreateRuns(made, data.newConfigs);
    }

    method CreateRuns(slots: map<RunId, nat>, configs: map<RunId, Config>) returns (ok: bool)
      requires Tables(View()) && slots.Keys !! id2idx.Keys
      modifies this`id2idx, this`idx2id, this`unused, this`progress, this`config
      ensures ok <==> Creatable(old(View()), slots, configs, slots.Keys)
      ensures ok ==> Tables(View()) && Created(old(View()), slots, configs, false, View())
    {
      var todo := slots.Keys;
      NothingCreated(View(), configs, false);
      assert slots - todo == map[];
      ghost var before := View();
      while todo != {}
        invariant scaling == old(scaling)
        invariant Creating(before, slots, configs, todo, View())
        decreases todo
      {
        EmptyOrMember(todo);
        var run :| run in todo;
        if run !in configs {
          return false;
        }
        ghost var now := View();
        ok := CreateRunData(run, slots[run], configs[run]);
        if !ok {
          return;
        }
        CreatingNext(before, slots, configs, todo, now, run);
        todo := todo - {run};
      }
      assert slots - todo == slots;
      ok := true;
    }

    static method CallEach(slots: map<RunId, nat>, deletion: bool) returns (calls: seq<HookCall>)
      ensures OneCallEach(calls, slots, deletion)
    {
      calls := [];
      var todo := slots.Keys;
      while todo != {}
        invariant todo <= slots.Keys && |calls| + |todo| == |slots.Keys|
        invariant forall k :: 0 <= k < |calls| ==>
          calls[k].Deletion? == deletion && calls[k].run in slots.Keys - todo && slots[calls[k].run] == calls[k].idx
        invariant forall j, k :: 0 <= j < k < |calls| ==> calls[j].run != calls[k].run
        decreases todo
      {
        EmptyOrMember(todo);
        var run :| run in todo;
        calls := calls + [if deletion then Deletion(slots[run], run) else Creation(slots[run], run)];
        todo := todo - {run};
      }
    }

    method RunHooks(gone: map<RunId, nat>, made: map<RunId, nat>) returns (calls: seq<HookCall>)
      ensures Hooks(calls, gone, made)
    {
      var deletions := CallEach(gone, true);
      var creations := CallEach(made, false);
      calls := deletions + creations;
      assert calls[..|gone|] == deletions && calls[|gone|..] == creations;
    }

    /** The master's half of a sync: what it publishes, and the hooks it runs. */
    method PublishAndRunHooks() returns (data: SyncData, calls: seq<HookCall>)
      requires Valid(View())
      modifies this`lastSynced
      ensures data == Published(View(), old(lastSynced)) && lastSynced == id2idx
      ensures Hooks(calls, GoneSlots(old(lastSynced), id2idx), NewSlots(old(lastSynced), id2idx))
    {
      data := Published(View(), lastSynced);
      calls := RunHooks(GoneSlots(lastSynced, id2idx), NewSlots(lastSynced, id2idx));
      lastSynced := id2idx;
    }
  }

  function Published(s: State, lastSynced: map<RunId, nat>): SyncData
    requires forall run :: run in s.id2idx ==> s.id2idx[run] in s.config
  {
    SyncData(s.id2idx, s.ready, s.scaling,
             map run | run in s.id2idx && run !in lastSynced :: s.config[s.id2idx[run]],
             s.progress)
  }
}
