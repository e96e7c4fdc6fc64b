/**
 Rollout groups of the scheduler: which requests are in flight for which group, what came back, when a
 group is handed over, and how far each request is behind the policy.

 A step is the code between two awaits. Launching a request and applying a policy update span several
 awaits, so both can be half done while anything else happens. Tasks and groups are named by
 counters, so iterating in insertion order is iterating in the order of ids.
 */
module RolloutGroups {
  import opened Wrappers

  type GroupId = nat
  type TaskId = nat

  /** ok: no error, and the trajectory is not empty. */
  datatype Rollout = Rollout(ok: bool, data: int)

  datatype Request = Request(group: GroupId, count: nat, client: int, off: nat, salt: int, born: nat)

  datatype Group = Group(toSchedule: nat, completed: seq<Rollout>, failed: nat, scored: bool, pinned: Option<int>)

  /** An update in progress: groups still to be dropped, requests still to be aged. */
  datatype Update = Update(stale: set<GroupId>, increment: set<TaskId>)

  datatype Delivery = Delivery(group: GroupId, rollouts: seq<Rollout>)

  /** delta: every update leads to the next checkpoint. */
  datatype Config = Config(groupSize: nat, maxInflight: nat, maxOff: nat, delta: bool)

  /** `log` records what tasks of live groups returned, `updates` how many updates were applied. */
  datatype State = State(
    ckpt: int,
    nextGroup: nat,
    nextTask: nat,
    inflight: map<TaskId, Request>,
    groups: map<GroupId, Group>,
    launching: Option<GroupId>,
    update: Option<Update>,
    delivered: seq<Delivery>,
    updates: nat,
    log: seq<Delivery>)

  /* ---------- Counting ---------- */

  function Weight(inflight: map<TaskId, Request>, who: Option<GroupId>, t: TaskId): nat {
    if t in inflight && (who.None? || who.value == inflight[t].group) then inflight[t].count else 0
  }

  /** Rollouts in flight, of one group or of all, among the tasks below n. */
  function CountIn(inflight: map<TaskId, Request>, who: Option<GroupId>, n: nat): nat {
    if n == 0 then 0 else CountIn(inflight, who, n - 1) + Weight(inflight, who, n - 1)
  }

  function InflightRollouts(s: State): nat {
    CountIn(s.inflight, None, s.nextTask)
  }

  /* ---------- Results ---------- */

  function Valid(rollouts: seq<Rollout>): (r: seq<Rollout>)
    ensures |r| <= |rollouts|
  {
    if rollouts == [] then []
    else Valid(rollouts[..|rollouts| - 1]) + if rollouts[|rollouts| - 1].ok then [rollouts[|rollouts| - 1]] else []
  }

  function Failures(rollouts: seq<Rollout>): nat {
    |rollouts| - |Valid(rollouts)|
  }

  /** The valid rollouts returned for a group so far, in order. */
  function Returned(log: seq<Delivery>, g: GroupId): seq<Rollout> {
    if log == [] then []
    else Returned(log[..|log| - 1], g) + if log[|log| - 1].group == g then Valid(log[|log| - 1].rollouts) else []
  }

  function Failed(log: seq<Delivery>, g: GroupId): nat {
    if log == [] then 0
    else Failed(log[..|log| - 1], g) + if log[|log| - 1].group == g then Failures(log[|log| - 1].rollouts) else 0
  }

  /* ---------- Dropping ---------- */

  function Without(inflight: map<TaskId, Request>, g: GroupId): map<TaskId, Request> {
    map t | t in inflight && inflight[t].group != g :: inflight[t]
  }

  function DropGroup(s: State, g: GroupId): State {
    s.(inflight := Without(s.inflight, g), groups := s.groups - {g})
  }

  /* ---------- Scheduling ---------- */

  function Cost(group: Group): nat {
    if group.scored then group.toSchedule else 1
  }

  predicate Fits(group: Group, capacity: int) {
    group.toSchedule > 0 && Cost(group) <= capacity
  }

  /** The first group, from id g on, whose next request fits. */
  function FirstFit(groups: map<GroupId, Group>, capacity: int, g: GroupId, n: nat): Option<GroupId>
    decreases n - g
  {
    if g >= n then None
    else if g in groups && Fits(groups[g], capacity) then Some(g)
    else FirstFit(groups, capacity, g + 1, n)
  }

  /** Chooses the group of the next request, a new group if none fits; `scored` is the new example's. */
  function Pick(cfg: Config, s: State, scored: bool): State {
    var capacity := cfg.maxInflight - InflightRollouts(s);
    if capacity <= 0 then s
    else
      var first := FirstFit(s.groups, capacity, 0, s.nextGroup);
      if first.Some? then s.(launching := first)
      else if capacity < cfg.groupSize then s
      else s.(nextGroup := s.nextGroup + 1,
              groups := s.groups[s.nextGroup := Group(cfg.groupSize, [], 0, scored, None)],
              launching := Some(s.nextGroup))
  }

  /** The rest of scheduling a request, once a client is at hand. */
  function Launch(s: State, client: int): State {
    var idle := s.(launching := None);
    if s.launching.None? || s.launching.value !in s.groups || s.groups[s.launching.value].toSchedule == 0 then idle
    else
      var g := s.launching.value;
      var group := s.groups[g];
      var count := Cost(group);
      var pinned := if group.pinned.Some? then group.pinned.value else client;
      idle.(groups := s.groups[g := group.(toSchedule := group.toSchedule - count, pinned := Some(pinned))],
            inflight := s.inflight[s.nextTask := Request(g, count, pinned, 0, s.ckpt, s.updates)],
            nextTask := s.nextTask + 1)
  }

  /* ---------- Results ---------- */

  datatype Outcome = Cancelled | Raised | Rollouts(rollouts: seq<Rollout>)

  function Finish(cfg: Config, s: State, t: TaskId, outcome: Outcome): State {
    if t !in s.inflight then s
    else
      var g, popped := s.inflight[t].group, s.(inflight := s.inflight - {t});
      if g !in s.groups then popped
      else match outcome
        case Cancelled => DropGroup(popped, g)
        case Raised => DropGroup(popped, g)
        case Rollouts(rollouts) => Collect(cfg, popped.(log := s.log + [Delivery(g, rollouts)]), g, rollouts)
  }

  /** Adds what a task returned to its group and hands the group over once everything is in. */
  function Collect(cfg: Config, s: State, g: GroupId, rollouts: seq<Rollout>): State
    requires g in s.groups
  {
    var group := s.groups[g];
    var failed := group.failed + Failures(rollouts);
    var completed := group.completed + Valid(rollouts);
    if Failures(rollouts) > 0 && group.scored then DropGroup(s, g)
    else if |completed| + failed < cfg.groupSize then
      s.(groups := s.groups[g := group.(completed := completed, failed := failed)])
    else if completed == [] then s.(groups := s.groups - {g})
    else s.(groups := s.groups - {g}, delivered := s.delivered + [Delivery(g, completed)])
  }

  /* ---------- Policy updates ---------- */

  function StaleGroups(cfg: Config, s: State): set<GroupId> {
    set t | t in s.inflight && s.inflight[t].off >= cfg.maxOff :: s.inflight[t].group
  }

  /** A new checkpoint is in place; who is too old and who grows older is decided now. */
  function BeginUpdate(cfg: Config, s: State, step: int): State {
    var stale := StaleGroups(cfg, s);
    s.(ckpt := step, updates := s.updates + 1,
       update := Some(Update(stale, set t | t in s.inflight && s.inflight[t].group !in stale)))
  }

  function DropStale(s: State, g: GroupId): State {
    if s.update.Some? && g in s.update.value.stale
    then DropGroup(s, g).(update := Some(s.update.value.(stale := s.update.value.stale - {g})))
    else s
  }

  function Aged(inflight: map<TaskId, Request>, increment: set<TaskId>): map<TaskId, Request> {
    map t | t in inflight :: if t in increment then inflight[t].(off := inflight[t].off + 1) else inflight[t]
  }

  function EndUpdate(s: State): State {
    if s.update.Some? then s.(inflight := Aged(s.inflight, s.update.value.increment), update := None) else s
  }

  /* ---------- Runs ---------- */

  datatype Event =
    | PickRequest(scored: bool)
    | LaunchRequest(client: int)
    | FinishTask(task: TaskId, outcome: Outcome)
    | UpdateBegins(step: int)
    | StaleDropped(group: GroupId)
    | UpdateEnds
    | CancelAll

  /**
   One request is launched at a time, one update applied at a time, stale groups are dropped before the
   update ends, and a task returns as many rollouts as it was asked for.
   */
  predicate Enabled(cfg: Config, s: State, event: Event) {
    match event
    case PickRequest(_) => s.launching.None?
    case LaunchRequest(_) => s.launching.Some?
    case FinishTask(t, Rollouts(rollouts)) => t in s.inflight ==> |rollouts| == s.inflight[t].count
    case FinishTask(_, _) => true
    case UpdateBegins(step) => s.update.None? && (cfg.delta ==> step == s.ckpt + 1)
    case StaleDropped(_) => true
    case UpdateEnds => s.update.Some? && s.update.value.stale == {}
    case CancelAll => true
  }

  function Next(cfg: Config, s: State, event: Event): State {
    match event
    case PickRequest(scored) => Pick(cfg, s, scored)
    case LaunchRequest(client) => Launch(s, client)
    case FinishTask(t, outcome) => Finish(cfg, s, t, outcome)
    case UpdateBegins(step) => BeginUpdate(cfg, s, step)
    case StaleDropped(g) => DropStale(s, g)
    case UpdateEnds => EndUpdate(s)
    case CancelAll => s.(inflight := map[], groups := map[])
  }

  function Start(): State {
    State(0, 0, 0, map[], map[], None, None, [], 0, [])
  }

  /** The events of a run, each enabled where it happens; events that are not are skipped. */
  function Run(cfg: Config, events: seq<Event>): State
    decreases |events|
  {
    if events == [] then Start()
    else
      var before := Run(cfg, events[..|events| - 1]);
      if Enabled(cfg, before, events[|events| - 1]) then Next(cfg, before, events[|events| - 1]) else before
  }
}
