/** What holds of rollout groups in every run, whatever the order of steps. */
module RolloutGroupTheorems {
  import opened Wrappers
  import opened RolloutGroups

  /* ---------- Counting ---------- */

  lemma {:induction false} SameCount(a: map<TaskId, Request>, b: map<TaskId, Request>, who: Option<GroupId>, n: nat)
    requires forall t: nat :: t < n ==> Weight(a, who, t) == Weight(b, who, t)
    ensures CountIn(a, who, n) == CountIn(b, who, n)
  {
    if n > 0 { SameCount(a, b, who, n - 1); }
  }

  lemma CountAdded(inflight: map<TaskId, Request>, t: TaskId, r: Request, who: Option<GroupId>)
    ensures CountIn(inflight[t := r], who, t + 1)
         == CountIn(inflight, who, t) + if who.None? || who.value == r.group then r.count else 0
  {
    SameCount(inflight[t := r], inflight, who, t);
  }

  lemma {:induction false} CountRemoved(inflight: map<TaskId, Request>, t: TaskId, who: Option<GroupId>, n: nat)
    requires t in inflight && t < n
    ensures CountIn(inflight, who, n) == CountIn(inflight - {t}, who, n) + Weight(inflight, who, t)
  {
    if n - 1 == t {
      SameCount(inflight, inflight - {t}, who, t);
    } else {
      CountRemoved(inflight, t, who, n - 1);
    }
  }

  lemma {:induction false} CountWithout(inflight: map<TaskId, Request>, g: GroupId, n: nat)
    ensures CountIn(Without(inflight, g), None, n) + CountIn(inflight, Some(g), n) == CountIn(inflight, None, n)
  {
    if n > 0 { CountWithout(inflight, g, n - 1); }
  }

  /** A group nobody is in flight for counts zero. */
  lemma {:induction false} CountNone(inflight: map<TaskId, Request>, g: GroupId, n: nat)
    requires forall t :: t in inflight ==> inflight[t].group != g
    ensures CountIn(inflight, Some(g), n) == 0
  {
    if n > 0 { CountNone(inflight, g, n - 1); }
  }

  lemma {:induction false} CountZero(inflight: map<TaskId, Request>, g: GroupId, n: nat)
    requires CountIn(inflight, Some(g), n) == 0
    requires forall t :: t in inflight ==> inflight[t].count >= 1
    ensures forall t :: t in inflight && t < n ==> inflight[t].group != g
  {
    if n > 0 { CountZero(inflight, g, n - 1); }
  }

  /* ---------- The invariant ---------- */

  ghost predicate Ids(s: State) {
    && (forall t :: t in s.inflight ==> t < s.nextTask)
    && (forall g :: g in s.groups ==> g < s.nextGroup)
    && (forall i :: 0 <= i < |s.log| ==> s.log[i].group < s.nextGroup)
    && (forall g :: s.launching == Some(g) ==> g < s.nextGroup)
    && (s.update.Some? ==> forall t :: t in s.update.value.increment ==> t < s.nextTask)
  }

  /** Every request in flight belongs to a live group and runs on the client the group is pinned to. */
  ghost predicate Owned(s: State) {
    forall t :: t in s.inflight ==>
      && s.inflight[t].count >= 1
      && s.inflight[t].group in s.groups
      && s.groups[s.inflight[t].group].pinned == Some(s.inflight[t].client)
  }

  /** To schedule, in flight, completed and failed make up the group; `owed` of `owner` are in nobody's hands. */
  ghost predicate Accounted(cfg: Config, s: State, owner: GroupId, owed: nat) {
    forall g :: g in s.groups ==> GroupTotal(s, g) + (if g == owner then owed else 0) == cfg.groupSize
  }

  function GroupTotal(s: State, g: GroupId): nat
    requires g in s.groups
  {
    s.groups[g].toSchedule + CountIn(s.inflight, Some(g), s.nextTask) + |s.groups[g].completed| + s.groups[g].failed
  }

  /** Capacity is never exceeded, not even by the request being launched. */
  ghost predicate WithinCapacity(cfg: Config, s: State) {
    && InflightRollouts(s) <= cfg.maxInflight
    && (s.launching.Some? && s.launching.value in s.groups && s.groups[s.launching.value].toSchedule > 0 ==>
          InflightRollouts(s) + Cost(s.groups[s.launching.value]) <= cfg.maxInflight)
  }

  /** Live groups hold exactly what their tasks returned. */
  ghost predicate Collected(s: State) {
    forall g :: g in s.groups ==>
      s.groups[g].completed == Returned(s.log, g) && s.groups[g].failed == Failed(s.log, g)
  }

  /** Each delivery is a group that is no longer live, delivered once, with all its outcomes in. */
  ghost predicate DeliveredWhole(cfg: Config, s: State) {
    && (forall i :: 0 <= i < |s.delivered| ==>
          var d := s.delivered[i];
          && d.group < s.nextGroup && d.group !in s.groups
          && d.rollouts != [] && d.rollouts == Returned(s.log, d.group)
          && |d.rollouts| + Failed(s.log, d.group) == cfg.groupSize)
    && (forall i, j :: 0 <= i < j < |s.delivered| ==> s.delivered[i].group != s.delivered[j].group)
  }

  /** Requests behind by as many updates as they have seen, but for what the update in progress still owes. */
  ghost predicate Aging(cfg: Config, s: State) {
    forall t :: t in s.inflight ==>
      var r := s.inflight[t];
      if s.update.Some? && r.group in s.update.value.stale then true
      else if s.update.Some? && t in s.update.value.increment
      then r.off + 1 == s.updates - r.born && r.off < cfg.maxOff
      else r.off == s.updates - r.born && r.off <= cfg.maxOff
  }

  ghost predicate Salted(cfg: Config, s: State) {
    cfg.delta ==> s.ckpt == s.updates && forall t :: t in s.inflight ==> s.inflight[t].salt == s.inflight[t].born
  }

  /** Everything but the counts. */
  ghost predicate Books(cfg: Config, s: State) {
    Ids(s) && Owned(s) && Collected(s) && DeliveredWhole(cfg, s) && Aging(cfg, s) && Salted(cfg, s)
  }

  ghost predicate Counts(cfg: Config, s: State, owner: GroupId, owed: nat) {
    Accounted(cfg, s, owner, owed) && WithinCapacity(cfg, s)
  }

  ghost predicate Inv(cfg: Config, s: State) {
    Books(cfg, s) && Counts(cfg, s, 0, 0)
  }

  /* ---------- Scheduling ---------- */

  lemma {:induction false} FirstFitFits(groups: map<GroupId, Group>, capacity: int, g: GroupId, n: nat)
    ensures var first := FirstFit(groups, capacity, g, n);
      if first.Some?
      then g <= first.value < n && first.value in groups && Fits(groups[first.value], capacity)
           && forall h :: g <= h < first.value && h in groups ==> !Fits(groups[h], capacity)
      else forall h :: g <= h < n && h in groups ==> !Fits(groups[h], capacity)
    decreases n - g
  {
    if g < n { FirstFitFits(groups, capacity, g + 1, n); }
  }

  lemma {:induction false} NothingReturned(log: seq<Delivery>, g: GroupId)
    requires forall i :: 0 <= i < |log| ==> log[i].group != g
    ensures Returned(log, g) == [] && Failed(log, g) == 0
  {
    if log != [] { NothingReturned(log[..|log| - 1], g); }
  }

  lemma PickKeepsInv(cfg: Config, s: State, scored: bool)
    requires Inv(cfg, s) && s.launching.None? && cfg.groupSize >= 1
    ensures Inv(cfg, Pick(cfg, s, scored))
  {
    FirstFitFits(s.groups, cfg.maxInflight - InflightRollouts(s), 0, s.nextGroup);
    PickKeepsBooks(cfg, s, scored);
    PickKeepsCounts(cfg, s, scored);
  }

  lemma PickKeepsBooks(cfg: Config, s: State, scored: bool)
    requires Inv(cfg, s)
    requires var first := FirstFit(s.groups, cfg.maxInflight - InflightRollouts(s), 0, s.nextGroup);
      first.Some? ==> first.value < s.nextGroup
    ensures Books(cfg, Pick(cfg, s, scored))
  {
    var capacity := cfg.maxInflight - InflightRollouts(s);
    var first := FirstFit(s.groups, capacity, 0, s.nextGroup);
    if capacity > 0 && first.Some? {
      JoiningKeepsBooks(cfg, s, first.value);
    } else if capacity > 0 && capacity >= cfg.groupSize {
      OpeningKeepsBooks(cfg, s, scored);
    }
  }

  lemma JoiningKeepsBooks(cfg: Config, s: State, g: GroupId)
    requires Books(cfg, s) && g < s.nextGroup
    ensures Books(cfg, s.(launching := Some(g)))
  {
  }

  lemma OpeningKeepsBooks(cfg: Config, s: State, scored: bool)
    requires Books(cfg, s)
    ensures Books(cfg, s.(nextGroup := s.nextGroup + 1,
                          groups := s.groups[s.nextGroup := Group(cfg.groupSize, [], 0, scored, None)],
                          launching := Some(s.nextGroup)))
  {
    NothingReturned(s.log, s.nextGroup);
  }

  lemma PickKeepsCounts(cfg: Config, s: State, scored: bool)
    requires Inv(cfg, s) && s.launching.None? && cfg.groupSize >= 1
    requires var capacity := cfg.maxInflight - InflightRollouts(s);
      var first := FirstFit(s.groups, capacity, 0, s.nextGroup);
      first.Some? ==> first.value in s.groups && Fits(s.groups[first.value], capacity)
    ensures Counts(cfg, Pick(cfg, s, scored), 0, 0)
  {
    CountNone(s.inflight, s.nextGroup, s.nextTask);
    var q := Pick(cfg, s, scored);
    forall g | g in q.groups ensures GroupTotal(q, g) == cfg.groupSize {
      assert g in s.groups ==> GroupTotal(q, g) == GroupTotal(s, g);
    }
  }

  lemma LaunchKeepsInv(cfg: Config, s: State, client: int)
    requires Inv(cfg, s)
    ensures Inv(cfg, Launch(s, client))
  {
    LaunchKeepsBooks(cfg, s, client);
    if s.launching.Some? && s.launching.value in s.groups && s.groups[s.launching.value].toSchedule > 0 {
      LaunchKeepsCounts(cfg, s, client);
    } else {
      var q := Launch(s, client);
      forall g | g in q.groups ensures GroupTotal(q, g) == cfg.groupSize {
        assert GroupTotal(q, g) == GroupTotal(s, g);
      }
    }
  }

  lemma LaunchKeepsBooks(cfg: Config, s: State, client: int)
    requires Books(cfg, s)
    ensures Books(cfg, Launch(s, client))
  {
    LaunchKeepsResults(cfg, s, client);
    LaunchKeepsAges(cfg, s, client);
  }

  lemma LaunchKeepsResults(cfg: Config, s: State, client: int)
    requires Books(cfg, s)
    ensures var q := Launch(s, client); Collected(q) && DeliveredWhole(cfg, q)
  {
  }

  lemma LaunchKeepsAges(cfg: Config, s: State, client: int)
    requires Ids(s) && Owned(s) && Aging(cfg, s) && Salted(cfg, s)
    ensures var q := Launch(s, client); Ids(q) && Owned(q) && Aging(cfg, q) && Salted(cfg, q)
  {
  }

  lemma LaunchKeepsCounts(cfg: Config, s: State, client: int)
    requires Counts(cfg, s, 0, 0)
    requires s.launching.Some? && s.launching.value in s.groups && s.groups[s.launching.value].toSchedule > 0
    ensures Counts(cfg, Launch(s, client), 0, 0)
  {
    var q := Launch(s, client);
    var r := q.inflight[s.nextTask];
    CountAdded(s.inflight, s.nextTask, r, None);
    forall h | h in q.groups ensures GroupTotal(q, h) == cfg.groupSize {
      CountAdded(s.inflight, s.nextTask, r, Some(h));
      assert GroupTotal(s, h) == cfg.groupSize;
    }
  }

  /* ---------- Dropping ---------- */

  /** Dropping a group settles whatever it owes. */
  lemma DropKeepsInv(cfg: Config, s: State, g: GroupId, owed: nat)
    requires Books(cfg, s) && Counts(cfg, s, g, owed)
    ensures Inv(cfg, DropGroup(s, g))
  {
    DropKeepsBooks(cfg, s, g);
    var q := DropGroup(s, g);
    CountWithout(s.inflight, g, s.nextTask);
    forall h | h in q.groups ensures GroupTotal(q, h) == cfg.groupSize {
      SameCount(q.inflight, s.inflight, Some(h), s.nextTask);
      assert GroupTotal(s, h) == cfg.groupSize;
    }
  }

  lemma DropKeepsBooks(cfg: Config, s: State, g: GroupId)
    requires Books(cfg, s)
    ensures Books(cfg, DropGroup(s, g))
  {
  }

  lemma DropStaleKeepsInv(cfg: Config, s: State, g: GroupId)
    requires Inv(cfg, s)
    ensures Inv(cfg, DropStale(s, g))
  {
    NobodyOwes(cfg, s, 0, g);
    DropKeepsInv(cfg, s, g, 0);
    var q := DropStale(s, g);
    forall h | h in q.groups ensures GroupTotal(q, h) == cfg.groupSize {
      assert h in DropGroup(s, g).groups ==> GroupTotal(DropGroup(s, g), h) == cfg.groupSize;
      assert GroupTotal(s, h) == cfg.groupSize;
    }
  }

  lemma NobodyOwes(cfg: Config, s: State, g: GroupId, h: GroupId)
    requires Counts(cfg, s, g, 0)
    ensures Counts(cfg, s, h, 0)
  {
    forall x | x in s.groups ensures GroupTotal(s, x) == cfg.groupSize {
      assert GroupTotal(s, x) + (if x == g then 0 else 0) == cfg.groupSize;
    }
  }

  /* ---------- Results ---------- */

  /** A task taken out of flight leaves its group owing. */
  lemma PopOwes(cfg: Config, s: State, t: TaskId)
    requires Inv(cfg, s) && t in s.inflight
    ensures Books(cfg, s.(inflight := s.inflight - {t}))
    ensures Counts(cfg, s.(inflight := s.inflight - {t}), s.inflight[t].group, s.inflight[t].count)
  {
    var q := s.(inflight := s.inflight - {t});
    CountRemoved(s.inflight, t, None, s.nextTask);
    forall h | h in q.groups
      ensures GroupTotal(q, h) + (if h == s.inflight[t].group then s.inflight[t].count else 0) == cfg.groupSize
    {
      CountRemoved(s.inflight, t, Some(h), s.nextTask);
      assert GroupTotal(s, h) == cfg.groupSize;
    }
  }

  lemma LogGrows(log: seq<Delivery>, d: Delivery, h: GroupId)
    ensures Returned(log + [d], h) == Returned(log, h) + if d.group == h then Valid(d.rollouts) else []
    ensures Failed(log + [d], h) == Failed(log, h) + if d.group == h then Failures(d.rollouts) else 0
  {
    assert (log + [d])[..|log + [d]| - 1] == log;
  }

  /** The group with what a task returned added to it and to the record. */
  function Credited(s: State, g: GroupId, rollouts: seq<Rollout>): State
    requires g in s.groups
  {
    s.(log := s.log + [Delivery(g, rollouts)],
       groups := s.groups[g := s.groups[g].(completed := s.groups[g].completed + Valid(rollouts),
                                            failed := s.groups[g].failed + Failures(rollouts))])
  }

  lemma CreditKeepsCounts(cfg: Config, s: State, g: GroupId, rollouts: seq<Rollout>)
    requires Counts(cfg, s, g, |rollouts|) && g in s.groups
    ensures Counts(cfg, Credited(s, g, rollouts), 0, 0)
  {
    var q := Credited(s, g, rollouts);
    forall h | h in q.groups ensures GroupTotal(q, h) == cfg.groupSize {
      assert GroupTotal(s, h) + (if h == g then |rollouts| else 0) == cfg.groupSize;
    }
  }

  lemma CreditKeepsBooks(cfg: Config, s: State, g: GroupId, rollouts: seq<Rollout>)
    requires Books(cfg, s) && g in s.groups
    ensures Books(cfg, Credited(s, g, rollouts))
  {
    var q := Credited(s, g, rollouts);
    forall h | h in q.groups
      ensures q.groups[h].completed == Returned(q.log, h) && q.groups[h].failed == Failed(q.log, h)
    {
      LogGrows(s.log, Delivery(g, rollouts), h);
    }
    assert DeliveredWhole(cfg, q) by {
      forall i | 0 <= i < |q.delivered|
        ensures Returned(q.log, q.delivered[i].group) == Returned(s.log, s.delivered[i].group)
        ensures Failed(q.log, q.delivered[i].group) == Failed(s.log, s.delivered[i].group)
      {
        LogGrows(s.log, Delivery(g, rollouts), q.delivered[i].group);
      }
    }
  }

  /** A live group with all outcomes in has nothing in flight, so it can go. */
  lemma EndKeepsBooks(cfg: Config, s: State, g: GroupId)
    requires Inv(cfg, s) && g in s.groups && |s.groups[g].completed| + s.groups[g].failed >= cfg.groupSize
    ensures Books(cfg, s.(groups := s.groups - {g}))
  {
    assert GroupTotal(s, g) == cfg.groupSize;
    CountZero(s.inflight, g, s.nextTask);
  }

  /** Handing over a group that just left. */
  lemma DeliverKeepsBooks(cfg: Config, s: State, d: Delivery)
    requires Books(cfg, s) && d.group < s.nextGroup && d.group !in s.groups
    requires forall i :: 0 <= i < |s.delivered| ==> s.delivered[i].group != d.group
    requires d.rollouts != [] && d.rollouts == Returned(s.log, d.group)
    requires |d.rollouts| + Failed(s.log, d.group) == cfg.groupSize
    ensures Books(cfg, s.(delivered := s.delivered + [d]))
  {
    assert DeliveredWhole(cfg, s.(delivered := s.delivered + [d]));
  }

  lemma EndKeepsCounts(cfg: Config, s: State, g: GroupId, delivered: seq<Delivery>)
    requires Counts(cfg, s, 0, 0)
    ensures Counts(cfg, s.(groups := s.groups - {g}, delivered := delivered), 0, 0)
  {
    var q := s.(groups := s.groups - {g}, delivered := delivered);
    forall h | h in q.groups ensures GroupTotal(q, h) == cfg.groupSize {
      assert GroupTotal(s, h) == cfg.groupSize;
    }
  }

  lemma EndKeepsInv(cfg: Config, s: State, g: GroupId)
    requires Inv(cfg, s) && g in s.groups && |s.groups[g].completed| + s.groups[g].failed >= cfg.groupSize
    ensures Inv(cfg, s.(groups := s.groups - {g}))
    ensures s.groups[g].completed != [] ==>
      Inv(cfg, s.(groups := s.groups - {g}, delivered := s.delivered + [Delivery(g, s.groups[g].completed)]))
  {
    EndKeepsBooks(cfg, s, g);
    EndKeepsCounts(cfg, s, g, s.delivered);
    var d := Delivery(g, s.groups[g].completed);
    EndKeepsCounts(cfg, s, g, s.delivered + [d]);
    assert GroupTotal(s, g) == cfg.groupSize;
    if d.rollouts != [] {
      DeliverKeepsBooks(cfg, s.(groups := s.groups - {g}), d);
    }
  }

  lemma CollectKeepsInv(cfg: Config, s: State, g: GroupId, rollouts: seq<Rollout>)
    requires Books(cfg, s) && Counts(cfg, s, g, |rollouts|) && g in s.groups
    ensures Inv(cfg, Collect(cfg, s.(log := s.log + [Delivery(g, rollouts)]), g, rollouts))
  {
    var with := Credited(s, g, rollouts);
    CreditKeepsBooks(cfg, s, g, rollouts);
    CreditKeepsCounts(cfg, s, g, rollouts);
    CollectIsCredit(cfg, s, g, rollouts);
    if Failures(rollouts) > 0 && s.groups[g].scored {
      NobodyOwes(cfg, with, 0, g);
      DropKeepsInv(cfg, with, g, 0);
    } else if |with.groups[g].completed| + with.groups[g].failed >= cfg.groupSize {
      EndKeepsInv(cfg, with, g);
    }
  }

  /** Collecting is crediting the group, then dropping, keeping, discarding or delivering it. */
  lemma CollectIsCredit(cfg: Config, s: State, g: GroupId, rollouts: seq<Rollout>)
    requires g in s.groups
    ensures var with := Credited(s, g, rollouts);
      var group := with.groups[g];
      Collect(cfg, s.(log := s.log + [Delivery(g, rollouts)]), g, rollouts) ==
      if Failures(rollouts) > 0 && group.scored then DropGroup(with, g)
      else if |group.completed| + group.failed < cfg.groupSize then with
      else if group.completed == [] then with.(groups := with.groups - {g})
      else with.(groups := with.groups - {g}, delivered := with.delivered + [Delivery(g, group.completed)])
  {
    assert Credited(s, g, rollouts).groups - {g} == s.groups - {g};
  }

  lemma FinishKeepsInv(cfg: Config, s: State, t: TaskId, outcome: Outcome)
    requires Inv(cfg, s) && Enabled(cfg, s, FinishTask(t, outcome))
    ensures Inv(cfg, Finish(cfg, s, t, outcome))
  {
    if t in s.inflight {
      var g, popped := s.inflight[t].group, s.(inflight := s.inflight - {t});
      PopOwes(cfg, s, t);
      match outcome
      case Cancelled => DropKeepsInv(cfg, popped, g, s.inflight[t].count);
      case Raised => DropKeepsInv(cfg, popped, g, s.inflight[t].count);
      case Rollouts(rollouts) => CollectKeepsInv(cfg, popped, g, rollouts);
    }
  }

  /* ---------- Policy updates ---------- */

  lemma BeginUpdateKeepsInv(cfg: Config, s: State, step: int)
    requires Inv(cfg, s) && Enabled(cfg, s, UpdateBegins(step))
    ensures Inv(cfg, BeginUpdate(cfg, s, step))
  {
    var q := BeginUpdate(cfg, s, step);
    forall h | h in q.groups ensures GroupTotal(q, h) == cfg.groupSize {
      assert GroupTotal(s, h) == cfg.groupSize;
    }
  }

  lemma EndUpdateKeepsInv(cfg: Config, s: State)
    requires Inv(cfg, s) && Enabled(cfg, s, UpdateEnds)
    ensures Inv(cfg, EndUpdate(s))
  {
    EndUpdateKeepsBooks(cfg, s);
    var q := EndUpdate(s);
    SameCount(q.inflight, s.inflight, None, s.nextTask);
    forall h | h in q.groups ensures GroupTotal(q, h) == cfg.groupSize {
      SameCount(q.inflight, s.inflight, Some(h), s.nextTask);
      assert GroupTotal(s, h) == cfg.groupSize;
    }
  }

  lemma EndUpdateKeepsBooks(cfg: Config, s: State)
    requires Books(cfg, s) && Enabled(cfg, s, UpdateEnds)
    ensures Books(cfg, EndUpdate(s))
  {
  }

  lemma CancelAllKeepsInv(cfg: Config, s: State)
    requires Inv(cfg, s)
    ensures Inv(cfg, Next(cfg, s, CancelAll))
  {
    SameCountBelow(s.inflight, s.nextTask);
  }

  lemma {:induction false} SameCountBelow(inflight: map<TaskId, Request>, n: nat)
    ensures CountIn(map[], None, n) == 0 <= CountIn(inflight, None, n)
  {
    if n > 0 { SameCountBelow(inflight, n - 1); }
  }

  /* ---------- Every run ---------- */

  lemma StepKeepsInv(cfg: Config, s: State, event: Event)
    requires Inv(cfg, s) && Enabled(cfg, s, event) && cfg.groupSize >= 1
    ensures Inv(cfg, Next(cfg, s, event))
  {
    match event
    case PickRequest(scored) => PickKeepsInv(cfg, s, scored);
    case LaunchRequest(client) => LaunchKeepsInv(cfg, s, client);
    case FinishTask(t, outcome) => FinishKeepsInv(cfg, s, t, outcome);
    case UpdateBegins(step) => BeginUpdateKeepsInv(cfg, s, step);
    case StaleDropped(g) => DropStaleKeepsInv(cfg, s, g);
    case UpdateEnds => EndUpdateKeepsInv(cfg, s);
    case CancelAll => CancelAllKeepsInv(cfg, s);
  }

  lemma {:induction false} RunKeepsInv(cfg: Config, events: seq<Event>)
    requires cfg.groupSize >= 1
    ensures Inv(cfg, Run(cfg, events))
    decreases |events|
  {
    if events != [] {
      var before := Run(cfg, events[..|events| - 1]);
      RunKeepsInv(cfg, events[..|events| - 1]);
      if Enabled(cfg, before, events[|events| - 1]) {
        StepKeepsInv(cfg, before, events[|events| - 1]);
      }
    }
  }

  lemma GroupsAreAccountedFor(cfg: Config, events: seq<Event>, g: GroupId)
    requires cfg.groupSize >= 1 && g in Run(cfg, events).groups
    ensures var s := Run(cfg, events);
      && s.groups[g].toSchedule + CountIn(s.inflight, Some(g), s.nextTask)
           + |s.groups[g].completed| + s.groups[g].failed == cfg.groupSize
      && s.groups[g].completed == Returned(s.log, g)
  {
    RunKeepsInv(cfg, events);
    assert GroupTotal(Run(cfg, events), g) == cfg.groupSize;
  }

  lemma InflightIsBounded(cfg: Config, events: seq<Event>)
    requires cfg.groupSize >= 1
    ensures var s := Run(cfg, events);
      && InflightRollouts(s) <= cfg.maxInflight
      && forall t :: t in s.inflight ==> s.inflight[t].group in s.groups
  {
    RunKeepsInv(cfg, events);
  }

  /** A group is delivered at most once, with every valid rollout its tasks returned, after all came back. */
  lemma DeliveriesAreWhole(cfg: Config, events: seq<Event>, i: nat, j: nat)
    requires cfg.groupSize >= 1 && i < |Run(cfg, events).delivered| && j < |Run(cfg, events).delivered|
    ensures var s := Run(cfg, events);
      && (s.delivered[i].group == s.delivered[j].group ==> i == j)
      && s.delivered[i].rollouts == Returned(s.log, s.delivered[i].group)
      && |s.delivered[i].rollouts| + Failed(s.log, s.delivered[i].group) == cfg.groupSize
  {
    RunKeepsInv(cfg, events);
  }

  /** Between updates a request is as old as the updates it has seen, and never too old. */
  lemma OffPolicyIsExact(cfg: Config, events: seq<Event>, t: TaskId)
    requires cfg.groupSize >= 1 && t in Run(cfg, events).inflight && Run(cfg, events).update.None?
    ensures var s := Run(cfg, events);
      && s.inflight[t].off == s.updates - s.inflight[t].born
      && (cfg.delta ==> s.inflight[t].off == s.ckpt - s.inflight[t].salt)
      && s.inflight[t].off <= cfg.maxOff
  {
    RunKeepsInv(cfg, events);
  }
}
