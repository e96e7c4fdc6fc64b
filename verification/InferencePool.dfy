/** The static inference pool: its methods compute exactly what PoolModel says. */
module InferencePool {
  import opened Wrappers
  import opened PoolModel
  import Model = PoolModel

  datatype EndpointResult = EndpointResult(endpoint: Endpoint, ok: bool)

  function ToSet(s: seq<Endpoint>): set<Endpoint> {
    set e | e in s
  }

  predicate Distinct(s: seq<Endpoint>) {
    forall i, j :: 0 <= i < j < |s| ==> s[i] != s[j]
  }

  /* ---------- Sorting the retained versions ---------- */

  lemma {:induction false} MinExists(keys: set<int>)
    requires keys != {}
    ensures exists m :: m in keys && forall k :: k in keys ==> m <= k
  {
    EmptyOrMember(keys);
    var x :| x in keys;
    var rest := keys - {x};
    assert forall k :: k in keys ==> k == x || k in rest;
    if rest != {} {
      MinExists(rest);
      var m :| m in rest && forall k :: k in rest ==> m <= k;
      var least := if x < m then x else m;
      assert least in keys;
      assert forall k :: k in keys ==> least <= k;
    }
  }

  function SortedVersions(keys: set<int>): (s: seq<int>)
    ensures forall i, j :: 0 <= i < j < |s| ==> s[i] < s[j]
    ensures forall k :: k in keys <==> k in s
    decreases |keys|
  {
    if keys == {} then []
    else
      MinExists(keys);
      var m :| m in keys && forall k :: k in keys ==> m <= k;
      [m] + SortedVersions(keys - {m})
  }

  /** The effect of the requests up to i, and of request i. */
  lemma SendStep(p: Pool, targets: seq<Endpoint>, i: nat, call: Call, replies: Replies)
    requires i < |targets| && Distinct(targets) && targets[i] < |p.servers|
    ensures var e, done, more := targets[i], ToSet(targets[..i]), ToSet(targets[..i + 1]);
      && ServersAfter(p.servers, done, call, replies)[e] == p.servers[e]
      && ServersAfter(p.servers, more, call, replies) ==
         ServersAfter(p.servers, done, call, replies)[e := Respond(p.servers[e], call, replies(e))]
      && CommitCalls(p, more, call) == CommitCalls(p, done, call) + CommitCalls(p, {e}, call)
  {
    var e, done, more := targets[i], ToSet(targets[..i]), ToSet(targets[..i + 1]);
    assert e !in targets[..i];
    assert targets[..i + 1] == targets[..i] + [e];
    assert more == done + {e};
  }

  /** The first i requests have been answered. */
  ghost predicate Sent(p: Pool, targets: seq<Endpoint>, i: nat, call: Call, replies: Replies, servers: seq<Server>,
                       commits: set<CommitCall>)
    requires i <= |targets|
  {
    && servers == ServersAfter(p.servers, ToSet(targets[..i]), call, replies)
    && commits == p.commits + CommitCalls(p, ToSet(targets[..i]), call)
  }

  lemma SendNext(p: Pool, targets: seq<Endpoint>, i: nat, call: Call, replies: Replies, servers: seq<Server>,
                 commits: set<CommitCall>)
    requires i < |targets| && Distinct(targets) && targets[i] < |p.servers|
    requires Sent(p, targets, i, call, replies, servers, commits)
    ensures Sent(p, targets, i + 1, call, replies,
                 servers[targets[i] := Respond(servers[targets[i]], call, replies(targets[i]))],
                 commits + CommitCalls(p, {targets[i]}, call))
  {
    SendStep(p, targets, i, call, replies);
  }

  /* ---------- The loop of the replay plan ---------- */

  ghost predicate SortedKeys(entries: map<int, Entry>, versions: seq<int>) {
    && (forall v :: v in entries <==> v in versions)
    && (forall j, k :: 0 <= j < k < |versions| ==> versions[j] < versions[k])
    && (forall v :: v in entries ==> entries[v].version == v)
  }

  /** After i sorted versions: the plan is 1, 2, ... and every version not taken is above the active one. */
  ghost predicate Planned(entries: map<int, Entry>, versions: seq<int>, plan: seq<Entry>, i: nat, active: int) {
    && SortedKeys(entries, versions)
    && |plan| <= i <= |versions|
    && (plan != [] ==> |plan| <= active)
    && (forall k {:trigger versions[k]} :: 0 <= k < |plan| ==> versions[k] == k + 1)
    && (forall k :: 0 <= k < |plan| ==>
          plan[k].version == k + 1 && plan[k].version in entries && plan[k] == entries[plan[k].version])
    && AllAbove(versions, |plan|, i, active)
  }

  predicate AllAbove(versions: seq<int>, from: nat, to: nat, active: int)
    requires to <= |versions|
  {
    forall k {:trigger versions[k]} :: from <= k < to ==> versions[k] > active
  }

  function VersionAt(versions: seq<int>, k: nat): int {
    if k < |versions| then versions[k] else 0
  }

  lemma PlanOneMore(entries: map<int, Entry>, versions: seq<int>, plan: seq<Entry>, i: nat, active: int)
    requires Planned(entries, versions, plan, i, active) && i < |versions|
    requires versions[i] == |plan| + 1 <= active && versions[i] in entries
    ensures Planned(entries, versions, plan + [entries[versions[i]]], i + 1, active)
  {
    var skipped, current := VersionAt(versions, |plan|), versions[i];
    assert |plan| == i || active < skipped < current;
  }

  lemma PlanSkips(entries: map<int, Entry>, versions: seq<int>, plan: seq<Entry>, i: nat, active: int)
    requires Planned(entries, versions, plan, i, active) && i < |versions| && versions[i] > active
    ensures Planned(entries, versions, plan, i + 1, active)
  {
  }

  /** A retained version other than the expected one leaves a gap below it, or is below 1. */
  lemma GapIsFatal(entries: map<int, Entry>, versions: seq<int>, plan: seq<Entry>, i: nat, active: int)
    requires Planned(entries, versions, plan, i, active) && i < |versions|
    requires versions[i] <= active && versions[i] != |plan| + 1
    ensures !CoversExactly(entries, active)
  {
    assert versions[i] in versions;
    if versions[i] >= 1 {
      assert |plan| > 0 ==> versions[|plan| - 1] < versions[i];
      assert |plan| + 1 !in versions;
    }
  }

  /** The retained versions end before the active one. */
  lemma GapAtTheEnd(entries: map<int, Entry>, versions: seq<int>, plan: seq<Entry>, active: int)
    requires Planned(entries, versions, plan, |versions|, active) && |plan| + 1 <= active
    ensures !CoversExactly(entries, active)
  {
    assert |plan| + 1 !in versions;
  }

  /** At the end of the loop the plan holds every retained version up to the active one. */
  lemma PlanIsComplete(entries: map<int, Entry>, versions: seq<int>, plan: seq<Entry>, active: int)
    requires Planned(entries, versions, plan, |versions|, active) && |plan| >= active
    ensures ReplayPlan(entries, Some(active)) == Some(plan)
  {
    assert |plan| > 0 ==> versions[|plan| - 1] == |plan| <= active;
    forall v | 1 <= v <= active ensures v in entries {
      assert plan[v - 1].version == v;
    }
    forall v | v in entries && v <= active ensures 1 <= v {
      assert v in versions;
    }
    assert CoversExactly(entries, active);
    var spec := ReplayPlan(entries, Some(active)).value;
    forall k | 0 <= k < |plan| ensures plan[k] == spec[k] {
      assert plan[k].version == k + 1;
    }
    assert spec == plan;
  }

  /** Entry k of the plan comes first and, when it succeeds, the others behind it. */
  lemma ReplayNext(p: Pool, e: Endpoint, plan: seq<Entry>, k: nat, replies: nat -> Reply)
    requires e < |p.servers| && k < |plan|
    ensures var one := ReplayEntry(p, e, plan[k], replies(2 * k + 1), replies(2 * k + 2));
      Replay(p, e, plan, k, replies) == if one.ok then Replay(one.pool, e, plan, k + 1, replies) else one
  {
    ReplayOneIs(p, e, plan, k, replies);
  }

  class StaticInferencePool {
    const cfg: Config
    var endpointRuntime: seq<Lease>
    var stagedEndpoints: map<int, set<Endpoint>>
    var deltaReplayEntries: map<int, Entry>
    var activeVersion: Option<int>

    // The servers themselves, and the commits they received.
    ghost var servers: seq<Server>
    ghost var commits: set<CommitCall>

    ghost predicate Valid()
      reads this
    {
      && |endpointRuntime| == |servers|
      && forall v :: v in deltaReplayEntries ==> deltaReplayEntries[v].version == v
    }

    ghost function State(): Pool
      reads this
    {
      Pool(endpointRuntime, stagedEndpoints, deltaReplayEntries, activeVersion, servers, commits)
    }

    constructor (cfg: Config, adminClients: nat)
      ensures Valid() && this.cfg == cfg
      ensures State() == Pool(seq(adminClients, _ => Healthy), map[], map[], None,
                              seq(adminClients, _ => Server(Deltas([]), map[])), {})
    {
      this.cfg := cfg;
      endpointRuntime := seq(adminClients, _ => Healthy);
      stagedEndpoints, deltaReplayEntries, activeVersion := map[], map[], None;
      servers := seq(adminClients, _ => Server(Deltas([]), map[]));
      commits := {};
    }

    /** The endpoints a weight operation addresses; none means that the code raises. */
    method HealthyAdminClients() returns (selected: seq<Endpoint>)
      requires Valid()
      modifies this`endpointRuntime
      ensures Valid()
      ensures endpointRuntime == RetireQuarantined(old(endpointRuntime))
      ensures ToSet(selected) == HealthySet(old(endpointRuntime)) && Distinct(selected)
      ensures forall e :: e in selected ==> e < |endpointRuntime|
    {
      ghost var before := endpointRuntime;
      selected := [];
      for e := 0 to |endpointRuntime|
        invariant |endpointRuntime| == |before|
        invariant forall x :: 0 <= x < e ==> endpointRuntime[x] == RetireQuarantined(before)[x]
        invariant forall x :: e <= x < |before| ==> endpointRuntime[x] == before[x]
        invariant forall x :: x in selected <==> 0 <= x < e && before[x] == Healthy
        invariant Distinct(selected)
      {
        if endpointRuntime[e] == Healthy {
          selected := selected + [e];
          continue;
        }
        if endpointRuntime[e] == Quarantine {
          endpointRuntime := endpointRuntime[e := Retired];
        }
      }
    }

    /** One request to every target; rollout failures may strike while the answers are awaited. */
    method RunEndpointOperations(targets: seq<Endpoint>, call: Call, replies: Replies)
      returns (results: seq<EndpointResult>)
      requires Valid() && Distinct(targets)
      requires forall e :: e in targets ==> e < |endpointRuntime|
      modifies this`endpointRuntime, this`servers, this`commits
      ensures Valid()
      ensures |results| == |targets|
      ensures forall i :: 0 <= i < |targets| ==> results[i] == EndpointResult(targets[i], replies(targets[i]).ok)
      ensures servers == ServersAfter(old(servers), ToSet(targets), call, replies)
      ensures commits == old(commits) + CommitCalls(old(State()), ToSet(targets), call)
      ensures endpointRuntime == Hit(old(endpointRuntime), HitSet(|old(endpointRuntime)|, replies))
    {
      results := SendToAll(targets, call, replies);
      StrikeDuringAwait(HitSet(|endpointRuntime|, replies));
    }

    /** The requests themselves. */
    method SendToAll(targets: seq<Endpoint>, call: Call, replies: Replies) returns (results: seq<EndpointResult>)
      requires Valid() && Distinct(targets)
      requires forall e :: e in targets ==> e < |endpointRuntime|
      modifies this`servers, this`commits
      ensures Valid()
      ensures |results| == |targets|
      ensures forall i :: 0 <= i < |targets| ==> results[i] == EndpointResult(targets[i], replies(targets[i]).ok)
      ensures servers == ServersAfter(old(servers), ToSet(targets), call, replies)
      ensures commits == old(commits) + CommitCalls(old(State()), ToSet(targets), call)
    {
      ghost var before := State();
      results := [];
      for i := 0 to |targets|
        invariant |results| == i
        invariant forall k :: 0 <= k < i ==> results[k] == EndpointResult(targets[k], replies(targets[k]).ok)
        invariant |servers| == |before.servers| && Sent(before, targets, i, call, replies, servers, commits)
      {
        var e := targets[i];
        assert e in targets;
        SendNext(before, targets, i, call, replies, servers, commits);
        commits := commits + CommitCalls(before, {e}, call);
        servers := servers[e := Respond(servers[e], call, replies(e))];
        results := results + [EndpointResult(e, replies(e).ok)];
      }
      assert targets[..|targets|] == targets;
    }

    /** Rollout failures while a call is awaited: `quarantine_client` for each struck endpoint. */
    method StrikeDuringAwait(hits: set<Endpoint>)
      requires Valid()
      modifies this`endpointRuntime
      ensures Valid() && endpointRuntime == Hit(old(endpointRuntime), hits)
    {
      ghost var before := endpointRuntime;
      for e := 0 to |endpointRuntime|
        invariant |endpointRuntime| == |before|
        invariant forall x :: 0 <= x < e ==> endpointRuntime[x] == Hit(before, hits)[x]
        invariant forall x :: e <= x < |before| ==> endpointRuntime[x] == before[x]
      {
        if e in hits && endpointRuntime[e] == Healthy {
          endpointRuntime := endpointRuntime[e := Quarantine];
        }
      }
    }

    /** Retires every endpoint with a failed result. */
    method MarkFailedEndpointsRetired(results: seq<EndpointResult>)
      requires Valid()
      requires forall i :: 0 <= i < |results| ==> results[i].endpoint < |endpointRuntime|
      modifies this`endpointRuntime
      ensures Valid()
      ensures |endpointRuntime| == |old(endpointRuntime)|
      ensures forall e :: 0 <= e < |endpointRuntime| ==>
        endpointRuntime[e] == if EndpointResult(e, false) in results then Retired else old(endpointRuntime[e])
    {
      for i := 0 to |results|
        invariant |endpointRuntime| == |old(endpointRuntime)|
        invariant forall e :: 0 <= e < |endpointRuntime| ==>
          endpointRuntime[e] == if EndpointResult(e, false) in results[..i] then Retired else old(endpointRuntime[e])
      {
        if !results[i].ok {
          endpointRuntime := endpointRuntime[results[i].endpoint := Retired];
        }
      }
      assert results[..|results|] == results;
    }

    /** A recorded operation: the endpoints that succeeded; none of them means that the code raises. */
    method RecordedCall(targets: seq<Endpoint>, call: Call, replies: Replies) returns (oks: set<Endpoint>)
      requires Valid() && Distinct(targets) && targets != []
      requires forall e :: e in targets ==> e < |endpointRuntime|
      modifies this`endpointRuntime, this`servers, this`commits
      ensures Valid()
      ensures State() == CallAll(old(State()), ToSet(targets), call, replies)
      ensures oks == Succeeded(ToSet(targets), replies)
    {
      var results := RunEndpointOperations(targets, call, replies);
      ghost var hit := endpointRuntime;
      forall i | 0 <= i < |results| ensures results[i].endpoint < |endpointRuntime| {
        assert targets[i] in targets;
      }
      MarkFailedEndpointsRetired(results);
      oks := set i | 0 <= i < |results| && results[i].ok :: results[i].endpoint;
      forall e | 0 <= e < |endpointRuntime|
        ensures endpointRuntime[e] == RetireFailed(hit, ToSet(targets), replies)[e]
      {
        if e in targets {
          var i :| 0 <= i < |targets| && targets[i] == e;
          assert results[i] == EndpointResult(e, replies(e).ok);
        }
      }
      assert endpointRuntime == RetireFailed(hit, ToSet(targets), replies);
      forall e | e in Succeeded(ToSet(targets), replies) ensures e in oks {
        var i :| 0 <= i < |targets| && targets[i] == e;
        assert results[i].ok;
      }
    }

    method StageWeights(version: int, path: Path, base: Option<int>, replies: Replies) returns (ok: bool)
      requires Valid()
      modifies this
      ensures Valid()
      ensures Outcome(State(), ok) == Model.StageWeights(old(State()), version, path, base, replies)
    {
      var targets := HealthyAdminClients();
      if targets == [] {
        return false;
      }
      assert targets[0] in ToSet(targets);
      var oks := RecordedCall(targets, StageDelta(version, path), replies);
      if oks == {} {
        return false;
      }
      stagedEndpoints := stagedEndpoints[version := oks];
      deltaReplayEntries := deltaReplayEntries[version := Entry(path, version, base)];
      ok := true;
    }

    /** Commits a version, staging it first where it is missing, then recovers who can be recovered. */
    method CommitWeights(version: int, stageReplies: Replies, commitReplies: Replies, scripts: Scripts)
      returns (ok: bool)
      requires Valid()
      modifies this
      ensures Valid()
      ensures Outcome(State(), ok) ==
        Model.CommitWeights(cfg, old(State()), version, stageReplies, commitReplies, scripts)
    {
      ok := StageMissingEndpoints(version, stageReplies);
      if !ok {
        return;
      }
      ghost var staged := State();
      var targets := HealthyAdminClients();
      if targets == [] {
        return false;
      }
      assert targets[0] in ToSet(targets);
      var oks := RecordedCall(targets, CommitVersion(version), commitReplies);
      if oks == {} {
        return false;
      }
      activeVersion := Some(version);
      assert Outcome(State(), true) == CommitHealthy(staged, version, commitReplies);
      if cfg.recoveryEnabled {
        RecoverUnhealthyEndpointsLocked(scripts);
      }
      ok := true;
    }

    method StageMissingEndpoints(version: int, replies: Replies) returns (ok: bool)
      requires Valid()
      modifies this
      ensures Valid()
      ensures Outcome(State(), ok) == StageMissing(cfg, old(State()), version, replies)
    {
      ok := true;
      if version in deltaReplayEntries {
        var entry := deltaReplayEntries[version];
        ghost var healthy := HealthySet(endpointRuntime);
        var clients := HealthyAdminClients();
        if clients == [] {
          return false;
        }
        assert clients[0] in healthy;
        var holders := if version in stagedEndpoints then stagedEndpoints[version] else {};
        var missing: seq<Endpoint> := [];
        for i := 0 to |clients|
          invariant forall e :: e in missing <==> e in clients[..i] && e !in holders
          invariant Distinct(missing)
        {
          assert clients[i] !in clients[..i];
          if clients[i] !in holders {
            missing := missing + [clients[i]];
          }
        }
        assert clients[..|clients|] == clients;
        assert ToSet(missing) == healthy - holders;
        if missing != [] {
          assert missing[0] in ToSet(missing);
          var oks := RecordedCall(missing, StageDelta(entry.version, entry.path), replies);
          if oks == {} {
            ok := HasTrainClients(cfg, endpointRuntime);
          } else {
            stagedEndpoints := stagedEndpoints[version := holders + oks];
          }
        }
      }
    }

    method RecoverUnhealthyEndpoints(scripts: Scripts)
      requires Valid()
      modifies this
      ensures Valid()
      ensures State() == RecoverUnhealthy(cfg, old(State()), scripts)
    {
      if !cfg.recoveryEnabled {
        return;
      }
      RecoverUnhealthyEndpointsLocked(scripts);
    }

    /** The recovery loop; the caller holds the weight-update lock. */
    method RecoverUnhealthyEndpointsLocked(scripts: Scripts)
      requires Valid()
      modifies this
      ensures Valid()
      ensures State() == RecoverFrom(old(State()), scripts, 0)
    {
      ghost var total := |endpointRuntime|;
      for e := 0 to |endpointRuntime|
        invariant Valid() && |endpointRuntime| == total
        invariant RecoverFrom(State(), scripts, e) == RecoverFrom(old(State()), scripts, 0)
      {
        RecoverIfDue(e, scripts(e));
      }
    }

    /** One round of the recovery loop. */
    method RecoverIfDue(e: Endpoint, script: Script)
      requires Valid() && e < |endpointRuntime|
      modifies this
      ensures Valid()
      ensures State() == RecoverStep(old(State()), e, script)
    {
      if endpointRuntime[e] != Quarantine && endpointRuntime[e] != Retired {
        return;
      }
      if !script.due {
        return;
      }
      StrikeDuringAwait(script.hits);
      if script.alive {
        RecoverRetiredEndpoint(e, script.replies);
      }
    }

    /** Forgets everything staged on an endpoint that is about to be reloaded. */
    method DiscardStagedEverywhere(e: Endpoint)
      modifies this`stagedEndpoints
      ensures stagedEndpoints == DiscardStaged(old(stagedEndpoints), e)
    {
      var versions := stagedEndpoints.Keys;
      ghost var before := stagedEndpoints;
      while versions != {}
        invariant stagedEndpoints.Keys == before.Keys && versions <= before.Keys
        invariant forall v :: v in before ==>
          stagedEndpoints[v] == if v in versions then before[v] else before[v] - {e}
        decreases |versions|
      {
        EmptyOrMember(versions);
        var v :| v in versions;
        stagedEndpoints := stagedEndpoints[v := stagedEndpoints[v] - {e}];
        versions := versions - {v};
      }
      forall v | v in before ensures stagedEndpoints[v] == DiscardStaged(before, e)[v] {
      }
      assert stagedEndpoints == DiscardStaged(before, e);
    }

    /** One call of the recovery to one endpoint; a failure retires it and raises. */
    method RecoveryCall(e: Endpoint, call: Call, reply: Reply) returns (ok: bool)
      requires Valid() && e < |endpointRuntime|
      modifies this`endpointRuntime, this`servers, this`commits
      ensures Valid() && ok == reply.ok
      ensures State() == CallOne(old(State()), e, call, reply).(
        lease := if ok then old(endpointRuntime) else old(endpointRuntime)[e := Retired])
    {
      commits := commits + CommitCalls(State(), {e}, call);
      servers := servers[e := Respond(servers[e], call, reply)];
      ok := reply.ok;
      if !ok {
        endpointRuntime := endpointRuntime[e := Retired];
      }
    }

    method RecoverRetiredEndpoint(e: Endpoint, replies: nat -> Reply)
      requires Valid() && e < |endpointRuntime|
      modifies this
      ensures Valid()
      ensures State() == RecoverOne(old(State()), e, replies)
    {
      endpointRuntime := endpointRuntime[e := Recovering];
      DiscardStagedEverywhere(e);
      ghost var started := State();
      var ok := ReloadAndReplayEndpoint(e, replies);
      if !ok {
        endpointRuntime := endpointRuntime[e := Retired];
        return;
      }
      endpointRuntime := endpointRuntime[e := Healthy];
    }

    /** The guarded part of the recovery of one endpoint: reload, then replay the plan. */
    method ReloadAndReplayEndpoint(e: Endpoint, replies: nat -> Reply) returns (ok: bool)
      requires Valid() && e < |endpointRuntime|
      modifies this
      ensures Valid()
      ensures var o := ReloadAndReplay(old(State()), e, replies);
        ok == o.ok && After(old(endpointRuntime), e, o.pool)
    {
      ok := RecoveryCall(e, ReloadBase, replies(0));
      if !ok {
        return;
      }
      var plan := DeltaReplayPlan();
      if plan.None? {
        return false;
      }
      ok := ReplayOnEndpoint(e, plan.value, replies);
    }

    /** The loop over the plan; the first failed call ends it. */
    method ReplayOnEndpoint(e: Endpoint, plan: seq<Entry>, replies: nat -> Reply) returns (ok: bool)
      requires Valid() && e < |endpointRuntime|
      modifies this
      ensures Valid()
      ensures var o := Replay(old(State()), e, plan, 0, replies);
        ok == o.ok && After(old(endpointRuntime), e, o.pool)
    {
      ghost var before := State();
      var k := 0;
      while k < |plan|
        invariant 0 <= k <= |plan| && Valid()
        invariant endpointRuntime == before.lease
        invariant Replay(State(), e, plan, k, replies) == Replay(before, e, plan, 0, replies)
      {
        ReplayNext(State(), e, plan, k, replies);
        ok := ReplayEntryOnEndpoint(e, plan[k], replies(2 * k + 1), replies(2 * k + 2));
        if !ok {
          return;
        }
        k := k + 1;
      }
      ok := true;
    }

    /** The state of `pool`, but for the leases: e may have been retired. */
    ghost predicate After(lease: seq<Lease>, e: Endpoint, pool: Pool)
      reads this
    {
      && |endpointRuntime| == |lease|
      && State() == pool.(lease := endpointRuntime)
      && forall x :: 0 <= x < |endpointRuntime| && x != e ==> endpointRuntime[x] == lease[x]
    }

    /** Stage and commit of one delta on one endpoint. */
    method ReplayEntryOnEndpoint(e: Endpoint, entry: Entry, stageReply: Reply, commitReply: Reply) returns (ok: bool)
      requires Valid() && e < |endpointRuntime|
      modifies this
      ensures Valid()
      ensures var o := ReplayEntry(old(State()), e, entry, stageReply, commitReply);
        && ok == o.ok
        && After(old(endpointRuntime), e, o.pool)
        && (ok ==> endpointRuntime == old(endpointRuntime))
    {
      ok := RecoveryCall(e, StageDelta(entry.version, entry.path), stageReply);
      if !ok {
        return;
      }
      ok := RecoveryCall(e, CommitVersion(entry.version), commitReply);
      if !ok {
        return;
      }
      stagedEndpoints := stagedEndpoints[entry.version :=
        (if entry.version in stagedEndpoints then stagedEndpoints[entry.version] else {}) + {e}];
    }

    method SortedEntries() returns (versions: seq<int>)
      requires Valid()
      ensures SortedKeys(deltaReplayEntries, versions)
    {
      versions := SortedVersions(deltaReplayEntries.Keys);
    }

    /** The deltas to replay; None when the retained versions have a gap. */
    method DeltaReplayPlan() returns (r: Option<seq<Entry>>)
      requires Valid()
      ensures r == ReplayPlan(deltaReplayEntries, activeVersion)
    {
      if activeVersion.None? {
        return Some([]);
      }
      var active := activeVersion.value;
      var versions := SortedEntries();
      var plan: seq<Entry> := [];
      var expectedVersion := 1;
      for i := 0 to |versions|
        invariant expectedVersion == |plan| + 1
        invariant Planned(deltaReplayEntries, versions, plan, i, active)
      {
        assert versions[i] in versions;
        var entry := deltaReplayEntries[versions[i]];
        assert entry.version == versions[i];
        if entry.version > active {
          PlanSkips(deltaReplayEntries, versions, plan, i, active);
          continue;
        }
        if entry.version != expectedVersion {
          GapIsFatal(deltaReplayEntries, versions, plan, i, active);
          return None;
        }
        PlanOneMore(deltaReplayEntries, versions, plan, i, active);
        plan := plan + [entry];
        expectedVersion := expectedVersion + 1;
      }
      if expectedVersion <= active {
        GapAtTheEnd(deltaReplayEntries, versions, plan, active);
        return None;
      }
      PlanIsComplete(deltaReplayEntries, versions, plan, active);
      return Some(plan);
    }

    /** A rollout client failed: its endpoint leaves the routing. */
    method QuarantineClient(client: nat)
      requires Valid() && client < |cfg.clients|
      modifies this`endpointRuntime
      ensures Valid()
      ensures State() == Model.QuarantineClient(cfg, old(State()), client)
    {
      match cfg.clients[client] {
        case None =>
        case Some(e) =>
          if e >= |endpointRuntime| || endpointRuntime[e] != Healthy {
            return;
          }
          endpointRuntime := endpointRuntime[e := Quarantine];
      }
    }
  }
}
