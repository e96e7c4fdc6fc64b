/** What every pool operation keeps, whatever servers answer and whoever is quarantined meanwhile. */
module PoolTheorems {
  import opened Wrappers
  import opened PoolModel

  function ActiveOf(p: Pool): int {
    if p.active.Some? then p.active.value else 0
  }

  ghost predicate Covers(entries: map<int, Entry>, version: int) {
    forall v :: 1 <= v <= version ==> v in entries
  }

  /** Deltas 1..version in order. */
  function Chain(entries: map<int, Entry>, version: int): seq<Path>
    requires Covers(entries, version)
  {
    seq(if version < 0 then 0 else version, i requires 0 <= i < version => entries[i + 1].path)
  }

  /** The endpoint serves the base model with deltas 1..version applied in order. */
  ghost predicate ServesVersion(p: Pool, e: Endpoint, version: int) {
    && e < |p.servers|
    && Covers(p.entries, version)
    && p.servers[e].weights == Deltas(Chain(p.entries, version))
  }

  /** The server holds the remembered delta of a version. */
  predicate HoldsStaged(p: Pool, e: Endpoint, version: int) {
    && e < |p.servers|
    && version in p.entries
    && version in p.servers[e].staged
    && p.servers[e].staged[version] == p.entries[version].path
  }

  /** The commit reached a server one version behind, with the remembered delta staged. */
  ghost predicate CommitInTurn(p: Pool, c: CommitCall) {
    && ReadyToCommit(c.before, c.version)
    && Some(c.before.staged[c.version]) == c.remembered
    && Covers(p.entries, c.version - 1)
    && c.before.weights.applied == Chain(p.entries, c.version - 1)
    && c.version - 1 <= ActiveOf(p)
  }

  ghost predicate Remembers(p: Pool) {
    && (p.active.Some? ==> p.active.value >= 1)
    && (forall v :: v in p.entries ==> p.entries[v].version == v && 1 <= v <= ActiveOf(p) + 1)
    && Covers(p.entries, ActiveOf(p))
    && (forall v :: v in p.staged ==> v <= ActiveOf(p) + 1)
  }

  ghost predicate HealthyServe(p: Pool) {
    forall e :: 0 <= e < |p.lease| && p.lease[e] == Healthy ==> ServesVersion(p, e, ActiveOf(p))
  }

  ghost predicate StagedHold(p: Pool) {
    forall v, e {:trigger e in p.staged[v]} ::
      v in p.staged && v > ActiveOf(p) && e in p.staged[v] && e < |p.lease| && p.lease[e] == Healthy ==>
        HoldsStaged(p, e, v)
  }

  ghost predicate CommitsInTurn(p: Pool) {
    forall c :: c in p.commits ==> CommitInTurn(p, c)
  }

  ghost predicate NobodyRecovering(p: Pool) {
    forall e :: 0 <= e < |p.lease| ==> p.lease[e] != Recovering
  }

  /** Holds whenever the weight-update lock is free. */
  ghost predicate Inv(p: Pool) {
    && WellFormed(p)
    && Remembers(p)
    && HealthyServe(p)
    && StagedHold(p)
    && CommitsInTurn(p)
    && NobodyRecovering(p)
  }

  /** Losing healthy endpoints never hurts. */
  lemma FewerHealthy(p: Pool, lease: seq<Lease>)
    requires Inv(p) && |lease| == |p.lease|
    requires forall e :: 0 <= e < |lease| ==> lease[e] == p.lease[e] || lease[e] == Quarantine || lease[e] == Retired
    ensures Inv(p.(lease := lease))
  {
    var q := p.(lease := lease);
    forall e | 0 <= e < |lease| && lease[e] == Healthy ensures ServesVersion(q, e, ActiveOf(q)) {
      assert ServesVersion(p, e, ActiveOf(p));
    }
    forall v, e | v in q.staged && v > ActiveOf(q) && e in q.staged[v] && e < |lease| && lease[e] == Healthy
      ensures HoldsStaged(q, e, v)
    {
      assert e in p.staged[v];
    }
    forall c | c in q.commits ensures CommitInTurn(q, c) {
      assert CommitInTurn(p, c);
    }
  }

  lemma QuarantineKeepsInv(cfg: Config, p: Pool, client: nat)
    requires Inv(p) && client < |cfg.clients|
    ensures Inv(QuarantineClient(cfg, p, client))
  {
    FewerHealthy(p, QuarantineClient(cfg, p, client).lease);
  }

  /* ---------- Staging ---------- */

  /** After a stage call the survivors hold the delta and still serve the active version. */
  lemma StageCall(p: Pool, targets: set<Endpoint>, version: int, path: Path, replies: Replies)
    requires Inv(p) && targets <= HealthySet(p.lease)
    ensures Inv(CallAll(p, targets, StageDelta(version, path), replies).(staged := map[]))
    ensures var q := CallAll(p, targets, StageDelta(version, path), replies);
      && q.entries == p.entries && q.active == p.active && q.staged == p.staged && q.commits == p.commits
      && (forall e :: e in Succeeded(targets, replies) ==>
            version in q.servers[e].staged && q.servers[e].staged[version] == path)
      && (forall e :: 0 <= e < |q.lease| && q.lease[e] == Healthy ==>
            p.lease[e] == Healthy &&
            (e in Succeeded(targets, replies) || (e !in targets && q.servers[e] == p.servers[e])))
  {
    var q := CallAll(p, targets, StageDelta(version, path), replies);
    assert CommitCalls(p, targets, StageDelta(version, path)) == {};
    forall e | 0 <= e < |q.lease| && q.lease[e] == Healthy ensures ServesVersion(q, e, ActiveOf(q)) {
      assert ServesVersion(p, e, ActiveOf(p));
    }
    forall c | c in q.commits ensures CommitInTurn(q, c) {
      assert CommitInTurn(p, c);
    }
  }

  /** Remembering (version, path) for the next version keeps everything remembered so far. */
  lemma ChainGrows(entries: map<int, Entry>, version: int, entry: Entry, upTo: int)
    requires Covers(entries, upTo) && upTo < version
    ensures Covers(entries[version := entry], upTo)
    ensures Chain(entries[version := entry], upTo) == Chain(entries, upTo)
  {
  }

  lemma RememberEntry(p: Pool, entry: Entry)
    requires Inv(p.(staged := map[])) && entry.version == ActiveOf(p) + 1
    ensures Inv(p.(staged := map[], entries := p.entries[entry.version := entry]))
  {
    var bare := p.(staged := map[]);
    var q := p.(staged := map[], entries := p.entries[entry.version := entry]);
    ChainGrows(p.entries, entry.version, entry, ActiveOf(p));
    forall e | 0 <= e < |q.lease| && q.lease[e] == Healthy ensures ServesVersion(q, e, ActiveOf(q)) {
      assert ServesVersion(bare, e, ActiveOf(bare));
    }
    forall c | c in q.commits ensures CommitInTurn(q, c) {
      assert CommitInTurn(bare, c);
      ChainGrows(p.entries, entry.version, entry, c.version - 1);
    }
  }

  lemma StageKeepsInv(p: Pool, version: int, path: Path, base: Option<int>, replies: Replies)
    requires Inv(p) && version == ActiveOf(p) + 1
    ensures var o := StageWeights(p, version, path, base, replies);
      && Inv(o.pool)
      && o.pool.active == p.active
      && (o.ok ==> version in o.pool.entries && o.pool.entries[version] == Entry(path, version, base))
      && (!o.ok ==> o.pool.entries == p.entries)
  {
    var targets := HealthySet(p.lease);
    var filtered := p.(lease := RetireQuarantined(p.lease));
    FewerHealthy(p, filtered.lease);
    if targets != {} {
      var q := CallAll(filtered, targets, StageDelta(version, path), replies);
      StageCall(filtered, targets, version, path, replies);
      var oks := Succeeded(targets, replies);
      if oks == {} {
        AnyStaged(q, q.staged);
      } else {
        HoldersNoted(q, Entry(path, version, base), oks);
      }
    }
  }

  /** Remembering the entry and noting who holds it, when every healthy endpoint among them does. */
  lemma HoldersNoted(p: Pool, entry: Entry, oks: set<Endpoint>)
    requires Inv(p.(staged := map[])) && entry.version == ActiveOf(p) + 1
    requires forall v :: v in p.staged ==> v <= ActiveOf(p) + 1
    requires forall e :: e in oks && e < |p.servers| ==>
      entry.version in p.servers[e].staged && p.servers[e].staged[entry.version] == entry.path
    ensures Inv(p.(staged := p.staged[entry.version := oks], entries := p.entries[entry.version := entry]))
  {
    RememberEntry(p, entry);
    AnyStaged(p.(entries := p.entries[entry.version := entry]), p.staged[entry.version := oks]);
  }

  /** With nobody healthy among the staged, the staged sets are free. */
  lemma AnyStaged(p: Pool, staged: map<int, set<Endpoint>>)
    requires Inv(p.(staged := map[]))
    requires forall v :: v in staged ==> v <= ActiveOf(p) + 1
    requires StagedHold(p.(staged := staged))
    ensures Inv(p.(staged := staged))
  {
    var bare, q := p.(staged := map[]), p.(staged := staged);
    forall e | 0 <= e < |q.lease| && q.lease[e] == Healthy ensures ServesVersion(q, e, ActiveOf(q)) {
      assert ServesVersion(bare, e, ActiveOf(bare));
    }
    forall c | c in q.commits ensures CommitInTurn(q, c) {
      assert CommitInTurn(bare, c);
    }
  }

  /* ---------- Committing ---------- */

  /** Every healthy endpoint holds the remembered delta. */
  ghost predicate EveryoneHolds(p: Pool, version: int) {
    forall e :: 0 <= e < |p.lease| && p.lease[e] == Healthy ==> HoldsStaged(p, e, version)
  }

  lemma StageMissingKeepsInv(cfg: Config, p: Pool, version: int, replies: Replies)
    requires Inv(p) && version == ActiveOf(p) + 1 && version in p.entries
    ensures var o := StageMissing(cfg, p, version, replies);
      && Inv(o.pool)
      && o.pool.entries == p.entries && o.pool.active == p.active
      && (o.ok ==> EveryoneHolds(o.pool, version))
  {
    var healthy := HealthySet(p.lease);
    var filtered := p.(lease := RetireQuarantined(p.lease));
    FewerHealthy(p, filtered.lease);
    assert HealthySet(filtered.lease) == healthy;
    var missing := healthy - StagedFor(p, version);
    if missing != {} {
      StageOnKeepsInv(cfg, filtered, version, missing, replies);
    } else {
      forall e | 0 <= e < |filtered.lease| && filtered.lease[e] == Healthy ensures HoldsStaged(filtered, e, version) {
        assert e in healthy && e !in missing;
        assert HoldsStaged(p, e, version);
      }
    }
  }

  lemma StageOnKeepsInv(cfg: Config, p: Pool, version: int, missing: set<Endpoint>, replies: Replies)
    requires Inv(p) && version == ActiveOf(p) + 1 && version in p.entries
    requires missing == HealthySet(p.lease) - StagedFor(p, version)
    ensures var o := StageOn(cfg, p, version, missing, replies);
      && Inv(o.pool)
      && o.pool.entries == p.entries && o.pool.active == p.active
      && EveryoneHolds(o.pool, version)
  {
    var path := p.entries[version].path;
    var q := CallAll(p, missing, StageDelta(version, path), replies);
    StageCall(p, missing, version, path, replies);
    HoldersAfterStage(p, missing, version, replies);
    var oks := Succeeded(missing, replies);
    if oks == {} {
      AnyStaged(q, q.staged);
    } else {
      RestageKeeps(q, version, StagedFor(p, version) + oks);
    }
  }

  /** Once every healthy endpoint holds the next version, any set may be noted for it. */
  lemma RestageKeeps(p: Pool, version: int, holders: set<Endpoint>)
    requires Inv(p.(staged := map[])) && version == ActiveOf(p) + 1
    requires forall v :: v in p.staged ==> v <= ActiveOf(p) + 1
    requires EveryoneHolds(p, version)
    ensures Inv(p.(staged := p.staged[version := holders]))
  {
    var q := p.(staged := p.staged[version := holders]);
    forall v, e | v in q.staged && v > ActiveOf(q) && e in q.staged[v] && e < |q.lease| && q.lease[e] == Healthy
      ensures HoldsStaged(q, e, v)
    {
      assert v == version && HoldsStaged(p, e, version);
    }
    AnyStaged(p, q.staged);
  }

  lemma HoldersAfterStage(p: Pool, missing: set<Endpoint>, version: int, replies: Replies)
    requires Inv(p) && version == ActiveOf(p) + 1 && version in p.entries
    requires missing == HealthySet(p.lease) - StagedFor(p, version)
    ensures EveryoneHolds(CallAll(p, missing, StageDelta(version, p.entries[version].path), replies), version)
  {
    var path := p.entries[version].path;
    var q := CallAll(p, missing, StageDelta(version, path), replies);
    StageCall(p, missing, version, path, replies);
    forall e | 0 <= e < |q.lease| && q.lease[e] == Healthy ensures HoldsStaged(q, e, version) {
      if e !in missing {
        assert e in p.staged[version];
        assert HoldsStaged(p, e, version);
      }
    }
  }

  lemma ChainExtends(entries: map<int, Entry>, version: int)
    requires version >= 1 && Covers(entries, version)
    ensures Chain(entries, version) == Chain(entries, version - 1) + [entries[version].path]
  {
  }

  /** A successful commit moves a ready server one version up. */
  lemma CommitMovesUp(p: Pool, e: Endpoint, version: int, reply: Reply)
    requires version >= 1 && Covers(p.entries, version)
    requires ServesVersion(p, e, version - 1) && HoldsStaged(p, e, version)
    ensures ReadyToCommit(p.servers[e], version)
    ensures reply.ok ==>
      Respond(p.servers[e], CommitVersion(version), reply).weights == Deltas(Chain(p.entries, version))
  {
    ChainExtends(p.entries, version);
  }

  lemma CommitCallsInTurn(p: Pool, targets: set<Endpoint>, version: int)
    requires Inv(p) && version == ActiveOf(p) + 1 && version in p.entries
    requires targets <= HealthySet(p.lease) && EveryoneHolds(p, version)
    ensures forall c :: c in CommitCalls(p, targets, CommitVersion(version)) ==> CommitInTurn(p, c)
  {
    forall c | c in CommitCalls(p, targets, CommitVersion(version)) ensures CommitInTurn(p, c) {
      assert ServesVersion(p, c.endpoint, version - 1);
      assert HoldsStaged(p, c.endpoint, version);
    }
  }

  lemma CommitHealthyKeepsInv(p: Pool, version: int, replies: Replies)
    requires Inv(p) && version == ActiveOf(p) + 1 && version in p.entries
    requires EveryoneHolds(p, version)
    ensures var o := CommitHealthy(p, version, replies);
      && Inv(o.pool)
      && o.pool.entries == p.entries
      && o.pool.active == if o.ok then Some(version) else p.active
  {
    var targets := HealthySet(p.lease);
    var filtered := p.(lease := RetireQuarantined(p.lease));
    FewerHealthy(p, filtered.lease);
    if targets != {} {
      assert EveryoneHolds(filtered, version);
      CommitCallsInTurn(filtered, targets, version);
      var q := CallAll(filtered, targets, CommitVersion(version), replies);
      AfterCommitCall(filtered, q, targets, version, replies);
    }
  }

  lemma AfterCommitCall(p: Pool, q: Pool, targets: set<Endpoint>, version: int, replies: Replies)
    requires Inv(p) && version == ActiveOf(p) + 1 && version in p.entries
    requires targets == HealthySet(p.lease) && EveryoneHolds(p, version)
    requires q == CallAll(p, targets, CommitVersion(version), replies)
    requires forall c :: c in q.commits - p.commits ==> CommitInTurn(p, c)
    ensures Succeeded(targets, replies) == {} ==> Inv(q)
    ensures Inv(q.(active := Some(version)))
  {
    var next := q.(active := Some(version));
    forall c | c in q.commits ensures CommitInTurn(q, c) && CommitInTurn(next, c) {
      assert CommitInTurn(p, c);
    }
    forall e | 0 <= e < |next.lease| && next.lease[e] == Healthy
      ensures e in Succeeded(targets, replies) && ServesVersion(next, e, version)
    {
      assert ServesVersion(p, e, version - 1);
      assert HoldsStaged(p, e, version);
      CommitMovesUp(p, e, version, replies(e));
    }
  }

  /* ---------- Recovering ---------- */

  /** The invariant while endpoint e is being recovered; no version above the active one is staged on e. */
  ghost predicate InvBut(p: Pool, e: Endpoint) {
    && WellFormed(p)
    && e < |p.lease| && p.lease[e] == Recovering
    && Remembers(p)
    && HealthyServe(p)
    && StagedHold(p)
    && CommitsInTurn(p)
    && (forall x :: 0 <= x < |p.lease| && x != e ==> p.lease[x] != Recovering)
    && (forall v :: v in p.staged && v > ActiveOf(p) ==> e !in p.staged[v])
  }

  /** A call to the endpoint under recovery is nobody else's business. */
  lemma CallOneKeeps(p: Pool, e: Endpoint, call: Call, reply: Reply)
    requires InvBut(p, e)
    requires forall c :: c in CommitCalls(p, {e}, call) ==> CommitInTurn(p, c)
    ensures InvBut(CallOne(p, e, call, reply), e)
  {
    var q := CallOne(p, e, call, reply);
    forall x | 0 <= x < |q.lease| && q.lease[x] == Healthy ensures ServesVersion(q, x, ActiveOf(q)) {
      assert ServesVersion(p, x, ActiveOf(p));
    }
    forall v, x | v in q.staged && v > ActiveOf(q) && x in q.staged[v] && x < |q.lease| && q.lease[x] == Healthy
      ensures HoldsStaged(q, x, v)
    {
      assert x in p.staged[v];
    }
    forall c | c in q.commits ensures CommitInTurn(q, c) {
      assert CommitInTurn(p, c);
    }
  }

  /** Noting e as staged for a version that is already active. */
  lemma NoteStagedKeeps(p: Pool, e: Endpoint, version: int)
    requires InvBut(p, e) && version <= ActiveOf(p)
    ensures InvBut(NoteStaged(p, e, version), e)
  {
    var q := NoteStaged(p, e, version);
    forall x | 0 <= x < |q.lease| && q.lease[x] == Healthy ensures ServesVersion(q, x, ActiveOf(q)) {
      assert ServesVersion(p, x, ActiveOf(p));
    }
    forall v, x | v in q.staged && v > ActiveOf(q) && x in q.staged[v] && x < |q.lease| && q.lease[x] == Healthy
      ensures HoldsStaged(q, x, v)
    {
      assert x in p.staged[v];
    }
    forall c | c in q.commits ensures CommitInTurn(q, c) {
      assert CommitInTurn(p, c);
    }
  }

  /** Stage then commit of version k + 1 on a server at version k. */
  lemma ReplayEntryKeeps(p: Pool, e: Endpoint, entry: Entry, k: nat, stageReply: Reply, commitReply: Reply)
    requires InvBut(p, e) && k + 1 <= ActiveOf(p) && entry == p.entries[k + 1] && ServesVersion(p, e, k)
    ensures var o := ReplayEntry(p, e, entry, stageReply, commitReply);
      InvBut(o.pool, e) && (o.ok ==> ServesVersion(o.pool, e, k + 1))
  {
    assert CommitCalls(p, {e}, StageDelta(entry.version, entry.path)) == {};
    CallOneKeeps(p, e, StageDelta(entry.version, entry.path), stageReply);
    var staged := CallOne(p, e, StageDelta(entry.version, entry.path), stageReply);
    if stageReply.ok {
      assert ServesVersion(staged, e, k) && HoldsStaged(staged, e, k + 1);
      CommitMovesUp(staged, e, k + 1, commitReply);
      CallOneKeeps(staged, e, CommitVersion(entry.version), commitReply);
      NoteStagedKeeps(CallOne(staged, e, CommitVersion(entry.version), commitReply), e, entry.version);
    }
  }

  lemma ReplayOneKeeps(p: Pool, e: Endpoint, plan: seq<Entry>, k: nat, replies: nat -> Reply)
    requires InvBut(p, e) && k < |plan| && k + 1 <= ActiveOf(p) && plan[k] == p.entries[k + 1] && ServesVersion(p, e, k)
    ensures var o := ReplayOne(p, e, plan, k, replies);
      InvBut(o.pool, e) && (o.ok ==> ServesVersion(o.pool, e, k + 1))
  {
    ReplayOneIs(p, e, plan, k, replies);
    ReplayEntryKeeps(p, e, plan[k], k, replies(2 * k + 1), replies(2 * k + 2));
  }

  lemma {:induction false} ReplayKeeps(p: Pool, e: Endpoint, plan: seq<Entry>, k: nat, replies: nat -> Reply)
    requires InvBut(p, e) && k <= |plan| == ActiveOf(p)
    requires forall i :: 0 <= i < |plan| ==> plan[i] == p.entries[i + 1]
    requires ServesVersion(p, e, k)
    ensures var o := Replay(p, e, plan, k, replies);
      && InvBut(o.pool, e)
      && (o.ok ==> ServesVersion(o.pool, e, ActiveOf(p)))
    decreases |plan| - k
  {
    if k < |plan| {
      ReplayOneKeeps(p, e, plan, k, replies);
      var one := ReplayOne(p, e, plan, k, replies);
      if one.ok {
        ReplayKeeps(one.pool, e, plan, k + 1, replies);
      }
    }
  }

  lemma ReplayOneSucceeds(p: Pool, e: Endpoint, plan: seq<Entry>, k: nat, replies: nat -> Reply)
    requires e < |p.servers| && k < |plan|
    ensures ReplayOne(p, e, plan, k, replies).ok <==> forall i :: 2 * k < i <= 2 * (k + 1) ==> replies(i).ok
  {
  }

  /** Replay succeeds exactly when every one of its calls does. */
  lemma {:induction false} ReplaySucceeds(p: Pool, e: Endpoint, plan: seq<Entry>, k: nat, replies: nat -> Reply)
    requires e < |p.servers| && k <= |plan|
    ensures Replay(p, e, plan, k, replies).ok <==> forall i :: 2 * k < i <= 2 * |plan| ==> replies(i).ok
    decreases |plan| - k
  {
    if k < |plan| {
      var one := ReplayOne(p, e, plan, k, replies);
      ReplayOneSucceeds(p, e, plan, k, replies);
      if one.ok {
        ReplaySucceeds(one.pool, e, plan, k + 1, replies);
      }
    }
  }

  /** Under the invariant the replay plan exists and is exactly 1..active in order. */
  lemma PlanIsTheChain(p: Pool)
    requires Remembers(p)
    ensures var plan := ReplayPlan(p.entries, p.active);
      && plan.Some? && |plan.value| == ActiveOf(p)
      && (forall i :: 0 <= i < |plan.value| ==> plan.value[i] == p.entries[i + 1] && plan.value[i].version == i + 1)
  {
  }

  lemma StartRecovery(p: Pool, e: Endpoint)
    requires Inv(p) && e < |p.lease| && p.lease[e] != Healthy
    ensures InvBut(SetLease(p, e, Recovering).(staged := DiscardStaged(p.staged, e)), e)
  {
    var q := SetLease(p, e, Recovering).(staged := DiscardStaged(p.staged, e));
    forall x | 0 <= x < |q.lease| && q.lease[x] == Healthy ensures ServesVersion(q, x, ActiveOf(q)) {
      assert ServesVersion(p, x, ActiveOf(p));
    }
    forall v, x | v in q.staged && v > ActiveOf(q) && x in q.staged[v] && x < |q.lease| && q.lease[x] == Healthy
      ensures HoldsStaged(q, x, v)
    {
      assert x in p.staged[v];
    }
    forall c | c in q.commits ensures CommitInTurn(q, c) {
      assert CommitInTurn(p, c);
    }
  }

  lemma FinishRecovery(p: Pool, e: Endpoint, state: Lease)
    requires InvBut(p, e) && (state == Retired || (state == Healthy && ServesVersion(p, e, ActiveOf(p))))
    ensures Inv(SetLease(p, e, state))
  {
    var q := SetLease(p, e, state);
    forall x | 0 <= x < |q.lease| && q.lease[x] == Healthy ensures ServesVersion(q, x, ActiveOf(q)) {
      assert x != e ==> ServesVersion(p, x, ActiveOf(p));
    }
    forall v, x | v in q.staged && v > ActiveOf(q) && x in q.staged[v] && x < |q.lease| && q.lease[x] == Healthy
      ensures HoldsStaged(q, x, v)
    {
      assert x in p.staged[v];
    }
    forall c | c in q.commits ensures CommitInTurn(q, c) {
      assert CommitInTurn(p, c);
    }
  }

  lemma ReloadAndReplayKeeps(p: Pool, e: Endpoint, replies: nat -> Reply)
    requires InvBut(p, e)
    ensures var o := ReloadAndReplay(p, e, replies);
      && InvBut(o.pool, e)
      && (o.ok ==> ServesVersion(o.pool, e, ActiveOf(p)))
      && (o.ok <==> forall i :: 0 <= i <= 2 * ActiveOf(p) ==> replies(i).ok)
  {
    assert CommitCalls(p, {e}, ReloadBase) == {};
    CallOneKeeps(p, e, ReloadBase, replies(0));
    PlanIsTheChain(p);
    if replies(0).ok {
      var reloaded, plan := CallOne(p, e, ReloadBase, replies(0)), ReplayPlan(p.entries, p.active).value;
      assert ServesVersion(reloaded, e, 0);
      ReplayKeeps(reloaded, e, plan, 0, replies);
      ReplaySucceeds(reloaded, e, plan, 0, replies);
    }
  }

  /** Recovery of one endpoint: back at the active version exactly when every call succeeds. */
  lemma RecoverOneKeepsInv(p: Pool, e: Endpoint, replies: nat -> Reply)
    requires Inv(p) && e < |p.lease| && p.lease[e] != Healthy
    ensures var q := RecoverOne(p, e, replies);
      && Inv(q)
      && (q.lease[e] == Healthy <==> forall i :: 0 <= i <= 2 * ActiveOf(p) ==> replies(i).ok)
      && (q.lease[e] == Healthy ==> ServesVersion(q, e, ActiveOf(p)))
  {
    var started := SetLease(p, e, Recovering).(staged := DiscardStaged(p.staged, e));
    StartRecovery(p, e);
    ReloadAndReplayKeeps(started, e, replies);
    var o := ReloadAndReplay(started, e, replies);
    FinishRecovery(o.pool, e, if o.ok then Healthy else Retired);
  }

  lemma RecoverStepKeepsInv(p: Pool, e: Endpoint, script: Script)
    requires Inv(p) && e < |p.lease|
    ensures Inv(RecoverStep(p, e, script))
  {
    if (p.lease[e] == Quarantine || p.lease[e] == Retired) && script.due {
      var checked := p.(lease := Hit(p.lease, script.hits));
      FewerHealthy(p, checked.lease);
      if script.alive {
        RecoverOneKeepsInv(checked, e, script.replies);
      }
    }
  }

  lemma {:induction false} RecoverFromKeepsInv(p: Pool, scripts: Scripts, e: Endpoint)
    requires Inv(p) && e <= |p.lease|
    ensures Inv(RecoverFrom(p, scripts, e))
    decreases |p.lease| - e
  {
    if e < |p.lease| {
      RecoverStepKeepsInv(p, e, scripts(e));
      RecoverFromKeepsInv(RecoverStep(p, e, scripts(e)), scripts, e + 1);
    }
  }

  lemma RecoverUnhealthyKeepsInv(cfg: Config, p: Pool, scripts: Scripts)
    requires Inv(p)
    ensures Inv(RecoverUnhealthy(cfg, p, scripts))
  {
    if cfg.recoveryEnabled {
      RecoverFromKeepsInv(p, scripts, 0);
    }
  }

  /** A whole commit of the next version, recovery included. */
  lemma CommitKeepsInv(cfg: Config, p: Pool, version: int, stageReplies: Replies, commitReplies: Replies,
                       scripts: Scripts)
    requires Inv(p) && version == ActiveOf(p) + 1 && version in p.entries
    ensures var o := CommitWeights(cfg, p, version, stageReplies, commitReplies, scripts);
      && Inv(o.pool)
      && o.pool.entries == p.entries
      && o.pool.active == if o.ok then Some(version) else p.active
  {
    StageMissingKeepsInv(cfg, p, version, stageReplies);
    var staged := StageMissing(cfg, p, version, stageReplies);
    if staged.ok {
      CommitHealthyKeepsInv(staged.pool, version, commitReplies);
      var committed := CommitHealthy(staged.pool, version, commitReplies);
      if committed.ok {
        RecoverUnhealthyKeepsInv(cfg, committed.pool, scripts);
      }
    }
  }
}
