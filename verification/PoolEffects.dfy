/**
 What every pool operation does to each endpoint: who is called, who stays healthy, who is retired, and
 what its server serves afterwards, by the answers alone.
 */
module PoolEffects {
  import opened Wrappers
  import opened PoolModel
  import opened PoolTheorems

  predicate IsHealthy(p: Pool, e: Endpoint) {
    e < |p.lease| && p.lease[e] == Healthy
  }

  /** The pool has noted that e holds the version. */
  predicate Noted(p: Pool, version: int, e: Endpoint) {
    version in p.staged && e in p.staged[version]
  }

  /* ---------- Quarantine ---------- */

  /** Exactly the healthy endpoint behind the client is quarantined; nothing else in the pool changes. */
  lemma QuarantineExactly(cfg: Config, p: Pool, client: nat)
    requires client < |cfg.clients|
    ensures var q := QuarantineClient(cfg, p, client);
      && q == p.(lease := q.lease) && |q.lease| == |p.lease|
      && forall e :: 0 <= e < |p.lease| ==>
           q.lease[e] == if cfg.clients[client] == Some(e) && p.lease[e] == Healthy then Quarantine else p.lease[e]
  {
  }

  /* ---------- Staging ---------- */

  /** Healthy in front of a call to e, by the answer: failed ones retire, struck ones are quarantined. */
  function Answered(reply: Reply): Lease {
    if !reply.ok then Retired else if reply.hit then Quarantine else Healthy
  }

  /** Lease of an endpoint that is not called: quarantined ones retire. */
  function Uncalled(lease: Lease): Lease {
    if lease == Quarantine then Retired else lease
  }

  /** Staging succeeds exactly when one healthy endpoint takes the delta; what becomes of each endpoint. */
  lemma StageExactly(p: Pool, version: int, path: Path, base: Option<int>, replies: Replies)
    requires WellFormed(p)
    ensures var o := StageWeights(p, version, path, base, replies);
      && (o.ok <==> exists e :: IsHealthy(p, e) && replies(e).ok)
      && o.pool.active == p.active && o.pool.commits == p.commits && SameShape(p, o.pool)
      && (forall e :: 0 <= e < |p.lease| ==>
            o.pool.lease[e] == if p.lease[e] == Healthy then Answered(replies(e)) else Uncalled(p.lease[e]))
      && (forall e :: 0 <= e < |p.lease| && p.lease[e] != Healthy ==> o.pool.servers[e] == p.servers[e])
      && (forall e :: 0 <= e < |p.lease| && p.lease[e] == Healthy && replies(e).ok ==>
            && o.pool.servers[e].weights == p.servers[e].weights
            && o.pool.servers[e].staged == replies(e).after.staged[version := path])
      && o.pool.entries == (if o.ok then p.entries[version := Entry(path, version, base)] else p.entries)
      && (forall v, e :: Noted(o.pool, v, e) <==>
            if o.ok && v == version then IsHealthy(p, e) && replies(e).ok else Noted(p, v, e))
  {
    StageOkExactly(p, version, path, base, replies);
    StageLeases(p, version, path, base, replies);
    StageNotes(p, version, path, base, replies);
    assert CommitCalls(p, HealthySet(p.lease), StageDelta(version, path)) == {};
  }

  lemma StageOkExactly(p: Pool, version: int, path: Path, base: Option<int>, replies: Replies)
    ensures StageWeights(p, version, path, base, replies).ok <==> exists e :: IsHealthy(p, e) && replies(e).ok
  {
    var targets := HealthySet(p.lease);
    if e :| IsHealthy(p, e) && replies(e).ok {
      SucceededExactly(targets, replies, e);
    }
    if StageWeights(p, version, path, base, replies).ok {
      EmptyOrMember(Succeeded(targets, replies));
      var e :| e in Succeeded(targets, replies);
      SucceededExactly(targets, replies, e);
      assert IsHealthy(p, e) && replies(e).ok;
    }
  }

  lemma StageLeases(p: Pool, version: int, path: Path, base: Option<int>, replies: Replies)
    requires WellFormed(p)
    ensures var o := StageWeights(p, version, path, base, replies);
      forall e :: 0 <= e < |p.lease| ==>
        o.pool.lease[e] == if p.lease[e] == Healthy then Answered(replies(e)) else Uncalled(p.lease[e])
  {
    forall e: Endpoint | e < |p.lease| ensures e in HealthySet(p.lease) <==> p.lease[e] == Healthy {
    }
  }

  lemma StageNotes(p: Pool, version: int, path: Path, base: Option<int>, replies: Replies)
    ensures var o := StageWeights(p, version, path, base, replies);
      forall v, e :: Noted(o.pool, v, e) <==>
        if o.ok && v == version then IsHealthy(p, e) && replies(e).ok else Noted(p, v, e)
  {
    forall e ensures e in Succeeded(HealthySet(p.lease), replies) <==> IsHealthy(p, e) && replies(e).ok {
      SucceededExactly(HealthySet(p.lease), replies, e);
    }
  }

  lemma SucceededExactly(targets: set<Endpoint>, replies: Replies, e: Endpoint)
    ensures e in Succeeded(targets, replies) <==> e in targets && replies(e).ok
  {
  }

  /* ---------- Recovering one endpoint ---------- */

  /** Calls to one endpoint leave every other server as it is. */
  lemma ReplayEntryAlone(p: Pool, e: Endpoint, entry: Entry, stageReply: Reply, commitReply: Reply, x: Endpoint)
    requires e < |p.servers| && x < |p.servers| && x != e
    ensures ReplayEntry(p, e, entry, stageReply, commitReply).pool.servers[x] == p.servers[x]
  {
  }

  lemma {:induction false} ReplayAlone(p: Pool, e: Endpoint, plan: seq<Entry>, k: nat, replies: nat -> Reply,
                                       x: Endpoint)
    requires e < |p.servers| && k <= |plan| && x < |p.servers| && x != e
    ensures Replay(p, e, plan, k, replies).pool.servers[x] == p.servers[x]
    decreases |plan| - k
  {
    if k < |plan| {
      var one := ReplayOne(p, e, plan, k, replies);
      ReplayEntryAlone(p, e, plan[k], replies(2 * k + 1), replies(2 * k + 2), x);
      ReplayOneIs(p, e, plan, k, replies);
      ReplayAlone(one.pool, e, plan, k + 1, replies, x);
    }
  }

  lemma RecoverOneAlone(p: Pool, e: Endpoint, replies: nat -> Reply, x: Endpoint)
    requires WellFormed(p) && e < |p.servers| && x < |p.servers| && x != e
    ensures var q := RecoverOne(p, e, replies); q.servers[x] == p.servers[x] && q.lease[x] == p.lease[x]
  {
    var started := SetLease(p, e, Recovering).(staged := DiscardStaged(p.staged, e));
    var reloaded := CallOne(started, e, ReloadBase, replies(0));
    var plan := ReplayPlan(p.entries, p.active);
    if plan.Some? {
      ReplayAlone(reloaded, e, plan.value, 0, replies, x);
    }
  }

  /** Every call of a recovery to the active version succeeds: reload, then stage and commit of each delta. */
  predicate AllAnswered(p: Pool, replies: nat -> Reply) {
    forall i :: 0 <= i <= 2 * ActiveOf(p) ==> replies(i).ok
  }

  /** The endpoint ends healthy on the active version when every call succeeds, and retired otherwise. */
  lemma RecoveredExactly(p: Pool, e: Endpoint, replies: nat -> Reply)
    requires Inv(p) && e < |p.lease| && p.lease[e] != Healthy
    ensures var q := RecoverOne(p, e, replies);
      && Inv(q)
      && q.lease[e] == (if AllAnswered(p, replies) then Healthy else Retired)
      && (AllAnswered(p, replies) ==> ServesVersion(q, e, ActiveOf(p)))
      && (forall x :: 0 <= x < |p.lease| && x != e ==> q.lease[x] == p.lease[x] && q.servers[x] == p.servers[x])
  {
    RecoverOneKeepsInv(p, e, replies);
    var q := RecoverOne(p, e, replies);
    forall x | 0 <= x < |p.lease| && x != e ensures q.lease[x] == p.lease[x] && q.servers[x] == p.servers[x] {
      RecoverOneAlone(p, e, replies, x);
    }
  }

  /* ---------- The recovery loop ---------- */

  predicate IsDown(lease: seq<Lease>, e: Endpoint) {
    e < |lease| && (lease[e] == Quarantine || lease[e] == Retired)
  }

  /** When the loop, begun at k, comes to e, it finds it quarantined or retired: before, or struck on the way. */
  ghost predicate DownAt(lease: seq<Lease>, scripts: Scripts, k: Endpoint, e: Endpoint)
    decreases e
  {
    || IsDown(lease, e)
    || (e < |lease| && lease[e] == Healthy
        && exists y :: k <= y < e && DownAt(lease, scripts, k, y) && Strikes(scripts, y, e))
  }

  /** The look at x, if x is due, costs e its health. */
  predicate Strikes(scripts: Scripts, x: Endpoint, e: Endpoint) {
    scripts(x).due && e in scripts(x).hits
  }

  /** Some endpoint from `from` on, when its turn comes, strikes e. */
  ghost predicate StruckFrom(lease: seq<Lease>, scripts: Scripts, k: Endpoint, from: Endpoint, e: Endpoint) {
    exists y :: from <= y < |lease| && DownAt(lease, scripts, k, y) && Strikes(scripts, y, e)
  }

  /** e is recovered when its turn comes: it is down, due and answers the health check. */
  ghost predicate Attempted(lease: seq<Lease>, scripts: Scripts, k: Endpoint, e: Endpoint) {
    DownAt(lease, scripts, k, e) && scripts(e).due && scripts(e).alive
  }

  /** What one round does: endpoint k is recovered, or nothing happens to it; others can only be struck. */
  lemma RoundExactly(p: Pool, k: Endpoint, script: Script)
    requires Inv(p) && k < |p.lease|
    ensures var q, down := RecoverStep(p, k, script), IsDown(p.lease, k);
      && Inv(q) && |q.lease| == |p.lease| && q.entries == p.entries && q.active == p.active
      && (forall x :: 0 <= x < |p.lease| && x != k ==>
            && q.servers[x] == p.servers[x]
            && q.lease[x] == if down && script.due && x in script.hits && p.lease[x] == Healthy then Quarantine
                             else p.lease[x])
      && (if down && script.due && script.alive
          then q.lease[k] == (if AllAnswered(p, script.replies) then Healthy else Retired)
               && (AllAnswered(p, script.replies) ==> ServesVersion(q, k, ActiveOf(p)))
          else q.lease[k] == p.lease[k] && q.servers[k] == p.servers[k])
  {
    RecoverStepKeepsInv(p, k, script);
    if IsDown(p.lease, k) && script.due {
      var checked := p.(lease := Hit(p.lease, script.hits));
      FewerHealthy(p, checked.lease);
      if script.alive {
        RecoveredExactly(checked, k, script.replies);
      }
    }
  }

  /** Who is found down does not depend on where one starts counting. */
  lemma {:induction false} DownShifts(lease: seq<Lease>, next: seq<Lease>, scripts: Scripts, k: Endpoint, e: Endpoint)
    requires k < e < |lease| == |next|
    requires forall x :: 0 <= x < |lease| && x != k ==>
      next[x] == if IsDown(lease, k) && Strikes(scripts, k, x) && lease[x] == Healthy then Quarantine else lease[x]
    ensures DownAt(lease, scripts, k, e) <==> DownAt(next, scripts, k + 1, e)
    decreases e
  {
    forall y | k < y < e ensures DownAt(lease, scripts, k, y) <==> DownAt(next, scripts, k + 1, y) {
      DownShifts(lease, next, scripts, k, y);
    }
    assert DownAt(lease, scripts, k, k) <==> IsDown(lease, k);
    if lease[e] == Healthy && next[e] == Healthy {
      if y :| k <= y < e && DownAt(lease, scripts, k, y) && Strikes(scripts, y, e) {
        assert y != k && DownAt(next, scripts, k + 1, y);
      }
      if y :| k + 1 <= y < e && DownAt(next, scripts, k + 1, y) && Strikes(scripts, y, e) {
        assert DownAt(lease, scripts, k, y);
      }
    }
  }

  lemma StruckShifts(lease: seq<Lease>, next: seq<Lease>, scripts: Scripts, k: Endpoint, from: Endpoint, e: Endpoint)
    requires k < from && |lease| == |next|
    requires forall x :: 0 <= x < |lease| && x != k ==>
      next[x] == if IsDown(lease, k) && Strikes(scripts, k, x) && lease[x] == Healthy then Quarantine else lease[x]
    ensures StruckFrom(lease, scripts, k, from, e) <==> StruckFrom(next, scripts, k + 1, from, e)
  {
    forall y | from <= y < |lease| ensures DownAt(lease, scripts, k, y) <==> DownAt(next, scripts, k + 1, y) {
      DownShifts(lease, next, scripts, k, y);
    }
  }

  /** The lease of an endpoint whose turn is over: struck or not. */
  function Passed(lease: Lease, struck: bool): Lease {
    if lease == Healthy && struck then Quarantine else lease
  }

  /** An endpoint whose turn is over can only be struck. */
  lemma {:induction false} PassedExactly(p: Pool, scripts: Scripts, k: Endpoint, e: Endpoint)
    requires Inv(p) && e < k <= |p.lease|
    ensures var q := RecoverFrom(p, scripts, k);
      && q.servers[e] == p.servers[e] && q.entries == p.entries && q.active == p.active
      && q.lease[e] == Passed(p.lease[e], StruckFrom(p.lease, scripts, k, k, e))
    decreases |p.lease| - k
  {
    if k < |p.lease| {
      var next := RecoverStep(p, k, scripts(k));
      RoundExactly(p, k, scripts(k));
      PassedExactly(next, scripts, k + 1, e);
      StruckShifts(p.lease, next.lease, scripts, k, k + 1, e);
      StruckNow(p.lease, scripts, k, e);
    }
  }

  lemma StruckNow(lease: seq<Lease>, scripts: Scripts, k: Endpoint, e: Endpoint)
    requires k < |lease|
    ensures StruckFrom(lease, scripts, k, k, e) <==>
      (IsDown(lease, k) && Strikes(scripts, k, e)) || StruckFrom(lease, scripts, k, k + 1, e)
  {
    assert DownAt(lease, scripts, k, k) <==> IsDown(lease, k);
    if y :| k <= y < |lease| && DownAt(lease, scripts, k, y) && Strikes(scripts, y, e) {
      assert y == k || k + 1 <= y;
    }
  }

  /** What the loop, begun at k, makes of e. */
  ghost predicate Recovered(p: Pool, q: Pool, scripts: Scripts, k: Endpoint, e: Endpoint)
    requires e < |p.lease| == |q.lease| && |p.servers| == |q.servers| == |p.lease|
  {
    var struck := StruckFrom(p.lease, scripts, k, e + 1, e);
    if Attempted(p.lease, scripts, k, e) then
      if AllAnswered(p, scripts(e).replies)
      then q.lease[e] == Passed(Healthy, struck) && ServesVersion(q, e, ActiveOf(p))
      else q.lease[e] == Retired
    else
      && q.servers[e] == p.servers[e]
      && q.lease[e] == if DownAt(p.lease, scripts, k, e) then Passed(p.lease[e], true) else Passed(p.lease[e], struck)
  }

  lemma {:induction false} LoopExactly(p: Pool, scripts: Scripts, k: Endpoint, e: Endpoint)
    requires Inv(p) && k <= e < |p.lease|
    ensures Recovered(p, RecoverFrom(p, scripts, k), scripts, k, e)
    decreases |p.lease| - k
  {
    if k < e {
      RoundExactly(p, k, scripts(k));
      LoopExactly(RecoverStep(p, k, scripts(k)), scripts, k + 1, e);
      OneRoundEarlier(p, RecoverStep(p, k, scripts(k)), RecoverFrom(p, scripts, k), scripts, k, e);
    } else {
      OwnRound(p, scripts, k);
    }
  }

  lemma OneRoundEarlier(p: Pool, next: Pool, q: Pool, scripts: Scripts, k: Endpoint, e: Endpoint)
    requires k < e < |p.lease| == |q.lease| == |next.lease| == |p.servers| == |q.servers| == |next.servers|
    requires next.entries == p.entries && next.active == p.active && next.servers[e] == p.servers[e]
    requires forall x :: 0 <= x < |p.lease| && x != k ==>
      next.lease[x] == if IsDown(p.lease, k) && Strikes(scripts, k, x) && p.lease[x] == Healthy then Quarantine
                       else p.lease[x]
    requires Recovered(next, q, scripts, k + 1, e)
    ensures Recovered(p, q, scripts, k, e)
  {
    StruckShifts(p.lease, next.lease, scripts, k, e + 1, e);
    DownShifts(p.lease, next.lease, scripts, k, e);
    StruckOnTheWay(p.lease, next.lease, scripts, k, e);
  }

  lemma StruckOnTheWay(lease: seq<Lease>, next: seq<Lease>, scripts: Scripts, k: Endpoint, e: Endpoint)
    requires k < e < |lease| == |next|
    requires next[e] == if IsDown(lease, k) && Strikes(scripts, k, e) && lease[e] == Healthy then Quarantine
                        else lease[e]
    ensures next[e] != lease[e] ==> DownAt(lease, scripts, k, e) && next[e] == Quarantine && lease[e] == Healthy
  {
    assert DownAt(lease, scripts, k, k) <==> IsDown(lease, k);
  }

  lemma OwnRound(p: Pool, scripts: Scripts, e: Endpoint)
    requires Inv(p) && e < |p.lease|
    ensures Recovered(p, RecoverFrom(p, scripts, e), scripts, e, e)
  {
    var next := RecoverStep(p, e, scripts(e));
    RoundExactly(p, e, scripts(e));
    StruckShifts(p.lease, next.lease, scripts, e, e + 1, e);
    PassedExactly(next, scripts, e + 1, e);
    assert DownAt(p.lease, scripts, e, e) <==> IsDown(p.lease, e);
  }

  /* ---------- What was sent ---------- */

  lemma ReplayOneRecords(p: Pool, e: Endpoint, plan: seq<Entry>, k: nat, replies: nat -> Reply)
    requires e < |p.servers| && k < |plan|
    ensures p.commits <= ReplayOne(p, e, plan, k, replies).pool.commits
  {
  }

  lemma {:induction false} ReplayRecords(p: Pool, e: Endpoint, plan: seq<Entry>, k: nat, replies: nat -> Reply)
    requires e < |p.servers| && k <= |plan|
    ensures p.commits <= Replay(p, e, plan, k, replies).pool.commits
    decreases |plan| - k
  {
    if k < |plan| {
      ReplayOneRecords(p, e, plan, k, replies);
      ReplayRecords(ReplayOne(p, e, plan, k, replies).pool, e, plan, k + 1, replies);
    }
  }

  lemma RecoverOneRecords(p: Pool, e: Endpoint, replies: nat -> Reply)
    requires e < |p.servers|
    ensures p.commits <= RecoverOne(p, e, replies).commits
  {
    var started := SetLease(p, e, Recovering).(staged := DiscardStaged(p.staged, e));
    var plan := ReplayPlan(p.entries, p.active);
    if plan.Some? {
      ReplayRecords(CallOne(started, e, ReloadBase, replies(0)), e, plan.value, 0, replies);
    }
  }

  lemma {:induction false} LoopRecords(p: Pool, scripts: Scripts, k: Endpoint)
    requires WellFormed(p) && k <= |p.lease|
    ensures p.commits <= RecoverFrom(p, scripts, k).commits
    decreases |p.lease| - k
  {
    if k < |p.lease| {
      RecoverOneRecords(p.(lease := Hit(p.lease, scripts(k).hits)), k, scripts(k).replies);
      LoopRecords(RecoverStep(p, k, scripts(k)), scripts, k + 1);
    }
  }

  lemma RecoveryRecords(cfg: Config, p: Pool, scripts: Scripts)
    requires WellFormed(p)
    ensures p.commits <= RecoverUnhealthy(cfg, p, scripts).commits
  {
    LoopRecords(p, scripts, 0);
  }

  /**
   Recovery brings back exactly those that it finds down, due and answering, when all their calls succeed; those
   with a failing call end retired, and everyone else keeps server and lease, but for being struck.
   */
  lemma RecoveryExactly(cfg: Config, p: Pool, scripts: Scripts, e: Endpoint)
    requires Inv(p) && e < |p.lease|
    ensures var q := RecoverUnhealthy(cfg, p, scripts);
      && Inv(q) && q.active == p.active
      && if cfg.recoveryEnabled then Recovered(p, q, scripts, 0, e) else q == p
  {
    RecoverUnhealthyKeepsInv(cfg, p, scripts);
    if cfg.recoveryEnabled {
      LoopExactly(p, scripts, 0, e);
    }
  }

  function ScriptOf(scripts: Scripts, e: Endpoint): Script {
    scripts(e)
  }

  /** An endpoint quarantined or retired in front of the loop: back, retired or untouched, by its script. */
  lemma DownIsRecovered(cfg: Config, p: Pool, scripts: Scripts, e: Endpoint)
    requires Inv(p) && cfg.recoveryEnabled && e < |p.lease| && (p.lease[e] == Quarantine || p.lease[e] == Retired)
    ensures var q, script := RecoverUnhealthy(cfg, p, scripts), ScriptOf(scripts, e);
      if script.due && script.alive then
        if forall i :: 0 <= i <= 2 * ActiveOf(p) ==> script.replies(i).ok then
          && q.servers[e].weights == Deltas(Chain(p.entries, ActiveOf(p)))
          && (q.lease[e] == Healthy ||
              (q.lease[e] == Quarantine && exists y :: e < y < |p.lease| && Strikes(scripts, y, e)))
        else q.lease[e] == Retired
      else q.lease[e] == p.lease[e] && q.servers[e] == p.servers[e]
  {
    RecoveryExactly(cfg, p, scripts, e);
    assert DownAt(p.lease, scripts, 0, e);
  }

  /* ---------- Committing ---------- */

  predicate Missing(p: Pool, version: int, e: Endpoint) {
    IsHealthy(p, e) && !Noted(p, version, e)
  }

  ghost predicate AnyMissing(p: Pool, version: int) {
    exists e :: Missing(p, version, e)
  }

  /** e comes healthy out of the restaging that a commit begins with, and then holds the version. */
  ghost predicate Holder(p: Pool, version: int, replies: Replies, e: Endpoint) {
    IsHealthy(p, e) && (AnyMissing(p, version) ==> (Noted(p, version, e) || replies(e).ok) && !replies(e).hit)
  }

  /** Restaging raises only when it fails everywhere it is needed and no client can be served by the others. */
  ghost predicate RestagePasses(cfg: Config, p: Pool, version: int, replies: Replies) {
    AnyMissing(p, version) ==>
      || (exists e :: Missing(p, version, e) && replies(e).ok)
      || (exists c :: 0 <= c < |cfg.clients| &&
            (cfg.clients[c].Some? ==> Holder(p, version, replies, cfg.clients[c].value)))
  }

  lemma RestageExactly(cfg: Config, p: Pool, version: int, replies: Replies)
    requires WellFormed(p) && version in p.entries
    ensures var o := StageMissing(cfg, p, version, replies);
      && (o.ok <==> (exists e :: IsHealthy(p, e)) && RestagePasses(cfg, p, version, replies))
      && |o.pool.lease| == |p.lease|
      && (forall e :: 0 <= e < |p.lease| ==>
            && (o.pool.lease[e] == Healthy <==> Holder(p, version, replies, e))
            && (p.lease[e] != Healthy ==> o.pool.lease[e] == Uncalled(p.lease[e]) && o.pool.servers[e] == p.servers[e])
            && (p.lease[e] == Healthy ==> o.pool.lease[e] == Healthy || o.pool.lease[e] == Quarantine
                                          || o.pool.lease[e] == Retired))
  {
    var healthy, o := HealthySet(p.lease), StageMissing(cfg, p, version, replies);
    var missing := healthy - StagedFor(p, version);
    forall e ensures (e in missing <==> Missing(p, version, e)) && (e in healthy <==> IsHealthy(p, e)) {
    }
    if missing != {} {
      EmptyOrMember(missing);
      RestagePassesWhen(cfg, p, version, replies, missing, o);
    } else {
      assert !AnyMissing(p, version);
    }
    if healthy != {} {
      EmptyOrMember(healthy);
      var e :| e in healthy;
      assert IsHealthy(p, e);
    }
  }

  lemma RestagePassesWhen(cfg: Config, p: Pool, version: int, replies: Replies, missing: set<Endpoint>, o: Outcome)
    requires WellFormed(p) && version in p.entries && missing != {}
    requires forall e :: e in missing <==> Missing(p, version, e)
    requires o == StageOn(cfg, p.(lease := RetireQuarantined(p.lease)), version, missing, replies)
    ensures o.ok <==> RestagePasses(cfg, p, version, replies)
    ensures forall e :: 0 <= e < |p.lease| ==> (o.pool.lease[e] == Healthy <==> Holder(p, version, replies, e))
  {
    EmptyOrMember(missing);
    var m :| m in missing;
    assert Missing(p, version, m);
    forall e | 0 <= e < |p.lease| ensures o.pool.lease[e] == Healthy <==> Holder(p, version, replies, e) {
      assert e in missing <==> Missing(p, version, e);
    }
    var oks := Succeeded(missing, replies);
    if oks != {} {
      EmptyOrMember(oks);
      var e :| e in oks;
      SucceededExactly(missing, replies, e);
    } else {
      forall e | Missing(p, version, e) ensures !replies(e).ok {
        SucceededExactly(missing, replies, e);
      }
      assert o.ok == HasTrainClients(cfg, o.pool.lease);
      if c :| 0 <= c < |cfg.clients| && ServesRollouts(cfg.clients[c], o.pool.lease) {
        assert cfg.clients[c].Some? ==> Holder(p, version, replies, cfg.clients[c].value);
      }
      if c :| 0 <= c < |cfg.clients| && (cfg.clients[c].Some? ==> Holder(p, version, replies, cfg.clients[c].value)) {
        assert ServesRollouts(cfg.clients[c], o.pool.lease);
      }
    }
  }

  /** Leases behind the commit requests: holders by their answer, everyone else retired. */
  ghost function Committed(p: Pool, version: int, restaged: Replies, replies: Replies): (lease: seq<Lease>)
    ensures |lease| == |p.lease|
    ensures forall e :: 0 <= e < |lease| ==>
      lease[e] == if Holder(p, version, restaged, e) then Answered(replies(e)) else Retired
  {
    seq(|p.lease|, e requires 0 <= e < |p.lease| =>
      if Holder(p, version, restaged, e) then Answered(replies(e)) else Retired)
  }

  /** The commit requests themselves, on a pool in which `holders` are the healthy ones. */
  lemma RequestsExactly(p: Pool, version: int, replies: Replies, lease: seq<Lease>)
    requires WellFormed(p) && |lease| == |p.lease| && NobodyRecovering(p)
    requires forall e :: 0 <= e < |lease| ==>
      lease[e] == if p.lease[e] == Healthy then Answered(replies(e)) else Retired
    ensures var o := CommitHealthy(p, version, replies);
      && (o.ok <==> exists e :: IsHealthy(p, e) && replies(e).ok)
      && o.pool.lease == lease
      && (forall e: Endpoint :: IsHealthy(p, e) ==> Requested(o.pool, e, version, p.servers[e]))
  {
    var targets, o := HealthySet(p.lease), CommitHealthy(p, version, replies);
    RequestsOkExactly(p, version, replies);
    forall e | 0 <= e < |lease| ensures o.pool.lease[e] == lease[e] {
      assert e in targets <==> IsHealthy(p, e);
    }
    forall e: Endpoint | IsHealthy(p, e) ensures Requested(o.pool, e, version, p.servers[e]) {
      RequestSent(p, version, replies, e);
    }
  }

  lemma RequestsOkExactly(p: Pool, version: int, replies: Replies)
    requires WellFormed(p)
    ensures CommitHealthy(p, version, replies).ok <==> exists e :: IsHealthy(p, e) && replies(e).ok
  {
    var targets := HealthySet(p.lease);
    if e :| IsHealthy(p, e) && replies(e).ok {
      SucceededExactly(targets, replies, e);
    }
    if CommitHealthy(p, version, replies).ok {
      EmptyOrMember(Succeeded(targets, replies));
      var e :| e in Succeeded(targets, replies);
      SucceededExactly(targets, replies, e);
      assert IsHealthy(p, e) && replies(e).ok;
    }
  }

  lemma RequestSent(p: Pool, version: int, replies: Replies, e: Endpoint)
    requires WellFormed(p) && IsHealthy(p, e)
    ensures Requested(CommitHealthy(p, version, replies).pool, e, version, p.servers[e])
  {
    assert e in HealthySet(p.lease);
    assert CommitCall(e, version, Remembered(p.entries, version), p.servers[e])
      in CommitCalls(p.(lease := RetireQuarantined(p.lease)), HealthySet(p.lease), CommitVersion(version));
  }

  /** A commit of the version was sent to e while its server was like this. */
  ghost predicate Requested(p: Pool, e: Endpoint, version: int, before: Server) {
    CommitCall(e, version, Remembered(p.entries, version), before) in p.commits
  }

  /** Some commit of the version was sent to e. */
  ghost predicate Asked(p: Pool, e: Endpoint, version: int) {
    exists before :: Requested(p, e, version, before)
  }

  /**
   A commit goes through exactly when the restaging does and one of the endpoints that hold the version then takes
   the commit. Everyone who does not hold it, or does not take it, is retired; then those found down are recovered.
   */
  lemma CommitExactly(cfg: Config, p: Pool, version: int, restaged: Replies, replies: Replies, scripts: Scripts,
                      e: Endpoint)
    requires Inv(p) && version == ActiveOf(p) + 1 && version in p.entries && e < |p.lease|
    ensures var o := CommitWeights(cfg, p, version, restaged, replies, scripts);
      && (o.ok <==> RestagePasses(cfg, p, version, restaged)
                    && exists x :: Holder(p, version, restaged, x) && replies(x).ok)
      && o.pool.active == (if o.ok then Some(version) else p.active)
      && (o.ok ==> AfterCommit(cfg, Committed(p, version, restaged, replies), o.pool, version, scripts, e))
      && (o.pool.lease[e] == Healthy ==> ServesVersion(o.pool, e, ActiveOf(o.pool)))
      && (RestagePasses(cfg, p, version, restaged) && Holder(p, version, restaged, e) ==> Asked(o.pool, e, version))
  {
    CommitKeepsInv(cfg, p, version, restaged, replies, scripts);
    CommittedExactly(cfg, p, version, restaged, replies, e);
    var staged := StageMissing(cfg, p, version, restaged);
    if staged.ok {
      var committed := CommitHealthy(staged.pool, version, replies);
      if committed.ok {
        RecoveryExactly(cfg, committed.pool, scripts, e);
        RecoveryRecords(cfg, committed.pool, scripts);
        StillAsked(committed.pool, RecoverUnhealthy(cfg, committed.pool, scripts), e, version);
      }
    }
  }

  lemma StillAsked(p: Pool, q: Pool, e: Endpoint, version: int)
    requires p.commits <= q.commits && q.entries == p.entries
    ensures Asked(p, e, version) ==> Asked(q, e, version)
  {
    if before :| Requested(p, e, version, before) {
      assert Requested(q, e, version, before);
    }
  }

  /** The commit in front of its recovery. */
  lemma CommittedExactly(cfg: Config, p: Pool, version: int, restaged: Replies, replies: Replies, e: Endpoint)
    requires Inv(p) && version == ActiveOf(p) + 1 && version in p.entries && e < |p.lease|
    ensures var staged := StageMissing(cfg, p, version, restaged);
      var committed := CommitHealthy(staged.pool, version, replies);
      && (staged.ok && committed.ok <==>
            && RestagePasses(cfg, p, version, restaged)
            && exists x :: Holder(p, version, restaged, x) && replies(x).ok)
      && (staged.ok ==> Inv(committed.pool) && committed.pool.lease == Committed(p, version, restaged, replies))
      && (staged.ok && committed.ok ==> committed.pool.active == Some(version))
      && (RestagePasses(cfg, p, version, restaged) && Holder(p, version, restaged, e) ==>
            staged.ok && Asked(committed.pool, e, version))
  {
    StageMissingKeepsInv(cfg, p, version, restaged);
    RestageExactly(cfg, p, version, restaged);
    var staged := StageMissing(cfg, p, version, restaged);
    if staged.ok {
      CommitHealthyKeepsInv(staged.pool, version, replies);
      HoldersAreHealthy(p, staged.pool, version, restaged, replies);
      RequestsExactly(staged.pool, version, replies, Committed(p, version, restaged, replies));
      if Holder(p, version, restaged, e) {
        assert Requested(CommitHealthy(staged.pool, version, replies).pool, e, version, staged.pool.servers[e]);
      }
    }
  }

  lemma HoldersAreHealthy(p: Pool, q: Pool, version: int, restaged: Replies, replies: Replies)
    requires |q.lease| == |p.lease|
    requires forall e :: 0 <= e < |p.lease| ==> (q.lease[e] == Healthy <==> Holder(p, version, restaged, e))
    ensures forall e :: 0 <= e < |p.lease| ==>
      Committed(p, version, restaged, replies)[e] == if q.lease[e] == Healthy then Answered(replies(e)) else Retired
    ensures forall e :: IsHealthy(q, e) <==> Holder(p, version, restaged, e)
  {
  }

  /** Recovery behind a commit, which begins with these leases. */
  ghost predicate AfterCommit(cfg: Config, lease: seq<Lease>, q: Pool, version: int, scripts: Scripts, e: Endpoint)
    requires e < |lease| == |q.lease|
  {
    if !cfg.recoveryEnabled then q.lease == lease
    else
      var struck := StruckFrom(lease, scripts, 0, e + 1, e);
      if Attempted(lease, scripts, 0, e) then
        if forall i :: 0 <= i <= 2 * version ==> scripts(e).replies(i).ok
        then q.lease[e] == Passed(Healthy, struck) && ServesVersion(q, e, version)
        else q.lease[e] == Retired
      else
        q.lease[e] == if DownAt(lease, scripts, 0, e) then Passed(lease[e], true) else Passed(lease[e], struck)
  }

  /* ---------- The replay plan ---------- */

  /** The plan raises exactly when a version up to the active one is missing, or one below 1 is retained. */
  lemma PlanExactly(entries: map<int, Entry>, active: Option<int>)
    ensures var plan := ReplayPlan(entries, active);
      && (plan.None? <==>
            && active.Some?
            && ((exists v :: 1 <= v <= active.value && v !in entries) ||
                (exists v :: v in entries && v <= active.value && v < 1)))
      && (plan.Some? ==>
            && |plan.value| == (if active.Some? && active.value >= 0 then active.value else 0)
            && forall i :: 0 <= i < |plan.value| ==> i + 1 in entries && plan.value[i] == entries[i + 1])
  {
  }
}
