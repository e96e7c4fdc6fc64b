/**
 What the inference pool's weight operations do to the pool and to its servers, as functions of
 the state and of the answers of the environment.

 An endpoint is its position in the list of admin clients. A server is abstract: it has weights
 and staged deltas. A call either succeeds, and then does what its name says, or fails, and then
 leaves the server in any state at all. While a call is awaited, rollout failures may quarantine
 any healthy endpoint.
 */
module PoolModel {
  import opened Wrappers

  type Endpoint = nat

  /** One published delta artifact. */
  type Path = int

  datatype Lease = Healthy | Quarantine | Retired | Recovering

  datatype Entry = Entry(path: Path, version: int, base: Option<int>)

  datatype Weights = Deltas(applied: seq<Path>) | Unknown

  datatype Server = Server(weights: Weights, staged: map<int, Path>)

  datatype Call = StageDelta(version: int, path: Path) | CommitVersion(version: int) | ReloadBase

  /** `after` is what a failed call leaves behind; `hit` is a quarantine during the await. */
  datatype Reply = Reply(ok: bool, after: Server, hit: bool)

  type Replies = Endpoint -> Reply

  /** A commit request: the delta the pool remembers for the version, and the server it reached. */
  datatype CommitCall = CommitCall(endpoint: Endpoint, version: int, remembered: Option<Path>, before: Server)

  /** Rollout clients, each with the endpoint that serves it if that endpoint is lease-managed. */
  datatype Config = Config(clients: seq<Option<Endpoint>>, recoveryEnabled: bool)

  datatype Pool = Pool(
    lease: seq<Lease>,
    staged: map<int, set<Endpoint>>,
    entries: map<int, Entry>,
    active: Option<int>,
    servers: seq<Server>,
    commits: set<CommitCall>)

  ghost predicate WellFormed(p: Pool) {
    |p.lease| == |p.servers|
  }

  /* ---------- Servers ---------- */

  predicate ReadyToCommit(server: Server, version: int) {
    && version in server.staged
    && server.weights.Deltas?
    && |server.weights.applied| == version - 1
  }

  /** The server after a call. Success binds it; failure, or a commit out of turn, does not. */
  function Respond(before: Server, call: Call, reply: Reply): Server {
    if !reply.ok then reply.after
    else match call
      case StageDelta(version, path) => Server(before.weights, reply.after.staged[version := path])
      case CommitVersion(version) =>
        if ReadyToCommit(before, version)
        then Server(Deltas(before.weights.applied + [before.staged[version]]), reply.after.staged)
        else reply.after
      case ReloadBase => Server(Deltas([]), reply.after.staged)
  }

  /* ---------- Lease bookkeeping ---------- */

  function HealthySet(lease: seq<Lease>): (s: set<Endpoint>)
    ensures forall e :: e in s <==> 0 <= e < |lease| && lease[e] == Healthy
  {
    set e | 0 <= e < |lease| && lease[e] == Healthy
  }

  /** A quarantined endpoint that misses a weight operation is retired. */
  function RetireQuarantined(lease: seq<Lease>): (r: seq<Lease>)
    ensures |r| == |lease|
    ensures forall e :: 0 <= e < |r| ==> r[e] == if lease[e] == Quarantine then Retired else lease[e]
  {
    seq(|lease|, e requires 0 <= e < |lease| => if lease[e] == Quarantine then Retired else lease[e])
  }

  /** Rollout failures during an await. */
  function Hit(lease: seq<Lease>, hits: set<Endpoint>): (r: seq<Lease>)
    ensures |r| == |lease|
    ensures forall e :: 0 <= e < |r| ==> r[e] == if lease[e] == Healthy && e in hits then Quarantine else lease[e]
  {
    seq(|lease|, e requires 0 <= e < |lease| => if lease[e] == Healthy && e in hits then Quarantine else lease[e])
  }

  function HitSet(n: nat, replies: Replies): set<Endpoint> {
    set e | 0 <= e < n && replies(e).hit
  }

  function Succeeded(targets: set<Endpoint>, replies: Replies): set<Endpoint> {
    set e | e in targets && replies(e).ok
  }

  /** Failed endpoints are retired, whatever state they were in. */
  function RetireFailed(lease: seq<Lease>, targets: set<Endpoint>, replies: Replies): (r: seq<Lease>)
    ensures |r| == |lease|
    ensures forall e :: 0 <= e < |r| ==> r[e] == if e in targets && !replies(e).ok then Retired else lease[e]
  {
    seq(|lease|, e requires 0 <= e < |lease| => if e in targets && !replies(e).ok then Retired else lease[e])
  }

  function ServersAfter(servers: seq<Server>, targets: set<Endpoint>, call: Call, replies: Replies): (r: seq<Server>)
    ensures |r| == |servers|
    ensures forall e :: 0 <= e < |r| ==>
      r[e] == if e in targets then Respond(servers[e], call, replies(e)) else servers[e]
  {
    seq(|servers|, e requires 0 <= e < |servers| =>
      if e in targets then Respond(servers[e], call, replies(e)) else servers[e])
  }

  function Remembered(entries: map<int, Entry>, version: int): Option<Path> {
    if version in entries then Some(entries[version].path) else None
  }

  function CommitCalls(p: Pool, targets: set<Endpoint>, call: Call): set<CommitCall> {
    if call.CommitVersion?
    then set e | e in targets && 0 <= e < |p.servers| ::
           CommitCall(e, call.version, Remembered(p.entries, call.version), p.servers[e])
    else {}
  }

  /** Operations keep the number of endpoints. */
  ghost predicate SameShape(p: Pool, q: Pool) {
    |q.lease| == |p.lease| && |q.servers| == |p.servers|
  }

  /** One call to every target at once, and the bookkeeping of its results. */
  function CallAll(p: Pool, targets: set<Endpoint>, call: Call, replies: Replies): (q: Pool)
    ensures SameShape(p, q)
  {
    p.(lease := RetireFailed(Hit(p.lease, HitSet(|p.lease|, replies)), targets, replies),
       servers := ServersAfter(p.servers, targets, call, replies),
       commits := p.commits + CommitCalls(p, targets, call))
  }

  /* ---------- Stage and commit ---------- */

  /** Result of an operation that may raise; the state changes stay either way. */
  datatype Outcome = Outcome(pool: Pool, ok: bool)

  function StageWeights(p: Pool, version: int, path: Path, base: Option<int>, replies: Replies): (o: Outcome)
    ensures SameShape(p, o.pool)
  {
    var targets := HealthySet(p.lease);
    var filtered := p.(lease := RetireQuarantined(p.lease));
    if targets == {} then Outcome(filtered, false)
    else
      var called := CallAll(filtered, targets, StageDelta(version, path), replies);
      var oks := Succeeded(targets, replies);
      if oks == {} then Outcome(called, false)
      else Outcome(called.(staged := called.staged[version := oks],
                           entries := called.entries[version := Entry(path, version, base)]), true)
  }

  function StagedFor(p: Pool, version: int): set<Endpoint> {
    if version in p.staged then p.staged[version] else {}
  }

  predicate HasTrainClients(cfg: Config, lease: seq<Lease>) {
    exists c :: 0 <= c < |cfg.clients| && ServesRollouts(cfg.clients[c], lease)
  }

  predicate ServesRollouts(client: Option<Endpoint>, lease: seq<Lease>) {
    client.Some? ==> client.value < |lease| && lease[client.value] == Healthy
  }

  /** Stages the version on healthy endpoints that do not hold it yet. */
  function StageMissing(cfg: Config, p: Pool, version: int, replies: Replies): (o: Outcome)
    ensures SameShape(p, o.pool)
  {
    if version !in p.entries then Outcome(p, true)
    else
      var healthy := HealthySet(p.lease);
      var filtered := p.(lease := RetireQuarantined(p.lease));
      if healthy == {} then Outcome(filtered, false)
      else
        var missing := healthy - StagedFor(p, version);
        if missing == {} then Outcome(filtered, true) else StageOn(cfg, filtered, version, missing, replies)
  }

  function StageOn(cfg: Config, p: Pool, version: int, missing: set<Endpoint>, replies: Replies): (o: Outcome)
    requires version in p.entries
    ensures SameShape(p, o.pool)
  {
    var entry := p.entries[version];
    var called := CallAll(p, missing, StageDelta(entry.version, entry.path), replies);
    var oks := Succeeded(missing, replies);
    if oks == {} then Outcome(called, HasTrainClients(cfg, called.lease))
    else Outcome(called.(staged := called.staged[version := StagedFor(p, version) + oks]), true)
  }

  /** The commit call itself. */
  function CommitHealthy(p: Pool, version: int, replies: Replies): (o: Outcome)
    ensures SameShape(p, o.pool)
  {
    var targets := HealthySet(p.lease);
    var filtered := p.(lease := RetireQuarantined(p.lease));
    if targets == {} then Outcome(filtered, false)
    else
      var called := CallAll(filtered, targets, CommitVersion(version), replies);
      if Succeeded(targets, replies) == {} then Outcome(called, false)
      else Outcome(called.(active := Some(version)), true)
  }

  function CommitWeights(cfg: Config, p: Pool, version: int, stageReplies: Replies, commitReplies: Replies,
                  scripts: Scripts): (o: Outcome)
    requires WellFormed(p)
    ensures SameShape(p, o.pool)
  {
    var staged := StageMissing(cfg, p, version, stageReplies);
    if !staged.ok then staged
    else
      var committed := CommitHealthy(staged.pool, version, commitReplies);
      if !committed.ok then committed
      else Outcome(RecoverUnhealthy(cfg, committed.pool, scripts), true)
  }

  /* ---------- Recovery ---------- */

  /** The retained deltas 1..active in order, None when the code raises. */
  function ReplayPlan(entries: map<int, Entry>, active: Option<int>): Option<seq<Entry>> {
    if active.None? then Some([])
    else if CoversExactly(entries, active.value)
    then Some(seq(if active.value < 0 then 0 else active.value, i requires 0 <= i < active.value => entries[i + 1]))
    else None
  }

  /** The retained versions up to `active` are exactly 1..active. */
  predicate CoversExactly(entries: map<int, Entry>, active: int) {
    && (forall v :: 1 <= v <= active ==> v in entries)
    && (forall v :: v in entries && v <= active ==> 1 <= v)
  }

  /**
   What happens around one endpoint of the recovery loop: is its cooldown over, does it answer the
   health check, who gets quarantined meanwhile, and the answers to its calls, in order.
   */
  datatype Script = Script(due: bool, alive: bool, hits: set<Endpoint>, replies: nat -> Reply)

  type Scripts = Endpoint -> Script

  function SetLease(p: Pool, e: Endpoint, state: Lease): Pool {
    if e < |p.lease| then p.(lease := p.lease[e := state]) else p
  }

  function DiscardStaged(staged: map<int, set<Endpoint>>, e: Endpoint): (r: map<int, set<Endpoint>>)
    ensures r.Keys == staged.Keys
    ensures forall v :: v in staged ==> r[v] == staged[v] - {e}
  {
    map v | v in staged :: staged[v] - {e}
  }

  /** A call to one endpoint during recovery. */
  function CallOne(p: Pool, e: Endpoint, call: Call, reply: Reply): Pool
    requires e < |p.servers|
  {
    p.(servers := p.servers[e := Respond(p.servers[e], call, reply)],
       commits := p.commits + CommitCalls(p, {e}, call))
  }

  /** Stage and commit of one entry, then the note that the endpoint holds it. */
  function ReplayEntry(p: Pool, e: Endpoint, entry: Entry, stageReply: Reply, commitReply: Reply): (o: Outcome)
    requires e < |p.servers|
    ensures o.pool.lease == p.lease && SameShape(p, o.pool)
    ensures o.pool.entries == p.entries && o.pool.active == p.active
    ensures o.ok <==> stageReply.ok && commitReply.ok
  {
    var staged := CallOne(p, e, StageDelta(entry.version, entry.path), stageReply);
    if !stageReply.ok then Outcome(staged, false)
    else
      var committed := CallOne(staged, e, CommitVersion(entry.version), commitReply);
      if !commitReply.ok then Outcome(committed, false)
      else Outcome(NoteStaged(committed, e, entry.version), true)
  }

  function NoteStaged(p: Pool, e: Endpoint, version: int): Pool {
    p.(staged := p.staged[version := StagedFor(p, version) + {e}])
  }

  /** Entry k of the plan, whose calls are the two behind those of the entries before it. */
  function ReplayOne(p: Pool, e: Endpoint, plan: seq<Entry>, k: nat, replies: nat -> Reply): (o: Outcome)
    requires e < |p.servers| && k < |plan|
    ensures o.pool.lease == p.lease && SameShape(p, o.pool)
    ensures o.pool.entries == p.entries && o.pool.active == p.active
  {
    ReplayEntry(p, e, plan[k], replies(2 * k + 1), replies(2 * k + 2))
  }

  lemma ReplayOneIs(p: Pool, e: Endpoint, plan: seq<Entry>, k: nat, replies: nat -> Reply)
    requires e < |p.servers| && k < |plan|
    ensures ReplayOne(p, e, plan, k, replies) == ReplayEntry(p, e, plan[k], replies(2 * k + 1), replies(2 * k + 2))
  {
  }

  /** Entries k.. of the plan; the first failed call ends it. */
  function Replay(p: Pool, e: Endpoint, plan: seq<Entry>, k: nat, replies: nat -> Reply): (o: Outcome)
    requires e < |p.servers| && k <= |plan|
    ensures o.pool.lease == p.lease && SameShape(p, o.pool)
    ensures o.pool.entries == p.entries && o.pool.active == p.active
    decreases |plan| - k
  {
    if k == |plan| then Outcome(p, true)
    else
      var one := ReplayOne(p, e, plan, k, replies);
      if !one.ok then one else Replay(one.pool, e, plan, k + 1, replies)
  }

  /** Reload, then the whole plan. */
  function ReloadAndReplay(p: Pool, e: Endpoint, replies: nat -> Reply): (o: Outcome)
    requires e < |p.servers|
    ensures o.pool.lease == p.lease && SameShape(p, o.pool)
    ensures o.pool.entries == p.entries && o.pool.active == p.active
  {
    var reloaded := CallOne(p, e, ReloadBase, replies(0));
    if !replies(0).ok then Outcome(reloaded, false)
    else
      var plan := ReplayPlan(p.entries, p.active);
      if plan.None? then Outcome(reloaded, false)
      else Replay(reloaded, e, plan.value, 0, replies)
  }

  function RecoverOne(p: Pool, e: Endpoint, replies: nat -> Reply): (q: Pool)
    requires e < |p.servers|
    ensures SameShape(p, q) && q.entries == p.entries && q.active == p.active
  {
    var started := SetLease(p, e, Recovering).(staged := DiscardStaged(p.staged, e));
    var replayed := ReloadAndReplay(started, e, replies);
    SetLease(replayed.pool, e, if replayed.ok then Healthy else Retired)
  }

  function RecoverStep(p: Pool, e: Endpoint, script: Script): (q: Pool)
    requires e < |p.lease| && WellFormed(p)
    ensures SameShape(p, q) && q.entries == p.entries && q.active == p.active
  {
    if p.lease[e] != Quarantine && p.lease[e] != Retired then p
    else if !script.due then p
    else
      var checked := p.(lease := Hit(p.lease, script.hits));
      if !script.alive then checked else RecoverOne(checked, e, script.replies)
  }

  /** The recovery loop from endpoint e on. */
  function RecoverFrom(p: Pool, scripts: Scripts, e: Endpoint): (q: Pool)
    requires e <= |p.lease| && WellFormed(p)
    ensures SameShape(p, q) && q.entries == p.entries && q.active == p.active
    decreases |p.lease| - e
  {
    if e == |p.lease| then p else RecoverFrom(RecoverStep(p, e, scripts(e)), scripts, e + 1)
  }

  function RecoverUnhealthy(cfg: Config, p: Pool, scripts: Scripts): (q: Pool)
    requires WellFormed(p)
    ensures SameShape(p, q) && q.entries == p.entries && q.active == p.active
  {
    if cfg.recoveryEnabled then RecoverFrom(p, scripts, 0) else p
  }

  /* ---------- Quarantine ---------- */

  function QuarantineClient(cfg: Config, p: Pool, client: nat): Pool
    requires client < |cfg.clients|
  {
    match cfg.clients[client]
    case None => p
    case Some(e) => if e < |p.lease| && p.lease[e] == Healthy then SetLease(p, e, Quarantine) else p
  }
}
