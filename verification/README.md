# AuroraRL verification model

A Dafny model of the parts of AuroraRL that keep remote inference servers, the rollout scheduler and
the trainer consistent while weights move as sparse deltas, with proofs that hold for every input,
every interleaving and every run. `dafny verify dfyconfig.toml` checks everything.

**Inference pool.** `PoolModel` says what stage, commit, quarantine and lease recovery do to the pool
and to its servers; `InferencePool` holds the class whose methods compute exactly that; `PoolTheorems`
has the invariant, and `PoolEffects` says of every endpoint what each operation does to it. A server is
abstract: a successful reload gives the base weights with nothing kept of the applied deltas, a
successful stage holds the delta, a successful commit in turn applies it, and a failed call leaves any
state whatsoever. Answers of servers, failures and quarantines during an await are arguments of the
operations and range over everything. Operations hold the weight-update lock, so they do not overlap.
All quarantines between two looks at an endpoint count as one set.

**Scheduler.** `PolicyLoop` is the policy-version loop, `PolicyRollout` runs it against the pool in
delta mode, `RolloutGroups`, `RolloutGroupTheorems`, `RolloutGroupEffects` and `RolloutScheduler` are
the group bookkeeping, what becomes of each group and the off-policy bound, and `SchedulerSystem` puts
all of it together: adopting a checkpoint starts the off-policy update. Code between two awaits is one
step; launching a request and dropping stale groups span several, so both may be half done while
anything else happens.

**Delta codec.** `Varint`, `VarintTheorems` and `VarintLayout` are the index codec with its sequential
and column-wise decoders, in wrapping 64-bit arithmetic where the code has it; `SparseDelta`,
`SparseDeltaTheorems` and `SparseDeltaEffects` extract, rebuild, verify and chain deltas over
uninterpreted arithmetic; `RecordStream`, `RecordStreamTheorems` and `RecordStreamLayout` are the stream
file. `StreamingUpload` uploads that file while it is still written.

**Trainer side.** `SequencePacking`, `PackingTheorems`, `PackedTokens`, `PackedRows`, `PackedGrid`,
`SequenceBoundaries` and `PackedBoundaries` cover packing, padding, the worker grid and the boundaries
read back from position ids. `TrajectoryInterleaving`, `InterleavingTheorems` and `InterleavingChoice`
merge multi-turn steps. `MultiRun`, `MultiRunTheorems` and `MultiRunEffects` are the run tables of all
ranks, with any number of discoveries and training steps between two syncs. `ExpertPermutation` groups
tokens by expert and runs each expert on its segment, which `Segments` delimits.

Six promises do not hold of the code as one might read them; each comes with an input that shows it
and an exact condition:

- The column-wise decoder accepts unfinished trailing bytes that the sequential one rejects
  (`TrailingBytesSplitTheDecoders`, `TrailingBytesAreIgnored`, `DecodersAgreeExactly`).
- Teacher logprobs shift within a bin when only some of its samples have them (`TeacherMisaligned`,
  `TeacherAlignedExactlyWhen`).
- A slot freed and taken again between two syncs leaves the other ranks with the wrong scaling factor
  (`ReusedSlotLosesItsFactor`, `ScalingDiffersExactlyWhen`).
- A run that leaves and comes back between two syncs may land in another slot. If a new run has its old
  one, the sync raises on the other ranks; if not, they silently keep the run in its old slot, with its
  progress under the new one, and a later sync raises when it deletes the run while that slot has no
  progress. Back in its own slot with another configuration, the run never shows that configuration to
  them (`ReturningRunCannotBeFollowed`, `MovedRunIsFollowedWrongly`, `MisplacedRunCannotBeForgotten`,
  `SyncFailsExactlyWhen`, `CatchingUpFollows`, `ConfigsAgreeExactlyWhen`, `SyncAgreesExactlyWhen`).
- Routing rows shift to other tokens when a merged step without routing added tokens
  (`SkippedRoutingShifts`, `RoutingExactlyWhen`).
- Response lengths are lost as soon as one packed sequence among several, or the padding behind them, is
  a single token (`SingleTokenLosesItsLength`, `OnePaddingTokenJoinsTheSample`,
  `ResponseLengthsExactlyWhen`).

## Model

| member | source | states |
|---|---|---|
| InferencePool.StaticInferencePool.constructor | src/prime_rl/utils/client.py:151-190 | a new pool has every endpoint healthy, no version active, nothing staged or remembered, and its servers on the base model |
| InferencePool.StaticInferencePool.HealthyAdminClients | src/prime_rl/utils/client.py:404-431 | returns exactly the healthy endpoints, each once, and retires every quarantined one; no endpoint means that the code raises |
| InferencePool.StaticInferencePool.RunEndpointOperations | src/prime_rl/utils/client.py:725-750 | every target is called once whatever the others answer; results list all outcomes in order |
| InferencePool.StaticInferencePool.MarkFailedEndpointsRetired | src/prime_rl/utils/client.py:458-468 | exactly the endpoints whose call failed end up retired, all other leases stay |
| InferencePool.StaticInferencePool.RecordedCall | src/prime_rl/utils/client.py:470-489 | the state after a recorded operation: every target called, failed ones retired even if quarantined meanwhile; returns exactly the targets that succeeded |
| InferencePool.StaticInferencePool.StageWeights | src/prime_rl/utils/client.py:235-268 | the whole state after staging: survivors noted for the version, the entry remembered, nothing noted when every endpoint failed |
| InferencePool.StaticInferencePool.StageMissingEndpoints | src/prime_rl/utils/client.py:270-292 | only healthy endpoints not yet noted for the version are staged, from the remembered entry; when all of them fail it raises exactly if no client can serve rollouts |
| InferencePool.StaticInferencePool.CommitWeights | src/prime_rl/utils/client.py:270-307 | the whole state after a commit: restage the missing, commit on the healthy, adopt the version, then recover the others |
| InferencePool.StaticInferencePool.RecoverUnhealthyEndpoints | src/prime_rl/utils/client.py:513-517 | recovery on its own is the recovery loop over every endpoint, or nothing when switched off |
| InferencePool.StaticInferencePool.RecoverUnhealthyEndpointsLocked | src/prime_rl/utils/client.py:519-531 | the recovery loop handles endpoints in order, each from the state the ones before it left |
| InferencePool.StaticInferencePool.RecoverIfDue | src/prime_rl/utils/client.py:519-531 | only quarantined or retired endpoints past their cooldown that answer the health check are recovered |
| InferencePool.StaticInferencePool.RecoverRetiredEndpoint | src/prime_rl/utils/client.py:542-568 | staged notes of the endpoint are discarded, then reload and replay; healthy exactly when all of it succeeded, retired otherwise |
| InferencePool.StaticInferencePool.ReloadAndReplayEndpoint | src/prime_rl/utils/client.py:546-567 | reload, then stage and commit of each planned entry in order, ending at the first failed call |
| InferencePool.StaticInferencePool.ReplayOnEndpoint | src/prime_rl/utils/client.py:551-563 | the loop over the plan ends at the first failed call, with the state reached until then |
| InferencePool.StaticInferencePool.DeltaReplayPlan | src/prime_rl/utils/client.py:570-597 | returns the retained deltas 1..active in order exactly when the retained versions up to active are 1..active without a gap, and raises otherwise |
| InferencePool.StaticInferencePool.QuarantineClient | src/prime_rl/utils/client.py:315-324 | only a healthy, lease-managed endpoint is quarantined; nothing else changes |
| PoolTheorems.StageKeepsInv | src/prime_rl/utils/client.py:235-268 | staging the version above the active one keeps the pool invariant, whatever servers answer and whoever is quarantined meanwhile |
| PoolTheorems.StageMissingKeepsInv | src/prime_rl/utils/client.py:270-292 | after the restaging part of a commit every healthy endpoint holds the remembered delta |
| PoolTheorems.CommitCallsInTurn | src/prime_rl/utils/client.py:294-300 | every commit request reaches a server at the version before, with the remembered delta staged |
| PoolTheorems.CommitKeepsInv | src/prime_rl/utils/client.py:270-307 | a whole commit, recovery included, keeps the invariant and makes the version active exactly when it returns |
| PoolTheorems.PlanIsTheChain | src/prime_rl/utils/client.py:570-597 | under the invariant the replay plan never raises and is exactly 1..active |
| PoolTheorems.ReplaySucceeds | src/prime_rl/utils/client.py:551-563 | replaying succeeds exactly when each of its calls does |
| PoolTheorems.ReplayKeeps | src/prime_rl/utils/client.py:551-563 | replaying k more deltas on a server at version k keeps every other endpoint untouched and ends at the active version |
| PoolTheorems.RecoverOneKeepsInv | src/prime_rl/utils/client.py:542-568 | an endpoint left in any state is back at the active version exactly when every call of its recovery succeeds, and retired otherwise |
| PoolTheorems.RecoverUnhealthyKeepsInv | src/prime_rl/utils/client.py:519-531 | the recovery loop keeps the pool invariant for every script of failures, cooldowns and quarantines |
| PoolTheorems.QuarantineKeepsInv | src/prime_rl/utils/client.py:315-324 | a quarantine at any moment keeps the pool invariant |
| PoolEffects.QuarantineExactly | src/prime_rl/utils/client.py:315-324 | quarantining a client changes exactly the lease of its endpoint, and only from healthy |
| PoolEffects.StageExactly | src/prime_rl/utils/client.py:235-268 | staging returns exactly when a healthy endpoint answers ok; by the answers alone, which leases, servers, notes and entries change and to what |
| PoolEffects.RestageExactly | src/prime_rl/utils/client.py:270-292 | restaging goes on exactly when an endpoint is healthy and none was missing, one missing took the delta, or none may serve rollouts; the healthy ones behind it are those that hold the version |
| PoolEffects.CommitExactly | src/prime_rl/utils/client.py:270-307 | a commit returns exactly when the restaging does and an endpoint that holds the version takes it; every holder is asked, the version is adopted exactly then, who failed or does not hold it is retired, and behind it every endpoint found down is recovered or not by its own script |
| PoolEffects.RecoveredExactly | src/prime_rl/utils/client.py:542-568 | one recovery ends healthy on the active version when reload, stages and commits all succeed, otherwise retired, and touches nobody else |
| PoolEffects.RecoveryExactly | src/prime_rl/utils/client.py:519-531 | the recovery loop brings back exactly the endpoints found down, cooled down, answering, and with all calls succeeding; a failing call leaves one retired; every other endpoint keeps its server, and its lease unless a quarantine strikes it |
| PoolEffects.DownIsRecovered | src/prime_rl/utils/client.py:519-568 | an endpoint quarantined or retired in front of the loop, due and alive, serves base plus deltas 1..active when calls 0 to 2 * active succeed, healthy unless struck later in the loop, and is retired when one fails; not due or not alive, it is as before |
| PoolEffects.RecoveryRecords | src/prime_rl/utils/client.py:519-568 | recovery only adds to the commit requests already sent |
| PoolEffects.PlanExactly | src/prime_rl/utils/client.py:570-597 | the replay plan raises exactly when a version from 1 to the active one has no entry or an entry below 1 is kept; else entry i + 1 is in place i |
| PolicyLoop.PolicyLoop.constructor | src/prime_rl/orchestrator/scheduler.py:101-172 | a new loop is at step 0, checkpoint 0, with no task |
| PolicyLoop.PolicyLoop.ComputeNextCkptStep | src/prime_rl/orchestrator/scheduler.py:388-397 | there is nothing to adopt exactly when neither step - 1 nor the latest broadcast is above the checkpoint; otherwise the target is the newer of the two, but in delta mode never beyond the very next version |
| PolicyLoop.AdoptingCatchesUp | src/prime_rl/orchestrator/scheduler.py:388-397 | adopting what is due n times catches up at once in full mode and brings one version each time, without skipping any, in delta mode |
| PolicyLoop.PolicyLoop.GetOrStartStageTask | src/prime_rl/orchestrator/scheduler.py:555-568 | the pending stage is kept unless it is done and for another step, then a new one replaces it |
| PolicyLoop.PolicyLoop.GetOrStartPolicyUpdateTask | src/prime_rl/orchestrator/scheduler.py:604-618 | a direct update in progress is joined, never doubled |
| PolicyLoop.PolicyLoop.AwaitPendingTask | src/prime_rl/orchestrator/scheduler.py:570-602 | awaiting raises exactly when the stage had failed, fails now, or the commit does; the task is gone, and the checkpoint is its step, or the old one on a raise |
| PolicyLoop.PolicyLoop.MaybeUpdatePolicy | src/prime_rl/orchestrator/scheduler.py:620-635 | a blocking call that returns leaves the checkpoint at step - 1 or above and at the last broadcast seen; a background call only starts what is due; a raise means that a stage or commit failed; it ends once broadcasts stop |
| PolicyLoop.PolicyLoop.UpdateRound | src/prime_rl/orchestrator/scheduler.py:622-635 | one round returns with nothing wanted or, in the background, with its task pending; otherwise it awaits a task and goes on, nearer to what is wanted, or raises |
| PolicyLoop.CheckExactly | src/prime_rl/orchestrator/scheduler.py:555-618 | a check starts a task for the wanted version exactly when none is pending, or a background one is done for another step; a running one is never replaced |
| PolicyLoop.StepKeepsInv | src/prime_rl/orchestrator/scheduler.py:555-602 | a pending task always leads above the checkpoint; only a commit moves it, forward, in delta mode by exactly one |
| PolicyLoop.CkptNeverDecreases | src/prime_rl/orchestrator/scheduler.py:388-397 | in every run the checkpoint never decreases, in delta mode by at most one a step |
| PolicyLoop.UpdateGoesThrough | src/prime_rl/orchestrator/scheduler.py:555-635 | with nothing pending, a check that wants a version and a task whose stage and commit succeed adopt exactly that version |
| PolicyLoop.FailedUpdateIsForgotten | src/prime_rl/orchestrator/scheduler.py:570-618 | with a failed stage or commit the checkpoint stays and nothing is pending |
| PolicyLoop.FailedStageWaits | src/prime_rl/orchestrator/scheduler.py:555-568 | a background stage that failed for a step stays until awaited: checks for that step do not start it again |
| PolicyRollout.StageIsOnTop | src/prime_rl/orchestrator/scheduler.py:516-543 | what is staged is the version above the active one, with the active one as base version |
| PolicyRollout.CommitAdvances | src/prime_rl/orchestrator/scheduler.py:570-602 | a commit moves checkpoint and active version together, by exactly one, or neither |
| PolicyRollout.StepRefinesLoop | src/prime_rl/orchestrator/scheduler.py:481-507 | the scheduler's half of every joint step is a step of the policy loop alone |
| PolicyRollout.RunKeepsInv | src/prime_rl/orchestrator/scheduler.py:481-507 | in every run of scheduler and pool the checkpoint is the active version and all invariants hold |
| PolicyRollout.HealthyServeTheCheckpoint | src/prime_rl/orchestrator/scheduler.py:481-602 | in every run each healthy endpoint serves the base weights with deltas 1..ckpt_step applied in order |
| PolicyRollout.ReplayPlanIsComplete | src/prime_rl/utils/client.py:570-597 | in every run the replay plan never raises and is exactly deltas 1..ckpt_step, each based on the one before |
| PolicyRollout.CommitsArriveInTurn | src/prime_rl/utils/client.py:294-300 | every commit request ever sent found its server exactly one version behind with that version staged |
| PolicyRollout.RecoveredServeTheCheckpoint | src/prime_rl/utils/client.py:542-568 | in every run each recovery attempt restores the endpoint to the current checkpoint or leaves it retired, depending only on its calls |
| PolicyRollout.StageGoesThrough | src/prime_rl/orchestrator/scheduler.py:516-543 | staging a wanted version in any run: every healthy endpoint that answers ok without being struck stays healthy and holds it, and one is enough |
| PolicyRollout.UpdateGoesThrough | src/prime_rl/orchestrator/scheduler.py:481-635 | from any state of any run with nothing pending, once a newer version is wanted one healthy endpoint that takes stage and commit is enough for the next checkpoint to be adopted, and it serves that one |
| PolicyRollout.RecoveryInRuns | src/prime_rl/utils/client.py:513-531 | in every run recovery treats each endpoint that is down by its own script, others as bystanders |
| RolloutScheduler.RolloutScheduler.constructor | src/prime_rl/orchestrator/scheduler.py:101-172 | a new scheduler has nothing in flight and meets the group invariant |
| RolloutScheduler.RolloutScheduler.InflightRolloutCount | src/prime_rl/orchestrator/scheduler.py:344-346 | the number of rollouts in flight, over all requests |
| RolloutScheduler.RolloutScheduler.DropGroup | src/prime_rl/orchestrator/scheduler.py:279-291 | takes exactly the group's requests out of flight, forgets the group and returns how many rollouts that were |
| RolloutScheduler.RolloutScheduler.ScheduleNextRequest | src/prime_rl/orchestrator/scheduler.py:353-376 | the first group whose next request fits, else a new group if one fits, else nothing |
| RolloutScheduler.RolloutScheduler.ScheduleRollout | src/prime_rl/orchestrator/scheduler.py:293-342 | the request is launched on the client the group is pinned to, for all remaining rollouts of a group-scored group or for one, unless the group is gone |
| RolloutScheduler.RolloutScheduler.Partition | src/prime_rl/orchestrator/scheduler.py:724-741 | valid rollouts in order and the number of failed ones |
| RolloutScheduler.RolloutScheduler.HandleFinishedTask | src/prime_rl/orchestrator/scheduler.py:698-797 | the whole state after a finished task: ignored, group dropped, results collected or group delivered |
| RolloutScheduler.RolloutScheduler.AddResults | src/prime_rl/orchestrator/scheduler.py:722-774 | results join their group; it is dropped, kept waiting, discarded as empty or delivered |
| RolloutScheduler.RolloutScheduler.StartOffPolicyUpdate | src/prime_rl/orchestrator/scheduler.py:637-647 | stale groups are those with a request at the age limit; all other requests in flight are due to age |
| RolloutScheduler.RolloutScheduler.DropStaleGroup | src/prime_rl/orchestrator/scheduler.py:649-649 | one stale group is dropped whatever happened since it was found stale |
| RolloutScheduler.RolloutScheduler.FinishOffPolicyUpdate | src/prime_rl/orchestrator/scheduler.py:651-655 | exactly the due requests still in flight grow older by one |
| RolloutScheduler.RolloutScheduler.CancelInflightRollouts | src/prime_rl/orchestrator/scheduler.py:196-202 | nothing is in flight or live any more; the count is what was in flight |
| RolloutGroupTheorems.FirstFitFits | src/prime_rl/orchestrator/scheduler.py:359-366 | the chosen group fits the remaining capacity and no earlier one does |
| RolloutGroupTheorems.LaunchKeepsInv | src/prime_rl/orchestrator/scheduler.py:293-342 | launching after any interleaving keeps accounting, capacity, pinning and ages |
| RolloutGroupTheorems.FinishKeepsInv | src/prime_rl/orchestrator/scheduler.py:698-797 | finishing a task any way keeps accounting, deliveries and ages |
| RolloutGroupTheorems.EndUpdateKeepsInv | src/prime_rl/orchestrator/scheduler.py:649-655 | the end of an update leaves every request aged by exactly the updates it has seen |
| RolloutGroupTheorems.RunKeepsInv | src/prime_rl/orchestrator/scheduler.py:664-807 | all group invariants hold in every run |
| RolloutGroupTheorems.GroupsAreAccountedFor | src/prime_rl/orchestrator/scheduler.py:279-380 | for every live group: to schedule + in flight + completed + failed = group size, and completed is what its tasks returned |
| RolloutGroupTheorems.InflightIsBounded | src/prime_rl/orchestrator/scheduler.py:353-380 | rollouts in flight never exceed the limit and always belong to live groups |
| RolloutGroupTheorems.DeliveriesAreWhole | src/prime_rl/orchestrator/scheduler.py:743-774 | a group is delivered at most once, after all its outcomes are in, with every valid rollout its tasks returned, in order |
| RolloutGroupTheorems.OffPolicyIsExact | src/prime_rl/orchestrator/scheduler.py:637-655 | between updates a request's off-policy count equals the updates since it was scheduled and never exceeds the limit |
| RolloutGroupEffects.PickExactly | src/prime_rl/orchestrator/scheduler.py:353-376 | the request goes to the oldest group that has one fitting the room left, else to a new group if there is room for all of it, else nowhere |
| RolloutGroupEffects.LaunchExactly | src/prime_rl/orchestrator/scheduler.py:293-342 | a launch for a live group with rollouts left takes one or all of them, at age 0, with the current checkpoint as salt, on the pinned client; otherwise nothing happens |
| RolloutGroupEffects.ValidNext | src/prime_rl/orchestrator/scheduler.py:724-741 | rollouts join in order exactly when they are valid |
| RolloutGroupEffects.FinishExactly | src/prime_rl/orchestrator/scheduler.py:698-797 | a finished task of a live group is dropped with it exactly when cancelled, raised or failed in a scored group; else its rollouts join the valid and failed ones, the group waits while outcomes are missing, and with all in leaves, handed over with exactly its valid rollouts if there are any; other groups and requests stay |
| RolloutGroupEffects.LateFinish | src/prime_rl/orchestrator/scheduler.py:698-721 | a task that is no longer known changes nothing, one whose group is gone only leaves |
| RolloutGroupEffects.UpdateExactly | src/prime_rl/orchestrator/scheduler.py:637-655 | an uninterrupted update drops exactly the groups with a request at the age limit, all their requests with them; every other request in flight is one older, every other group as before |
| RolloutGroupEffects.CancelExactly | src/prime_rl/orchestrator/scheduler.py:196-202 | cancelling empties the requests and groups, counts the rollouts that were in flight and touches nothing else |
| RolloutGroupEffects.StepEnds | src/prime_rl/orchestrator/scheduler.py:664-807 | in one step a live group stays live, is handed over, ends without a valid rollout, or is dropped for staleness, a cancel, a raise or a failure in a scored group |
| RolloutGroupEffects.GroupsEnd | src/prime_rl/orchestrator/scheduler.py:664-807 | in every run each group that was ever opened is live with outcomes missing, delivered with all valid rollouts its tasks returned, over without any, or dropped for one of those reasons |
| RolloutGroupEffects.WholeGroupsAreDelivered | src/prime_rl/orchestrator/scheduler.py:743-774 | in every run a group whose outcomes are all in, a valid one among them, has been delivered unless dropped for one of those reasons |
| SchedulerSystem.StepKeepsInv | src/prime_rl/orchestrator/scheduler.py:465-475 | policy loop, pool and groups together keep all their invariants in every step |
| SchedulerSystem.RequestsAreAsOldAsTheirSalt | src/prime_rl/orchestrator/scheduler.py:588-595 | in every delta-mode run a request's off-policy count is ckpt_step minus its cache salt, within the limit |
| SchedulerSystem.HealthyServeTheCheckpoint | src/prime_rl/orchestrator/scheduler.py:481-602 | the weights promise survives the composition with the rollout groups |
| SchedulerSystem.StepIsOfTheParts | src/prime_rl/orchestrator/scheduler.py:481-507 | each step of the whole is a step of one part alone, but that adopting a checkpoint begins the off-policy update |
| SchedulerSystem.GroupsRunAlone | src/prime_rl/orchestrator/scheduler.py:637-807 | the groups in a run of the whole are those of a run on their own, so every promise about groups holds there |
| Varint.EncodedSize | src/prime_rl/utils/delta.py:313-328 | the first pass computes exactly the bytes the second writes, and raises exactly on negative or unsorted indices |
| Varint.WriteDiff | src/prime_rl/utils/delta.py:336-342 | one difference is appended in base 128, nothing before it changes |
| Varint.EncodeVarintDeltaIndices | src/prime_rl/utils/delta.py:313-352 | the array is filled completely with the code of the indices |
| Varint.DecodeSequential | src/prime_rl/utils/delta.py:400-430 | byte by byte, it returns the running sums of the varints exactly when they are complete, as many as expected and fit int64 |
| Varint.AssembleColumns | src/prime_rl/utils/delta.py:386-396 | column after column, every varint gets its value |
| Varint.DecodeColumns | src/prime_rl/utils/delta.py:369-397 | returns wrapped running sums exactly when as many varints as expected end and none has more than 9 bytes |
| Varint.DecodeVarintDeltaIndices | src/prime_rl/utils/delta.py:355-397 | rejects bytes where nothing is expected; the shortcut without continuation bytes agrees with the column-wise decoder |
| VarintTheorems.DecodersAgree | src/prime_rl/utils/delta.py:369-430 | on streams that end in a terminal byte, with varints of at most 9 bytes and sums within int64, both decoders return the same |
| VarintTheorems.DecodersAgreeExactly | src/prime_rl/utils/delta.py:369-430 | the public column-wise decoder and the sequential one differ exactly when an index is expected, the count is right, and just one of them has a reason to reject: a varint of more than 9 bytes, or an unfinished end or a sum beyond int64 |
| VarintTheorems.TrailingBytesAreIgnored | src/prime_rl/utils/delta.py:374-379 | any unfinished bytes behind the last expected index are ignored by the column-wise decoder and rejected by the sequential one |
| VarintTheorems.TrailingBytesSplitTheDecoders | src/prime_rl/utils/delta.py:374-379 | bytes on which the two decoders differ |
| VarintTheorems.RoundTrip | src/prime_rl/utils/delta.py:312-430 | decoding the code of any sorted non-negative int64 indices returns them, with either decoder |
| VarintTheorems.EncodeIsInjective | src/prime_rl/utils/delta.py:312-352 | different index lists have different codes |
| VarintLayout.SortedExactly | src/prime_rl/utils/delta.py:313-328 | exactly the ascending lists of non-negative indices can be encoded |
| VarintLayout.CodeExactly | src/prime_rl/utils/delta.py:336-342 | a difference is written as its base-128 digits, lowest first, no more than it has, with the high bit on all but the last |
| VarintLayout.EncodeExactly | src/prime_rl/utils/delta.py:329-343 | the code of a list is the codes of the differences between neighbours, the first from 0, one behind the other |
| VarintLayout.NumberExactly | src/prime_rl/utils/delta.py:386-396 | the number a varint stands for has the low seven bits of its bytes as digits, lowest first |
| VarintLayout.DecodeExactly | src/prime_rl/utils/delta.py:355-397 | joined varints are decoded exactly when none is longer than 9 bytes; each index is the one before plus its varint, wrapped to 64 bits |
| VarintLayout.DecodeSequentiallyExactly | src/prime_rl/utils/delta.py:400-430 | the sequential decoder returns the unwrapped sums of joined varints exactly when all are below 2 to the 63 |
| VarintLayout.AcceptedExactly | src/prime_rl/utils/delta.py:355-397 | accepted are the empty stream when nothing is expected, otherwise exactly the streams with as many bytes without the high bit as expected, none behind nine bytes that have it |
| VarintLayout.AcceptedSequentiallyExactly | src/prime_rl/utils/delta.py:400-430 | the sequential decoder accepts exactly the streams with as many bytes without the high bit as expected, ending in one, with sums that fit |
| SparseDelta.ExtractPair | src/prime_rl/utils/delta.py:1009-1039 | shape and dtype checks first, then the changed values or the refusal |
| SparseDelta.ExtractSparseDelta | src/prime_rl/utils/delta.py:859-889 | the file form holds the changed tensors of all names, or the first failing tensor raises |
| SparseDelta.ExtractSparseDeltaStreaming | src/prime_rl/utils/delta.py:912-957 | the stream form has one record a changed tensor in visiting order, or the first failing tensor raises |
| SparseDelta.LoadStream | src/prime_rl/utils/delta.py:168-181 | the records as a map, refused when a name repeats |
| SparseDelta.CheckTensor | src/prime_rl/utils/delta.py:687-719 | one tensor is an error, a match or a mismatch |
| SparseDelta.VerifySparseDelta | src/prime_rl/utils/delta.py:636-721 | mismatching names in order up to the report limit; raises on names outside the model and entries that cannot be rebuilt |
| SparseDeltaTheorems.EncodersAreFaithful | src/prime_rl/utils/delta.py:433-452 | either index encoding decodes to the indices encoded |
| SparseDeltaTheorems.ChangedExactly | src/prime_rl/utils/delta.py:1022-1028 | changed positions are exactly those that differ, ascending |
| SparseDeltaTheorems.ExtractRaisesExactlyWhen | src/prime_rl/utils/delta.py:1029-1039 | extraction refuses exactly when some changed value has no exact difference in its own dtype and some has none in the wider one |
| SparseDeltaTheorems.ReconstructPatches | src/prime_rl/utils/delta.py:522-542 | rebuilding adds each difference at its own position and keeps every other value |
| SparseDeltaTheorems.PatchReachesTarget | src/prime_rl/utils/delta.py:522-542 | from base, or from anything whose values equal those of base, rebuilding equals target at every position |
| SparseDeltaTheorems.FloatsAreCongruent | src/prime_rl/utils/delta.py:522-542 | equality with an unequal NaN, two equal zeros and infinities, as IEEE 754 has it, is what patching something equal to base needs |
| SparseDeltaTheorems.RebuiltMatches | src/prime_rl/utils/delta.py:522-542 | whenever extraction returned, the tensor rebuilt from the stored entry equals target, unchanged tensors included |
| SparseDeltaTheorems.OrderDoesNotMatter | src/prime_rl/utils/delta.py:877-878 | visiting the names in any order gives the same delta or none |
| SparseDeltaTheorems.FormsAgree | src/prime_rl/utils/delta.py:859-974 | file form and stream form carry the same names, shapes, indices and values |
| SparseDeltaTheorems.VerifierAccepts | src/prime_rl/utils/delta.py:636-721 | whenever extraction returned, the verifier reports no mismatch |
| SparseDeltaTheorems.VerifierReportsExactly | src/prime_rl/utils/delta.py:683-721 | the verifier reports only mismatches and, below the limit, all of them |
| SparseDeltaEffects.CompareExactly | src/prime_rl/utils/delta.py:1009-1039 | two tensors are refused on another shape or dtype or inexact differences, leave no entry exactly when no value differs, and else one for exactly the changed positions whose values restore the target |
| SparseDeltaEffects.ExtractionExactly | src/prime_rl/utils/delta.py:859-889 | extraction raises exactly when a tensor is refused; else a name has an entry exactly when its tensor changed, holding exactly what changed |
| SparseDeltaEffects.RecordsInOrder | src/prime_rl/utils/delta.py:912-957 | stream records come in visiting order, one a changed tensor |
| SparseDeltaEffects.LoadedExactly | src/prime_rl/utils/delta.py:168-181 | a stream loads exactly when no name repeats, each name with its own record |
| SparseDeltaEffects.EncodingsExactly | src/prime_rl/utils/delta.py:433-441 | the optimized encoding is the varint code, the naive one the plain indices, 32 bits wide exactly when the last one fits |
| SparseDeltaEffects.RawIndicesExactly | src/prime_rl/utils/delta.py:444-452 | which indices a stored entry stands for; a wrong number of plain ones is refused |
| SparseDeltaEffects.ReconstructExactly | src/prime_rl/utils/delta.py:522-542 | rebuilding raises exactly on a wrong number of indices or one out of range; else each listed position holds base plus difference and every other its old value |
| SparseDeltaEffects.RebuiltExactly | src/prime_rl/utils/delta.py:687-707 | a name without entry is rebuilt as base; one whose entry has another shape is not rebuilt |
| SparseDeltaEffects.VerifiedExactly | src/prime_rl/utils/delta.py:636-721 | the verifier raises exactly on names outside the model and tensors that cannot be compared; a reported name has a position where the rebuilt value is not close to the target or another length; every name not reported, while there is room, is close at every position |
| SparseDeltaEffects.ReportIsFirst | src/prime_rl/utils/delta.py:683-721 | the report is the first mismatching names in order, cut at the limit |
| SparseDeltaTheorems.ChainReachesLast | src/prime_rl/utils/delta.py:522-542 | applying the deltas of consecutive models to the first one reaches the last one |
| RecordStream.StreamingDeltaWriter.constructor | src/prime_rl/utils/delta.py:119-122 | a new file is the header |
| RecordStream.StreamingDeltaWriter.WriteRecord | src/prime_rl/utils/delta.py:124-159 | the file is always the header and the written records; a refused record leaves it alone |
| RecordStream.IterRecords | src/prime_rl/utils/delta.py:214-251 | the reader's loop yields exactly the records of the stream and ends the way the stream does |
| RecordStream.ReadOne | src/prime_rl/utils/delta.py:223-251 | one round reads one record and consumes exactly its bytes, or raises |
| RecordStreamTheorems.RecordRoundTrip | src/prime_rl/utils/delta.py:134-159 | a written record, whatever follows it, is read back and nothing of what follows is touched |
| RecordStreamTheorems.StreamRoundTrip | src/prime_rl/utils/delta.py:118-251 | reading back any written sequence of records yields it |
| RecordStreamTheorems.StreamIsUniquelyDecodable | src/prime_rl/utils/delta.py:118-251 | different record sequences have different bytes |
| RecordStreamTheorems.CutStreamYieldsPrefix | src/prime_rl/utils/delta.py:223-251 | a cut file yields the records in front of the cut and is accepted exactly when the cut falls between records |
| RecordStreamTheorems.CutHeaderRaises | src/prime_rl/utils/delta.py:214-221 | a file cut inside its header yields nothing and is rejected |
| RecordStreamLayout.HeaderExactly | src/prime_rl/utils/delta.py:119-122 | a file begins with the magic bytes and version 1 or 2 in four little-endian bytes; anything else is refused |
| RecordStreamLayout.ParseExactly | src/prime_rl/utils/delta.py:223-251 | bytes are read as a record exactly when they hold a whole one with known dtype, fitting index payload and, in version 1, no dimensions; each field is at its place, little-endian, and exactly its bytes are consumed |
| RecordStreamLayout.WritableExactly | src/prime_rl/utils/delta.py:124-159 | which records are whole enough to be written: sizes that fit their fields and payloads that fit format and dtype |
| RecordStreamLayout.RefusedExactly | src/prime_rl/utils/delta.py:124-133 | the writer refuses exactly an unknown dtype, a missing shape and 65536 dimensions or more |
| RecordStreamLayout.DtypesExactly | src/prime_rl/utils/delta.py:30-48 | the width of every dtype code; all codes but 1 to 8 are unknown |
| StreamingUpload.UploadIsTheFile | src/prime_rl/utils/client.py:976-1036 | whatever the writer does in between, at finalize the contiguous chunks of bounded size are exactly the finished file |
| StreamingUpload.UploadEnds | src/prime_rl/utils/client.py:976-1036 | once the done file is there and no call fails, a known number of further moves finalizes the upload, or finds no file, whatever else happens in between, and it sends exactly the chunks that were left |
| StreamingUpload.EndsSoon | src/prime_rl/utils/client.py:976-1036 | these are one for each chunk size of bytes left, rounded up, and at most one more that was under way; the moves are at most twice as many and six |
| SequencePacking.PackedSamplesIntoMicroBatches | src/prime_rl/trainer/batch.py:144-214 | the loop packs the sorted samples first fit, multimodal ones on their own |
| SequencePacking.Distribute | src/prime_rl/trainer/batch.py:315-320 | batch i is row i div workers of worker i mod workers; the grid holds each batch as often as the list does and trains as many tokens |
| SequencePacking.PrepareBatch | src/prime_rl/trainer/batch.py:279-320 | the grid deals out the layout of the sorted, packed, padded and ordered samples; fails exactly when a sample is inconsistent |
| SequencePacking.SortKeeps | src/prime_rl/trainer/batch.py:156-156 | sorting only rearranges the samples |
| PackedTokens.SortSorts | src/prime_rl/trainer/batch.py:156-156 | adapters ascend, and within one the lengths descend |
| PackedRows.SortIsStable | src/prime_rl/trainer/batch.py:156-156 | samples of one adapter and one length keep their order |
| PackingTheorems.PrepareKeepsPrefix | src/prime_rl/trainer/batch.py:52-136 | a consistent sample is prepared: its first seq_len tokens, each with its own mask, logprob, temperature and position and the sample's advantage, reward and environment; prompt tokens get the first completion temperature, or 1.0; teacher logprobs and token types are prefixes of the sample's, mode and modality are kept |
| PackingTheorems.PrepareExactly | src/prime_rl/trainer/batch.py:52-136 | preparing fails exactly when a list, cut like the tokens, does not have one value a token; else the sample is prepared as above |
| PackingTheorems.PackingConserves | src/prime_rl/trainer/batch.py:144-214 | every sample is in exactly one bin, and each per-token list of a bin is its samples' lists whole and in order |
| PackingTheorems.BinsAreUniform | src/prime_rl/trainer/batch.py:172-176 | every sample of a bin has the bin's training mode and modality |
| PackingTheorems.MultimodalAlone | src/prime_rl/trainer/batch.py:161-170 | a multimodal sample shares its bin with nobody |
| PackingTheorems.BinsFit | src/prime_rl/trainer/batch.py:172-176 | no bin exceeds the capacity |
| PackingTheorems.BinsCannotMerge | src/prime_rl/trainer/batch.py:167-212 | any two text bins of one mode together exceed the capacity |
| PackingTheorems.LoadsAreTokens | src/prime_rl/trainer/batch.py:144-214 | the text bins of a mode hold exactly the tokens of its text samples |
| PackingTheorems.FewBins | src/prime_rl/trainer/batch.py:144-214 | each mode uses at most 2m - 1 text bins when any packing with m bins of the same capacity exists |
| PackedRows.FirstFitExactly | src/prime_rl/trainer/batch.py:161-212 | each sample goes to the first bin of its mode with room that is not multimodal, a multimodal one or one that fits nowhere to a new bin |
| PackedTokens.BinsAligned | src/prime_rl/trainer/batch.py:177-207 | all per-token lists of a bin have one value a token |
| PackedTokens.TeacherAlignedExactlyWhen | src/prime_rl/trainer/batch.py:191-194 | teacher logprobs fit a bin exactly when none of its samples has them or all its samples with tokens do |
| PackedTokens.TeacherMisaligned | src/prime_rl/trainer/batch.py:191-194 | two samples whose bin has one teacher logprob for two tokens |
| PackedTokens.PaddingCompletes | src/prime_rl/trainer/batch.py:217-259 | the padded length is the next multiple, lists stay aligned, padding trains nothing |
| PackedRows.PaddingExactly | src/prime_rl/trainer/batch.py:217-259 | a padded batch is the batch with pads up to the next multiple: token 1, untrained, advantage and logprob 0, no reward, temperature 1, no environment, positions from 0; mode and modality stay |
| PackedTokens.BinMatches | src/prime_rl/trainer/batch.py:156-212 | a bin's counts are its tokens per adapter, and its tokens ascend by adapter |
| PackedTokens.AdaptersDelimited | src/prime_rl/trainer/batch.py:245-247 | in every padded bin prefix sums of the counts delimit exactly each adapter's tokens, padding being the last one's |
| PackedTokens.PackTrains | src/prime_rl/trainer/batch.py:177-181 | packing neither loses nor adds a trained token |
| PackedTokens.GridTrainsTheSamples | src/prime_rl/trainer/batch.py:262-320 | the micro batches laid out for the workers train exactly the tokens the sorted, truncated samples train |
| PackedTokens.GridHoldsEachOnce | src/prime_rl/trainer/batch.py:270-313 | every padded bin is laid out exactly once, and all others are dummies that train nothing |
| PackedTokens.OrderedByModality | src/prime_rl/trainer/batch.py:301-311 | all multimodal batches come in front of all text batches, dummies included |
| PackedTokens.GridRows | src/prime_rl/trainer/batch.py:313-320 | all workers get equally many micro batches and each row has one modality |
| PackedGrid.GridKeepsTheBatch | src/prime_rl/trainer/batch.py:262-320 | the grid returned for any rollouts: workers go through equally many rows of one modality each, every padded bin is in it once beside dummies that train nothing, every prepared rollout is whole in one bin, and the grid trains exactly the tokens that the rollouts train within seq_len |
| PackedGrid.GridBatchKeepsPromises | src/prime_rl/trainer/batch.py:262-320 | every micro batch a worker gets is a dummy or a bin whose samples fit seq_len, with one value a token in every list up to the multiple, prefix sums that delimit each adapter, and, when no rollout is empty, boundaries that read back the samples' lengths |
| PackedRows.GridTokensExactly | src/prime_rl/trainer/batch.py:279-320 | in the grid that is returned, each token of each batch is a token of a rollout with that rollout's advantage, reward, environment, mask, logprob, temperature and position, or padding; a dummy is such a batch with nothing to train |
| PackedGrid.SortTrains | src/prime_rl/trainer/batch.py:156-156 | sorting keeps the number of trained tokens |
| SequenceBoundaries.CuSeqlensExactly | src/prime_rl/utils/sequence.py:6-35 | the offsets are 0, every zero position and the end, ascending, for shards that begin inside a sequence too |
| SequenceBoundaries.CuSeqlensOfPacked | src/prime_rl/utils/sequence.py:6-35 | for packed non-empty sequences the offsets are the prefix sums of the lengths and the maximum is the longest |
| SequenceBoundaries.GetResponseLengths | src/prime_rl/trainer/utils.py:146-179 | both loops compute the differences of the restarts |
| SequenceBoundaries.PackedRestarts | src/prime_rl/trainer/utils.py:163-169 | a restart is seen exactly where a sequence of two or more tokens follows one of two or more |
| SequenceBoundaries.ResponseLengthsExactlyWhen | src/prime_rl/trainer/utils.py:146-179 | the packed lengths come back exactly when there is one sequence or none is a single token |
| SequenceBoundaries.SingleTokenLosesItsLength | src/prime_rl/trainer/utils.py:163-169 | lengths 2 and 1 come back as one length 3 |
| PackedBoundaries.PackedBinBoundaries | src/prime_rl/utils/sequence.py:6-35 | in every bin padded to a multiple the offsets are the prefix sums of its samples' lengths and the padding, and response lengths agree exactly when none of these is a single token among several |
| PackedBoundaries.OnePaddingTokenJoinsTheSample | src/prime_rl/trainer/utils.py:163-169 | a bin of one three-token sample padded by a single token comes back as one response of four tokens |
| TrajectoryInterleaving.InterleaveRollout | src/prime_rl/orchestrator/trajectories.py:204-416 | no sample for an empty trajectory or missing tokens, otherwise the finalized samples of all merged steps |
| TrajectoryInterleaving.MergeSteps | src/prime_rl/orchestrator/trajectories.py:357-395 | each step extends the first sample whose tokens its prompt repeats, or opens one |
| TrajectoryInterleaving.Concatenate | src/prime_rl/orchestrator/trajectories.py:401-407 | the chunks are joined in order |
| TrajectoryInterleaving.AlignRoutedExperts | src/prime_rl/orchestrator/trajectories.py:26-45 | aligned rows are as many as the tokens |
| InterleavingTheorems.MergingPartitions | src/prime_rl/orchestrator/trajectories.py:357-395 | every step is merged into exactly one sample |
| InterleavingTheorems.SampleIsChain | src/prime_rl/orchestrator/trajectories.py:365-395 | each sample is built of ascending steps, each repeating all tokens of the one before |
| InterleavingTheorems.SampleTokens | src/prime_rl/orchestrator/trajectories.py:303-329 | a sample's prompt and completion are the tokens of the last step merged into it |
| InterleavingTheorems.SampleFaithful | src/prime_rl/orchestrator/trajectories.py:267-329 | each step's completion tokens sit at their own offsets with that step's mask and logprobs, all False if the rollout errored; nothing else appended trains |
| InterleavingTheorems.ChunksAreRows | src/prime_rl/orchestrator/trajectories.py:331-355 | the chunks joined are the rows of the tokens whose routing was collected, in order, each that of the first step that saw it |
| InterleavingTheorems.RoutingIsPerToken | src/prime_rl/orchestrator/trajectories.py:397-416 | when steps without routing add no tokens, finalized routing has one row a token, that of the first merged step that ran it forward, and a blank last row |
| InterleavingTheorems.RoutingExactlyWhen | src/prime_rl/orchestrator/trajectories.py:331-416 | whichever steps carry routing: there is some exactly when the first step has it, its rows are those of the collected tokens in order, and each is at its own token with none missing exactly when steps without routing add no tokens |
| InterleavingTheorems.SkippedRoutingShifts | src/prime_rl/orchestrator/trajectories.py:331-355 | three steps, the second without routing, after which the third token's row is at the second token |
| InterleavingTheorems.InterleavedSamples | src/prime_rl/orchestrator/trajectories.py:204-416 | the samples returned are those of chains that share out the trajectory |
| InterleavingChoice.InterleavedExactly | src/prime_rl/orchestrator/trajectories.py:357-395 | step k stands behind step j in its chain exactly when that chain is the first whose last step below k is repeated by its prompt, and opens a chain exactly when there is none; chains come in the order of their first steps |
| InterleavingChoice.ExtensionsMakeOneSample | src/prime_rl/orchestrator/trajectories.py:365-385 | when every prompt repeats all tokens of the step before, exactly one sample is returned |
| InterleavingChoice.NothingExactlyWhen | src/prime_rl/orchestrator/trajectories.py:225-273 | nothing is returned exactly for an empty trajectory or one with a step without tokens |
| InterleavingChoice.SampleKeeps | src/prime_rl/orchestrator/trajectories.py:281-329 | a sample's prompt mask is that of its first step, and every completion token has the rollout's temperature |
| InterleavingChoice.FinalizingKeeps | src/prime_rl/orchestrator/trajectories.py:397-416 | finalizing changes nothing but the routing |
| MultiRun.RunManager.constructor | src/prime_rl/trainer/runs.py:35-89 | a new manager has every slot unused and meets the table invariant |
| MultiRun.RunManager.CreateRunData | src/prime_rl/trainer/runs.py:268-288 | the run takes the slot in both maps, with its start step and configuration; raises exactly when the slot is not an unused one, with the run already entered |
| MultiRun.RunManager.DeleteRunData | src/prime_rl/trainer/runs.py:290-302 | the run leaves both maps, its slot is unused and its factor marked; raises, with nothing changed, exactly when the slot has no progress |
| MultiRun.RunManager.DeleteRuns | src/prime_rl/trainer/runs.py:366-371 | exactly the given runs are gone and every other keeps slot and data, in whatever order they go; raises exactly when one of them has no progress |
| MultiRun.RunManager.DiscoverRuns | src/prime_rl/trainer/runs.py:349-387 | gone runs are forgotten; configured new ones get a slot each, all of them or until none is left |
| MultiRun.RunManager.AdoptRuns | src/prime_rl/trainer/runs.py:373-387 | each new run with a valid configuration gets an unused slot while there is one |
| MultiRun.RunManager.CatchUp | src/prime_rl/trainer/runs.py:416-450 | factors are copied, then deletions, creations, progress and ready flags; hooks run for the same runs, deletions first; raises exactly when a gone run has no progress, or a new one no configuration or no slot that is unused once the gone ones are deleted |
| MultiRun.RunManager.FollowRuns | src/prime_rl/trainer/runs.py:423-438 | the runs to forget are gone and the new ones in their given slots, everything else as before, slots of known runs included; raises exactly as the whole sync does |
| MultiRun.RunManager.CreateRuns | src/prime_rl/trainer/runs.py:436-438 | exactly the new runs are added in their given slots; raises exactly when one has no configuration or no unused slot of its own |
| MultiRun.RunManager.RunHooks | src/prime_rl/trainer/runs.py:443-450 | one deletion hook a gone run, then one creation hook a new run |
| MultiRun.RunManager.PublishAndRunHooks | src/prime_rl/trainer/runs.py:397-454 | the master publishes its tables, flags and the new configurations, runs the hooks of the change since the last sync and remembers it |
| MultiRunTheorems.DiscoveryKeepsLive | src/prime_rl/trainer/runs.py:349-387 | discovery keeps slot and data of every run whose directory is there and forgets every other |
| MultiRunEffects.DiscoveryExactly | src/prime_rl/trainer/runs.py:349-387 | a discovery in every table: known runs with a directory keep slot, configuration, progress and factor; every other run with a configuration gets a slot with the start step and factor it asks for, or all slots are taken; nobody else has a slot, and slots that were left are empty with factor 1000000 |
| MultiRunEffects.PublishedExactly | src/prime_rl/trainer/runs.py:397-412 | published are slots, flags, factors, progress and the configuration of exactly the runs not synced before |
| MultiRunEffects.CatchUpExactly | src/prime_rl/trainer/runs.py:416-441 | a rank behind a sync in every table: published flags and progress, exactly the published runs, known ones in their slots with their configurations, new ones in the published slots with the published ones, factors as published but 1000000 where it emptied a slot |
| MultiRunEffects.HooksExactly | src/prime_rl/trainer/runs.py:443-450 | hooks run once for each run that is gone, with its old slot, then once for each new run, with its slot, and for no other |
| MultiRunTheorems.RankFailsExactlyWhen | src/prime_rl/trainer/runs.py:423-438 | on a rank in step, a sync raises exactly when the master gave a new run the slot that a run which both still have had before |
| MultiRunTheorems.SyncFailsExactlyWhen | src/prime_rl/trainer/runs.py:423-438 | on any rank that got through the syncs so far, a sync raises exactly when it has to delete a run held in a slot that the master did not use at the last sync, or a new run was given the slot in which the rank keeps another |
| MultiRunTheorems.NextSyncFailsExactlyWhen | src/prime_rl/trainer/runs.py:349-454 | the same for the next sync of every history of discoveries, training and syncs, whatever came back where |
| MultiRunTheorems.StayingRunsNeverFail | src/prime_rl/trainer/runs.py:349-454 | as long as no run leaves and comes back between two syncs, no sync raises |
| MultiRunTheorems.KnownRunsStay | src/prime_rl/trainer/runs.py:423-441 | a sync that does not raise leaves the rank with exactly the master's runs, progress and flags, every run it knew in its old slot |
| MultiRunTheorems.CatchingUpFollows | src/prime_rl/trainer/runs.py:423-441 | behind a sync that did not raise the slots of a rank are the master's exactly when no run moved |
| MultiRunTheorems.SyncAgreesExactlyWhen | src/prime_rl/trainer/runs.py:349-454 | whatever was discovered and trained since the last sync, behind it all ranks have the master's runs, slots, configurations, progress and flags exactly when every run still there kept its slot and configuration |
| MultiRunTheorems.ConfigsAgreeExactlyWhen | src/prime_rl/trainer/runs.py:423-441 | once a rank has followed, its configurations are the master's exactly when no run came back with another one |
| MultiRunTheorems.StayingRunsSettle | src/prime_rl/trainer/runs.py:349-387 | a run that never left keeps slot and configuration over any number of discoveries and training steps |
| MultiRunTheorems.OneDiscoverySettles | src/prime_rl/trainer/runs.py:349-387 | with one discovery between two syncs, and any training around it, no run can come back |
| MultiRunTheorems.ReturningRunCannotBeFollowed | src/prime_rl/trainer/runs.py:423-438 | two discoveries before a sync that bring a run back in another slot and give its own to a new run: the sync raises |
| MultiRunTheorems.MovedRunIsFollowedWrongly | src/prime_rl/trainer/runs.py:423-441 | a third discovery that finds the new run gone: the sync raises nothing, the rank keeps the run in its old slot and has its progress under the new one |
| MultiRunTheorems.MisplacedRunCannotBeForgotten | src/prime_rl/trainer/runs.py:290-302 | once that run is gone, the next sync raises on that rank, whose slot has no progress |
| MultiRunTheorems.RanksStayInStep | src/prime_rl/trainer/runs.py:349-454 | over every history of discoveries, training on master and ranks, and syncs in which no run comes back between two syncs, all ranks have the master's tables, progress and flags behind each sync |
| MultiRunTheorems.ScalingDiffersExactlyWhen | src/prime_rl/trainer/runs.py:422-434 | a rank's factor differs exactly at slots of runs gone since the last sync whose factor the master has set again, which are slots in use |
| MultiRunTheorems.ReusedSlotLosesItsFactor | src/prime_rl/trainer/runs.py:290-302 | a sync behind which a slot was freed and reused and the rank's factor is wrong |
| ExpertPermutation.ValidExactly | src/prime_rl/trainer/distributed/deepep.py:214-216 | the mask selects exactly the places that name an expert |
| ExpertPermutation.ArgsortSorts | src/prime_rl/trainer/distributed/deepep.py:218-218 | the order sorts by expert and keeps equal ones in place |
| ExpertPermutation.PermutedIsStableGrouping | src/prime_rl/trainer/distributed/deepep.py:209-224 | the permuted rows are a stable expert-ordered arrangement of exactly the valid slots, each with its token's state, score and token |
| ExpertPermutation.UnpermuteSumsOwnSlots | src/prime_rl/trainer/distributed/deepep.py:227-235 | whatever vector is computed per slot, each coordinate of a token is the sum over its own valid slots |
| ExpertPermutation.SegmentsAreExperts | src/prime_rl/trainer/models/layers/moe.py:98-110 | cut by the numbers of tokens per expert, segment e of the permuted rows is exactly the rows whose slot names expert e, and the segments cover all rows |
| ExpertPermutation.RunExpertsForLoop | src/prime_rl/trainer/models/layers/moe.py:92-122 | the loop runs expert e on segment e, joins the results in order and pads with zero rows |
| ExpertPermutation.ExpertsMeetTheirRows | src/prime_rl/trainer/models/layers/moe.py:92-122 | running each expert on its segment gives every permuted row to the expert its own slot names |
| ExpertPermutation.LayerIsPerToken | src/prime_rl/trainer/distributed/deepep.py:298-334 | dispatch, experts on their segments and combine give each token, in every coordinate, the scored results of exactly its own experts, scores applied before or after |

## Left out

- Endpoints are positions in the list of admin clients; distinct clients with one address, address normalisation and aliases are not modelled.
- Versions are integers; version strings that are no numbers are not modelled, nor are pools without leases or in full mode.
- Cooldown clocks, health checks, HTTP calls and upload methods other than streaming are answers of the environment; lease counters, metrics and logging are absent.
- The inference server's own handlers are not part of this model; the abstract server stands in for them.
- `update_weights` and `reload_weights` of the pool take no lock and leave the active version alone; they are outside the model, as are LoRA updates and the direct update protocol.
- Cancellation of a recovery and shutdown: runs are modelled without them.
- PoolTheorems.StageKeepsInv: staging is promised for the version above the active one only, which is what the scheduler asks for; PolicyRollout proves that it asks for no other.
- PolicyLoop.PolicyLoop.AwaitPendingTask: whether staging and committing succeed are arguments, PolicyRollout ties them to the pool; a task that waits for its checkpoint file forever, or is cancelled, is not among them.
- PolicyLoop.PolicyLoop.MaybeUpdatePolicy: the highest step broadcast while it runs is an argument; without such a bound the loop need not end.
- RolloutGroupTheorems.DeliveriesAreWhole: assumes that a task returns as many rollouts as it was asked for, as environments are trusted to do; the buffer's filtering of delivered groups is not modelled.
- RolloutScheduler.RolloutScheduler.CancelInflightRollouts: counting, awaiting the cancellations and clearing are one step, although requests could come and go during the await.
- Waiting for files and the gate that holds finished rollouts back while a checkpoint is awaited change no state that is modelled.
- StreamingUpload.UploadEnds: a chunk size of at least one byte; a failing call raises and is not modelled.
- StreamingUpload.UploadIsTheFile: the upload with a done file, which background staging uses; without one the file must be finished beforehand.
- Client choice, routing weights, rate limits and metrics of the scheduler are arbitrary; a group is only held to one client once it has one.
- SparseDelta.ExtractSparseDelta: the names to visit are an argument; tied output heads, skipped biases, fused names, non-zero thresholds, scale factors and legacy artifacts are not modelled.
- SparseDelta.VerifySparseDelta: closeness within tolerances is an uninterpreted relation implied by equality; the reported maximum difference is not modelled.
- Varint.DecodeColumns: which error is raised on which bytes is not part of the contract, only that one is.
- SparseDelta.ExtractPair: the threshold is the default 0, so every changed value is kept.
- SparseDelta.ExtractSparseDeltaStreaming: records are written and read back as values; flushing and the validation of key sets are absent.
- SparseDelta.CheckTensor: the maximum difference within the tensor is not computed.
- SparseDeltaTheorems.FloatsAreCongruent: finite numbers are integers there, so rounding and the wider format are absent; it shows that the hypothesis can be met beside NaN, infinities and two zeros.
- SparseDeltaTheorems.ChainReachesLast: equality of a tensor's values must be transitive, and adding the same difference to equal values must reach the same targets; FloatsAreCongruent shows it of an equality with NaN, infinities and two zeros. Fused names are not modelled.
- RecordStream.IterRecords: a name that is no valid UTF-8 makes the code raise, here names are bytes.
- RecordStream.ReadOne: likewise, names are not decoded.
- RecordStream.StreamingDeltaWriter.WriteRecord: names are bytes, UTF-8 is not modelled; index and value tensors are their bytes; flushes change nothing in the file.
- SequencePacking.PackedSamplesIntoMicroBatches: micro batches are values replaced in their list, not objects extended in place, so it does not capture that a bin shares its first sample's teacher logprob list with the training sample; routed experts and image tensors are not packed, and a missing rewards list does not occur.
- SequencePacking.PrepareBatch: the length check of environment names in front of padding is not modelled, PackedTokens.BinsAligned shows that it never fires; the reserved environment name "all" and the assertions on routed experts, which also fail in the code, are absent.
- TrajectoryInterleaving.InterleaveRollout: samples are values replaced in their list; images and token types are not attached.
- InterleavingTheorems.RoutingExactlyWhen: a step that carries routing does so for every token but its last, as the engine captures it; other payloads are merged by the same functions without a promise.
- MultiRun.RunManager.DiscoverRuns: directories and configurations are arguments, the start step found on disk is part of the configuration; hooks other than the one that sets the factor only show as calls; forgotten hooks and evicted directories are absent.
- MultiRun.RunManager.RunHooks: resetting a run's parameters and optimizer is part of its creation call.
- MultiRun.RunManager.CatchUp: the tables after a raise are not promised; every rank has as many slots as the master.
- MultiRunTheorems.RanksStayInStep: assumes that between two syncs no run comes back after it has left; NextSyncFailsExactlyWhen and SyncAgreesExactlyWhen say what happens otherwise.
- ExpertPermutation.LayerIsPerToken: hidden states are vectors over the reals and an expert is any function from a row to a row; rounding, device buffers, gradients and the exchange between ranks are not modelled, and the counts per expert are those the dispatch reports.
- Buffer sampling, rollout filters, advantage computation, transport and configuration are not modelled.
