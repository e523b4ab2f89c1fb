# Moebius: a verified model

Moebius is a poll-based device manager: agents check in with a server, receive
jobs, acknowledge them, execute them and report results. This project models
the parts of Moebius that carry state from one request to the next, and proves
what they keep over whole runs.

- **Jobs.** `JobStates` is the written transition table, `JobServer` the `jobs`
  and `job_results` tables with every statement that writes them, `JobHandlers`
  the handlers and reapers statement by statement, over a store that records its
  events (`CheckinRows` says what a check-in leaves, field by field);
  `JobTraces` says that such records are exactly the runs. `Executor` is
  the agent's goroutines. `JobRuns`, `JobRetries` and `Executor` hold the
  theorems about every interleaving.
- **Rate limiting.** `RateLimiter`, `RateLimitBounds`, `RateLimitNecessity`:
  the keyed token bucket with lazy eviction, over exact reals.
- **Customer Device Mode (CDM).** `Cdm` is the agent's persisted session state,
  and `CdmHistory` tells from the events alone what its gate must answer.
  `AgentGate` puts the job protocol and the CDM state of every device into one
  system, and `AgentRun` shows the code of `runJob` to be steps of that system.
- **Stateful components.** `Upload`, `Inventory` with `InventoryRoundTrip`,
  `LogShipper`, `Sessions`, `SelfUpdate`.
- **Relations, rows and counters.** `Scope`, `Enrollment`, `Schedules`, `Quota`.

Each stateful component has the same shape: a step function over a value of its
state, a class whose methods are proved to perform exactly those steps, and
lemmas about every sequence of steps. A method's contract also says, in the
fields and constants themselves, when each reply is given and what becomes of
the state. `dafny verify dfyconfig.toml` checks the whole project.

## How the source is modelled

- A run of the job protocol is a sequence of events, one per SQL statement, from
  any handlers in any order. A handler that reads a row and then updates it by
  id without a transaction (acknowledge, result, cancel, retry, fetch-and-mark)
  is one event. Failing statements are fault flags or are absent from the run.
- Clocks are parameters. Where a theorem needs readings in order, it says so
  (`InOrder`, `ClockInOrder`, `NotBefore`).
- Generated ids, tokens and serial numbers are parameters; freshness is assumed
  where the source relies on it. Digests and signatures are arbitrary functions.
- A cron expression is a set of instants with a `next` that returns the least
  instant after a time.
- Database tables are maps or sequences; map iteration is iteration in any order.

## What the proofs show about the code

- The `cdm_hold` to `queued` release is no edge of the transition table, yet it
  is a two-edge path through `dispatched`. The failed-update report is the one
  write that can leave the table, and it does so exactly when the job is neither
  acknowledged nor running. It can also move a finished job to `failed`.
- "Every job that starts while CDM is enabled passed the gate inside a session"
  is not literally true: CDM may be enabled between the gate and the start
  (`Cdm.EnabledAfterGate`). It holds exactly for jobs whose gate check itself
  found CDM enabled (`Cdm.StartedJobPassedGate`).
- Eviction of rate-limit buckets is unobservable if and only if
  rate * ttl >= burst (`RateLimitNecessity.EvictionExact`). The three default
  configurations satisfy it.
- A crash inside the backup copy of a self-update leaves a partial backup, and a
  rollback then installs it. The binary stays genuine exactly when no rollback
  lands on such a backup (`SelfUpdate.GenuineExactly`).
- A schedule whose run could not be recorded fires again for the same instant
  (`Schedules.UnmarkedFiresAgain`); otherwise firings and instants match.
- The result handler refuses the status "restarting", so the restart that
  should follow an update report is never reached (`AgentRun.RunJob`).
- Check-in sets the device's status back to online. A revoked device stays
  revoked because its requests are no longer admitted; this needs admission and
  handling of one request not to straddle a revocation.

## Observations

Three things seen while reading the code; the model follows the code in each, and no lemma is about them.

- The executor's comment says that a job refused by the gate goes to `cdm_hold`
  at the next check-in. In the code it stays `dispatched` until the 60-second
  requeue, and is held by a later check-in.
- `inventory_packages` has no unique constraint on device, name and manager, so
  its ON CONFLICT clause never takes effect and an insert always adds a row.
- The scheduler stores `scheduler:` and a schedule id as the creator of a job,
  while the schema makes that column a reference to `users`. The model leaves
  the creator column out.

## Model

| member | source | states |
|---|---|---|
| JobStates.EdgesExactly | server/jobs/state.go:10-17 | the fifteen edges of the table and no others |
| JobStates.TerminalIsDeadEnd | server/jobs/state.go:10-34 | the four terminal statuses are exactly those without an outgoing edge in the table |
| JobStates.ShortPathToFailed | server/jobs/state.go:10-34 | `failed` is one or two edges away exactly from `acknowledged` and `running` |
| JobHandlers.JobStore.FailReported | server/api/checkin.go:80-101 | the failed-update report fails the named job of the tenant unless already failed, whatever its status |
| JobHandlers.JobStore.RequeueMissed | server/api/checkin.go:111-125 | exactly the device's jobs dispatched over 60 seconds ago return to the queue |
| JobHandlers.JobStore.HoldQueued | server/api/checkin.go:169-179 | exactly the device's queued jobs become held |
| JobHandlers.JobStore.ReleaseHeld | server/api/checkin.go:182-190 | exactly the device's held jobs become queued |
| JobHandlers.JobStore.FetchQueued | server/api/checkin.go:193-215 | at most ten queued jobs of this device and tenant, oldest first, without repetition; whatever is left queued is no older than any of ten |
| JobHandlers.JobStore.MarkEach | server/api/checkin.go:135-153 | the marking loop, with failed updates dropped from the reply |
| JobHandlers.JobStore.MarkDispatched | server/api/checkin.go:135-153 | fetch and marking are one dispatch event of the run; exactly the fetched jobs whose update succeeded become dispatched now and are replied |
| JobHandlers.JobStore.FetchDispatchableJobs | server/api/checkin.go:164-215 | hold without fetch, or release and fetch; when it errs, and what it returns otherwise |
| JobHandlers.JobStore.Checkin | server/api/checkin.go:35-161 | a whole check-in extends the run by its statements in order, for every combination of failing statements; the replied jobs are the device's own and marked now; other devices' jobs stay; nothing is left queued, held or dispatched that should not be |
| CheckinRows.AnsweredByFields | server/api/checkin.go:80-153 | what report, requeue, hold or release, fetch and marking together leave of every row of the device and of all others |
| CheckinRows.FetchByFields | server/api/checkin.go:193-215 | the fetch condition in terms of device, tenant, status and creation time |
| JobHandlers.JobStore.Acknowledge | server/api/agent_jobs.go:38-82 | the event, the new table and the condition of each reply, failing statements included; a job acknowledged before is never acknowledged again |
| JobHandlers.JobStore.SubmitResult | server/api/agent_jobs.go:85-188 | the condition of each reply; a job with an accepted result never gets another; every row afterwards |
| JobHandlers.ResultFields | server/api/agent_jobs.go:100-188 | accepted exactly from acknowledged or running, for the caller's own job; completed, failed and timed_out are stored as such; the retry row appears exactly for a failed or timed-out job with retries left |
| JobHandlers.JobStore.Create | server/api/jobs.go:134-152 | creation extends the run by one insert per device, cut at the first failing one; each new row is queued for its device, and no other row changes |
| JobHandlers.JobStore.CancelJob | server/api/jobs.go:420-474 | the cancel event, the condition of each reply, failing statements included, and no change on refusal |
| JobHandlers.JobStore.RetryJob | server/api/jobs.go:477-550 | the manual retry event, the condition of each reply, failing statements included, and no change on refusal |
| JobHandlers.JobStore.RevokeJobs | server/store/devices.go:201-211 | revocation cancels the device's pending, queued and dispatched jobs and no held ones |
| JobHandlers.JobStore.ReapStuckDispatched | server/scheduler/scheduler.go:152-170 | exactly the jobs dispatched before the cutoff return to the queue |
| JobHandlers.JobStore.ReapStuckInflight | server/scheduler/scheduler.go:175-198 | exactly the acknowledged or running jobs begun before the cutoff time out |
| JobHandlers.StoreKeeps | server/api/agent_jobs.go:38-188 | in a store after any calls, whatever row was ever there still is, with its fixed columns, no earlier stage, and finished if it was |
| JobTraces.RunsAreTraces | server/api/checkin.go:35-161 | runs are exactly the enabled event records, with the tables they lead to, so every theorem on runs holds of a store |
| JobTraces.ScriptExtendsRun | server/api/checkin.go:35-161 | the statements of a handler, enabled where a run stands, extend that run |
| JobRuns.StatusWriteFollowsTable | server/jobs/state.go:10-34 | simulation: every status write but the failed-update report is a path of one or two table edges; the report is one exactly from acknowledged and running; which events skip an edge |
| JobRuns.InvAlways | server/api/checkin.go:35-161 | on every run: no stored pending or running status, dispatched rows have a dispatch time and acknowledged ones an acknowledge time, recorded retries have finished parents and are one per parent |
| JobRuns.RowPersists | server/api/agent_jobs.go:38-188 | rows are never deleted, ownership, parent and retry columns never change, and the stage never falls |
| JobRuns.AcknowledgedAtMostOnce | server/api/agent_jobs.go:38-82 | in every interleaving a job is acknowledged successfully at most once |
| JobRuns.ResultAcceptedAtMostOnce | server/api/agent_jobs.go:130-160 | in every interleaving at most one result of a job is accepted |
| JobRuns.AcknowledgedBefore | server/api/agent_jobs.go:62-75 | a job standing acknowledged was acknowledged by its own device at the recorded time |
| JobRuns.TerminalForever | server/api/checkin.go:80-101 | a finished job stays finished; a later change is to `failed`, by a failed-update report naming it |
| JobRuns.HeldUntilReleased | server/api/checkin.go:164-190 | a held job stays held until a release for its device or its end |
| JobRuns.NoStuckDispatched | server/scheduler/scheduler.go:152-170 | from any reaper pass on, every dispatched job was dispatched no earlier than the pass minus the timeout |
| JobRuns.NoStuckInflight | server/scheduler/scheduler.go:175-198 | the same for acknowledged jobs and the in-flight timeout |
| JobRuns.DispatchSpacing | server/api/checkin.go:111-153 | two dispatches of a job lie more than 60 seconds apart (or the reaper timeout, if shorter), in every run with clocks in order |
| JobRetries.RetryCounts | server/api/agent_jobs.go:251-285 | along automatic retries the count rises by one each time and never passes the maximum |
| JobRetries.RetryUnique | server/api/agent_jobs.go:180-188 | automatic retries form a chain: one k-th retry at most |
| JobRetries.RetriesBounded | server/jobs/types.go:53-55 | at any point of any run a job has at most max_retries - retry_count automatic descendants, manual retries included |
| JobRetries.HistoryExact | server/api/agent_jobs.go:180-188 | the recorded retry history is exactly the automatic retries that happened |
| Executor.SystemAlways | agent/executor/executor.go:62-122 | server and agent together: at most one worker per job holds an accepted acknowledgement, and that job is past acknowledgement |
| Executor.ExecutedAtMostOnce | agent/executor/executor.go:62-98 | a job is executed at most once however often it was dispatched, with lost, late or repeated replies, requeues, reapers, cancels, revocations and restarts |
| Executor.OffersOwnJobs | server/api/checkin.go:193-215 | on every run a reply offers a device its own jobs only, and a worker works on a job of its own device and tenant |
| Executor.OfferedWasMarked | server/api/checkin.go:135-153 | whatever was offered was marked dispatched by that check-in |
| Executor.ExecutionWasCleared | agent/executor/executor.go:62-98 | an execution follows an open gate and then an accepted acknowledgement of the same worker |
| AgentRun.PassGate | agent/executor/executor.go:69-80 | the gate check is one system step; it opens exactly by the answer of the device's own manager |
| AgentRun.SendAcknowledge | agent/executor/executor.go:83-87 | the acknowledge request is one system step; the worker goes on exactly if it was accepted and the reply arrived |
| AgentRun.SendResult | agent/executor/executor.go:105-109 | the result request is one system step, after which the worker is done |
| AgentRun.RunJob | agent/executor/executor.go:62-122 | the code from gate to report is a sequence of system steps; it executes exactly if gate and acknowledgement succeed; the job's final status; the restart branch is never taken |
| AgentGate.JobHalf | agent/executor/executor.go:62-122 | every run of the whole system is, step for step, a run of the job protocol |
| AgentGate.CdmHalf | agent/cdm/cdm.go:81-247 | every run of the whole system is, step for step, a run of each device's CDM manager; an executing worker was cleared at its gate |
| AgentGate.ExecutedOnce | agent/executor/executor.go:62-98 | in the whole system a job is executed at most once |
| AgentGate.ClearedThenExecuted | agent/executor/executor.go:62-98 | gate, accepted acknowledgement and execution of a worker come in this order, with no restart of its agent in between |
| AgentGate.ExecutedInSession | agent/executor/executor.go:62-98 | every executed job passed its gate before, and that gate saw CDM enabled exactly if it lay in a live session granted at that device, whatever the server believed |
| AgentGate.GrantBehindGate | agent/cdm/cdm.go:104-231 | when the device's state writes succeed: the grant before such a gate, its window, and no revoke or disable since, restarts included |
| RateLimiter.KeyedLimiter.Allow | server/ratelimit/limiter.go:44-71 | answer, wait and new state of one call, cleanup included |
| RateLimiter.KeyedLimiter.MaybeCleanup | server/ratelimit/limiter.go:74-86 | the deleting loop removes exactly the buckets idle beyond ttl, every 1024th call |
| RateLimiter.EvictionUnobservable | server/ratelimit/limiter.go:74-86 | if rate * ttl >= burst, every call gets the answer and wait of a limiter that never evicts |
| RateLimiter.DefaultsUnobservable | server/cmd/api/main.go:119-130 | the three default limiters answer as if they never evicted |
| RateLimiter.TrackedKeysBounded | server/ratelimit/limiter.go:74-86 | fewer than 1024 keys are tracked beyond those used within ttl of the last cleanup |
| RateLimitBounds.ClosedForm | server/ratelimit/limiter.go:44-71 | the tokens at a call are the minimum over earlier calls i of burst + rate * elapsed minus the grants since i, timestamps in any order |
| RateLimitBounds.RefusedExactly | server/ratelimit/limiter.go:56-70 | a call is refused exactly if granting it would push some window over burst + rate * length |
| RateLimitBounds.WindowRespected | server/ratelimit/limiter.go:44-71 | no window of calls ending with a grant holds more than burst + rate * length grants |
| RateLimitBounds.WaitExact | server/ratelimit/limiter.go:66-70 | after a refused call, the next call of its key is allowed if and only if it comes at least the answered wait later, whatever other keys do |
| RateLimitBounds.BucketOfKey | server/ratelimit/limiter.go:44-71 | a bucket depends on the calls of its own key only |
| RateLimitBounds.AllowedExactly | server/ratelimit/limiter.go:44-86 | the limiter with cleanup allows a call exactly if no window of its key's calls would overflow |
| RateLimitNecessity.EvictionExact | server/ratelimit/limiter.go:74-86 | for whole bursts, zero included, eviction is unobservable on all ordered calls if and only if rate * ttl >= burst |
| RateLimitNecessity.EvictionObservable | server/ratelimit/limiter.go:74-86 | whenever the condition fails, calls exist that are allowed with eviction and refused without |
| Cdm.Manager.constructor | agent/cdm/cdm.go:32-43 | loading the file and expiring a stale session is the restart step |
| Cdm.Open | agent/cdm/cdm.go:32-43 | the manager opens exactly if the state file can be read |
| Cdm.Manager.Enable | agent/cdm/cdm.go:81-101 | a failed write is undone in memory |
| Cdm.Manager.Disable | agent/cdm/cdm.go:104-130 | CDM is off and the session gone in memory even if the write fails; a successful write stores just that |
| Cdm.Manager.GrantSession | agent/cdm/cdm.go:133-162 | refused exactly when CDM is off; a failed write still leaves the session in memory |
| Cdm.Manager.RevokeSession | agent/cdm/cdm.go:166-190 | refused exactly without a session; ends it in memory whatever the write does |
| Cdm.Manager.CheckExpiry | agent/cdm/cdm.go:212-231 | ends the session exactly after its expiry |
| Cdm.Manager.CanExecuteJob | agent/cdm/cdm.go:194-202 | the gate opens exactly with CDM off or an unexpired session |
| CdmHistory.MemoryMoves | agent/cdm/cdm.go:81-247 | the state after each event, field by field; a restart whose file kept up only lets a session expire |
| CdmHistory.MemoryFromEvents | agent/cdm/cdm.go:81-247 | if all writes succeed or there is no restart: CDM is enabled exactly if the last written enable is after the last disable, and the session is that of the latest grant not ended since, unless its window passed |
| CdmHistory.GateExactly | agent/cdm/cdm.go:194-231 | from the events alone: the gate opens exactly if CDM is off, or the latest grant is neither revoked nor disabled and its window has not passed |
| CdmHistory.LastSwitchDecides | agent/cdm/cdm.go:81-130 | until the next restart the last enable or disable decides whether CDM is on, even if the disable could not be written |
| CdmHistory.OpenWhileDisabled | agent/cdm/cdm.go:194-202 | between a disable and the next enable every gate is open |
| CdmHistory.FileFollows | agent/cdm/cdm.go:233-247 | while writes succeed the file holds what the memory holds |
| Cdm.SessionAlwaysOk | agent/cdm/cdm.go:81-247 | in memory and on disk, through failed writes and restarts, active implies enabled and expiry, grant time and granter are set exactly when active |
| Cdm.Provenance | agent/cdm/cdm.go:133-247 | every session goes back to a grant that nothing which stuck has ended; an end can be undone only by a failed write and a restart |
| Cdm.GateNeedsSession | agent/cdm/cdm.go:194-231 | under CDM the gate opens exactly at an instant inside [grant, grant + duration] of such a session |
| Cdm.StartedJobPassedGate | agent/executor/executor.go:62-98 | every started job passed a gate, and that gate saw CDM enabled exactly if it lay in a live session |
| Cdm.NoEndSinceGrant | agent/cdm/cdm.go:104-190 | when all writes succeed, no revoke or disable lies between the grant and the gate, restarts included |
| Cdm.GrantBehind | agent/cdm/cdm.go:133-231 | behind an open gate under CDM lies a grant whose window contains it, with no revoke or disable since when writes succeed |
| Cdm.EnabledAfterGate | agent/executor/executor.go:62-98 | counterexample: a job starts under CDM although none of its gate checks lay in a session |
| Upload.InitiateUpload | server/api/files.go:82-166 | refused exactly for missing fields, a non-positive size, an exceeded quota or a failing transaction; the chunk count is the ceiling of size / chunk |
| Upload.UploadSession.UploadChunk | server/api/files.go:178-271 | the exact condition of each reply, the digest test included, and the session's fields after each |
| Upload.StagedWasChecked | server/api/files.go:211-258 | after any requests, whatever is staged came from a request whose index, size and claimed digest passed, or from a write cut short |
| Upload.UploadSession.Assemble | server/api/files.go:350-365 | the loop joins all chunks in index order, or fails exactly at an unreadable one |
| Upload.UploadSession.CompleteUpload | server/api/files.go:307-428 | completes exactly if every chunk is listed, readable, stored, and digest and signature match; stores the index-order concatenation of the latest bytes, which is the uploader's file if the requests carried it; the condition of each reply |
| Upload.CompletionStores | server/api/files.go:307-380 | after any requests, a complete session joins to the latest bytes of every chunk, and to the file itself if the requests carried its slices |
| Upload.ReceiveOk | server/api/files.go:238-258 | a chunk keeps the list duplicate-free, in range and backed by staged bytes, and forgets no chunk |
| Upload.FullListIsComplete | server/api/files.go:326-330 | a list as long as the chunk count is exactly a list of all chunks |
| Upload.UploadRoundTrip | server/api/files.go:307-380 | chunks of a file uploaded in any order and repetition assemble to exactly that file |
| Upload.StagedIsLatest | server/api/files.go:238-258 | the staged bytes of each index are the latest that reached the disk |
| Upload.ListedExactly | server/api/files.go:238-258 | an index is listed exactly if some request for it was recorded |
| Inventory.Collector.ComputeDelta | agent/inventory/collector.go:47-93 | the delta lists exactly the added, changed and removed packages, each once; none on the first or a failed collection or without changes |
| Inventory.Collector.AddedOrUpdated | agent/inventory/collector.go:68-76 | the first loop, field by field: new keys, and known keys with another version |
| Inventory.Collector.Removed | agent/inventory/collector.go:78-83 | the second loop: keys that are gone, with their old entry |
| Inventory.PackageTable.ProcessPackageDelta | server/api/checkin.go:218-260 | the three loops apply inserts, then updates, then deletes |
| Inventory.KeyCollisions | agent/inventory/collector.go:116-118 | two manager names can produce the same package key exactly if one continues the other after a colon |
| Inventory.KeyInjective | agent/inventory/collector.go:116-118 | with colon-free managers the key determines manager and name |
| InventoryRoundTrip.DeltaRoundTrip | server/api/checkin.go:218-260 | applied to a table showing the old snapshot, the delta yields one showing exactly the new one; other devices keep their rows |
| InventoryRoundTrip.ServerFollowsAgent | agent/inventory/collector.go:47-93 | after any run in which each delta is delivered once and in order, the server shows the agent's snapshot |
| LogShipper.LogBuffer.Add | agent/logshipper/shipper.go:51-58 | append below 5000 entries, drop at 5000 |
| LogShipper.LogBuffer.TakeBatch | agent/logshipper/shipper.go:78-93 | the first critical section moves the oldest at most 500 entries to the batch |
| LogShipper.LogBuffer.FinishFlush | agent/logshipper/shipper.go:95-134 | a refused batch goes back in front, cut at 5000; an accepted one is handed off |
| LogShipper.LogConservation | agent/logshipper/shipper.go:78-134 | for all interleavings handed-off ++ in flight ++ buffered is an ordered selection of the added entries, each used once, within the bounds, and all of them if nothing was lost |
| Sessions.SessionManager.Create | agent/localauth/session.go:51-78 | a new session with its lifetime by kind |
| Sessions.SessionManager.Validate | agent/localauth/session.go:82-123 | succeeds exactly for a stored live session, refreshes it, and removes a dead one |
| Sessions.SessionManager.Revoke | agent/localauth/session.go:126-130 | removes the token and no other |
| Sessions.SessionManager.Cleanup | agent/localauth/session.go:140-161 | the deleting loop keeps exactly the live sessions |
| Sessions.ValidateExactly | agent/localauth/session.go:82-123 | Validate succeeds exactly if the token was created, not revoked, all gaps between its uses are within the idle limit and a web session is within 8 hours of creation |
| Sessions.CleanupUnobservable | agent/localauth/session.go:140-161 | cleanups at any moments never change whether a later Validate succeeds |
| Sessions.CliChecksCoincide | agent/localauth/session.go:82-123 | for CLI sessions expiry is always last use + 15 minutes, so both checks agree |
| SelfUpdate.AgentFiles.StageVerified | agent/executor/update.go:84-142 | staging succeeds exactly if download, digest and signature all pass; binary and backup are untouched at every point |
| SelfUpdate.AgentFiles.InstallStaged | agent/executor/update.go:144-176 | backup, swap and pending file: when they succeed, what they leave, and the phase at every crash point |
| SelfUpdate.AgentFiles.ExecuteAgentUpdate | agent/executor/update.go:22-185 | succeeds exactly if the version is newer and every test and step passes; at every crash or failure point the binary is the complete old one or the complete verified new one; a reported failure leaves the old one; success leaves it as backup |
| SelfUpdate.AgentFiles.CopyToPrevious | agent/executor/update.go:264-287 | the copy is complete, a prefix of the binary after a crash or error, or not begun, leaving the backup alone |
| SelfUpdate.AgentFiles.Rollback | agent/update/verify.go:72-89 | the backup becomes the binary and is gone; without one, or if the rename fails, nothing changes |
| SelfUpdate.UpdateThenRollback | agent/update/verify.go:72-89 | an update followed by a rollback if it completed restores exactly the prior bytes; if the rollback fails the verified new binary stays |
| SelfUpdate.ReachedIsAction | agent/executor/update.go:84-176 | every state an update can leave is one step of the run model |
| SelfUpdate.BinaryAlwaysGenuine | agent/executor/update.go:84-176 | over runs of updates, crashes and rollbacks the binary is the initial one or one that passed digest and signature, as long as no rollback meets a torn backup |
| SelfUpdate.GenuineExactly | agent/update/verify.go:72-89 | the same as an if-and-only-if, where no proper prefix of a binary passes for a whole one |
| SelfUpdate.TornRollback | agent/update/verify.go:72-89 | counterexample: a crash while copying and then a rollback |
| Scope.ResolveTargets | server/api/jobs.go:170-262 | duplicate-free, and exactly the devices named or, within the tenant, belonging to a named group, tag or site |
| Scope.DedupPrefix | server/api/jobs.go:170-262 | the list is in order of first appearance |
| Scope.ResolveScope | server/auth/scope.go:14-102 | the set is exactly the devices the scope covers; no scope means no restriction |
| Scope.FilterDeviceIds | server/auth/scope.go:116-127 | the order-preserving intersection with the allowed set |
| Scope.TargetsInScope | server/api/jobs.go:76-104 | a scoped key reaches exactly the devices in both target and scope, each once |
| Scope.CheckAllInSet | server/auth/scope.go:202-219 | true exactly if every candidate is allowed |
| Scope.SubsetExactly | server/auth/scope.go:189-200 | the structural subset check holds if and only if, for every membership relation, the inner scope reaches only devices of the outer one |
| Enrollment.Server.IssueToken | server/auth/enrollment.go:38-79 | a new unused token with its expiry |
| Enrollment.Server.Peek | server/auth/enrollment.go:85-117 | succeeds exactly when consuming would, and changes nothing |
| Enrollment.Server.ValidateAndConsume | server/auth/enrollment.go:121-154 | succeeds exactly for an unused, unexpired token, and marks it used |
| Enrollment.Server.ReapExpiredTokens | server/scheduler/scheduler.go:202-217 | deletes exactly the unused expired tokens |
| Enrollment.Server.ApplyScope | server/api/enroll.go:182-228 | memberships for every reference, or failure exactly if one is outside the tenant |
| Enrollment.Server.EnrollCommit | server/api/enroll.go:100-145 | device, memberships and certificate together, or nothing |
| Enrollment.Server.RenewCertificate | server/api/renew.go:77-113 | the new certificate is added and all other live ones of the device are revoked |
| Enrollment.Server.RevokeDevice | server/store/devices.go:170-214 | device and all its live certificates are revoked, for its own tenant only |
| Enrollment.RegistryOk | server/api/enroll.go:100-145 | on every run: certificate, token, origin and membership invariants, no membership across tenants |
| Enrollment.TokenConsumedAtMostOnce | server/auth/enrollment.go:121-154 | a token is consumed at most once |
| Enrollment.DevicesNeedTokens | server/api/enroll.go:100-145 | devices never outnumber consumed tokens |
| Enrollment.OneLiveCertificate | server/api/renew.go:77-113 | a device has an unrevoked certificate exactly if it is not revoked, and never two |
| Enrollment.AdmittedExactly | server/auth/mtls.go:86-134 | from enrollment or renewal until the next renewal or its revocation, a device is admitted exactly with the certificate issued then, for 90 days |
| Enrollment.TokenRowKept | server/scheduler/scheduler.go:202-217 | a token row disappears only if unused and expired, or by its own tenant's request |
| Enrollment.RevokedForever | server/auth/mtls.go:94-134 | once revoked, a device stays revoked and no request of it is admitted, whatever certificate it presents |
| Schedules.Scheduler.ListDue | server/store/scheduled_jobs.go:169-203 | exactly the enabled schedules whose next run has come, each once, ordered by next run |
| Schedules.Scheduler.EvaluateScheduledJobs | server/scheduler/scheduler.go:219-260 | each due schedule fires once per tick; failures leave its row alone |
| Schedules.NothingDueAfterTick | server/scheduler/scheduler.go:219-260 | after an error-free tick nothing enabled is due, however many instants were missed |
| Schedules.FiringsInject | server/store/scheduled_jobs.go:206-215 | two firings belong to different cron instants, the later one after the earlier firing, if the earlier was recorded |
| Schedules.UnmarkedFiresAgain | server/scheduler/scheduler.go:251-258 | a firing repeats for the same instant at the next tick exactly if it was not recorded |
| Schedules.InstantsCovered | server/scheduler/scheduler.go:219-260 | every cron instant before the next run is covered by a firing |
| Schedules.OffMeansSilent | server/store/scheduled_jobs.go:153-165 | a schedule switched off does not fire until it is switched on again |
| Schedules.OnMeansEnabled | server/store/scheduled_jobs.go:153-165 | a schedule switched on fires exactly at the ticks that find its next run come, dispatch permitting |
| Quota.RefusedExactly | server/quota/quota.go:143-164 | a request is refused exactly if there is a limit and it is reached |
| Quota.OvershootBounded | server/quota/quota.go:143-164 | with at most k requests between check and insert the count never exceeds limit + k - 1, nor 0 for a limit of 0 |
| Quota.OvershootReached | server/api/apikeys.go:80-127 | for every limit and k there is an interleaving that reaches the bound |

## Left out

- HTTP, JSON, TLS, the database driver, storage backends, audit logging and notifications: library plumbing.
- SHA-256, Ed25519, X.509 and random ids: arbitrary functions and fresh values.
- Interleavings inside a handler that reads and then updates without a transaction: read and update are one step.
- Status strings outside the ten known ones, and job payloads, types, messages and creators.
- Inventory of a full collection (`processFullInventory`), hardware inventory and heartbeat columns of the device row.
- A completeness claim for package changes: a delta that is lost on the way is lost; delivery is a hypothesis.
- Progress of held jobs once CDM is disabled: no step of the code releases them.
- The queued-job and file-size quotas, tenant overrides of limits: one comparison each.
- `TargetOverlapsScope`, `ValidateScopeTenant`, alert rules, rollouts, pagination, the user interfaces and installers: easy members or plumbing.
- `CheckPostRestart` and the restart itself: decisions on a file read once.
- Two self-updates at the same time on one agent.
- RateLimiter.KeyedLimiter.Allow: float rounding and the truncation of the wait to nanoseconds are not modelled; at rate zero the wait is left open.
- RateLimitNecessity.EvictionExact: whole non-negative bursts, non-negative rates and a non-negative ttl; the server builds its limiters with positive ttls only.
- Upload.UploadSession.CompleteUpload: the two final row updates, whose errors the source ignores, are taken to succeed.
- Schedules.Scheduler.EvaluateScheduledJobs: a dispatch that fails half-way is a failed dispatch; the jobs it had inserted are not counted.
- Enrollment.RevokedForever: admission and handling of a request are one step, so a request admitted just before a revocation is not modelled.
- Enrollment.Server.RevokeDevice: the job cancellation of the same transaction is `JobHandlers.JobStore.RevokeJobs`, over the job tables.
- SelfUpdate.GenuineExactly: assumes that no proper prefix of a binary of the run is itself a genuine binary.
