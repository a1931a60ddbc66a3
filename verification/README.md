# Verification of the DispatchIQ job queue

DispatchIQ runs background jobs. API callers submit and cancel jobs, any number of worker
processes claim and execute them, and every worker also runs a recovery loop that takes over
jobs of workers that stopped sending heartbeats. All of them meet only in one PostgreSQL
database, through small transactions whose guards are local: a status, a lock owner, an
attempt id. The guarantees a user relies on are global and are checked nowhere in the code.
This project models the protocol and proves those guarantees for every interleaving.

## Layers

1. **Rows and transactions.** `Records`, `Transactions`, `Decisions`, `Backoff`: the tables as
   values, the guard and effect of each transaction, and the retry or dead-letter decision.
   `Database.Prisma` is the mutable database; `WorkerRepository`, `StaleWorkerRepository`,
   `WorkerInstances`, `JobService`, `JobProcessor`, `StaleWorkerService` and `RecoveryBatch`
   are the source's functions as methods over it, each proved to have exactly the effect of
   the corresponding transaction function.
2. **The protocol.** `Protocol` is a state machine over the database *and* what processes hold
   in memory: claim snapshots, recovery calls at their await points, and the results
   submissions returned. `Effects` says what each step writes, column by column and in the
   source's own constants, and when. `Invariants`, `Evolution` and `Safety` prove an invariant
   of every run; `Guarantees`, `Spacing`, `Counting` and `Witnesses` draw the promises from it, and
   `Abandonment` says exactly which claims recovery can still free.
   `ClaimRefinement` shows that the claim as PostgreSQL runs it (select with
   `FOR UPDATE SKIP LOCKED`, then an update with no guard) refines the atomic claim step.
3. **One process.** `SingleFlight`, `RuntimeMachine` (with `RuntimeStop` and `RuntimeWork`) and
   `ProcessMachine` (with `ProcessShutdown`) are the coordinators at their await points, with
   `RuntimeController` and `ProcessController` the mutable objects; `HeartbeatTiming` is the
   timing of everything that writes a heartbeat, against the staleness limit, and
   `HeartbeatRows` joins it to the worker rows of the protocol.
4. **Metrics.** `Metrics`, `Rates`, `ClaimDrain`.

The central argument is fencing. A claim, or a row a recovery read, may be out of date when
the process acts on it. `Safety.Snapshot` says what such a row still means at any later time
(the attempt keeps its identity, the job its limit), and `Safety.SnapshotIsCurrent` says that
whoever still passes the two finish checks holds a count that is current. The attempt budget,
the replayable log and the backoff all rest on that.

## Assumptions

- A conditional `updateMany` is an atomic compare-and-set, and a thrown error rolls its
  transaction back. A call may also fail before its commit or after it (`Database.Link`).
- New ids are fresh or rejected by their key; they are parameters. Clock readings are
  parameters too, and nothing is assumed about them unless a lemma says so.
- Runs start from an empty database. `maxAttempts` is between 1 and 10, as
  `apps/api/src/jobs/job.validation.js:57-62` enforces, and all processes share one retry
  configuration.
- `findProcessingJobsLockedByWorker` reads a job and its attempt in one consistent snapshot;
  `Guarantees.BudgetNeedsCurrentCount` shows why that matters.
- Only its process starts and stops a runtime. (`RuntimeMachine` itself allows any number of
  overlapping start and stop calls, and a process any number of overlapping starts.)
- In `HeartbeatTiming` the worker and recovery share one clock, the heartbeat timer ticks
  exactly on time, and the polling loop has one status write in flight at a time. Latencies,
  startup time and lost writes are parameters.
- At most 10^11 attempts have finished when rates are computed.
- Calls that span several transactions take what other processes commit in between as a
  parameter (`others`), except the recovery calls, which are stated for a worker recovered
  with nothing else running; their interleavings are runs of the protocol.
- Claims and recovered rows may be kept for ever, used again, or never used, so crashes of
  processes are included.

## What the code does not do

- **Start-to-start backoff.** Recovery stamps an attempt's end with a clock it read *before*
  it read the jobs. Even when one clock orders every reading of the run, a worker marked
  UNHEALTHY can still claim, and the next attempt may then start less than one delay after
  the previous start (`Spacing.RecoveryBreaksStartSpacing`). `Spacing.StartSpacingExact` gives
  the exact condition. What does always hold is spacing from the recorded finish
  (`Spacing.ConsecutiveSpacing`) and its telescoped form (`Spacing.TelescopedSpacing`).
- **The startup check on heartbeats.** `staleAfterMs > heartbeatIntervalMs` is exactly what
  suffices if writes and startup take no time and no write is lost. In general the limit must
  exceed H + max(D, S + K) + m * (H + S) + L, for interval H, heartbeat writes of at most L,
  status writes of at most K, startup delay D, at most m heartbeats lost in a row and
  S = H * floor(L/H) (`HeartbeatTiming.LiveWorkersNeverStale`). The BUSY and ONLINE writes
  count because they too store `lastHeartbeatAt`, with a clock read when they were issued:
  one that lands after a heartbeat makes the stored value *older*. With K = L, as for one
  database, latencies of half the margin already defeat the check
  (`HeartbeatTiming.StartupCheckInsufficient`), and every write lost in a row costs at least
  one more interval (`HeartbeatTiming.LostWritesNeedMargin`).
- **Critical at half.** The dashboard calls a failed-or-timed-out share of 50% critical, but
  with 2000 completed, 363 failed and 1637 timed out both rates are exact ties that binary64
  arithmetic sends down, to 9.07 and 40.92, and the state is degraded
  (`Rates.HalfCanBeDegraded`). `Rates.HealthMeaning` gives the exact condition on the two
  computed rates; what a caller can check on the counts beforehand, that the failed share is
  on no tie, is sufficient only, because at a tie the doubles decide.
- **Stop during start.** A stop that arrives while start is in flight returns at once; start
  then brings the runtime up and its heartbeats go on. So they do after every later stop
  call, which finds the runtime marked stopped and returns. With overlapping start calls,
  which register two workers although the source says the second returns the first, the
  first heartbeat is replaced without being stopped (`RuntimeMachine.OverlappingStarts`).
  `RuntimeStop.StopQuietExact` gives the exact condition over all reachable states.
- **Shutdown during start.** A shutdown that arrives while start may still reach the database
  disconnects at once (`ProcessShutdown.HeartbeatAfterDisconnect`). A second `start` call
  made meanwhile builds a second runtime, and the first one, which no variable names any
  more, is never stopped (`ProcessShutdown.OverlapOutlivesShutdown`); a failing start stops
  and forgets whatever runtime the shared variables name by then, its own or another's.
  `ProcessShutdown.ShutdownQuietExact` gives the exact condition over all reachable states,
  and `ProcessShutdown.SoleStartClean` what remains of it while starts do not overlap.
- **Dropped claims.** A claim that returns while its runtime is stopping is dropped, and the
  same stop takes the worker OFFLINE. Recovery looks only at STARTING, ONLINE and BUSY
  workers, so the job stays PROCESSING for ever (`Abandonment.DroppedClaim`). The same
  happens to what is left in a recovery's queue when that call aborts.
  `Abandonment.FreedExact` says exactly which claims can still be freed.
- **Logging of cancellations.** `packages/database/prisma/schema.prisma:87-88` says every
  transition has a log event; cancelling writes none. `Guarantees.LogRebuildsRow` states the
  exception exactly.
- The `activeExecution` branch at `apps/worker/src/runtime/worker-runtime.js:241-243` is never
  taken: an execution runs inside the active poll.

## Model

| member | source | states |
|---|---|---|
| `Backoff.DelayDoublesUntilCapped` | apps/worker/src/jobs/job-processor.js:73-97 | The first delay is the base, each later one doubles its predecessor until the maximum holds it; delays never fall and stay between base and maximum |
| `Backoff.UncappedTotalDelay` | apps/worker/src/jobs/job-processor.js:73-97 | While the cap is not reached the delays before attempt n sum to base * (2^(n-1) - 1) |
| `Database.Prisma.UpdateJob` | apps/worker/src/jobs/worker.repository.js:137-153 | A conditional update matches at most the one row, reports how many it matched, and writes exactly then |
| `Database.Prisma.InsertAttempt` | packages/database/prisma/schema.prisma:241 | An attempt is inserted unless its id or its (job, number) pair is taken; a rejected insert writes nothing |
| `Database.Prisma.InsertJob` | packages/database/prisma/schema.prisma:208 | A job is inserted unless its id or its (user, key) pair is taken; null keys never collide |
| `WorkerRepository.ClaimNextJob` | apps/worker/src/jobs/worker.repository.js:41-111 | Returns null exactly when no SCHEDULED, QUEUED or RETRYING job is available and unlocked; a success claims such a job that no other one has to precede, High before Medium before Low, then the longer available, then the older, states every column it writes, and changes nothing else; a rejected write leaves no trace |
| `WorkerRepository.FinishTransaction` | apps/worker/src/jobs/worker.repository.js:129-195 | Both updates and the log happen, or nothing does; it succeeds exactly when the job is PROCESSING and locked by the worker and the attempt is the worker's open one of that job, and the error says which check failed |
| `WorkerRepository.CompleteClaimedJob` | apps/worker/src/jobs/worker.repository.js:129-195 | Completion takes effect exactly when both fences pass, and then writes COMPLETED on both rows with the given columns and one log entry, and nothing else |
| `WorkerRepository.ReleaseJobForRetry` | apps/worker/src/jobs/worker.repository.js:215-288 | The same for a retry: the attempt is FAILED, the job RETRYING from retryAt on, unlocked |
| `WorkerRepository.MoveJobToDeadLetter` | apps/worker/src/jobs/worker.repository.js:306-376 | The same for a dead letter: the attempt is FAILED, the job DEAD_LETTER, unlocked |
| `WorkerRepository.BestClaimableExists` | apps/worker/src/jobs/worker.repository.js:43-66 | The query's order is total on claimable rows, so a first row exists whenever any row is claimable |
| `WorkerRepository.BestIsFirst` | apps/worker/src/jobs/worker.repository.js:43-66 | The same order in terms of the priority, availability and creation columns |
| `JobProcessor.NormalizeExecutionError` | apps/worker/src/jobs/job-processor.js:34-52 | The recorded message is the thrown one without the blanks around it, cut to 2000 characters; a message of blanks only is replaced |
| `JobProcessor.ProcessClaim` | apps/worker/src/jobs/job-processor.js:162-235 | What one execution leaves in the database for every handler result, every lost call and anything others commit between its two calls, and exactly when it returns: COMPLETED for a handler that returned, FAILED with its normalised message for one that threw, with the measured duration; a completion whose acknowledgement is lost stands, because the failure call that follows is fenced off |
| `StaleWorkerRepository.FindStaleWorkers` | apps/worker/src/recovery/stale-worker.repository.js:45-60 | Returns min(limit, number stale) distinct stale workers, STARTING, ONLINE or BUSY with a heartbeat at or before the cutoff, oldest heartbeats first, none older left out |
| `StaleWorkerRepository.MarkWorkerUnhealthy` | apps/worker/src/recovery/stale-worker.repository.js:76-91 | Marks the worker exactly when it is a live-looking worker with a heartbeat at or before the cutoff, and says whether it did |
| `StaleWorkerRepository.FindProcessingJobsLockedByWorker` | apps/worker/src/recovery/stale-worker.repository.js:107-129 | Returns every job the worker locks, once, oldest lock first, each with its most recently started open attempt |
| `StaleWorkerRepository.RecoverJobForRetry` | apps/worker/src/recovery/stale-worker.repository.js:155-231 | Takes effect exactly when job and attempt are both still the dead worker's, and then times the attempt out and makes the job RETRYING from retryAt on |
| `StaleWorkerRepository.RecoverJobToDeadLetter` | apps/worker/src/recovery/stale-worker.repository.js:252-326 | The same for a dead letter |
| `StaleWorkerRepository.MarkRecoveredWorkerOffline` | apps/worker/src/recovery/stale-worker.repository.js:342-353 | Ends a takeover: only an UNHEALTHY worker goes OFFLINE, with stoppedAt set |
| `StaleWorkerService.RecoverLockedJob` | apps/worker/src/recovery/stale-worker.service.js:169-228 | Decides from the row it was given, acts only through the fences, and names the reason of every failure; counts below one are refused |
| `StaleWorkerService.ProgressStep` | apps/worker/src/recovery/stale-worker.service.js:281-298 | However many jobs of the queue have been recovered, the next one is still recoverable and recovering it disturbs no other job |
| `StaleWorkerService.RecoverLockedJobs` | apps/worker/src/recovery/stale-worker.service.js:281-298 | The loop recovers every job of the queue once and its two counters add up to the jobs locked at the start, the first counting those with attempts left |
| `StaleWorkerService.RecoverWorker` | apps/worker/src/recovery/stale-worker.service.js:251-319 | Run alone: all jobs of a stale worker leave PROCESSING by one recovery each, all other jobs keep row, attempts and log, the worker ends OFFLINE, the summary counts exactly those jobs, a skip changes nothing, and only a lost call can fail it, so the missing-attempt and bad-count errors never occur |
| `StaleWorkerService.RecoveryMeans` | apps/worker/src/recovery/stale-worker.service.js:251-319 | Of a call that returned: it skips exactly a worker that is not STARTING, ONLINE or BUSY with a heartbeat at least staleAfterMs old, and otherwise leaves no job of that worker PROCESSING and counts each |
| `RecoveryBatch.RecoverAllWorkers` | apps/worker/src/recovery/stale-worker.service.js:341-372 | Every worker of the batch is counted, skipped or listed once in failures; jobsRecovered, jobsRetried and jobsDeadLettered never exceed the jobs that really moved, to RETRYING and to DEAD_LETTER, and equal them when nothing failed; with a clock that does not fall back nobody is skipped |
| `RecoveryBatch.WorkerMoved` | apps/worker/src/recovery/stale-worker.service.js:311-318 | A returned summary counts exactly the jobs that left PROCESSING, those that went to RETRYING and those that went to DEAD_LETTER, and recovery touches no other job |
| `RecoveryBatch.CycleShrinksStale` | apps/worker/src/recovery/stale-worker.repository.js:45-60 | One fault-free cycle removes exactly min(limit, n) of the n workers stale at any earlier cutoff, those with the oldest heartbeats |
| `RecoveryBatch.CyclesDrain` | apps/worker/src/recovery/stale-worker.service.js:341-372 | k cycles leave max(0, n - k * limit) of them, so ceil(n / limit) cycles empty the set |
| `WorkerInstances.RegisterWorker` | apps/worker/src/worker-instance/worker-instance.repository.js:32-41 | A fresh worker row is inserted as STARTING, started and heard of at startedAt |
| `WorkerInstances.MarkWorkerStopping` | apps/worker/src/worker-instance/worker-instance.repository.js:150-163 | STOPPING is reached from STARTING, ONLINE, BUSY and UNHEALTHY only, and the stamp is stored |
| `WorkerInstances.UpdateWorkerHeartbeat` | apps/worker/src/worker-instance/worker-instance.repository.js:124-136 | The heartbeat is stored exactly for STARTING, ONLINE, BUSY and STOPPING workers, and no other column changes |
| `WorkerInstances.StartWorkerInstance` | apps/worker/src/worker-instance/worker-instance.service.js:75-100 | Whatever others commit between its two writes: it throws after registering exactly when ONLINE is refused, which needs another process to have moved the worker on |
| `WorkerInstances.StopWorkerInstance` | apps/worker/src/worker-instance/worker-instance.service.js:178-202 | Whatever others commit between its two writes: a refused STOPPING changes nothing, and after an accepted one the worker ends OFFLINE, by this call or by another |
| `WorkerInstances.SetWorkerBusy` | apps/worker/src/worker-instance/worker-instance.service.js:112-119 | Succeeds exactly for an ONLINE worker, and then stores BUSY and the stamp |
| `WorkerInstances.SetWorkerAvailable` | apps/worker/src/worker-instance/worker-instance.service.js:131-138 | Succeeds exactly for a BUSY worker, and then stores ONLINE and the stamp |
| `WorkerInstances.HeartbeatWorker` | apps/worker/src/worker-instance/worker-instance.service.js:154-161 | Throws exactly when the worker no longer accepts heartbeats; otherwise lastHeartbeatAt is the given stamp and every other column is as it was |
| `JobService.CreateJobRecord` | apps/api/src/jobs/job.repository.js:34-76 | The job and its first log entry are written together, or a key rejects both |
| `JobService.TransitionJobStatus` | apps/api/src/jobs/job.repository.js:217-231 | Compare-and-set on owner and status, with the number of rows it matched |
| `JobService.CreateJob` | apps/api/src/jobs/job.service.js:57-82 | A resubmission returns the existing job and writes nothing; otherwise, whatever others commit before the insert, exactly one job is created, with the requested columns, SCHEDULED exactly when its availability is later than now, or a key of that user taken meanwhile rejects it and neither job nor log is left |
| `JobService.CancelJob` | apps/api/src/jobs/job.service.js:168-220 | Cancels exactly when the row it read and the row it finds are both SCHEDULED, QUEUED or RETRYING and the user's, with every column stated; the three errors tell missing, not cancellable and lost race apart |
| `Effects.CreateEffect` | apps/api/src/jobs/job.service.js:57-82 | A submission stores the requested columns and its log entry unless its id or its (user, key) pair is taken; a requested time later than now makes it SCHEDULED, otherwise it is QUEUED |
| `Effects.ClaimEffect` | apps/worker/src/jobs/worker.repository.js:41-111 | At every reachable state a claim step takes effect exactly for a waiting, available, unlocked job, a registered worker and a fresh attempt id, and writes exactly these job, attempt and log columns |
| `Effects.SuccessEffect` | apps/worker/src/jobs/worker.repository.js:129-195 | A report of success on an open attempt always takes effect: COMPLETED on both rows with its stamp and duration, and nothing else |
| `Effects.FailureEffect` | apps/worker/src/jobs/job-processor.js:202-235 | A report of failure on an open attempt makes it FAILED with the reported message, and the job RETRYING after the backoff while attempts are left, else DEAD_LETTER |
| `Effects.RecoveryEffect` | apps/worker/src/recovery/stale-worker.service.js:169-228 | A recovery that comes to an open attempt makes it TIMED_OUT with the stamp of its call, the stale text and reason STALE_WORKER in the log, and the job RETRYING or DEAD_LETTER |
| `Effects.LateEffect` | apps/worker/src/jobs/worker.repository.js:140-176 | A report on a closed attempt does nothing, and a recovery that comes to one aborts |
| `Effects.ClosingExact` | apps/worker/src/jobs/worker.repository.js:156-176 | A step closes an open attempt if and only if its holder reports on it or its recovery comes to it, and then with the status, stamp, duration and message of that step |
| `Effects.AttemptHistory` | apps/worker/src/recovery/stale-worker.repository.js:155-326 | On every run each closed attempt was ended by one step: COMPLETED by its holder's success, FAILED by its failure, TIMED_OUT by a recovery, and still shows what that step wrote |
| `Effects.FirstAttemptWaits` | apps/api/src/jobs/job.service.js:69-70 | On every run the first attempt of a job starts no earlier than the availability it was submitted with, or than its submission without one |
| `Effects.CancelEffect` | apps/api/src/jobs/job.service.js:168-220 | A cancel step takes effect exactly for the user's own SCHEDULED, QUEUED or RETRYING job, and writes exactly these columns |
| `Effects.WorkerEffect` | apps/worker/src/worker-instance/worker-instance.repository.js:53-194 | Which statuses each worker write admits and which status and stamps it stores |
| `Effects.MarkEffect` | apps/worker/src/recovery/stale-worker.service.js:257-275 | A recovery call takes over exactly a STARTING, ONLINE or BUSY worker whose heartbeat is at least staleAfterMs old, and skips any other |
| `Effects.OutOfTurn` | apps/worker/src/recovery/stale-worker.service.js:251-319 | A recovery call marks, reads, recovers every row and only then finishes |
| `Effects.FreshStampProtects` | apps/worker/src/recovery/stale-worker.repository.js:76-91 | After an accepted heartbeat, BUSY or ONLINE write at t, and until that worker writes again, no recovery call with a cutoff before t takes it over, however the run goes on |
| `Invariants.CreateKeeps` | apps/api/src/jobs/job.repository.js:34-76 | Creating a job keeps every row invariant |
| `Invariants.ClaimKeeps` | apps/worker/src/jobs/worker.repository.js:41-111 | Claiming a claimable row keeps every row invariant although its update has no guard |
| `Invariants.FinishKeeps` | apps/worker/src/jobs/worker.repository.js:129-376 | A fenced finish whose decision fits the current row keeps every row invariant |
| `Invariants.CancelKeeps` | apps/api/src/jobs/job.service.js:194-204 | Cancelling keeps every row invariant |
| `Invariants.WorkerWriteKeeps` | apps/worker/src/worker-instance/worker-instance.repository.js:55-190 | No worker-status write disturbs jobs, attempts or logs |
| `Invariants.OpenAttemptExists` | apps/worker/src/jobs/worker.repository.js:82-90 | Every PROCESSING job has an open attempt of its lock owner, numbered by its attempt count |
| `Safety.SnapshotIsCurrent` | apps/worker/src/jobs/worker.repository.js:137-173 | Whoever still passes both finish checks holds a job row whose attempt count is current |
| `Safety.FinishSafe` | apps/worker/src/jobs/worker.repository.js:225-265 | A finish decided from a row of any age is safe: it is refused, or it keeps every invariant |
| `Safety.ClaimNeverCollides` | packages/database/prisma/schema.prisma:241 | The unique (job, number) constraint never rejects a claim; only an unregistered worker or a reused id can |
| `Safety.LockedReadFits` | apps/worker/src/recovery/stale-worker.service.js:169-192 | A recovery read always finds the open attempt and valid counts, so both of its errors are unreachable |
| `Safety.StepSafe` | apps/worker/src/jobs/worker.repository.js:41-376 | Every step of every process keeps the system invariant, and rows only evolve forward |
| `Safety.ReachableSafe` | apps/worker/src/jobs/worker.repository.js:41-376 | The invariant holds at every reachable state |
| `Guarantees.RowStructure` | apps/worker/src/jobs/worker.repository.js:68-90 | A job is PROCESSING exactly when locked and exactly when it has an open attempt, which is the lock owner's and carries the attempt count; attempt numbers are exactly 1 to attemptCount |
| `Guarantees.FinishIffOpen` | apps/worker/src/jobs/worker.repository.js:137-173 | At every reachable state a finish call changes anything exactly when its attempt is the job's one open attempt |
| `Guarantees.StaleClaimChangesNothing` | apps/worker/src/jobs/worker.repository.js:225-265 | Once an attempt is closed, no finish naming it ever changes anything again on any continuation |
| `Guarantees.ClosedExactlyOnce` | apps/worker/src/recovery/stale-worker.repository.js:165-205 | On every run each attempt is closed by exactly one step, or is still open |
| `Witnesses.StaleClaimPassesJobCheck` | apps/worker/src/jobs/worker.repository.js:155-173 | The attempt check is needed: a reachable state where the job-row check alone would let a stale claim through |
| `Guarantees.LogRebuildsRow` | apps/worker/src/jobs/worker.repository.js:267-280 | At every reachable state a job's log replays to its count, availability, lock owner, error and status, the status failing exactly for CANCELLED |
| `Guarantees.AttemptBudget` | apps/worker/src/jobs/job-processor.js:202-234 | No run exceeds maxAttempts, every claimable job has attempts left, and a dead letter has used exactly maxAttempts, none completed |
| `Guarantees.BudgetNeedsCurrentCount` | apps/worker/src/recovery/stale-worker.service.js:194-227 | A decision from a job row read apart from its attempt keeps the budget exactly when that row agrees with the current one on whether attempts remain |
| `Guarantees.RemainingFalls` | apps/worker/src/jobs/worker.repository.js:68-80 | Each change of a job uses up one of the transitions its row still allows |
| `Guarantees.BoundedWork` | apps/worker/src/jobs/worker.repository.js:68-80 | On every run a job changes at most 2 * maxAttempts times after its creation |
| `Witnesses.BoundIsReached` | apps/worker/src/jobs/worker.repository.js:68-80 | From every waiting job some continuation makes all the transitions the bound leaves |
| `Witnesses.LeastBound` | apps/worker/src/jobs/worker.repository.js:68-80 | For every limit a reachable job makes exactly 2 * maxAttempts transitions, so the bound is least |
| `Guarantees.TerminalIsFinal` | apps/api/src/jobs/job.service.js:168-204 | COMPLETED, DEAD_LETTER and CANCELLED rows never change again |
| `Guarantees.AtMostOneTakeover` | apps/worker/src/recovery/stale-worker.service.js:260-279 | On every run, with any number of recovery loops, at most one passes the UNHEALTHY transition of a worker |
| `Guarantees.OneRecoveryPerWorker` | apps/worker/src/recovery/stale-worker.service.js:251-319 | At any moment the recovery calls acting on one worker's jobs are one call |
| `Guarantees.WorkerLifecycle` | apps/worker/src/worker-instance/worker-instance.repository.js:55-190 | Worker status only moves forward, OFFLINE is final, and stoppedAt is set exactly then |
| `Guarantees.IdempotentSubmission` | apps/api/src/jobs/job.service.js:57-82 | Any two submissions that returned a job for one user and key returned the same job, and there is no other, whatever find and create steps interleaved |
| `Guarantees.LosingSubmission` | apps/api/src/jobs/job.repository.js:34-97 | After one success every later creation with that user and key, on any continuation, adds neither job nor log |
| `Abandonment.HeldForEver` | apps/worker/src/recovery/stale-worker.repository.js:27-91 | A held job that recovery cannot reach stays as it is on every continuation in which its holder does not report |
| `Abandonment.FreedExact` | apps/worker/src/recovery/stale-worker.service.js:251-319 | Without such a report some continuation changes the job if and only if its worker can still be taken over, or a recovery call that took it over has yet to read its jobs, or has this one in its queue with every earlier row still open |
| `Abandonment.DroppedClaim` | apps/worker/src/runtime/worker-runtime.js:114-122 | A reachable state in which a job is held by an OFFLINE worker and out of reach of recovery |
| `Spacing.ConsecutiveSpacing` | apps/worker/src/jobs/job-processor.js:217-233 | Attempt k+1 starts no earlier than attempt k's recorded finish plus its backoff, whether k failed or was recovered |
| `Spacing.TelescopedSpacing` | apps/worker/src/recovery/stale-worker.service.js:209-225 | Attempt n starts no earlier than attempt 1 plus all delays and the recorded run times, with no assumption on clocks |
| `Spacing.OrderedStampsSpacing` | apps/worker/src/jobs/job-processor.js:73-97 | Where no recorded finish precedes its start, the delays alone separate attempt n from attempt 1, base * (2^(n-1) - 1) while uncapped |
| `Spacing.WorkerStampsOrdered` | apps/worker/src/jobs/job-processor.js:176-200 | Under one clock that never goes back, an attempt its own worker closed never finishes before it starts |
| `Spacing.StartSpacingExact` | apps/worker/src/recovery/stale-worker.service.js:209-225 | The next claim is sure to come a full delay after this attempt started if and only if the finish stamp is not older than that start |
| `Spacing.RecoveryBreaksStartSpacing` | apps/worker/src/recovery/stale-worker.service.js:257-298 | A run under one ordered clock in which a recovery stamp read too early puts two starts closer than the delay |
| `ClaimRefinement.StepRefines` | apps/worker/src/jobs/worker.repository.js:41-90 | Each step with open claim transactions is one atomic step or none, keeping held rows claimable |
| `ClaimRefinement.TwoPhaseRefinesAtomic` | apps/worker/src/jobs/worker.repository.js:41-90 | Every run of selecting and committing claims equals a run of atomic claims |
| `ClaimRefinement.TwoPhaseSafe` | apps/worker/src/jobs/worker.repository.js:43-80 | Its states are reachable ones, no two open claims hold one row, and a held row is still claimable when the unguarded update runs |
| `ClaimRefinement.CancelRace` | apps/api/src/jobs/job.repository.js:217-231 | A cancel racing an open claim waits and then finds the job PROCESSING, and a committed cancel makes the row unselectable |
| `ClaimRefinement.OthersProceed` | apps/worker/src/jobs/worker.repository.js:59-60 | Only an update of a locked row waits: every other step takes effect at once |
| `ClaimRefinement.ClaimTransaction` | apps/worker/src/jobs/worker.repository.js:41-90 | Selecting and then committing is one atomic claim of the first job nobody else has locked |
| `ClaimDrain.ClaimsDrainInOrder` | apps/worker/src/jobs/worker.repository.js:43-66 | Successive claims at one time take distinct eligible jobs, High before Medium before Low, then by availability and age, and leave none exactly after as many as countClaimableJobs says |
| `ClaimDrain.ClaimUntilNull` | apps/worker/src/jobs/worker.repository.js:41-111 | A registered worker claiming until it is told null gets every SCHEDULED, QUEUED or RETRYING job that is available and unlocked, once, in that order: no claim fails before |
| `ClaimDrain.FindOldestClaimableJob` | apps/api/src/metrics/metrics.repository.js:257-284 | Null exactly when a claim at that moment would be; otherwise no claimable job has been available longer |
| `Counting.AttemptsOfJob` | apps/worker/src/jobs/worker.repository.js:68-90 | A job has exactly attemptCount attempt rows |
| `Counting.CountsConserved` | apps/api/src/metrics/metrics.service.js:275-286 | At every reachable state attempts total the sum of attempt counts, open attempts equal PROCESSING jobs equal locked jobs, completed attempts equal completed jobs, and no job is FAILED |
| `Metrics.NormalizeGroupedCounts` | apps/api/src/metrics/metrics.service.js:101-111 | Every supported status gets the count of its last group or zero, and unsupported groups are dropped |
| `Metrics.EightStatuses` | apps/api/src/metrics/metrics.service.js:288-302 | The eight status counts add up to the number of jobs |
| `Metrics.PendingCoversClaimable` | apps/api/src/metrics/metrics.repository.js:298-310 | Claimable jobs never outnumber pending ones |
| `Metrics.CountJobsByStatus` | apps/api/src/metrics/metrics.repository.js:33-40 | The grouped query, normalised, counts every status correctly, including those without a group |
| `Metrics.OldestClaimableAgeMs` | apps/api/src/metrics/metrics.service.js:155-165 | The age of the longest-available claimable job, null exactly when there is none; the clamp at zero never acts |
| `Metrics.GetQueueMetrics` | apps/api/src/metrics/metrics.service.js:275-311 | Each query on the committed state it meets: every figure is the count of its rows, pending that of the SCHEDULED, QUEUED and RETRYING ones; figures from one state add up (statuses to the total, claimable at most pending, null age exactly when nothing is claimable), FAILED is zero, and statuses never exceed a total counted later |
| `Rates.RateIsNearest` | apps/api/src/metrics/metrics.service.js:120-141 | With every binary64 operation rounded, a rate is a nearest hundredth of the true share; only an exact tie may go either way |
| `Rates.RatesSum` | apps/api/src/metrics/metrics.service.js:339-343 | Success, failure and timeout rates add up to 100.00 within 0.01; `Rates.MarginsAreMet` shows both margins are met |
| `Rates.HealthMeaning` | apps/api/src/dashboard/dashboard.service.js:77-89 | More than half failed or timed out is always critical; exactly half is critical if and only if the two rates are not both ties rounded down; critical means at least 49.99%, a margin `Rates.MarginsAreMet` shows is met; healthy means none |
| `Rates.HalfCanBeDegraded` | apps/api/src/dashboard/dashboard.service.js:77-89 | The failing input: 2000 completed, 363 failed, 1637 timed out is half and degraded, each operation having one nearest double |
| `SingleFlight.StopIsFinal` | apps/worker/src/runtime/heartbeat.js:62-108 | After stop, once the run it awaits has settled, nothing is in flight and nothing starts again, whatever ticks follow |
| `SingleFlight.PeriodicTask.RunNow` | apps/worker/src/runtime/heartbeat.js:62-86 | A tick begins a run exactly when not stopped and none is in flight |
| `SingleFlight.PeriodicTask.Stop` | apps/worker/src/recovery/recovery-scheduler.js:151-160 | Stopping is idempotent, clears the timer once, and awaits the run in flight |
| `HeartbeatTiming.AgeBounded` | apps/worker/src/runtime/heartbeat.js:62-90 | With interval H, heartbeat writes of at most L, startup delay D, at most m heartbeats lost in a row and BUSY or ONLINE writes that store their issue time at most K later, the stored heartbeat is never older than H + max(D, S + K) + m * (H + S) + L, where S = H * floor(L/H) |
| `HeartbeatTiming.OldestHeartbeat` | apps/worker/src/runtime/heartbeat.js:62-90 | Some schedule of ticks, heartbeat writes and status writes reaches that age: a status write lands just after the heartbeat it precedes, and the next heartbeat is as slow as can be |
| `HeartbeatTiming.LiveWorkersNeverStale` | apps/worker/src/recovery/stale-worker.repository.js:76-91 | Recovery can never take a live worker for stale if and only if that age is below staleAfterMs |
| `HeartbeatTiming.StartupCheckExact` | apps/worker/src/worker.js:161-163 | The startup check accepts exactly the safe configurations when writes and startup take no time and none is lost |
| `HeartbeatTiming.StartupCheckInsufficient` | apps/worker/src/worker.js:161-163 | Every configuration it accepts is unsafe once heartbeat and status writes may each take half the margin it leaves |
| `HeartbeatTiming.LostWritesNeedMargin` | apps/worker/src/runtime/heartbeat.js:67-86 | With instant writes of which m in a row may be lost, exactly a limit above (m + 1) * H is safe |
| `HeartbeatRows.RowFollows` | apps/worker/src/worker-instance/worker-instance.repository.js:77-136 | Along every timing run each heartbeat, BUSY and ONLINE write of a live worker is accepted, and its row carries the stamp the timing machine has stored |
| `HeartbeatRows.LiveRowsNeverTaken` | apps/worker/src/recovery/stale-worker.service.js:257-275 | In the rows of the protocol: no recovery call that reads the clock takes over a live worker, whatever the schedule, if and only if that age is below staleAfterMs |
| `RuntimeMachine.StoppingIsQuiet` | apps/worker/src/runtime/worker-runtime.js:218-255 | On every interleaving of overlapping start and stop calls, STOPPING and OFFLINE are written only while no poll, execution or availability write is in flight, and with one heartbeat created no heartbeat write either; a stop that succeeded leaves the runtime stopped |
| `RuntimeMachine.OneHeartbeat` | apps/worker/src/runtime/worker-runtime.js:174-207 | Unless start calls overlap, at most one heartbeat is ever created |
| `RuntimeMachine.OverlappingStarts` | apps/worker/src/runtime/worker-runtime.js:166-207 | The failing run: two overlapping start calls, and a heartbeat still writing while STOPPING is written |
| `RuntimeMachine.NextKeeps` | apps/worker/src/runtime/worker-runtime.js:108-255 | Every event at every await point keeps the runtime's invariant |
| `RuntimeMachine.NoClaimAfterStop` | apps/worker/src/runtime/worker-runtime.js:108-111 | Once any stop has begun no claim is ever started again |
| `RuntimeMachine.StopBlocksClaims` | apps/worker/src/runtime/worker-runtime.js:218-233 | So no stop call of any kind is followed by a new claim |
| `RuntimeMachine.StoppingWindsDown` | apps/worker/src/runtime/worker-runtime.js:114-153 | On every continuation of a stopping runtime a claim still awaited is dropped, an execution is not followed by an availability write, and no heartbeat begins |
| `RuntimeWork.WorkStep` | apps/worker/src/runtime/worker-runtime.js:108-166 | What every event begins and ends: a poll that is due starts a claim, a claim got while not stopping starts a BUSY write, a BUSY write that succeeded an execution, an execution that ended while running an ONLINE write, a failure a report |
| `RuntimeWork.ClaimsAccounted` | apps/worker/src/runtime/worker-runtime.js:114-153 | On every run, counted on its events: exactly the claims that arrive while stopping are dropped, every other one is executed unless its BUSY write failed or is in flight, every execution ends once, and writes ONLINE exactly when neither stopping nor stopped |
| `RuntimeWork.ExecutesAnyNumber` | apps/worker/src/runtime/worker-runtime.js:108-166 | For every n some run from the start executes n jobs, one after another, and is ready to claim again |
| `RuntimeWork.StartsAccounted` | apps/worker/src/runtime/worker-runtime.js:174-207 | Every accepted start registers once, goes ONLINE once if that succeeded, and makes one heartbeat if that succeeded |
| `RuntimeWork.StopWritesBoth` | apps/worker/src/runtime/worker-runtime.js:247-255 | A stop that succeeded has written STOPPING once and OFFLINE once |
| `RuntimeWork.StopCanSucceed` | apps/worker/src/runtime/worker-runtime.js:218-255 | Every stop of a started runtime can come to that end, with the runtime stopped and its timer cleared |
| `RuntimeWork.PollTimerSet` | apps/worker/src/runtime/worker-runtime.js:199-233 | Unless starts overlap, the polling timer is set exactly from the end of start to the first stop that goes through |
| `RuntimeStop.StopQuietExact` | apps/worker/src/runtime/worker-runtime.js:218-255 | At every reachable state, a stop leaves the runtime quiet for ever once it ends if and only if no start is in flight, no replaced heartbeat is alive, and the runtime is not already marked stopped with a live heartbeat |
| `RuntimeStop.SoleStartStop` | apps/worker/src/runtime/worker-runtime.js:218-226 | Without overlapping starts that condition is: no start in flight, and not started, stopped and not stopping at once |
| `RuntimeController.WorkerRuntime.PollNow` | apps/worker/src/runtime/worker-runtime.js:108-118 | A claim is started exactly by a running runtime with no poll in flight |
| `RuntimeController.WorkerRuntime.Stop` | apps/worker/src/runtime/worker-runtime.js:218-237 | The call goes on to await the heartbeat exactly for a started runtime not yet stopped, and otherwise returns with the runtime stopped |
| `ProcessMachine.NextKeeps` | apps/worker/src/worker.js:352-514 | Every event of a process, with any number of overlapping start calls, rollbacks and runtimes, keeps its invariant |
| `ProcessShutdown.ShutdownIsOrdered` | apps/worker/src/worker.js:468-514 | On every run, after a shutdown requested in a clean state: runtime.stop begins only when recovery is quiet, and from the disconnect on nothing the process ever created uses the database, whether or not runtime.stop threw |
| `ProcessShutdown.ShutdownQuietExact` | apps/worker/src/worker.js:468-514 | From every state, shutdown leaves the process quiet from its disconnect on if and only if the state is clean: no start may still come up, no replaced runtime or recovery scheduler is alive, the one shutdown will stop can be stopped, and no failing start will take it away or stop it beside shutdown |
| `ProcessShutdown.HeartbeatAfterDisconnect` | apps/worker/src/worker.js:482-500 | A start in flight at the disconnect may complete behind it, and heartbeats go on |
| `ProcessShutdown.OverlapOutlivesShutdown` | apps/worker/src/worker.js:383-411 | The failing run: two overlapping start calls both succeed, and shutdown never stops the first runtime |
| `ProcessShutdown.SoleStartClean` | apps/worker/src/worker.js:383-514 | On every run whose start calls do not overlap, a state is clean if and only if no start call may still reach the database |
| `ProcessController.WorkerProcess.RollbackStartup` | apps/worker/src/worker.js:352-376 | A start that threw stops the recovery scheduler the variable names, leaving the runtime alone meanwhile, or with none goes on to stop the runtime |
| `ProcessController.WorkerProcess.Shutdown` | apps/worker/src/worker.js:468-488 | Stops recovery first without touching the runtime, and a second request changes nothing |

## Left out

- Express routing, controllers, validation beyond the range of `maxAttempts`, rate limiting, authentication and user management: plumbing or smaller versions of the same compare-and-set.
- Job types and payloads, job handlers and the text of errors: a handler is a result, and a failure carries any message.
- Log messages, log levels and log order across jobs: each job's log keeps its own entries and their metadata.
- Prisma and PostgreSQL internals: transactions are atomic, with row locks for the claim refinement; a lock wait is a step that does nothing yet.
- Foreign keys of users, deletes and cascades: no production path deletes.
- Parsing of environment variables, operating-system signals and log output of worker.js: only the order of start and shutdown.
- ProcessController.WorkerProcess.Shows: ties the variables and the two objects they name to ProcessMachine; a runtime that no variable names any more goes on by the methods of WorkerRuntime.
- The comparison of the rate sum with 50 as doubles: it is made on hundredths of a percent. The rates themselves are computed with binary64 rounding. The backoff needs no such care, because doubling a double is exact.
- Non-finite metric values, average duration, throughput windows, worker-health labels and pagination: each is settled by one short expression.
- Ties in query order: any order of equal rows is allowed.
- Liveness, such as every claimed job being finished: Abandonment says which claims can never be.
- Rates.HealthMeaning: at exactly half the equivalence is on the computed rates; on the counts alone it gives a sufficient condition.
- StaleWorkerService.RecoverWorker: states the effect when no other process acts meanwhile; interleaved recovery is covered by the protocol's steps and Guarantees.
- RuntimeController.WorkerRuntime.HeartbeatStopped: like the other methods that resume after an await, requires that the await has settled; which of them runs next is decided by RuntimeMachine's events.
