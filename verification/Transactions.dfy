// What each transaction does to a committed snapshot: its guard and its effect.
module Transactions {
  import opened Wrappers
  import opened Records

  // ---- create ----

  // The claimable state of a new job, decided by comparing availableAt with the clock.
  function InitialStatus(availableAt: Time, now: Time): JobStatus {
    if availableAt > now then Scheduled else Queued
  }

  predicate KeyTaken(db: Db, userId: UserId, key: Option<string>) {
    key.Some? && exists j :: j in db.jobs && db.jobs[j].userId == userId && db.jobs[j].idempotencyKey == key
  }

  // Primary key and the unique (userId, idempotencyKey) constraint; null keys never collide.
  predicate CreateAllowed(db: Db, jobId: JobId, userId: UserId, key: Option<string>) {
    jobId !in db.jobs && !KeyTaken(db, userId, key)
  }

  function NewJob(userId: UserId, key: Option<string>, priority: Priority, status: JobStatus,
                  maxAttempts: nat, availableAt: Time, createdAt: Time): Job {
    Job(userId, key, priority, status, maxAttempts, 0, availableAt, createdAt,
        None, None, None, None, None)
  }

  function FirstEntry(job: Job): LogEntry {
    if job.status.Scheduled? then JobScheduled(job.availableAt) else JobQueued(job.availableAt)
  }

  function Created(db: Db, jobId: JobId, job: Job): Db {
    db.(jobs := db.jobs[jobId := job], logs := db.logs[jobId := LogOf(db, jobId) + [FirstEntry(job)]])
  }

  // ---- claim ----

  predicate Claimable(job: Job, asOf: Time) {
    Waiting(job.status) && job.availableAt <= asOf && job.lockedBy.None?
  }

  function PriorityWeight(p: Priority): nat {
    match p
    case High => 3
    case Medium => 2
    case Low => 1
  }

  // The claim query's ORDER BY: x may be returned before y.
  predicate ClaimOrder(x: Job, y: Job) {
    PriorityWeight(x.priority) > PriorityWeight(y.priority) ||
    (PriorityWeight(x.priority) == PriorityWeight(y.priority) &&
     (x.availableAt < y.availableAt ||
      (x.availableAt == y.availableAt && x.createdAt <= y.createdAt)))
  }

  function ClaimableIds(db: Db, asOf: Time): set<JobId> {
    set j | j in db.jobs && Claimable(db.jobs[j], asOf)
  }

  // A row LIMIT 1 may return: claimable, and no claimable row has to come before it.
  predicate IsBestClaimable(db: Db, jobId: JobId, asOf: Time) {
    && jobId in ClaimableIds(db, asOf)
    && forall k :: k in ClaimableIds(db, asOf) ==> ClaimOrder(db.jobs[jobId], db.jobs[k])
  }

  predicate NumberTaken(db: Db, jobId: JobId, number: nat) {
    exists a :: a in db.attempts && db.attempts[a].jobId == jobId && db.attempts[a].number == number
  }

  // What the database itself checks when the claim writes its rows: the worker foreign
  // key, the attempt primary key and the unique (jobId, attemptNumber) constraint.
  predicate ClaimAllowed(db: Db, jobId: JobId, workerId: WorkerId, attemptId: AttemptId)
    requires jobId in db.jobs
  {
    workerId in db.workers && attemptId !in db.attempts &&
    !NumberTaken(db, jobId, db.jobs[jobId].attemptCount + 1)
  }

  function ClaimedJob(job: Job, workerId: WorkerId, claimedAt: Time): Job {
    job.(status := Processing, lockedAt := Some(claimedAt), lockedBy := Some(workerId),
         attemptCount := job.attemptCount + 1)
  }

  function NewAttempt(jobId: JobId, number: nat, workerId: WorkerId, claimedAt: Time): Attempt {
    Attempt(jobId, number, workerId, AttemptProcessing, claimedAt, None, None, None)
  }

  function Claimed(db: Db, jobId: JobId, workerId: WorkerId, attemptId: AttemptId, claimedAt: Time): Db
    requires jobId in db.jobs
  {
    var job := ClaimedJob(db.jobs[jobId], workerId, claimedAt);
    db.(jobs := db.jobs[jobId := job],
        attempts := db.attempts[attemptId := NewAttempt(jobId, job.attemptCount, workerId, claimedAt)],
        logs := db.logs[jobId := LogOf(db, jobId) + [JobProcessing(workerId, attemptId, job.attemptCount)]])
  }

  // ---- finish: complete, retry, dead-letter, and the two recovery forms ----

  datatype Outcome =
    | Complete(finishedAt: Time, durationMs: nat)
    | Retry(finishedAt: Time, durationMs: nat, error: string, stale: bool, retryAt: Time)
    | Bury(finishedAt: Time, durationMs: nat, error: string, stale: bool)

  predicate OwnsJob(db: Db, jobId: JobId, workerId: WorkerId) {
    jobId in db.jobs && db.jobs[jobId].status.Processing? && db.jobs[jobId].lockedBy == Some(workerId)
  }

  predicate OwnsAttempt(db: Db, jobId: JobId, workerId: WorkerId, attemptId: AttemptId) {
    attemptId in db.attempts && db.attempts[attemptId].jobId == jobId &&
    db.attempts[attemptId].worker == workerId && db.attempts[attemptId].status.AttemptProcessing?
  }

  predicate FinishAllowed(db: Db, jobId: JobId, workerId: WorkerId, attemptId: AttemptId) {
    OwnsJob(db, jobId, workerId) && OwnsAttempt(db, jobId, workerId, attemptId)
  }

  function FinishedJob(job: Job, o: Outcome): Job {
    match o
    case Complete(at, _) =>
      job.(status := Completed, completedAt := Some(at), lockedAt := None, lockedBy := None, lastError := None)
    case Retry(_, _, error, _, retryAt) =>
      job.(status := Retrying, availableAt := retryAt, lastError := Some(error), lockedAt := None, lockedBy := None)
    case Bury(_, _, error, _) =>
      job.(status := DeadLetter, lastError := Some(error), lockedAt := None, lockedBy := None)
  }

  function FinishedAttempt(attempt: Attempt, o: Outcome): Attempt {
    var a := attempt.(finishedAt := Some(o.finishedAt), durationMs := Some(o.durationMs));
    if o.Complete? then a.(status := AttemptCompleted, error := None)
    else a.(status := if o.stale then AttemptTimedOut else AttemptFailed, error := Some(o.error))
  }

  function FinishEntry(workerId: WorkerId, attemptId: AttemptId, o: Outcome): LogEntry {
    match o
    case Complete(_, durationMs) => JobCompleted(workerId, attemptId, durationMs)
    case Retry(_, _, error, stale, retryAt) => JobRetrying(workerId, attemptId, retryAt, error, stale)
    case Bury(_, _, error, stale) => JobDeadLettered(workerId, attemptId, error, stale)
  }

  function Finished(db: Db, jobId: JobId, workerId: WorkerId, attemptId: AttemptId, o: Outcome): Db
    requires jobId in db.jobs && attemptId in db.attempts
  {
    db.(jobs := db.jobs[jobId := FinishedJob(db.jobs[jobId], o)],
        attempts := db.attempts[attemptId := FinishedAttempt(db.attempts[attemptId], o)],
        logs := db.logs[jobId := LogOf(db, jobId) + [FinishEntry(workerId, attemptId, o)]])
  }

  function TryFinish(db: Db, jobId: JobId, workerId: WorkerId, attemptId: AttemptId, o: Outcome): Db {
    if FinishAllowed(db, jobId, workerId, attemptId) then Finished(db, jobId, workerId, attemptId, o) else db
  }

  // ---- cancel ----

  predicate CancelAllowed(db: Db, userId: UserId, jobId: JobId) {
    jobId in db.jobs && db.jobs[jobId].userId == userId && Waiting(db.jobs[jobId].status)
  }

  function CancelledJob(job: Job, cancelledAt: Time): Job {
    job.(status := Cancelled, cancelledAt := Some(cancelledAt), lockedAt := None, lockedBy := None)
  }

  function TryCancel(db: Db, userId: UserId, jobId: JobId, cancelledAt: Time): Db {
    if CancelAllowed(db, userId, jobId)
    then db.(jobs := db.jobs[jobId := CancelledJob(db.jobs[jobId], cancelledAt)])
    else db
  }

  // ---- worker instances ----

  datatype WorkerWrite =
    | MarkOnline(at: Time)
    | MarkBusy(at: Time)
    | MarkAvailable(at: Time)
    | Heartbeat(at: Time)
    | MarkStopping(at: Time)
    | MarkOffline(at: Time)
    | MarkUnhealthy(staleBefore: Time)
    | MarkRecovered(at: Time)

  predicate StaleCandidate(worker: Worker, staleBefore: Time) {
    (worker.status.Starting? || worker.status.Online? || worker.status.Busy?) &&
    worker.lastHeartbeatAt <= staleBefore
  }

  // The WHERE clause of each conditional worker update, apart from the id.
  predicate WorkerGuard(worker: Worker, write: WorkerWrite) {
    match write
    case MarkOnline(_) => worker.status.Starting?
    case MarkBusy(_) => worker.status.Online?
    case MarkAvailable(_) => worker.status.Busy?
    case Heartbeat(_) => worker.status in {Starting, Online, Busy, Stopping}
    case MarkStopping(_) => worker.status in {Starting, Online, Busy, Unhealthy}
    case MarkOffline(_) => worker.status.Stopping?
    case MarkUnhealthy(staleBefore) => StaleCandidate(worker, staleBefore)
    case MarkRecovered(_) => worker.status.Unhealthy?
  }

  function WorkerUpdated(worker: Worker, write: WorkerWrite): Worker {
    match write
    case MarkOnline(at) => worker.(status := Online, lastHeartbeatAt := at)
    case MarkBusy(at) => worker.(status := Busy, lastHeartbeatAt := at)
    case MarkAvailable(at) => worker.(status := Online, lastHeartbeatAt := at)
    case Heartbeat(at) => worker.(lastHeartbeatAt := at)
    case MarkStopping(at) => worker.(status := Stopping, lastHeartbeatAt := at)
    case MarkOffline(at) => worker.(status := Offline, lastHeartbeatAt := at, stoppedAt := Some(at))
    case MarkUnhealthy(_) => worker.(status := Unhealthy)
    case MarkRecovered(at) => worker.(status := Offline, stoppedAt := Some(at))
  }

  predicate WriteAllowed(db: Db, workerId: WorkerId, write: WorkerWrite) {
    workerId in db.workers && WorkerGuard(db.workers[workerId], write)
  }

  function TryWrite(db: Db, workerId: WorkerId, write: WorkerWrite): Db {
    if WriteAllowed(db, workerId, write)
    then db.(workers := db.workers[workerId := WorkerUpdated(db.workers[workerId], write)])
    else db
  }

  function NewWorker(startedAt: Time): Worker {
    Worker(Starting, startedAt, startedAt, None)
  }

  function TryRegister(db: Db, workerId: WorkerId, startedAt: Time): Db {
    if workerId in db.workers then db
    else db.(workers := db.workers[workerId := NewWorker(startedAt)])
  }

  // ---- read for recovery ----

  function LockedJobs(db: Db, workerId: WorkerId): set<JobId> {
    set j | j in db.jobs && OwnsJob(db, j, workerId)
  }

  function StaleWorkers(db: Db, staleBefore: Time): set<WorkerId> {
    set w | w in db.workers && StaleCandidate(db.workers[w], staleBefore)
  }
}
