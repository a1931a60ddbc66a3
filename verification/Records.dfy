// The rows of the shared PostgreSQL database, one datatype per table.
module Records {
  import opened Wrappers

  // Milliseconds since the epoch, as Date.getTime() returns them.
  type Time = int
  // UUID primary keys; only equality matters.
  type JobId = nat
  type AttemptId = nat
  type WorkerId = nat
  type UserId = nat

  datatype JobStatus =
    Scheduled | Queued | Processing | Retrying | Completed | Failed | DeadLetter | Cancelled

  datatype Priority = Low | Medium | High

  datatype AttemptStatus =
    AttemptProcessing | AttemptCompleted | AttemptFailed | AttemptTimedOut

  datatype WorkerStatus = Starting | Online | Busy | Unhealthy | Offline | Stopping

  datatype Job = Job(
    userId: UserId,
    idempotencyKey: Option<string>,
    priority: Priority,
    status: JobStatus,
    maxAttempts: nat,
    attemptCount: nat,
    availableAt: Time,
    createdAt: Time,
    lockedAt: Option<Time>,
    lockedBy: Option<WorkerId>,
    lastError: Option<string>,
    completedAt: Option<Time>,
    cancelledAt: Option<Time>)

  datatype Attempt = Attempt(
    jobId: JobId,
    number: nat,
    worker: WorkerId,
    status: AttemptStatus,
    startedAt: Time,
    finishedAt: Option<Time>,
    durationMs: Option<nat>,
    error: Option<string>)

  // One constructor per log event the code writes, carrying its metadata.
  // stale is true when the metadata has reason STALE_WORKER.
  datatype LogEntry =
    | JobScheduled(availableAt: Time)
    | JobQueued(availableAt: Time)
    | JobProcessing(workerId: WorkerId, attemptId: AttemptId, attemptNumber: nat)
    | JobCompleted(workerId: WorkerId, attemptId: AttemptId, durationMs: nat)
    | JobRetrying(workerId: WorkerId, attemptId: AttemptId, retryAt: Time, error: string, stale: bool)
    | JobDeadLettered(workerId: WorkerId, attemptId: AttemptId, error: string, stale: bool)

  datatype Worker = Worker(
    status: WorkerStatus,
    startedAt: Time,
    lastHeartbeatAt: Time,
    stoppedAt: Option<Time>)

  // A committed database snapshot. The log table is kept per job, oldest entry first.
  datatype Db = Db(
    jobs: map<JobId, Job>,
    attempts: map<AttemptId, Attempt>,
    logs: map<JobId, seq<LogEntry>>,
    workers: map<WorkerId, Worker>)

  const EMPTY_DB := Db(map[], map[], map[], map[])

  function LogOf(db: Db, jobId: JobId): seq<LogEntry> {
    if jobId in db.logs then db.logs[jobId] else []
  }

  // SCHEDULED, QUEUED and RETRYING: the statuses the claim query and cancellation accept.
  predicate Waiting(status: JobStatus) {
    status.Scheduled? || status.Queued? || status.Retrying?
  }

  predicate Terminal(status: JobStatus) {
    status.Completed? || status.DeadLetter? || status.Cancelled?
  }

  predicate Closed(attempt: Attempt) {
    !attempt.status.AttemptProcessing?
  }
}
