// The retry or dead-letter decision a worker or a recovery process takes from the rows
// it read earlier, outside the transaction that applies it.
module Decisions {
  import opened Wrappers
  import opened Records
  import opened Backoff
  import opened Transactions

  const STALE_WORKER_ERROR := "Job execution timed out because the owning worker stopped sending heartbeats."

  // What claimNextJob returned: the claimed job row and its attempt row.
  datatype Claim = Claim(jobId: JobId, job: Job, attemptId: AttemptId, attempt: Attempt)

  // One row of findProcessingJobsLockedByWorker with the attempt it includes, if any.
  datatype LockedJob = LockedJob(jobId: JobId, job: Job, attempt: Option<(AttemptId, Attempt)>)

  function ElapsedMs(startedAt: Time, finishedAt: Time): nat {
    if finishedAt >= startedAt then finishedAt - startedAt else 0
  }

  function DecisionFor(config: ValidRetryConfig, job: Job, at: Time, durationMs: nat,
                       error: string, stale: bool): Outcome
    requires job.attemptCount >= 1
  {
    if job.attemptCount < job.maxAttempts
    then Retry(at, durationMs, error, stale, at + RetryDelay(config, job.attemptCount))
    else Bury(at, durationMs, error, stale)
  }

  function FailureOutcome(config: ValidRetryConfig, job: Job, failedAt: Time, durationMs: nat, error: string): Outcome
    requires job.attemptCount >= 1
  {
    DecisionFor(config, job, failedAt, durationMs, error, false)
  }

  function RecoveryOutcome(config: ValidRetryConfig, job: Job, attempt: Attempt, recoveredAt: Time): Outcome
    requires job.attemptCount >= 1
  {
    DecisionFor(config, job, recoveredAt, ElapsedMs(attempt.startedAt, recoveredAt), STALE_WORKER_ERROR, true)
  }

  // The rows are usable: the checks both callers make before deciding.
  predicate CountsValid(job: Job) {
    job.attemptCount >= 1 && job.maxAttempts >= 1
  }

  // A result of the recovery read: every job the worker locks, once each, oldest lock
  // first, with its most recently started open attempt.
  ghost predicate IsLockedRead(db: Db, workerId: WorkerId, queue: seq<LockedJob>) {
    && |queue| == |LockedJobs(db, workerId)|
    && (forall j :: j in LockedJobs(db, workerId) <==> exists i :: 0 <= i < |queue| && queue[i].jobId == j)
    && (forall i, k :: 0 <= i < k < |queue| ==> queue[i].jobId != queue[k].jobId)
    && (forall i :: 0 <= i < |queue| ==> LockedRow(db, workerId, queue[i]))
    && (forall i, k :: 0 <= i < k < |queue| ==> LockedBefore(queue[i].job, queue[k].job))
  }

  // lockedAt ascending; a missing value sorts last.
  predicate LockedBefore(x: Job, y: Job) {
    y.lockedAt.None? || (x.lockedAt.Some? && x.lockedAt.value <= y.lockedAt.value)
  }

  ghost predicate LockedRow(db: Db, workerId: WorkerId, row: LockedJob) {
    && row.jobId in db.jobs && row.job == db.jobs[row.jobId]
    && (row.attempt.None? ==> forall a :: a in db.attempts ==> !OwnsAttempt(db, row.jobId, workerId, a))
    && (row.attempt.Some? ==>
          && OwnsAttempt(db, row.jobId, workerId, row.attempt.value.0)
          && row.attempt.value.1 == db.attempts[row.attempt.value.0]
          && forall a :: a in db.attempts && OwnsAttempt(db, row.jobId, workerId, a) ==>
               db.attempts[a].startedAt <= row.attempt.value.1.startedAt)
  }
}
