// apps/api/src/jobs: submission and cancellation, repository and service.
module JobService {
  import opened Wrappers
  import opened Records
  import opened Transactions
  import opened Protocol
  import opened Database

  datatype JobError = NotFound | NotCancellable | StateConflict | Duplicate

  // ---- repository ----

  // The job and its first log entry in one transaction.
  method CreateJobRecord(prisma: Prisma, jobId: JobId, job: Job) returns (ok: bool)
    modifies prisma
    ensures ok <==> CreateAllowed(old(prisma.View()), jobId, job.userId, job.idempotencyKey)
    ensures prisma.View() == if ok then Created(old(prisma.View()), jobId, job) else old(prisma.View())
  {
    ok := prisma.InsertJob(jobId, job);
    if ok {
      var isScheduled := job.status.Scheduled?;
      prisma.InsertLog(jobId, if isScheduled then JobScheduled(job.availableAt) else JobQueued(job.availableAt));
    }
  }

  method FindJobByIdempotencyKey(prisma: Prisma, userId: UserId, key: string) returns (found: Option<JobId>)
    ensures found.None? <==> !KeyTaken(prisma.View(), userId, Some(key))
    ensures found.Some? ==> found.value in prisma.jobs && prisma.jobs[found.value].userId == userId &&
                            prisma.jobs[found.value].idempotencyKey == Some(key)
  {
    var ids := set j | j in prisma.jobs &&
                       prisma.jobs[j].userId == userId && prisma.jobs[j].idempotencyKey == Some(key);
    if ids == {} {
      assert forall j :: j in prisma.jobs ==> j !in ids;
      return None;
    }
    var j :| j in ids;
    return Some(j);
  }

  // Compare-and-set on the status: count is zero when the job is missing, is another
  // user's, or has left the expected statuses.
  method TransitionJobStatus(prisma: Prisma, userId: UserId, jobId: JobId, expected: set<JobStatus>, data: Job -> Job)
    returns (count: nat)
    modifies prisma
    ensures count == if jobId in old(prisma.jobs) && old(prisma.jobs)[jobId].userId == userId &&
                        old(prisma.jobs)[jobId].status in expected then 1 else 0
    ensures prisma.View() == if count == 1
                             then old(prisma.View()).(jobs := old(prisma.jobs)[jobId := data(old(prisma.jobs)[jobId])])
                             else old(prisma.View())
  {
    count := prisma.UpdateJob(jobId, (row: Job) => row.userId == userId && row.status in expected, data);
  }

  // ---- service ----

  // A resubmission returns the existing job and writes nothing. Otherwise others is what
  // other processes commit before the insert: it creates the job in the state its
  // availability gives, or a key taken meanwhile rejects it and neither job nor log is left.
  method CreateJob(prisma: Prisma, userId: UserId, input: JobInput, now: Time, jobId: JobId, createdAt: Time,
                   others: Db -> Db)
    returns (r: Result<JobId, JobError>)
    modifies prisma
    ensures Resubmitted(old(prisma.View()), userId, input.idempotencyKey) ==>
              && prisma.View() == old(prisma.View())
              && r.Success? && r.value in prisma.jobs && prisma.jobs[r.value].userId == userId
              && prisma.jobs[r.value].idempotencyKey == input.idempotencyKey
    ensures !Resubmitted(old(prisma.View()), userId, input.idempotencyKey) ==>
              var before := others(old(prisma.View()));
              var allowed := CreateAllowed(before, jobId, userId, input.idempotencyKey);
              var job := JobFromInput(userId, input, now, createdAt);
              && r == (if allowed then Success(jobId) else Failure(Duplicate))
              && prisma.View() == if allowed then Created(before, jobId, job) else before
    ensures var seen := exists j :: j in old(prisma.jobs) && old(prisma.jobs)[j].userId == userId &&
                          old(prisma.jobs)[j].idempotencyKey == input.idempotencyKey;
            seen && input.idempotencyKey.Some? && input.idempotencyKey.value != "" ==>
              r.Success? && r.value in old(prisma.jobs) && prisma.View() == old(prisma.View())
    ensures var seen := exists j :: j in old(prisma.jobs) && old(prisma.jobs)[j].userId == userId &&
                          old(prisma.jobs)[j].idempotencyKey == input.idempotencyKey;
            !(seen && input.idempotencyKey.Some? && input.idempotencyKey.value != "") ==>
              var before := others(old(prisma.View()));
              var taken := input.idempotencyKey.Some? &&
                exists j :: j in before.jobs && before.jobs[j].userId == userId &&
                            before.jobs[j].idempotencyKey == input.idempotencyKey;
              var at := if input.availableAt.Some? then input.availableAt.value else now;
              && (r.Success? <==> jobId !in before.jobs && !taken)
              && (r.Success? ==> r.value == jobId && prisma.View() == before.(
                    jobs := before.jobs[jobId :=
                      Job(userId, input.idempotencyKey, input.priority, if at > now then Scheduled else Queued,
                          input.maxAttempts, 0, at, createdAt, None, None, None, None, None)],
                    logs := before.logs[jobId := LogOf(before, jobId) +
                      [if at > now then JobScheduled(at) else JobQueued(at)]]))
  {
    if input.idempotencyKey.Some? && input.idempotencyKey.value != "" {
      var existing := FindJobByIdempotencyKey(prisma, userId, input.idempotencyKey.value);
      if existing.Some? {
        return Success(existing.value);
      }
    }
    prisma.OthersCommit(others);
    var availableAt := if input.availableAt.Some? then input.availableAt.value else now;
    var status := if availableAt > now then Scheduled else Queued;
    var job := Job(userId, input.idempotencyKey, input.priority, status, input.maxAttempts,
                   0, availableAt, createdAt, None, None, None, None, None);
    var ok := CreateJobRecord(prisma, jobId, job);
    return if ok then Success(jobId) else Failure(Duplicate);
  }

  // The find step meets a job of this user and key; an empty key is not looked up.
  predicate Resubmitted(db: Db, userId: UserId, key: Option<string>) {
    key.Some? && key.value != "" && KeyTaken(db, userId, key)
  }

  // The service reads, checks and then compares-and-sets; seen is the row it read, which
  // another process may have changed since.
  method CancelJob(prisma: Prisma, userId: UserId, jobId: JobId, cancelledAt: Time, seen: Option<Job>)
    returns (r: Result<Job, JobError>)
    modifies prisma
    ensures seen.None? ==> r == Failure(NotFound)
    ensures seen.Some? && !Waiting(seen.value.status) ==> r == Failure(NotCancellable)
    ensures r.Success? <==> seen.Some? && Waiting(seen.value.status) && CancelAllowed(old(prisma.View()), userId, jobId)
    ensures r.Success? ==> prisma.View() == TryCancel(old(prisma.View()), userId, jobId, cancelledAt)
    ensures r.Failure? ==> prisma.View() == old(prisma.View())
    ensures r.Success? ==> r.value == prisma.jobs[jobId] && r.value.status.Cancelled?
    ensures r == Failure(StateConflict) ==> !CancelAllowed(prisma.View(), userId, jobId)
    ensures r == Failure(NotCancellable) <==>
            seen.Some? && seen.value.status in {Processing, Completed, Failed, DeadLetter, Cancelled}
    ensures r.Success? <==>
            && seen.Some? && seen.value.status in {Scheduled, Queued, Retrying}
            && jobId in old(prisma.jobs) && old(prisma.jobs)[jobId].userId == userId
            && old(prisma.jobs)[jobId].status in {Scheduled, Queued, Retrying}
    ensures r.Success? ==>
              prisma.View() == old(prisma.View()).(jobs := old(prisma.jobs)[jobId := old(prisma.jobs)[jobId].(
                status := Cancelled, cancelledAt := Some(cancelledAt), lockedAt := None, lockedBy := None)])
  {
    if seen.None? {
      return Failure(NotFound);
    }
    if seen.value.status !in {Scheduled, Queued, Retrying} {
      return Failure(NotCancellable);
    }
    var count := TransitionJobStatus(prisma, userId, jobId, {Scheduled, Queued, Retrying}, (row: Job) =>
      row.(cancelledAt := Some(cancelledAt), lockedAt := None, lockedBy := None, status := Cancelled));
    if count != 1 {
      return Failure(StateConflict);
    }
    return Success(prisma.jobs[jobId]);
  }
}
