// apps/worker/src/jobs/worker.repository.js: the claim and finish transactions.
module WorkerRepository {
  import opened Wrappers
  import opened Records
  import opened Transactions
  import opened Decisions
  import opened Database
  import Query

  datatype ClaimError = UnknownWorker | AttemptRejected
  datatype FinishError = NotOwner | NoActiveAttempt

  function ClaimBefore(db: Db): (nat, nat) -> bool {
    (x, y) => x in db.jobs && y in db.jobs && ClaimOrder(db.jobs[x], db.jobs[y])
  }

  lemma ClaimOrderIsOrder(db: Db, asOf: Time)
    ensures Query.OrdersRows(ClaimableIds(db, asOf), ClaimBefore(db))
  {
    var before := ClaimBefore(db);
    assert forall x, y | x in db.jobs && y in db.jobs :: before(x, y) <==> ClaimOrder(db.jobs[x], db.jobs[y]);
  }

  lemma BestClaimableExists(db: Db, asOf: Time)
    requires ClaimableIds(db, asOf) != {}
    ensures exists j :: j in ClaimableIds(db, asOf) && IsBestClaimable(db, j, asOf)
  {
    hide ClaimOrder, Claimable;
    ClaimOrderIsOrder(db, asOf);
    Query.FirstExists(ClaimableIds(db, asOf), ClaimBefore(db));
    var m :| m in ClaimableIds(db, asOf) && forall x :: x in ClaimableIds(db, asOf) ==> ClaimBefore(db)(m, x);
    forall k | k in ClaimableIds(db, asOf) ensures ClaimOrder(db.jobs[m], db.jobs[k]) {
      assert ClaimBefore(db)(m, k);
    }
  }

  // High goes before Medium before Low; among equals the longest available, then the oldest.
  lemma BestIsFirst(db: Db, best: JobId, asOf: Time)
    requires IsBestClaimable(db, best, asOf)
    ensures best in db.jobs && db.jobs[best].status in {Scheduled, Queued, Retrying}
    ensures db.jobs[best].availableAt <= asOf && db.jobs[best].lockedBy.None?
    ensures forall k | k in db.jobs && db.jobs[k].status in {Scheduled, Queued, Retrying} &&
                       db.jobs[k].availableAt <= asOf && db.jobs[k].lockedBy.None? ::
              var x, y := db.jobs[best], db.jobs[k];
              && (y.priority.High? ==> x.priority.High?)
              && (y.priority.Medium? ==> !x.priority.Low?)
              && (x.priority == y.priority ==> x.availableAt <= y.availableAt)
              && (x.priority == y.priority && x.availableAt == y.availableAt ==> x.createdAt <= y.createdAt)
  {
    forall k | k in db.jobs && db.jobs[k].status in {Scheduled, Queued, Retrying} &&
               db.jobs[k].availableAt <= asOf && db.jobs[k].lockedBy.None?
      ensures ClaimOrder(db.jobs[best], db.jobs[k])
    {
      assert k in ClaimableIds(db, asOf);
    }
  }

  lemma NoneClaimable(db: Db, asOf: Time)
    ensures ClaimableIds(db, asOf) == {} <==>
            forall k :: k in db.jobs && db.jobs[k].status in {Scheduled, Queued, Retrying} ==>
              db.jobs[k].availableAt > asOf || db.jobs[k].lockedBy.Some?
  {
    forall k | k in db.jobs ensures k in ClaimableIds(db, asOf) <==> Claimable(db.jobs[k], asOf) {
    }
  }

  // The best claimable row is claimed, or none exists, or a constraint rejects the writes
  // and the transaction leaves no trace.
  method ClaimNextJob(prisma: Prisma, workerId: WorkerId, claimedAt: Time, attemptId: AttemptId)
    returns (r: Result<Option<Claim>, ClaimError>)
    modifies prisma
    ensures r == Success(None) <==> ClaimableIds(old(prisma.View()), claimedAt) == {}
    ensures r.Success? && r.value.Some? ==>
              var c := r.value.value;
              && IsBestClaimable(old(prisma.View()), c.jobId, claimedAt)
              && ClaimAllowed(old(prisma.View()), c.jobId, workerId, attemptId)
              && prisma.View() == Claimed(old(prisma.View()), c.jobId, workerId, attemptId, claimedAt)
              && c == Claim(c.jobId, prisma.jobs[c.jobId], attemptId, prisma.attempts[attemptId])
    ensures r == Success(None) <==>
            forall k :: k in old(prisma.jobs) && old(prisma.jobs)[k].status in {Scheduled, Queued, Retrying} ==>
              old(prisma.jobs)[k].availableAt > claimedAt || old(prisma.jobs)[k].lockedBy.Some?
    ensures r.Success? && r.value.Some? ==>
              var c := r.value.value;
              && c.jobId in old(prisma.jobs)
              && var x := old(prisma.jobs)[c.jobId];
              && x.status in {Scheduled, Queued, Retrying} && x.availableAt <= claimedAt && x.lockedBy.None?
              && c.job == x.(status := Processing, lockedAt := Some(claimedAt), lockedBy := Some(workerId),
                             attemptCount := x.attemptCount + 1)
              && c.attempt == Attempt(c.jobId, x.attemptCount + 1, workerId, AttemptProcessing, claimedAt, None, None,
                                      None)
              && forall k | k in old(prisma.jobs) && old(prisma.jobs)[k].status in {Scheduled, Queued, Retrying} &&
                            old(prisma.jobs)[k].availableAt <= claimedAt && old(prisma.jobs)[k].lockedBy.None? ::
                   var y := old(prisma.jobs)[k];
                   && (y.priority.High? ==> x.priority.High?)
                   && (y.priority.Medium? ==> !x.priority.Low?)
                   && (x.priority == y.priority ==> x.availableAt <= y.availableAt)
                   && (x.priority == y.priority && x.availableAt == y.availableAt ==> x.createdAt <= y.createdAt)
    ensures r == Success(None) || r.Failure? ==> prisma.View() == old(prisma.View())
    ensures r.Failure? ==>
              exists j :: IsBestClaimable(old(prisma.View()), j, claimedAt) &&
                          !ClaimAllowed(old(prisma.View()), j, workerId, attemptId)
  {
    hide ClaimOrder, IsBestClaimable, ClaimBefore;
    var saved := prisma.View();
    var claimable := ClaimableIds(saved, claimedAt);
    NoneClaimable(saved, claimedAt);
    if claimable == {} {
      return Success(None);
    }
    BestClaimableExists(saved, claimedAt);
    var jobId :| jobId in claimable && IsBestClaimable(saved, jobId, claimedAt);
    BestIsFirst(saved, jobId, claimedAt);
    var count := prisma.UpdateJob(jobId, _ => true, (row: Job) =>
      row.(status := Processing, lockedAt := Some(claimedAt), lockedBy := Some(workerId),
           attemptCount := row.attemptCount + 1));
    if workerId !in prisma.workers {
      prisma.Rollback(saved);
      return Failure(UnknownWorker);
    }
    var job := prisma.jobs[jobId];
    var inserted := prisma.InsertAttempt(attemptId,
      Attempt(jobId, job.attemptCount, workerId, AttemptProcessing, claimedAt, None, None, None));
    if !inserted {
      prisma.Rollback(saved);
      return Failure(AttemptRejected);
    }
    prisma.InsertLog(jobId, JobProcessing(workerId, attemptId, job.attemptCount));
    return Success(Some(Claim(jobId, job, attemptId, prisma.attempts[attemptId])));
  }

  // All five finish transactions: the job row, then the attempt row, then the log, each
  // update counted, and everything undone when a count is not one.
  ghost predicate FinishResult(before: Db, after: Db, jobId: JobId, workerId: WorkerId, attemptId: AttemptId,
                               o: Outcome, r: Result<Job, FinishError>) {
    && after == TryFinish(before, jobId, workerId, attemptId, o)
    && (r.Success? <==> FinishAllowed(before, jobId, workerId, attemptId))
    && (r.Success? ==> jobId in after.jobs && r.value == after.jobs[jobId])
    && (r.Failure? ==> r.error == if OwnsJob(before, jobId, workerId) then NoActiveAttempt else NotOwner)
  }

  method FinishTransaction(prisma: Prisma, jobId: JobId, workerId: WorkerId, attemptId: AttemptId,
                           jobData: Job -> Job, attemptData: Attempt -> Attempt, entry: LogEntry)
    returns (r: Result<Job, FinishError>)
    modifies prisma
    ensures r.Success? <==> FinishAllowed(old(prisma.View()), jobId, workerId, attemptId)
    ensures r.Success? <==>
            && jobId in old(prisma.jobs) && attemptId in old(prisma.attempts)
            && old(prisma.jobs)[jobId].status == Processing && old(prisma.jobs)[jobId].lockedBy == Some(workerId)
            && old(prisma.attempts)[attemptId].status == AttemptProcessing
            && old(prisma.attempts)[attemptId].jobId == jobId && old(prisma.attempts)[attemptId].worker == workerId
    ensures r.Success? ==>
              && prisma.View() == old(prisma.View()).(
                   jobs := old(prisma.jobs)[jobId := jobData(old(prisma.jobs)[jobId])],
                   attempts := old(prisma.attempts)[attemptId := attemptData(old(prisma.attempts)[attemptId])],
                   logs := old(prisma.logs)[jobId := LogOf(old(prisma.View()), jobId) + [entry]])
              && r.value == prisma.jobs[jobId]
    ensures r.Failure? ==>
              && prisma.View() == old(prisma.View())
              && r.error == if OwnsJob(old(prisma.View()), jobId, workerId) then NoActiveAttempt else NotOwner
  {
    var saved := prisma.View();
    var jobCount := prisma.UpdateJob(jobId, (row: Job) =>
      row.status.Processing? && row.lockedBy == Some(workerId), jobData);
    if jobCount != 1 {
      prisma.Rollback(saved);
      return Failure(NotOwner);
    }
    var attemptCount := prisma.UpdateAttempt(attemptId, (row: Attempt) =>
      row.jobId == jobId && row.worker == workerId && row.status.AttemptProcessing?, attemptData);
    if attemptCount != 1 {
      prisma.Rollback(saved);
      return Failure(NoActiveAttempt);
    }
    prisma.InsertLog(jobId, entry);
    return Success(prisma.jobs[jobId]);
  }

  method CompleteClaimedJob(prisma: Prisma, jobId: JobId, workerId: WorkerId, attemptId: AttemptId,
                            completedAt: Time, durationMs: nat)
    returns (r: Result<Job, FinishError>)
    modifies prisma
    ensures FinishResult(old(prisma.View()), prisma.View(), jobId, workerId, attemptId,
                         Complete(completedAt, durationMs), r)
    ensures r.Success? ==>
              var x, y := old(prisma.jobs)[jobId], old(prisma.attempts)[attemptId];
              prisma.View() == Db(
                old(prisma.jobs)[jobId := x.(status := Completed, completedAt := Some(completedAt), lockedAt := None,
                                             lockedBy := None, lastError := None)],
                old(prisma.attempts)[attemptId := y.(status := AttemptCompleted, finishedAt := Some(completedAt),
                                                     durationMs := Some(durationMs), error := None)],
                old(prisma.logs)[jobId := old(LogOf(prisma.View(), jobId)) +
                                          [JobCompleted(workerId, attemptId, durationMs)]],
                old(prisma.workers))
  {
    r := FinishTransaction(prisma, jobId, workerId, attemptId,
      (row: Job) => row.(status := Completed, completedAt := Some(completedAt), lockedAt := None,
        lockedBy := None, lastError := None),
      (row: Attempt) => row.(status := AttemptCompleted, finishedAt := Some(completedAt),
        durationMs := Some(durationMs), error := None),
      JobCompleted(workerId, attemptId, durationMs));
  }

  method ReleaseJobForRetry(prisma: Prisma, jobId: JobId, workerId: WorkerId, attemptId: AttemptId,
                            errorMessage: string, retryAt: Time, failedAt: Time, durationMs: nat)
    returns (r: Result<Job, FinishError>)
    modifies prisma
    ensures FinishResult(old(prisma.View()), prisma.View(), jobId, workerId, attemptId,
                         Retry(failedAt, durationMs, errorMessage, false, retryAt), r)
    ensures r.Success? ==>
              var x, y := old(prisma.jobs)[jobId], old(prisma.attempts)[attemptId];
              prisma.View() == Db(
                old(prisma.jobs)[jobId := x.(status := Retrying, availableAt := retryAt, lockedAt := None,
                                             lockedBy := None, lastError := Some(errorMessage))],
                old(prisma.attempts)[attemptId := y.(status := AttemptFailed, finishedAt := Some(failedAt),
                                                     durationMs := Some(durationMs), error := Some(errorMessage))],
                old(prisma.logs)[jobId := old(LogOf(prisma.View(), jobId)) +
                                          [JobRetrying(workerId, attemptId, retryAt, errorMessage, false)]],
                old(prisma.workers))
  {
    r := FinishTransaction(prisma, jobId, workerId, attemptId,
      (row: Job) => row.(status := Retrying, availableAt := retryAt, lastError := Some(errorMessage),
        lockedAt := None, lockedBy := None),
      (row: Attempt) => row.(status := AttemptFailed, finishedAt := Some(failedAt),
        durationMs := Some(durationMs), error := Some(errorMessage)),
      JobRetrying(workerId, attemptId, retryAt, errorMessage, false));
  }

  method MoveJobToDeadLetter(prisma: Prisma, jobId: JobId, workerId: WorkerId, attemptId: AttemptId,
                             errorMessage: string, failedAt: Time, durationMs: nat)
    returns (r: Result<Job, FinishError>)
    modifies prisma
    ensures FinishResult(old(prisma.View()), prisma.View(), jobId, workerId, attemptId,
                         Bury(failedAt, durationMs, errorMessage, false), r)
    ensures r.Success? ==>
              var x, y := old(prisma.jobs)[jobId], old(prisma.attempts)[attemptId];
              prisma.View() == Db(
                old(prisma.jobs)[jobId := x.(status := DeadLetter, lastError := Some(errorMessage), lockedAt := None,
                                             lockedBy := None)],
                old(prisma.attempts)[attemptId := y.(status := AttemptFailed, finishedAt := Some(failedAt),
                                                     durationMs := Some(durationMs), error := Some(errorMessage))],
                old(prisma.logs)[jobId := old(LogOf(prisma.View(), jobId)) +
                                          [JobDeadLettered(workerId, attemptId, errorMessage, false)]],
                old(prisma.workers))
  {
    r := FinishTransaction(prisma, jobId, workerId, attemptId,
      (row: Job) => row.(status := DeadLetter, lastError := Some(errorMessage), lockedAt := None, lockedBy := None),
      (row: Attempt) => row.(status := AttemptFailed, finishedAt := Some(failedAt),
        durationMs := Some(durationMs), error := Some(errorMessage)),
      JobDeadLettered(workerId, attemptId, errorMessage, false));
  }
}
