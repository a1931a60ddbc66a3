// apps/worker/src/recovery/stale-worker.repository.js
module StaleWorkerRepository {
  import opened Wrappers
  import opened Records
  import opened Transactions
  import opened Decisions
  import opened Database
  import opened WorkerRepository
  import Query

  // The stale workers with the oldest heartbeats, at most limit of them, oldest first.
  ghost predicate IsStaleBatch(db: Db, staleBefore: Time, limit: nat, batch: seq<WorkerId>) {
    && |batch| == (if |StaleWorkers(db, staleBefore)| <= limit then |StaleWorkers(db, staleBefore)| else limit)
    && (forall i :: 0 <= i < |batch| ==> batch[i] in StaleWorkers(db, staleBefore))
    && (forall i, k :: 0 <= i < k < |batch| ==>
          batch[i] != batch[k] && db.workers[batch[i]].lastHeartbeatAt <= db.workers[batch[k]].lastHeartbeatAt)
    && (forall i, v :: 0 <= i < |batch| && v in StaleWorkers(db, staleBefore) && v !in batch ==>
          db.workers[batch[i]].lastHeartbeatAt <= db.workers[v].lastHeartbeatAt)
  }

  method FindStaleWorkers(prisma: Prisma, staleBefore: Time, limit: nat) returns (batch: seq<WorkerId>)
    ensures IsStaleBatch(prisma.View(), staleBefore, limit, batch)
    ensures forall i :: 0 <= i < |batch| ==>
              && batch[i] in prisma.workers && prisma.workers[batch[i]].status in {Starting, Online, Busy}
              && prisma.workers[batch[i]].lastHeartbeatAt <= staleBefore
    ensures |batch| < limit ==>
              forall v | v in prisma.workers && prisma.workers[v].status in {Starting, Online, Busy} &&
                         prisma.workers[v].lastHeartbeatAt <= staleBefore :: v in batch
  {
    var db := prisma.View();
    var ids := StaleWorkers(db, staleBefore);
    var rows := Query.OrderBy(ids, (x, y) =>
      x in db.workers && y in db.workers && db.workers[x].lastHeartbeatAt <= db.workers[y].lastHeartbeatAt);
    batch := if |rows| <= limit then rows else rows[..limit];
    assert forall i :: 0 <= i < |rows| ==> rows[i] in rows && rows[i] in ids;
    forall i, v | 0 <= i < |batch| && v in ids && v !in batch
      ensures db.workers[batch[i]].lastHeartbeatAt <= db.workers[v].lastHeartbeatAt
    {
      var k :| 0 <= k < |rows| && rows[k] == v;
      assert i < k;
    }
  }

  method MarkWorkerUnhealthy(prisma: Prisma, workerId: WorkerId, staleBefore: Time) returns (count: nat)
    modifies prisma
    ensures count == if WriteAllowed(old(prisma.View()), workerId, MarkUnhealthy(staleBefore)) then 1 else 0
    ensures prisma.View() == TryWrite(old(prisma.View()), workerId, MarkUnhealthy(staleBefore))
    ensures count == 1 <==>
            workerId in old(prisma.workers) && old(prisma.workers)[workerId].status in {Starting, Online, Busy} &&
            old(prisma.workers)[workerId].lastHeartbeatAt <= staleBefore
    ensures prisma.workers == if count == 1
                              then old(prisma.workers)[workerId :=
                                     old(prisma.workers)[workerId].(status := Unhealthy)]
                              else old(prisma.workers)
  {
    count := prisma.UpdateWorker(workerId,
      (row: Worker) => row.status in {Starting, Online, Busy} && row.lastHeartbeatAt <= staleBefore,
      (row: Worker) => row.(status := Unhealthy));
  }

  // The included attempt: the worker's most recently started open attempt of the job.
  method LatestOpenAttempt(prisma: Prisma, jobId: JobId, workerId: WorkerId) returns (a: Option<(AttemptId, Attempt)>)
    requires jobId in prisma.jobs
    ensures LockedRow(prisma.View(), workerId, LockedJob(jobId, prisma.jobs[jobId], a))
  {
    var db := prisma.View();
    var open := set x | x in db.attempts && OwnsAttempt(db, jobId, workerId, x);
    if open == {} {
      assert forall x :: x in db.attempts ==> x !in open;
      return None;
    }
    var rows := Query.OrderBy(open, (x, y) =>
      x in db.attempts && y in db.attempts && db.attempts[x].startedAt >= db.attempts[y].startedAt);
    assert rows[0] in rows && rows[0] in open;
    forall x | x in open ensures db.attempts[x].startedAt <= db.attempts[rows[0]].startedAt {
      var i :| 0 <= i < |rows| && rows[i] == x;
    }
    return Some((rows[0], db.attempts[rows[0]]));
  }

  lemma LockedReadMeans(db: Db, workerId: WorkerId, queue: seq<LockedJob>)
    requires IsLockedRead(db, workerId, queue)
    ensures forall i, k :: 0 <= i < k < |queue| && queue[i].job.lockedAt.Some? && queue[k].job.lockedAt.Some? ==>
              queue[i].job.lockedAt.value <= queue[k].job.lockedAt.value
    ensures forall j :: (exists i :: 0 <= i < |queue| && queue[i].jobId == j) <==>
              j in db.jobs && db.jobs[j].status == Processing && db.jobs[j].lockedBy == Some(workerId)
    ensures forall i | 0 <= i < |queue| && queue[i].attempt.Some? ::
              && queue[i].attempt.value.0 in db.attempts
              && queue[i].attempt.value.1 == db.attempts[queue[i].attempt.value.0]
              && queue[i].attempt.value.1.jobId == queue[i].jobId && queue[i].attempt.value.1.worker == workerId
              && queue[i].attempt.value.1.status == AttemptProcessing
    ensures forall i, a | 0 <= i < |queue| && a in db.attempts && db.attempts[a].jobId == queue[i].jobId &&
                          db.attempts[a].worker == workerId && db.attempts[a].status == AttemptProcessing ::
              queue[i].attempt.Some? && db.attempts[a].startedAt <= queue[i].attempt.value.1.startedAt
  {
    forall i | 0 <= i < |queue| ensures LockedRow(db, workerId, queue[i]) {
    }
    assert forall j :: j in LockedJobs(db, workerId) <==> j in db.jobs && OwnsJob(db, j, workerId);
    forall i, a | 0 <= i < |queue| && a in db.attempts && db.attempts[a].jobId == queue[i].jobId &&
                  db.attempts[a].worker == workerId && db.attempts[a].status == AttemptProcessing
      ensures queue[i].attempt.Some? && db.attempts[a].startedAt <= queue[i].attempt.value.1.startedAt
    {
      assert OwnsAttempt(db, queue[i].jobId, workerId, a);
    }
  }

  method FindProcessingJobsLockedByWorker(prisma: Prisma, workerId: WorkerId) returns (queue: seq<LockedJob>)
    ensures IsLockedRead(prisma.View(), workerId, queue)
    ensures forall i, k :: 0 <= i < k < |queue| && queue[i].job.lockedAt.Some? && queue[k].job.lockedAt.Some? ==>
              queue[i].job.lockedAt.value <= queue[k].job.lockedAt.value
    ensures forall j :: (exists i :: 0 <= i < |queue| && queue[i].jobId == j) <==>
              j in prisma.jobs && prisma.jobs[j].status == Processing && prisma.jobs[j].lockedBy == Some(workerId)
    ensures forall i | 0 <= i < |queue| && queue[i].attempt.Some? ::
              && queue[i].attempt.value.0 in prisma.attempts
              && queue[i].attempt.value.1 == prisma.attempts[queue[i].attempt.value.0]
              && queue[i].attempt.value.1.jobId == queue[i].jobId && queue[i].attempt.value.1.worker == workerId
              && queue[i].attempt.value.1.status == AttemptProcessing
    ensures forall i, a | 0 <= i < |queue| && a in prisma.attempts && prisma.attempts[a].jobId == queue[i].jobId &&
                          prisma.attempts[a].worker == workerId && prisma.attempts[a].status == AttemptProcessing ::
              queue[i].attempt.Some? && prisma.attempts[a].startedAt <= queue[i].attempt.value.1.startedAt
  {
    var db := prisma.View();
    var ids := LockedJobs(db, workerId);
    var rows := Query.OrderBy(ids, (x, y) => x in db.jobs && y in db.jobs && LockedBefore(db.jobs[x], db.jobs[y]));
    queue := [];
    for n := 0 to |rows|
      invariant |queue| == n
      invariant forall i :: 0 <= i < n ==> queue[i].jobId == rows[i] && LockedRow(db, workerId, queue[i])
    {
      assert rows[n] in ids;
      var attempt := LatestOpenAttempt(prisma, rows[n], workerId);
      queue := queue + [LockedJob(rows[n], db.jobs[rows[n]], attempt)];
    }
    forall j ensures j in ids <==> exists i :: 0 <= i < |queue| && queue[i].jobId == j {
      if j in ids {
        var i :| 0 <= i < |rows| && rows[i] == j;
        assert queue[i].jobId == j;
      }
    }
    LockedReadMeans(db, workerId, queue);
  }

  method RecoverJobForRetry(prisma: Prisma, jobId: JobId, workerId: WorkerId, attemptId: AttemptId,
                            retryAt: Time, recoveredAt: Time, durationMs: nat, errorMessage: string)
    returns (r: Result<Job, FinishError>)
    modifies prisma
    ensures FinishResult(old(prisma.View()), prisma.View(), jobId, workerId, attemptId,
                         Retry(recoveredAt, durationMs, errorMessage, true, retryAt), r)
    ensures r.Success? ==>
              var x, y := old(prisma.jobs)[jobId], old(prisma.attempts)[attemptId];
              prisma.View() == Db(
                old(prisma.jobs)[jobId := x.(status := Retrying, availableAt := retryAt, lockedAt := None,
                                             lockedBy := None, lastError := Some(errorMessage))],
                old(prisma.attempts)[attemptId := y.(status := AttemptTimedOut, finishedAt := Some(recoveredAt),
                                                     durationMs := Some(durationMs), error := Some(errorMessage))],
                old(prisma.logs)[jobId := old(LogOf(prisma.View(), jobId)) +
                                          [JobRetrying(workerId, attemptId, retryAt, errorMessage, true)]],
                old(prisma.workers))
  {
    r := FinishTransaction(prisma, jobId, workerId, attemptId,
      (row: Job) => row.(status := Retrying, availableAt := retryAt, lastError := Some(errorMessage),
        lockedAt := None, lockedBy := None),
      (row: Attempt) => row.(status := AttemptTimedOut, finishedAt := Some(recoveredAt),
        durationMs := Some(durationMs), error := Some(errorMessage)),
      JobRetrying(workerId, attemptId, retryAt, errorMessage, true));
  }

  method RecoverJobToDeadLetter(prisma: Prisma, jobId: JobId, workerId: WorkerId, attemptId: AttemptId,
                                recoveredAt: Time, durationMs: nat, errorMessage: string)
    returns (r: Result<Job, FinishError>)
    modifies prisma
    ensures FinishResult(old(prisma.View()), prisma.View(), jobId, workerId, attemptId,
                         Bury(recoveredAt, durationMs, errorMessage, true), r)
    ensures r.Success? ==>
              var x, y := old(prisma.jobs)[jobId], old(prisma.attempts)[attemptId];
              prisma.View() == Db(
                old(prisma.jobs)[jobId := x.(status := DeadLetter, lastError := Some(errorMessage), lockedAt := None,
                                             lockedBy := None)],
                old(prisma.attempts)[attemptId := y.(status := AttemptTimedOut, finishedAt := Some(recoveredAt),
                                                     durationMs := Some(durationMs), error := Some(errorMessage))],
                old(prisma.logs)[jobId := old(LogOf(prisma.View(), jobId)) +
                                          [JobDeadLettered(workerId, attemptId, errorMessage, true)]],
                old(prisma.workers))
  {
    r := FinishTransaction(prisma, jobId, workerId, attemptId,
      (row: Job) => row.(status := DeadLetter, lastError := Some(errorMessage), lockedAt := None, lockedBy := None),
      (row: Attempt) => row.(status := AttemptTimedOut, finishedAt := Some(recoveredAt),
        durationMs := Some(durationMs), error := Some(errorMessage)),
      JobDeadLettered(workerId, attemptId, errorMessage, true));
  }

  method MarkRecoveredWorkerOffline(prisma: Prisma, workerId: WorkerId, recoveredAt: Time) returns (count: nat)
    modifies prisma
    ensures count == if WriteAllowed(old(prisma.View()), workerId, MarkRecovered(recoveredAt)) then 1 else 0
    ensures prisma.View() == TryWrite(old(prisma.View()), workerId, MarkRecovered(recoveredAt))
    ensures count == 1 <==> workerId in old(prisma.workers) && old(prisma.workers)[workerId].status == Unhealthy
    ensures prisma.workers == if count == 1
                              then old(prisma.workers)[workerId := old(prisma.workers)[workerId].(
                                     status := Offline, stoppedAt := Some(recoveredAt))]
                              else old(prisma.workers)
  {
    count := prisma.UpdateWorker(workerId,
      (row: Worker) => row.status.Unhealthy?,
      (row: Worker) => row.(status := Offline, stoppedAt := Some(recoveredAt)));
  }
}
