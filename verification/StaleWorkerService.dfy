// apps/worker/src/recovery/stale-worker.service.js: recovery of one stale worker and of a batch.
module StaleWorkerService {
  import opened Wrappers
  import opened Records
  import opened Backoff
  import opened Transactions
  import opened Decisions
  import opened Invariants
  import opened Protocol
  import opened Safety
  import opened Database
  import opened StaleWorkerRepository

  datatype RecoveryKind = Retried | DeadLettered

  datatype RecoveryError = MissingAttempt | InvalidCounts | NotRecovered | ConnectionLost | NotOffline

  datatype WorkerSummary = WorkerSummary(workerRecovered: nat, jobsRecovered: nat, jobsRetried: nat,
                                         jobsDeadLettered: nat, skipped: bool)

  // ---- what recovery does to a job ----

  ghost predicate JobUntouched(before: Db, after: Db, j: JobId) {
    && j in before.jobs && j in after.jobs && after.jobs[j] == before.jobs[j]
    && LogOf(after, j) == LogOf(before, j)
    && forall a :: a in before.attempts && before.attempts[a].jobId == j ==>
         a in after.attempts && after.attempts[a] == before.attempts[a]
  }

  // Job, open attempt and log are those of one recovery transaction applied to before.
  ghost predicate JobRecoveredBy(config: ValidRetryConfig, before: Db, after: Db, w: WorkerId, j: JobId,
                                 at: Time, a: AttemptId) {
    && OwnsJob(before, j, w) && OwnsAttempt(before, j, w, a) && before.jobs[j].attemptCount >= 1
    && var o := RecoveryOutcome(config, before.jobs[j], before.attempts[a], at);
    && j in after.jobs && after.jobs[j] == FinishedJob(before.jobs[j], o)
    && a in after.attempts && after.attempts[a] == FinishedAttempt(before.attempts[a], o)
    && LogOf(after, j) == LogOf(before, j) + [FinishEntry(w, a, o)]
    && forall b :: b in before.attempts && before.attempts[b].jobId == j && b != a ==>
         b in after.attempts && after.attempts[b] == before.attempts[b]
  }

  ghost predicate JobRecovered(config: ValidRetryConfig, before: Db, after: Db, w: WorkerId, j: JobId, at: Time) {
    exists a :: JobRecoveredBy(config, before, after, w, j, at, a)
  }

  lemma UntouchedThen(config: ValidRetryConfig, before: Db, cur: Db, after: Db, w: WorkerId, j: JobId, at: Time)
    requires JobUntouched(cur, after, j)
    ensures JobUntouched(before, cur, j) ==> JobUntouched(before, after, j)
    ensures JobRecovered(config, before, cur, w, j, at) ==> JobRecovered(config, before, after, w, j, at)
  {
    if JobRecovered(config, before, cur, w, j, at) {
      var a :| JobRecoveredBy(config, before, cur, w, j, at, a);
      assert cur.attempts[a].jobId == j;
      forall b | b in before.attempts && before.attempts[b].jobId == j && b != a
        ensures b in after.attempts && after.attempts[b] == before.attempts[b]
      {
        assert cur.attempts[b].jobId == j;
      }
      assert JobRecoveredBy(config, before, after, w, j, at, a);
    }
  }

  // One recovery transaction on a job nothing has touched since it was read.
  lemma RecoverOne(policy: Policy, before: Db, cur: Db, w: WorkerId, row: LockedJob, at: Time) returns (after: Db)
    requires DbInv(policy.retry, cur) && JobUntouched(before, cur, row.jobId)
    requires LockedRow(before, w, row) && OwnsJob(before, row.jobId, w)
    requires row.attempt.Some? && CountsValid(row.job)
    ensures var o := RecoveryOutcome(policy.retry, row.job, row.attempt.value.1, at);
            && FinishAllowed(cur, row.jobId, w, row.attempt.value.0)
            && after == TryFinish(cur, row.jobId, w, row.attempt.value.0, o)
    ensures DbInv(policy.retry, after)
    ensures JobRecovered(policy.retry, before, after, w, row.jobId, at)
    ensures forall k :: k in cur.jobs && k != row.jobId ==> JobUntouched(cur, after, k)
    ensures after.jobs.Keys == cur.jobs.Keys && after.workers == cur.workers
    ensures !OwnsJob(after, row.jobId, w)
  {
    hide DbInv, LockedRow;
    var (a, attempt) := row.attempt.value;
    LockedRowCurrent(before, cur, w, row);
    var o := RecoveryOutcome(policy.retry, row.job, attempt, at);
    after := TryFinish(cur, row.jobId, w, a, o);
    FinishKeeps(policy.retry, cur, row.jobId, w, a, o);
    assert JobRecoveredBy(policy.retry, before, after, w, row.jobId, at, a);
  }

  lemma LockedRowCurrent(before: Db, cur: Db, w: WorkerId, row: LockedJob)
    requires LockedRow(before, w, row) && OwnsJob(before, row.jobId, w) && row.attempt.Some?
    requires JobUntouched(before, cur, row.jobId)
    ensures row.job == before.jobs[row.jobId] && OwnsAttempt(before, row.jobId, w, row.attempt.value.0)
    ensures row.attempt.value.1 == before.attempts[row.attempt.value.0]
    ensures FinishAllowed(cur, row.jobId, w, row.attempt.value.0)
    ensures cur.attempts[row.attempt.value.0] == before.attempts[row.attempt.value.0]
  {
  }

  // ---- one job ----

  method RecoverLockedJob(prisma: Prisma, policy: Policy, row: LockedJob, workerId: WorkerId, recoveredAt: Time,
                          link: Link)
    returns (r: Result<RecoveryKind, RecoveryError>)
    modifies prisma
    ensures row.attempt.None? ==> r == Failure(MissingAttempt)
    ensures row.attempt.Some? && !CountsValid(row.job) ==> r == Failure(InvalidCounts)
    ensures r == Failure(InvalidCounts) <==>
            row.attempt.Some? && (row.job.attemptCount < 1 || row.job.maxAttempts < 1)
    ensures row.attempt.None? || !CountsValid(row.job) || link.LostBefore? ==> prisma.View() == old(prisma.View())
    ensures row.attempt.Some? && CountsValid(row.job) && !link.LostBefore? ==>
              prisma.View() == TryFinish(old(prisma.View()), row.jobId, workerId, row.attempt.value.0,
                                         RecoveryOutcome(policy.retry, row.job, row.attempt.value.1, recoveredAt))
    ensures r.Success? <==> row.attempt.Some? && CountsValid(row.job) && link.Delivered? &&
                            FinishAllowed(old(prisma.View()), row.jobId, workerId, row.attempt.value.0)
    ensures r.Success? ==> r.value == if row.job.attemptCount < row.job.maxAttempts then Retried else DeadLettered
    ensures r.Success? ==>
              && row.jobId in prisma.jobs
              && prisma.jobs[row.jobId].status == (if r.value.Retried? then Retrying else DeadLetter)
    ensures row.attempt.Some? && CountsValid(row.job) && r.Failure? ==>
              var allowed := FinishAllowed(old(prisma.View()), row.jobId, workerId, row.attempt.value.0);
              r.error == if link.LostBefore? || allowed then ConnectionLost else NotRecovered
  {
    if row.attempt.None? {
      return Failure(MissingAttempt);
    }
    if row.job.attemptCount < 1 || row.job.maxAttempts < 1 {
      return Failure(InvalidCounts);
    }
    if link.LostBefore? {
      return Failure(ConnectionLost);
    }
    var (attemptId, attempt) := row.attempt.value;
    var durationMs := ElapsedMs(attempt.startedAt, recoveredAt);
    var attemptsRemain := row.job.attemptCount < row.job.maxAttempts;
    var done;
    if !attemptsRemain {
      done := RecoverJobToDeadLetter(prisma, row.jobId, workerId, attemptId, recoveredAt, durationMs,
          STALE_WORKER_ERROR);
    } else {
      var retryDelayMs := CalculateRetryDelayMs(row.job.attemptCount, policy.retry.baseDelayMs,
          policy.retry.maxDelayMs);
      done := RecoverJobForRetry(prisma, row.jobId, workerId, attemptId, recoveredAt + retryDelayMs.value,
                                 recoveredAt, durationMs, STALE_WORKER_ERROR);
    }
    if done.Failure? {
      return Failure(NotRecovered);
    }
    if link.LostAfter? {
      return Failure(ConnectionLost);
    }
    return Success(if attemptsRemain then Retried else DeadLettered);
  }

  // ---- one worker ----

  // Only jobs w locks may have been recovered, each at most once, and only w's row changed.
  ghost predicate PartlyRecovered(config: ValidRetryConfig, before: Db, after: Db, w: WorkerId, at: Time) {
    && after.jobs.Keys == before.jobs.Keys && after.workers.Keys == before.workers.Keys
    && (forall j :: j in before.jobs && !OwnsJob(before, j, w) ==> JobUntouched(before, after, j))
    && (forall j :: j in before.jobs && OwnsJob(before, j, w) ==>
          JobUntouched(before, after, j) || (JobRecovered(config, before, after, w, j, at) && !OwnsJob(after, j, w)))
    && (forall v :: v in before.workers && v != w ==> after.workers[v] == before.workers[v])
  }

  ghost predicate AllRecovered(config: ValidRetryConfig, before: Db, after: Db, w: WorkerId, at: Time) {
    forall j :: j in before.jobs && OwnsJob(before, j, w) ==>
      JobRecovered(config, before, after, w, j, at) && !OwnsJob(after, j, w)
  }

  function LinkAt(links: seq<Link>, n: nat): Link {
    if n < |links| then links[n] else Delivered
  }

  predicate AllDelivered(links: seq<Link>) {
    forall i :: 0 <= i < |links| ==> links[i].Delivered?
  }

  // The mark call reached the database and its guard held.
  predicate Marked(policy: Policy, db: Db, w: WorkerId, at: Time, links: seq<Link>) {
    !LinkAt(links, 0).LostBefore? && WriteAllowed(db, w, MarkUnhealthy(at - policy.staleAfterMs))
  }

  // What recoverWorker leaves behind and reports, when no other process acts meanwhile.
  ghost predicate RecoverWorkerEffect(policy: Policy, before: Db, after: Db, w: WorkerId, at: Time, links: seq<Link>,
                                      r: Result<WorkerSummary, RecoveryError>) {
    && DbInv(policy.retry, after)
    && PartlyRecovered(policy.retry, before, after, w, at)
    && (!Marked(policy, before, w, at, links) ==> after == before)
    && (Marked(policy, before, w, at, links) ==>
          after.workers[w] == before.workers[w].(status := Unhealthy) ||
          after.workers[w] == before.workers[w].(status := Offline, stoppedAt := Some(at)))
    && (r.Success? && r.value.skipped ==>
          && r.value == WorkerSummary(0, 0, 0, 0, true) && after == before
          && !WriteAllowed(before, w, MarkUnhealthy(at - policy.staleAfterMs)))
    && (r.Success? && !r.value.skipped ==>
          && Marked(policy, before, w, at, links)
          && AllRecovered(policy.retry, before, after, w, at)
          && after.workers[w] == before.workers[w].(status := Offline, stoppedAt := Some(at))
          && r.value.workerRecovered == 1
          && r.value.jobsRecovered == r.value.jobsRetried + r.value.jobsDeadLettered == |LockedJobs(before, w)|
          && r.value.jobsRetried == |RetriableJobs(before, w)|)
    && (AllDelivered(links) ==> r.Success?)
    && (r.Failure? ==> r.error.ConnectionLost?)
  }

  function RetriableJobs(db: Db, w: WorkerId): set<JobId> {
    set j | j in LockedJobs(db, w) && db.jobs[j].attemptCount < db.jobs[j].maxAttempts
  }

  // ---- the recovery loop ----

  ghost predicate Progress(policy: Policy, before: Db, cur: Db, w: WorkerId, queue: seq<LockedJob>, n: nat, at: Time) {
    && n <= |queue|
    && DbInv(policy.retry, cur)
    && cur.jobs.Keys == before.jobs.Keys && cur.workers == before.workers
    && (forall i :: 0 <= i < n ==>
          JobRecovered(policy.retry, before, cur, w, queue[i].jobId, at) && !OwnsJob(cur, queue[i].jobId, w))
    && (forall j :: j in before.jobs && (forall i :: 0 <= i < n ==> queue[i].jobId != j) ==>
        JobUntouched(before, cur, j))
  }

  // The next job of the queue is still recoverable, and recovering it disturbs no other.
  lemma ProgressStep(policy: Policy, before: Db, cur: Db, w: WorkerId, queue: seq<LockedJob>, n: nat, at: Time)
    returns (after: Db)
    requires RowsFit(before) && IsLockedRead(before, w, queue)
    requires Progress(policy, before, cur, w, queue, n, at) && n < |queue|
    ensures queue[n].attempt.Some? && CountsValid(queue[n].job)
    ensures FinishAllowed(cur, queue[n].jobId, w, queue[n].attempt.value.0)
    ensures after == TryFinish(cur, queue[n].jobId, w, queue[n].attempt.value.0,
                               RecoveryOutcome(policy.retry, queue[n].job, queue[n].attempt.value.1, at))
    ensures Progress(policy, before, after, w, queue, n + 1, at)
  {
    hide DbInv, RowsFit, RowFits, JobUntouched, JobRecovered, TryFinish, FinishAllowed, Progress, RecoveryOutcome;
    LockedReadFits(before, w, queue);
    NextUntouched(policy, before, cur, w, queue, n, at);
    RowHasAttempt(before, queue[n]);
    after := RecoverOne(policy, before, cur, w, queue[n], at);
    hide IsLockedRead;
    QueueDistinct(before, w, queue);
    ProgressGrows(policy, before, cur, after, w, queue, n, at);
  }

  lemma NextUntouched(policy: Policy, before: Db, cur: Db, w: WorkerId, queue: seq<LockedJob>, n: nat, at: Time)
    requires IsLockedRead(before, w, queue) && Progress(policy, before, cur, w, queue, n, at) && n < |queue|
    ensures JobUntouched(before, cur, queue[n].jobId) && LockedRow(before, w, queue[n])
    ensures OwnsJob(before, queue[n].jobId, w) && DbInv(policy.retry, cur)
  {
    hide DbInv, JobUntouched, JobRecovered;
    assert LockedRow(before, w, queue[n]);
    assert queue[n].jobId in LockedJobs(before, w);
  }

  lemma QueueDistinct(before: Db, w: WorkerId, queue: seq<LockedJob>)
    requires IsLockedRead(before, w, queue)
    ensures DistinctJobs(before, queue)
  {
    forall i | 0 <= i < |queue| ensures queue[i].jobId in before.jobs {
      assert LockedRow(before, w, queue[i]);
    }
  }

  // after is cur with job j recovered and nothing else of any job changed.
  ghost predicate OneRecovered(policy: Policy, before: Db, cur: Db, after: Db, w: WorkerId, j: JobId, at: Time) {
    && DbInv(policy.retry, after) && after.jobs.Keys == cur.jobs.Keys && after.workers == cur.workers
    && JobRecovered(policy.retry, before, after, w, j, at) && !OwnsJob(after, j, w)
    && forall k :: k in cur.jobs && k != j ==> JobUntouched(cur, after, k)
  }

  ghost predicate DistinctJobs(db: Db, queue: seq<LockedJob>) {
    && (forall i, k :: 0 <= i < k < |queue| ==> queue[i].jobId != queue[k].jobId)
    && (forall i :: 0 <= i < |queue| ==> queue[i].jobId in db.jobs)
  }

  lemma ProgressGrows(policy: Policy, before: Db, cur: Db, after: Db, w: WorkerId, queue: seq<LockedJob>,
                      n: nat, at: Time)
    requires n < |queue| && DistinctJobs(before, queue) && Progress(policy, before, cur, w, queue, n, at)
    requires OneRecovered(policy, before, cur, after, w, queue[n].jobId, at)
    ensures Progress(policy, before, after, w, queue, n + 1, at)
  {
    hide DbInv, JobUntouched, JobRecovered, OwnsJob;
    forall i | 0 <= i < n
      ensures JobRecovered(policy.retry, before, after, w, queue[i].jobId, at) && !OwnsJob(after, queue[i].jobId, w)
    {
      assert queue[i].jobId in cur.jobs.Keys;
      UntouchedThen(policy.retry, before, cur, after, w, queue[i].jobId, at);
      UntouchedOwner(cur, after, w, queue[i].jobId);
    }
    forall j | j in before.jobs && (forall i :: 0 <= i < n + 1 ==> queue[i].jobId != j)
      ensures JobUntouched(before, after, j)
    {
      assert queue[n].jobId != j && j in cur.jobs.Keys;
      UntouchedThen(policy.retry, before, cur, after, w, j, at);
    }
  }

  lemma RowHasAttempt(db: Db, row: LockedJob)
    requires RowFits(db, row)
    ensures row.attempt.Some?
  {
  }

  lemma UntouchedOwner(cur: Db, after: Db, w: WorkerId, j: JobId)
    requires JobUntouched(cur, after, j)
    ensures OwnsJob(after, j, w) <==> OwnsJob(cur, j, w)
  {
  }

  lemma ProgressIsPartial(policy: Policy, before: Db, cur: Db, w: WorkerId, queue: seq<LockedJob>, n: nat, at: Time)
    requires IsLockedRead(before, w, queue) && Progress(policy, before, cur, w, queue, n, at)
    ensures PartlyRecovered(policy.retry, before, cur, w, at)
    ensures n == |queue| ==> AllRecovered(policy.retry, before, cur, w, at)
  {
    hide DbInv, LockedRow, JobUntouched, JobRecovered;
    forall i | 0 <= i < |queue| ensures OwnsJob(before, queue[i].jobId, w) {
      assert queue[i].jobId in LockedJobs(before, w);
    }
    forall j | j in before.jobs && OwnsJob(before, j, w) ensures exists i :: 0 <= i < |queue| && queue[i].jobId == j {
      assert j in LockedJobs(before, w);
    }
  }

  method RecoverLockedJobs(prisma: Prisma, policy: Policy, queue: seq<LockedJob>, workerId: WorkerId,
                           recoveredAt: Time, links: seq<Link>)
    returns (r: Result<(nat, nat), RecoveryError>)
    requires DbInv(policy.retry, prisma.View()) && IsLockedRead(prisma.View(), workerId, queue)
    modifies prisma
    ensures DbInv(policy.retry, prisma.View()) && prisma.workers == old(prisma.workers)
    ensures PartlyRecovered(policy.retry, old(prisma.View()), prisma.View(), workerId, recoveredAt)
    ensures r.Success? ==> AllRecovered(policy.retry, old(prisma.View()), prisma.View(), workerId, recoveredAt)
    ensures r.Success? ==> r.value.0 + r.value.1 == |LockedJobs(old(prisma.View()), workerId)| &&
                           r.value.0 == |RetriableJobs(old(prisma.View()), workerId)|
    ensures AllDelivered(links) ==> r.Success?
    ensures r.Failure? ==> r.error.ConnectionLost?
  {
    hide DbInv, IsLockedRead, Progress, TryFinish, PartlyRecovered, AllRecovered, FinishAllowed, JobUntouched;
    ghost var before := prisma.View();
    StartProgress(policy, before, workerId, queue, recoveredAt);
    var jobsRetried, jobsDeadLettered := 0, 0;
    ghost var retried: set<JobId> := {};
    for n := 0 to |queue|
      invariant Progress(policy, before, prisma.View(), workerId, queue, n, recoveredAt)
      invariant jobsRetried + jobsDeadLettered == n && jobsRetried == |retried|
      invariant retried == RetriableAmong(queue, n)
    {
      ProgressIsPartial(policy, before, prisma.View(), workerId, queue, n, recoveredAt);
      ghost var after := ProgressStep(policy, before, prisma.View(), workerId, queue, n, recoveredAt);
      ProgressIsPartial(policy, before, after, workerId, queue, n + 1, recoveredAt);
      ProgressKeeps(policy, before, prisma.View(), workerId, queue, n, recoveredAt);
      ProgressKeeps(policy, before, after, workerId, queue, n + 1, recoveredAt);
      RetriableGrows(before, workerId, queue, n);
      var outcome := RecoverLockedJob(prisma, policy, queue[n], workerId, recoveredAt, LinkAt(links, n + 3));
      if outcome.Failure? {
        return Failure(outcome.error);
      }
      assert prisma.View() == after;
      if outcome.value.Retried? {
        jobsRetried := jobsRetried + 1;
        retried := retried + {queue[n].jobId};
      } else {
        jobsDeadLettered := jobsDeadLettered + 1;
      }
    }
    ProgressIsPartial(policy, before, prisma.View(), workerId, queue, |queue|, recoveredAt);
    ProgressKeeps(policy, before, prisma.View(), workerId, queue, |queue|, recoveredAt);
    RetriableTotal(before, workerId, queue);
    return Success((jobsRetried, jobsDeadLettered));
  }

  lemma ProgressKeeps(policy: Policy, before: Db, cur: Db, w: WorkerId, queue: seq<LockedJob>, n: nat, at: Time)
    requires Progress(policy, before, cur, w, queue, n, at)
    ensures DbInv(policy.retry, cur) && cur.workers == before.workers
  {
    hide DbInv;
  }

  lemma StartProgress(policy: Policy, before: Db, w: WorkerId, queue: seq<LockedJob>, at: Time)
    requires DbInv(policy.retry, before)
    ensures Progress(policy, before, before, w, queue, 0, at)
    ensures RowsFit(before)
  {
    hide RowsFit, KeysUnique, Spaced, RetryWaits, LogsReplay;
  }

  // The jobs among the first n that still have attempts left.
  ghost function RetriableAmong(queue: seq<LockedJob>, n: nat): set<JobId>
    requires n <= |queue|
  {
    set i | 0 <= i < n && queue[i].job.attemptCount < queue[i].job.maxAttempts :: queue[i].jobId
  }

  lemma RetriableGrows(db: Db, w: WorkerId, queue: seq<LockedJob>, n: nat)
    requires IsLockedRead(db, w, queue) && n < |queue|
    ensures queue[n].jobId !in RetriableAmong(queue, n)
    ensures RetriableAmong(queue, n + 1) ==
            if queue[n].job.attemptCount < queue[n].job.maxAttempts
            then RetriableAmong(queue, n) + {queue[n].jobId} else RetriableAmong(queue, n)
  {
  }

  lemma RetriableTotal(db: Db, w: WorkerId, queue: seq<LockedJob>)
    requires IsLockedRead(db, w, queue)
    ensures |queue| == |LockedJobs(db, w)| && RetriableAmong(queue, |queue|) == RetriableJobs(db, w)
  {
    hide OwnsAttempt;
    forall j ensures j in RetriableAmong(queue, |queue|) <==> j in RetriableJobs(db, w) {
      if j in RetriableJobs(db, w) {
        var i :| 0 <= i < |queue| && queue[i].jobId == j;
        assert LockedRow(db, w, queue[i]);
      }
      if j in RetriableAmong(queue, |queue|) {
        var i :| 0 <= i < |queue| && queue[i].jobId == j && queue[i].job.attemptCount < queue[i].job.maxAttempts;
        assert LockedRow(db, w, queue[i]) && j in LockedJobs(db, w);
      }
    }
  }

  // ---- the whole call ----

  // Only worker rows differ between two snapshots, so both describe the same jobs.
  lemma SameJobs(config: ValidRetryConfig, before: Db, marked: Db, after: Db, w: WorkerId, at: Time)
    requires marked == before.(workers := marked.workers) && marked.workers.Keys == before.workers.Keys
    requires forall v :: v in before.workers && v != w ==> marked.workers[v] == before.workers[v]
    requires PartlyRecovered(config, marked, after, w, at)
    ensures PartlyRecovered(config, before, after, w, at)
    ensures AllRecovered(config, marked, after, w, at) ==> AllRecovered(config, before, after, w, at)
    ensures LockedJobs(marked, w) == LockedJobs(before, w) && RetriableJobs(marked, w) == RetriableJobs(before, w)
  {
    forall j ensures JobUntouched(before, after, j) <==> JobUntouched(marked, after, j) {
      assert LogOf(before, j) == LogOf(marked, j);
    }
    forall j | JobRecovered(config, marked, after, w, j, at) ensures JobRecovered(config, before, after, w, j, at) {
      var a :| JobRecoveredBy(config, marked, after, w, j, at, a);
      assert LogOf(before, j) == LogOf(marked, j);
      assert JobRecoveredBy(config, before, after, w, j, at, a);
    }
  }

  lemma NothingRecovered(config: ValidRetryConfig, before: Db, after: Db, w: WorkerId, at: Time)
    requires after == before.(workers := after.workers) && after.workers.Keys == before.workers.Keys
    requires forall v :: v in before.workers && v != w ==> after.workers[v] == before.workers[v]
    ensures PartlyRecovered(config, before, after, w, at)
  {
    forall j | j in before.jobs ensures JobUntouched(before, after, j) {
      assert LogOf(before, j) == LogOf(after, j);
    }
  }

  lemma OnlyWorker(config: ValidRetryConfig, before: Db, mid: Db, after: Db, w: WorkerId, at: Time)
    requires PartlyRecovered(config, before, mid, w, at)
    requires after == mid.(workers := after.workers) && after.workers.Keys == mid.workers.Keys
    requires forall v :: v in mid.workers && v != w ==> after.workers[v] == mid.workers[v]
    ensures PartlyRecovered(config, before, after, w, at)
    ensures AllRecovered(config, before, mid, w, at) ==> AllRecovered(config, before, after, w, at)
  {
    hide RetryDelay;
    forall j ensures JobUntouched(before, after, j) <==> JobUntouched(before, mid, j) {
      assert LogOf(after, j) == LogOf(mid, j);
    }
    forall j | JobRecovered(config, before, mid, w, j, at) ensures JobRecovered(config, before, after, w, j, at) {
      var a :| JobRecoveredBy(config, before, mid, w, j, at, a);
      assert LogOf(after, j) == LogOf(mid, j);
      assert JobRecoveredBy(config, before, after, w, j, at, a);
    }
  }

  // A call that returned skipped its worker exactly when that looked alive too recently,
  // and otherwise left no job of it PROCESSING and counted each.
  lemma RecoveryMeans(policy: Policy, before: Db, after: Db, w: WorkerId, at: Time, links: seq<Link>,
                      r: Result<WorkerSummary, RecoveryError>)
    requires RecoverWorkerEffect(policy, before, after, w, at, links, r) && r.Success?
    ensures !r.value.skipped <==>
            && w in before.workers && before.workers[w].status in {Starting, Online, Busy}
            && at - before.workers[w].lastHeartbeatAt >= policy.staleAfterMs
    ensures !r.value.skipped ==>
              forall j :: j in after.jobs ==>
                !(after.jobs[j].status == Processing && after.jobs[j].lockedBy == Some(w))
    ensures !r.value.skipped ==>
              r.value.jobsRecovered ==
              |set j | j in before.jobs && before.jobs[j].status == Processing && before.jobs[j].lockedBy == Some(w)|
  {
    hide DbInv, JobRecovered;
    if !r.value.skipped {
      assert LockedJobs(before, w) ==
             set j | j in before.jobs && before.jobs[j].status == Processing && before.jobs[j].lockedBy == Some(w);
      forall j | j in after.jobs ensures !OwnsJob(after, j, w) {
        assert j in before.jobs.Keys;
      }
    }
  }

  // Call n of a recovery is carried by LinkAt(links, n): 0 marks, 1 reads, 2 marks OFFLINE
  // once every job is recovered, and the rest carry one job each.
  method RecoverWorker(prisma: Prisma, policy: Policy, workerId: WorkerId, recoveredAt: Time, links: seq<Link>)
    returns (r: Result<WorkerSummary, RecoveryError>)
    requires DbInv(policy.retry, prisma.View())
    modifies prisma
    ensures RecoverWorkerEffect(policy, old(prisma.View()), prisma.View(), workerId, recoveredAt, links, r)
  {
    hide DbInv, PartlyRecovered, AllRecovered, IsLockedRead;
    ghost var before := prisma.View();
    NothingRecovered(policy.retry, before, before, workerId, recoveredAt);
    if LinkAt(links, 0).LostBefore? {
      return Failure(ConnectionLost);
    }
    var staleBefore := recoveredAt - policy.staleAfterMs;
    var count := MarkWorkerUnhealthy(prisma, workerId, staleBefore);
    ghost var marked := prisma.View();
    WorkerWriteKeeps(policy.retry, before, workerId, MarkUnhealthy(staleBefore));
    NothingRecovered(policy.retry, before, marked, workerId, recoveredAt);
    if LinkAt(links, 0).LostAfter? {
      return Failure(ConnectionLost);
    }
    if count != 1 {
      return Success(WorkerSummary(0, 0, 0, 0, true));
    }
    if !LinkAt(links, 1).Delivered? {
      return Failure(ConnectionLost);
    }
    var queue := FindProcessingJobsLockedByWorker(prisma, workerId);
    var counts := RecoverLockedJobs(prisma, policy, queue, workerId, recoveredAt, links);
    ghost var recovered := prisma.View();
    SameJobs(policy.retry, before, marked, recovered, workerId, recoveredAt);
    if counts.Failure? {
      return Failure(counts.error);
    }
    if LinkAt(links, 2).LostBefore? {
      return Failure(ConnectionLost);
    }
    var offline := MarkRecoveredWorkerOffline(prisma, workerId, recoveredAt);
    WorkerWriteKeeps(policy.retry, recovered, workerId, MarkRecovered(recoveredAt));
    OnlyWorker(policy.retry, before, recovered, prisma.View(), workerId, recoveredAt);
    if LinkAt(links, 2).LostAfter? {
      return Failure(ConnectionLost);
    }
    if offline != 1 {
      return Failure(NotOffline);
    }
    var (jobsRetried, jobsDeadLettered) := counts.value;
    return Success(WorkerSummary(1, jobsRetried + jobsDeadLettered, jobsRetried, jobsDeadLettered, false));
  }
}
