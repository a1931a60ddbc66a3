// What every transaction keeps true of the committed rows.
module Invariants {
  import opened Wrappers
  import opened Records
  import opened Backoff
  import opened LogReplay
  import opened Transactions

  // One job row on its own: the lock, the attempt budget and the terminal stamps.
  ghost predicate JobFits(job: Job) {
    && job.maxAttempts >= 1
    && (job.status.Processing? <==> job.lockedBy.Some?)
    && (job.status.Processing? <==> job.lockedAt.Some?)
    && (Waiting(job.status) || job.status.Cancelled? ==> job.attemptCount < job.maxAttempts)
    && (job.status.Scheduled? || job.status.Queued? ==> job.attemptCount == 0)
    && (job.status.Retrying? || job.status.Processing? || job.status.Completed? ==>
          1 <= job.attemptCount <= job.maxAttempts)
    && (job.status.DeadLetter? ==> job.attemptCount == job.maxAttempts)
    && !job.status.Failed?
    && (job.completedAt.Some? <==> job.status.Completed?)
    && (job.cancelledAt.Some? <==> job.status.Cancelled?)
  }

  ghost predicate JobsFit(db: Db) {
    && db.logs.Keys == db.jobs.Keys
    && forall j :: j in db.jobs ==>
         && JobFits(db.jobs[j])
         && (db.jobs[j].lockedBy.Some? ==> db.jobs[j].lockedBy.value in db.workers)
  }

  // An attempt row against its job row. The open attempt is the job's last one, held by
  // the lock owner; a completed attempt is the last one of a completed job.
  ghost predicate AttemptFits(x: Attempt, job: Job) {
    && 1 <= x.number <= job.attemptCount
    && (x.status.AttemptProcessing? <==> job.status.Processing? && x.number == job.attemptCount)
    && (x.status.AttemptCompleted? <==> job.status.Completed? && x.number == job.attemptCount)
    && (x.status.AttemptProcessing? ==> job.lockedBy == Some(x.worker) && job.lockedAt == Some(x.startedAt))
    && (x.status.AttemptCompleted? ==> job.completedAt == x.finishedAt)
    && (Closed(x) <==> x.finishedAt.Some?)
    && (Closed(x) <==> x.durationMs.Some?)
    && (x.error.Some? <==> x.status.AttemptFailed? || x.status.AttemptTimedOut?)
  }

  ghost predicate AttemptsFit(db: Db) {
    forall a :: a in db.attempts ==>
      && db.attempts[a].jobId in db.jobs
      && db.attempts[a].worker in db.workers
      && AttemptFits(db.attempts[a], db.jobs[db.attempts[a].jobId])
  }

  ghost predicate NumbersUnique(db: Db) {
    forall a, b | a in db.attempts && b in db.attempts ::
      db.attempts[a].jobId == db.attempts[b].jobId && db.attempts[a].number == db.attempts[b].number ==> a == b
  }

  ghost predicate NumbersPresent(db: Db) {
    forall j, n: nat :: j in db.jobs && 1 <= n <= db.jobs[j].attemptCount ==> NumberTaken(db, j, n)
  }

  ghost predicate KeysUnique(db: Db) {
    forall j, k | j in db.jobs && k in db.jobs && db.jobs[j].idempotencyKey.Some? ::
      db.jobs[j].userId == db.jobs[k].userId && db.jobs[j].idempotencyKey == db.jobs[k].idempotencyKey ==> j == k
  }

  // x directly follows the finished attempt y of the same job.
  ghost predicate Follows(x: Attempt, y: Attempt) {
    x.jobId == y.jobId && x.number == y.number + 1 && y.number >= 1
  }

  ghost predicate BackedOff(config: ValidRetryConfig, finished: Attempt, at: Time) {
    finished.number >= 1 && finished.finishedAt.Some? &&
    at >= finished.finishedAt.value + RetryDelay(config, finished.number)
  }

  // Consecutive attempts are separated by the backoff.
  ghost predicate Spaced(config: ValidRetryConfig, db: Db) {
    forall a, b | a in db.attempts && b in db.attempts ::
      Follows(db.attempts[b], db.attempts[a]) ==> BackedOff(config, db.attempts[a], db.attempts[b].startedAt)
  }

  // A job waiting for its retry becomes available only when the backoff of its last attempt ends.
  ghost predicate RetryWaits(config: ValidRetryConfig, db: Db) {
    forall a | a in db.attempts && db.attempts[a].jobId in db.jobs ::
      db.jobs[db.attempts[a].jobId].status.Retrying? &&
      db.attempts[a].number == db.jobs[db.attempts[a].jobId].attemptCount ==>
        BackedOff(config, db.attempts[a], db.jobs[db.attempts[a].jobId].availableAt)
  }

  // The replayed log agrees with the job row; cancellation is the one status no log shows.
  ghost predicate Agrees(db: Db, j: JobId, r: Replayed)
    requires j in db.jobs
  {
    && r.Live?
    && r.attemptCount == db.jobs[j].attemptCount
    && r.availableAt == db.jobs[j].availableAt
    && r.lockedBy == db.jobs[j].lockedBy
    && r.lastError == db.jobs[j].lastError
    && (if db.jobs[j].status.Cancelled? then Waiting(r.status) else r.status == db.jobs[j].status)
    && (r.open.Some? <==> db.jobs[j].status.Processing?)
    && (r.open.Some? ==> r.lockedBy.Some? && OwnsAttempt(db, j, r.lockedBy.value, r.open.value))
  }

  ghost predicate LogsReplay(db: Db) {
    forall j :: j in db.jobs ==> Agrees(db, j, Replay(LogOf(db, j)))
  }

  ghost predicate WorkersFit(workers: map<WorkerId, Worker>) {
    forall w :: w in workers ==> (workers[w].stoppedAt.Some? <==> workers[w].status.Offline?)
  }

  ghost predicate RowsFit(db: Db) {
    JobsFit(db) && AttemptsFit(db) && NumbersUnique(db) && NumbersPresent(db)
  }

  ghost predicate DbInv(config: ValidRetryConfig, db: Db) {
    RowsFit(db) && KeysUnique(db) && Spaced(config, db) && RetryWaits(config, db) && LogsReplay(db) &&
        WorkersFit(db.workers)
  }

  // ---- consequences used everywhere ----

  // The attempt a job is executing.
  lemma OpenAttemptExists(db: Db, j: JobId) returns (a: AttemptId)
    requires RowsFit(db) && j in db.jobs && db.jobs[j].status.Processing?
    ensures OwnsAttempt(db, j, db.jobs[j].lockedBy.value, a)
    ensures db.attempts[a].number == db.jobs[j].attemptCount
  {
    assert NumberTaken(db, j, db.jobs[j].attemptCount);
    a :| a in db.attempts && db.attempts[a].jobId == j && db.attempts[a].number == db.jobs[j].attemptCount;
  }

  // The unique constraint on (jobId, attemptNumber) can never fire for a claimable job.
  lemma NextNumberFree(db: Db, j: JobId)
    requires RowsFit(db) && j in db.jobs
    ensures !NumberTaken(db, j, db.jobs[j].attemptCount + 1)
  {
  }

  // Only creation writes the columns of the unique (userId, idempotencyKey) constraint.
  lemma KeysKept(db: Db, db': Db)
    requires KeysUnique(db) && db'.jobs.Keys == db.jobs.Keys
    requires forall j :: j in db.jobs ==>
               db'.jobs[j].userId == db.jobs[j].userId && db'.jobs[j].idempotencyKey == db.jobs[j].idempotencyKey
    ensures KeysUnique(db')
  {
  }

  // ---- create ----

  ghost predicate NewJobFits(db: Db, jobId: JobId, job: Job) {
    && CreateAllowed(db, jobId, job.userId, job.idempotencyKey)
    && (job.status.Scheduled? || job.status.Queued?)
    && job == NewJob(job.userId, job.idempotencyKey, job.priority, job.status,
                     job.maxAttempts, job.availableAt, job.createdAt)
    && job.maxAttempts >= 1
  }

  lemma CreateKeepsRows(db: Db, jobId: JobId, job: Job)
    requires RowsFit(db) && NewJobFits(db, jobId, job)
    ensures RowsFit(Created(db, jobId, job))
  {
    hide NumbersPresent, KeyTaken;
    CreateKeepsNumbers(db, jobId, job);
  }

  lemma CreateKeepsNumbers(db: Db, jobId: JobId, job: Job)
    requires NumbersPresent(db) && NewJobFits(db, jobId, job)
    ensures NumbersPresent(Created(db, jobId, job))
  {
    var db' := Created(db, jobId, job);
    forall j, n: nat | j in db'.jobs && 1 <= n <= db'.jobs[j].attemptCount ensures NumberTaken(db', j, n) {
      assert NumberTaken(db, j, n);
    }
  }

  lemma CreateKeepsLogs(db: Db, jobId: JobId, job: Job)
    requires JobsFit(db) && LogsReplay(db) && NewJobFits(db, jobId, job)
    ensures LogsReplay(Created(db, jobId, job))
  {
    var db' := Created(db, jobId, job);
    assert LogOf(db, jobId) == [];
    ReplayAppend([], FirstEntry(job));
    forall j | j in db'.jobs ensures Agrees(db', j, Replay(LogOf(db', j))) {
      if j != jobId {
        assert LogOf(db', j) == LogOf(db, j);
        assert Agrees(db, j, Replay(LogOf(db, j)));
      }
    }
  }

  lemma CreateKeepsRest(config: ValidRetryConfig, db: Db, jobId: JobId, job: Job)
    requires AttemptsFit(db) && KeysUnique(db) && Spaced(config, db) && RetryWaits(config, db)
    requires NewJobFits(db, jobId, job)
    ensures KeysUnique(Created(db, jobId, job))
    ensures Spaced(config, Created(db, jobId, job)) && RetryWaits(config, Created(db, jobId, job))
  {
  }

  lemma CreateKeeps(config: ValidRetryConfig, db: Db, jobId: JobId, job: Job)
    requires DbInv(config, db) && NewJobFits(db, jobId, job)
    ensures DbInv(config, Created(db, jobId, job))
  {
    hide JobsFit, AttemptsFit, NumbersUnique, NumbersPresent, KeysUnique, Spaced, RetryWaits, LogsReplay;
    CreateKeepsRows(db, jobId, job);
    CreateKeepsLogs(db, jobId, job);
    CreateKeepsRest(config, db, jobId, job);
  }

  // ---- claim ----

  ghost predicate ClaimFits(db: Db, j: JobId, w: WorkerId, a: AttemptId, t: Time) {
    j in db.jobs && Claimable(db.jobs[j], t) && ClaimAllowed(db, j, w, a)
  }

  lemma ClaimKeepsJobs(db: Db, j: JobId, w: WorkerId, a: AttemptId, t: Time)
    requires JobsFit(db) && ClaimFits(db, j, w, a, t)
    ensures JobsFit(Claimed(db, j, w, a, t))
  {
  }

  lemma ClaimKeepsAttempts(db: Db, j: JobId, w: WorkerId, a: AttemptId, t: Time)
    requires AttemptsFit(db) && ClaimFits(db, j, w, a, t)
    ensures AttemptsFit(Claimed(db, j, w, a, t))
  {
  }

  lemma ClaimKeepsUnique(db: Db, j: JobId, w: WorkerId, a: AttemptId, t: Time)
    requires NumbersUnique(db) && ClaimFits(db, j, w, a, t)
    ensures NumbersUnique(Claimed(db, j, w, a, t))
  {
  }

  lemma ClaimKeepsNumbers(db: Db, j: JobId, w: WorkerId, a: AttemptId, t: Time)
    requires NumbersPresent(db) && ClaimFits(db, j, w, a, t)
    ensures NumbersPresent(Claimed(db, j, w, a, t))
  {
    var db' := Claimed(db, j, w, a, t);
    forall k, n: nat | k in db'.jobs && 1 <= n <= db'.jobs[k].attemptCount ensures NumberTaken(db', k, n) {
      if k == j && n == db'.jobs[j].attemptCount {
        assert db'.attempts[a].jobId == k && db'.attempts[a].number == n;
      } else {
        assert NumberTaken(db, k, n);
        var b :| b in db.attempts && db.attempts[b].jobId == k && db.attempts[b].number == n;
        assert b in db'.attempts && db'.attempts[b] == db.attempts[b];
      }
    }
  }

  // The claim's availability test is what keeps consecutive attempts apart.
  lemma ClaimKeepsSpacing(config: ValidRetryConfig, db: Db, j: JobId, w: WorkerId, a: AttemptId, t: Time)
    requires JobsFit(db) && AttemptsFit(db) && ClaimFits(db, j, w, a, t)
    requires Spaced(config, db) && RetryWaits(config, db)
    ensures Spaced(config, Claimed(db, j, w, a, t)) && RetryWaits(config, Claimed(db, j, w, a, t))
  {
    var db' := Claimed(db, j, w, a, t);
    forall x, y | x in db'.attempts && y in db'.attempts && Follows(db'.attempts[y], db'.attempts[x])
      ensures BackedOff(config, db'.attempts[x], db'.attempts[y].startedAt)
    {
      assert x != a;
    }
  }

  lemma ClaimKeepsLogs(db: Db, j: JobId, w: WorkerId, a: AttemptId, t: Time)
    requires JobsFit(db) && LogsReplay(db) && ClaimFits(db, j, w, a, t)
    ensures LogsReplay(Claimed(db, j, w, a, t))
  {
    var db' := Claimed(db, j, w, a, t);
    ReplayAppend(LogOf(db, j), JobProcessing(w, a, db.jobs[j].attemptCount + 1));
    forall k | k in db'.jobs ensures Agrees(db', k, Replay(LogOf(db', k))) {
      assert Agrees(db, k, Replay(LogOf(db, k)));
      if k != j {
        assert LogOf(db', k) == LogOf(db, k);
      }
    }
  }

  lemma ClaimKeeps(config: ValidRetryConfig, db: Db, j: JobId, w: WorkerId, a: AttemptId, t: Time)
    requires DbInv(config, db) && ClaimFits(db, j, w, a, t)
    ensures DbInv(config, Claimed(db, j, w, a, t))
  {
    hide JobsFit, AttemptsFit, NumbersUnique, NumbersPresent, KeysUnique, Spaced, RetryWaits, LogsReplay;
    ClaimKeepsJobs(db, j, w, a, t);
    ClaimKeepsAttempts(db, j, w, a, t);
    ClaimKeepsUnique(db, j, w, a, t);
    ClaimKeepsNumbers(db, j, w, a, t);
    ClaimKeepsSpacing(config, db, j, w, a, t);
    ClaimKeepsLogs(db, j, w, a, t);
    KeysKept(db, Claimed(db, j, w, a, t));
  }

  // ---- finish ----

  // The decision the caller must have made for the row it closes.
  ghost predicate OutcomeFits(config: ValidRetryConfig, job: Job, o: Outcome) {
    match o
    case Complete(_, _) => true
    case Retry(at, _, _, _, retryAt) =>
      1 <= job.attemptCount < job.maxAttempts && retryAt == at + RetryDelay(config, job.attemptCount)
    case Bury(_, _, _, _) => job.attemptCount >= job.maxAttempts
  }

  lemma FinishKeepsJobs(config: ValidRetryConfig, db: Db, j: JobId, w: WorkerId, a: AttemptId, o: Outcome)
    requires JobsFit(db) && FinishAllowed(db, j, w, a) && OutcomeFits(config, db.jobs[j], o)
    ensures JobsFit(Finished(db, j, w, a, o))
  {
  }

  lemma FinishKeepsAttempts(config: ValidRetryConfig, db: Db, j: JobId, w: WorkerId, a: AttemptId, o: Outcome)
    requires AttemptsFit(db) && NumbersUnique(db)
    requires FinishAllowed(db, j, w, a) && OutcomeFits(config, db.jobs[j], o)
    ensures AttemptsFit(Finished(db, j, w, a, o)) && NumbersUnique(Finished(db, j, w, a, o))
  {
    var db' := Finished(db, j, w, a, o);
    forall b | b in db'.attempts
      ensures db'.attempts[b].jobId in db'.jobs && db'.attempts[b].worker in db'.workers
      ensures AttemptFits(db'.attempts[b], db'.jobs[db'.attempts[b].jobId])
    {
      if b != a && db.attempts[b].jobId == j {
        assert db.attempts[b].number != db.attempts[a].number;
      }
    }
  }

  lemma FinishKeepsNumbers(db: Db, j: JobId, w: WorkerId, a: AttemptId, o: Outcome)
    requires NumbersPresent(db) && FinishAllowed(db, j, w, a)
    ensures NumbersPresent(Finished(db, j, w, a, o))
  {
    var db' := Finished(db, j, w, a, o);
    forall k, n: nat | k in db'.jobs && 1 <= n <= db'.jobs[k].attemptCount ensures NumberTaken(db', k, n) {
      assert NumberTaken(db, k, n);
      var b :| b in db.attempts && db.attempts[b].jobId == k && db.attempts[b].number == n;
      assert b in db'.attempts && db'.attempts[b].jobId == k && db'.attempts[b].number == n;
    }
  }

  lemma FinishKeepsSpacing(config: ValidRetryConfig, db: Db, j: JobId, w: WorkerId, a: AttemptId, o: Outcome)
    requires AttemptsFit(db) && NumbersUnique(db) && Spaced(config, db) && RetryWaits(config, db)
    requires FinishAllowed(db, j, w, a) && OutcomeFits(config, db.jobs[j], o)
    ensures Spaced(config, Finished(db, j, w, a, o)) && RetryWaits(config, Finished(db, j, w, a, o))
  {
    var db' := Finished(db, j, w, a, o);
    forall x, y | x in db'.attempts && y in db'.attempts && Follows(db'.attempts[y], db'.attempts[x])
      ensures BackedOff(config, db'.attempts[x], db'.attempts[y].startedAt)
    {
      assert Follows(db.attempts[y], db.attempts[x]);
      assert x != a;
    }
  }

  // The log's open attempt is the one being finished.
  lemma OpenIsUnique(db: Db, j: JobId, w: WorkerId, a: AttemptId)
    requires AttemptsFit(db) && NumbersUnique(db) && LogsReplay(db) && FinishAllowed(db, j, w, a)
    ensures Replay(LogOf(db, j)).Live? && Replay(LogOf(db, j)).open == Some(a)
  {
    hide Replay;
    var r := Replay(LogOf(db, j));
    assert Agrees(db, j, r);
    assert db.attempts[r.open.value].number == db.attempts[a].number;
  }

  lemma FinishedAgrees(db: Db, j: JobId, w: WorkerId, a: AttemptId, o: Outcome, r: Replayed)
    requires FinishAllowed(db, j, w, a) && Agrees(db, j, r) && r.open == Some(a)
    ensures Agrees(Finished(db, j, w, a, o), j, ReplayEntry(r, FinishEntry(w, a, o)))
  {
  }

  lemma OthersAgree(db: Db, j: JobId, w: WorkerId, a: AttemptId, o: Outcome, k: JobId, r: Replayed)
    requires FinishAllowed(db, j, w, a) && k in db.jobs && k != j && Agrees(db, k, r)
    ensures Agrees(Finished(db, j, w, a, o), k, r) && LogOf(Finished(db, j, w, a, o), k) == LogOf(db, k)
  {
  }

  lemma FinishKeepsLogs(db: Db, j: JobId, w: WorkerId, a: AttemptId, o: Outcome)
    requires AttemptsFit(db) && NumbersUnique(db) && LogsReplay(db) && FinishAllowed(db, j, w, a)
    ensures LogsReplay(Finished(db, j, w, a, o))
  {
    hide Replay, ReplayEntry, Agrees, FinishEntry, FinishedJob, FinishedAttempt, AttemptsFit, NumbersUnique;
    var db' := Finished(db, j, w, a, o);
    forall k | k in db'.jobs ensures Agrees(db', k, Replay(LogOf(db', k))) {
      if k == j {
        ReplayAppend(LogOf(db, j), FinishEntry(w, a, o));
        OpenIsUnique(db, j, w, a);
        FinishedAgrees(db, j, w, a, o, Replay(LogOf(db, j)));
      } else {
        OthersAgree(db, j, w, a, o, k, Replay(LogOf(db, k)));
      }
    }
  }

  lemma FinishKeeps(config: ValidRetryConfig, db: Db, j: JobId, w: WorkerId, a: AttemptId, o: Outcome)
    requires DbInv(config, db) && FinishAllowed(db, j, w, a) && OutcomeFits(config, db.jobs[j], o)
    ensures DbInv(config, Finished(db, j, w, a, o))
  {
    hide JobsFit, AttemptsFit, NumbersUnique, NumbersPresent, KeysUnique, Spaced, RetryWaits, LogsReplay;
    FinishKeepsJobs(config, db, j, w, a, o);
    FinishKeepsAttempts(config, db, j, w, a, o);
    FinishKeepsNumbers(db, j, w, a, o);
    FinishKeepsSpacing(config, db, j, w, a, o);
    FinishKeepsLogs(db, j, w, a, o);
    KeysKept(db, Finished(db, j, w, a, o));
  }

  // ---- cancel ----

  lemma CancelKeepsRows(db: Db, u: UserId, j: JobId, t: Time)
    requires RowsFit(db)
    ensures RowsFit(TryCancel(db, u, j, t))
  {
    var db' := TryCancel(db, u, j, t);
    if CancelAllowed(db, u, j) {
      assert JobFits(db'.jobs[j]);
      forall k, n: nat | k in db'.jobs && 1 <= n <= db'.jobs[k].attemptCount ensures NumberTaken(db', k, n) {
        assert NumberTaken(db, k, n);
      }
    }
  }

  lemma CancelKeepsLogs(db: Db, u: UserId, j: JobId, t: Time)
    requires JobsFit(db) && LogsReplay(db)
    ensures LogsReplay(TryCancel(db, u, j, t))
  {
    hide Replay;
    var db' := TryCancel(db, u, j, t);
    forall k | k in db'.jobs ensures Agrees(db', k, Replay(LogOf(db', k))) {
      assert Agrees(db, k, Replay(LogOf(db, k)));
      assert LogOf(db', k) == LogOf(db, k);
    }
  }

  lemma CancelKeepsRest(config: ValidRetryConfig, db: Db, u: UserId, j: JobId, t: Time)
    requires KeysUnique(db) && Spaced(config, db) && RetryWaits(config, db)
    ensures KeysUnique(TryCancel(db, u, j, t))
    ensures Spaced(config, TryCancel(db, u, j, t)) && RetryWaits(config, TryCancel(db, u, j, t))
  {
  }

  lemma CancelKeeps(config: ValidRetryConfig, db: Db, u: UserId, j: JobId, t: Time)
    requires DbInv(config, db)
    ensures DbInv(config, TryCancel(db, u, j, t))
  {
    hide JobsFit, AttemptsFit, NumbersUnique, NumbersPresent, KeysUnique, Spaced, RetryWaits, LogsReplay;
    CancelKeepsRows(db, u, j, t);
    CancelKeepsLogs(db, u, j, t);
    CancelKeepsRest(config, db, u, j, t);
  }

  // ---- worker rows ----

  lemma WorkersKeepRows(db: Db, workers: map<WorkerId, Worker>)
    requires RowsFit(db) && db.workers.Keys <= workers.Keys
    ensures RowsFit(db.(workers := workers))
  {
    var db' := db.(workers := workers);
    forall w | w in db.workers ensures w in workers {
      assert w in db.workers.Keys;
    }
    forall k, n: nat | k in db'.jobs && 1 <= n <= db'.jobs[k].attemptCount ensures NumberTaken(db', k, n) {
      assert NumberTaken(db, k, n);
    }
  }

  lemma WorkersKeepLogs(db: Db, workers: map<WorkerId, Worker>)
    requires LogsReplay(db)
    ensures LogsReplay(db.(workers := workers))
  {
    var db' := db.(workers := workers);
    forall k | k in db'.jobs ensures Agrees(db', k, Replay(LogOf(db', k))) {
      assert Agrees(db, k, Replay(LogOf(db, k)));
      assert LogOf(db', k) == LogOf(db, k);
    }
  }

  lemma WorkersKeepRest(config: ValidRetryConfig, db: Db, workers: map<WorkerId, Worker>)
    requires KeysUnique(db) && Spaced(config, db) && RetryWaits(config, db)
    ensures KeysUnique(db.(workers := workers))
    ensures Spaced(config, db.(workers := workers)) && RetryWaits(config, db.(workers := workers))
  {
  }

  lemma WorkersKeep(config: ValidRetryConfig, db: Db, workers: map<WorkerId, Worker>)
    requires DbInv(config, db) && db.workers.Keys <= workers.Keys && WorkersFit(workers)
    ensures DbInv(config, db.(workers := workers))
  {
    hide JobsFit, AttemptsFit, NumbersUnique, NumbersPresent, KeysUnique, Spaced, RetryWaits, LogsReplay;
    WorkersKeepRows(db, workers);
    WorkersKeepLogs(db, workers);
    WorkersKeepRest(config, db, workers);
  }

  lemma WorkerWriteKeeps(config: ValidRetryConfig, db: Db, w: WorkerId, write: WorkerWrite)
    requires DbInv(config, db)
    ensures DbInv(config, TryWrite(db, w, write))
  {
    hide JobsFit, AttemptsFit, NumbersUnique, NumbersPresent, KeysUnique, Spaced, RetryWaits, LogsReplay;
    WorkersKeep(config, db, TryWrite(db, w, write).workers);
  }

  lemma RegisterKeeps(config: ValidRetryConfig, db: Db, w: WorkerId, t: Time)
    requires DbInv(config, db)
    ensures DbInv(config, TryRegister(db, w, t))
  {
    hide JobsFit, AttemptsFit, NumbersUnique, NumbersPresent, KeysUnique, Spaced, RetryWaits, LogsReplay;
    WorkersKeep(config, db, TryRegister(db, w, t).workers);
  }
}
