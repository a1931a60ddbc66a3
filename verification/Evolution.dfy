// What no transaction can undo: how rows may change between two snapshots of a run.
module Evolution {
  import opened Records
  import opened Backoff
  import opened Transactions
  import opened Invariants

  // Transitions a job may still make: two per unused attempt, one to close an open one.
  function Remaining(job: Job): int {
    if Terminal(job.status) then 0
    else 2 * (job.maxAttempts - job.attemptCount) + (if job.status.Processing? then 1 else 0)
  }

  ghost predicate JobEvolves(x: Job, y: Job) {
    && y.userId == x.userId && y.idempotencyKey == x.idempotencyKey && y.priority == x.priority
    && y.maxAttempts == x.maxAttempts && y.createdAt == x.createdAt
    && x.attemptCount <= y.attemptCount
    && (x == y || Remaining(y) < Remaining(x))
  }

  ghost predicate AttemptEvolves(x: Attempt, y: Attempt) {
    && y.jobId == x.jobId && y.number == x.number && y.worker == x.worker && y.startedAt == x.startedAt
    && (Closed(x) ==> y == x)
  }

  // STARTING, then ONLINE or BUSY, then UNHEALTHY, then STOPPING, then OFFLINE.
  function Rank(status: WorkerStatus): nat {
    match status
    case Starting => 0
    case Online => 1
    case Busy => 1
    case Unhealthy => 2
    case Stopping => 3
    case Offline => 4
  }

  ghost predicate WorkerEvolves(x: Worker, y: Worker) {
    && y.startedAt == x.startedAt
    && Rank(x.status) <= Rank(y.status)
    && (x.status.Offline? ==> y == x)
  }

  ghost predicate JobsEvolve(db: Db, db': Db) {
    forall j :: j in db.jobs ==> j in db'.jobs && JobEvolves(db.jobs[j], db'.jobs[j])
  }

  ghost predicate AttemptsEvolve(db: Db, db': Db) {
    forall a :: a in db.attempts ==> a in db'.attempts && AttemptEvolves(db.attempts[a], db'.attempts[a])
  }

  ghost predicate LogsEvolve(db: Db, db': Db) {
    forall j :: j in db.jobs ==> LogOf(db, j) <= LogOf(db', j)
  }

  ghost predicate WorkersEvolve(db: Db, db': Db) {
    forall w :: w in db.workers ==> w in db'.workers && WorkerEvolves(db.workers[w], db'.workers[w])
  }

  ghost predicate Evolves(db: Db, db': Db) {
    JobsEvolve(db, db') && AttemptsEvolve(db, db') && LogsEvolve(db, db') && WorkersEvolve(db, db')
  }

  lemma EvolvesTransitive(a: Db, b: Db, c: Db)
    requires Evolves(a, b) && Evolves(b, c)
    ensures Evolves(a, c)
  {
    forall j | j in a.jobs ensures LogOf(a, j) <= LogOf(c, j) {
      assert LogOf(a, j) <= LogOf(b, j) <= LogOf(c, j);
    }
  }

  lemma CreateEvolves(db: Db, jobId: JobId, job: Job)
    requires jobId !in db.jobs
    ensures Evolves(db, Created(db, jobId, job))
  {
  }

  lemma ClaimEvolves(db: Db, j: JobId, w: WorkerId, a: AttemptId, t: Time)
    requires JobsFit(db) && ClaimFits(db, j, w, a, t)
    ensures Evolves(db, Claimed(db, j, w, a, t))
  {
  }

  lemma FinishEvolves(config: ValidRetryConfig, db: Db, j: JobId, w: WorkerId, a: AttemptId, o: Outcome)
    requires JobsFit(db) && FinishAllowed(db, j, w, a) && OutcomeFits(config, db.jobs[j], o)
    ensures Evolves(db, Finished(db, j, w, a, o))
  {
    assert JobFits(db.jobs[j]);
  }

  lemma CancelEvolves(db: Db, u: UserId, j: JobId, t: Time)
    requires JobsFit(db)
    ensures Evolves(db, TryCancel(db, u, j, t))
  {
    if CancelAllowed(db, u, j) {
      assert JobFits(db.jobs[j]);
    }
  }

  lemma WriteEvolves(db: Db, w: WorkerId, write: WorkerWrite)
    ensures Evolves(db, TryWrite(db, w, write))
  {
  }

  lemma RegisterEvolves(db: Db, w: WorkerId, t: Time)
    ensures Evolves(db, TryRegister(db, w, t))
  {
  }
}
