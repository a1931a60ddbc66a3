// The invariant of every run: committed rows, plus what the rows held in memory still mean.
module Safety {
  import opened Wrappers
  import opened Records
  import opened Backoff
  import opened Transactions
  import opened Decisions
  import opened Invariants
  import opened Evolution
  import opened Protocol

  // A job row and attempt row read together. They may be out of date, but the attempt
  // still has the identity, and the job still the limit, that they show.
  ghost predicate Snapshot(db: Db, jobId: JobId, job: Job, attemptId: AttemptId, attempt: Attempt) {
    && jobId in db.jobs && attemptId in db.attempts
    && AttemptEvolves(attempt, db.attempts[attemptId])
    && attempt.jobId == jobId
    && attempt.number == job.attemptCount >= 1
    && job.maxAttempts == db.jobs[jobId].maxAttempts >= 1
  }

  ghost predicate ClaimsFit(db: Db, claims: map<AttemptId, Claim>) {
    forall a :: a in claims ==>
      claims[a].attemptId == a && Snapshot(db, claims[a].jobId, claims[a].job, a, claims[a].attempt)
  }

  ghost predicate RowFits(db: Db, row: LockedJob) {
    row.attempt.Some? && Snapshot(db, row.jobId, row.job, row.attempt.value.0, row.attempt.value.1)
  }

  ghost predicate QueueFits(db: Db, queue: seq<LockedJob>) {
    && (forall i :: 0 <= i < |queue| ==> RowFits(db, queue[i]))
    && (forall i, k :: 0 <= i < k < |queue| ==> queue[i].jobId != queue[k].jobId)
  }

  ghost predicate QueuesFit(db: Db, loops: map<LoopId, Loop>) {
    forall l :: l in loops && loops[l].phase.Recovering? ==> QueueFits(db, loops[l].phase.queue)
  }

  predicate TookOver(loop: Loop) {
    !loop.phase.Marking? && !loop.phase.Skipped?
  }

  // No two recovery calls have taken over the same worker, and a taken-over worker has
  // left the statuses from which it could be taken over again.
  ghost predicate TakeoversFit(db: Db, loops: map<LoopId, Loop>) {
    && (forall l :: l in loops && TookOver(loops[l]) ==>
          loops[l].workerId in db.workers && Rank(db.workers[loops[l].workerId].status) >= 2)
    && (forall l, m | l in loops && m in loops ::
          TookOver(loops[l]) && TookOver(loops[m]) && loops[l].workerId == loops[m].workerId ==> l == m)
  }

  ghost predicate ReceiptsFit(db: Db, receipts: set<Receipt>) {
    forall r :: r in receipts ==>
      r.jobId in db.jobs && db.jobs[r.jobId].userId == r.userId &&
      db.jobs[r.jobId].idempotencyKey == Some(r.idempotencyKey)
  }

  ghost predicate MemoryFits(s: Sys) {
    ClaimsFit(s.db, s.claims) && QueuesFit(s.db, s.loops) && TakeoversFit(s.db, s.loops) &&
        ReceiptsFit(s.db, s.receipts)
  }

  ghost predicate SysInv(policy: Policy, s: Sys) {
    DbInv(policy.retry, s.db) && MemoryFits(s)
  }

  // Fencing: whoever still passes both finish checks read rows that are still current.
  lemma SnapshotIsCurrent(db: Db, jobId: JobId, job: Job, attemptId: AttemptId, attempt: Attempt)
    requires AttemptsFit(db) && Snapshot(db, jobId, job, attemptId, attempt)
    requires FinishAllowed(db, jobId, attempt.worker, attemptId)
    ensures db.jobs[jobId].attemptCount == job.attemptCount
  {
  }

  // ---- memory survives whatever other processes commit ----

  lemma MemorySurvives(s: Sys, db': Db)
    requires MemoryFits(s) && Evolves(s.db, db')
    ensures MemoryFits(s.(db := db'))
  {
    forall a | a in s.claims ensures Snapshot(db', s.claims[a].jobId, s.claims[a].job, a, s.claims[a].attempt) {
      SnapshotSurvives(s.db, db', s.claims[a].jobId, s.claims[a].job, a, s.claims[a].attempt);
    }
    forall l | l in s.loops && s.loops[l].phase.Recovering? ensures QueueFits(db', s.loops[l].phase.queue) {
      QueueSurvives(s.db, db', s.loops[l].phase.queue);
    }
  }

  lemma QueueSurvives(db: Db, db': Db, queue: seq<LockedJob>)
    requires QueueFits(db, queue) && JobsEvolve(db, db') && AttemptsEvolve(db, db')
    ensures QueueFits(db', queue)
  {
    hide Snapshot;
    forall i | 0 <= i < |queue| ensures RowFits(db', queue[i]) {
      assert RowFits(db, queue[i]);
      var row := queue[i];
      SnapshotSurvives(db, db', row.jobId, row.job, row.attempt.value.0, row.attempt.value.1);
    }
  }

  lemma SnapshotSurvives(db: Db, db': Db, jobId: JobId, job: Job, attemptId: AttemptId, attempt: Attempt)
    requires Snapshot(db, jobId, job, attemptId, attempt) && JobsEvolve(db, db') && AttemptsEvolve(db, db')
    ensures Snapshot(db', jobId, job, attemptId, attempt)
  {
  }

  // ---- the rows after each step ----

  // Both callers' decision fits the rows it was taken from.
  lemma DecisionFits(config: ValidRetryConfig, job: Job, at: Time, ms: nat, error: string, stale: bool)
    requires job.attemptCount >= 1
    ensures OutcomeFits(config, job, DecisionFor(config, job, at, ms, error, stale))
  {
  }

  // A finish decided from a snapshot is safe whenever the fences let it through.
  lemma FinishSafe(config: ValidRetryConfig, db: Db, jobId: JobId, job: Job, attemptId: AttemptId, attempt: Attempt,
                   o: Outcome)
    requires DbInv(config, db) && Snapshot(db, jobId, job, attemptId, attempt) && OutcomeFits(config, job, o)
    ensures DbInv(config, TryFinish(db, jobId, attempt.worker, attemptId, o))
    ensures Evolves(db, TryFinish(db, jobId, attempt.worker, attemptId, o))
  {
    hide JobsFit, AttemptsFit, NumbersUnique, NumbersPresent, KeysUnique, Spaced, RetryWaits, LogsReplay;
    if FinishAllowed(db, jobId, attempt.worker, attemptId) {
      SnapshotIsCurrent(db, jobId, job, attemptId, attempt);
      FinishKeeps(config, db, jobId, attempt.worker, attemptId, o);
      FinishEvolves(config, db, jobId, attempt.worker, attemptId, o);
    }
  }

  // ---- the whole state after each step ----

  // A step that only commits rows.
  lemma CommitSafe(policy: Policy, s: Sys, db': Db)
    requires SysInv(policy, s) && DbInv(policy.retry, db') && Evolves(s.db, db')
    ensures SysInv(policy, s.(db := db'))
  {
    hide DbInv, MemoryFits, Evolves;
    MemorySurvives(s, db');
  }

  lemma ReceiptSafe(policy: Policy, s: Sys, u: UserId, key: Option<string>, j: JobId)
    requires SysInv(policy, s)
    requires j in s.db.jobs && s.db.jobs[j].userId == u && s.db.jobs[j].idempotencyKey == key
    ensures SysInv(policy, s.(receipts := s.receipts + ReceiptFor(u, key, j)))
  {
    hide DbInv, ClaimsFit, QueuesFit, TakeoversFit;
  }

  lemma CreateSafe(policy: Policy, s: Sys, u: UserId, input: JobInput, now: Time, j: JobId, createdAt: Time)
    requires SysInv(policy, s) && CreateAllowed(s.db, j, u, input.idempotencyKey)
    ensures Evolves(s.db, Created(s.db, j, JobFromInput(u, input, now, createdAt)))
    ensures SysInv(policy, s.(db := Created(s.db, j, JobFromInput(u, input, now, createdAt)),
                              receipts := s.receipts + ReceiptFor(u, input.idempotencyKey, j)))
  {
    hide DbInv, MemoryFits, Evolves;
    var job := JobFromInput(u, input, now, createdAt);
    CreateKeeps(policy.retry, s.db, j, job);
    CreateEvolves(s.db, j, job);
    CommitSafe(policy, s, Created(s.db, j, job));
    ReceiptSafe(policy, s.(db := Created(s.db, j, job)), u, input.idempotencyKey, j);
  }

  // The database's own constraints never reject a claim of a claimable row by a registered worker.
  lemma ClaimSafe(policy: Policy, s: Sys, j: JobId, w: WorkerId, a: AttemptId, t: Time)
    requires SysInv(policy, s) && ClaimFits(s.db, j, w, a, t)
    ensures Evolves(s.db, StartClaim(s, j, w, a, t).db)
    ensures SysInv(policy, StartClaim(s, j, w, a, t))
  {
    hide NumbersUnique, NumbersPresent, KeysUnique, Spaced, RetryWaits, LogsReplay, AttemptsFit, MemoryFits, Evolves;
    ClaimKeeps(policy.retry, s.db, j, w, a, t);
    ClaimEvolves(s.db, j, w, a, t);
    CommitSafe(policy, s, Claimed(s.db, j, w, a, t));
    assert JobFits(s.db.jobs[j]);
    NewClaimFits(s.(db := Claimed(s.db, j, w, a, t)), StartClaim(s, j, w, a, t).claims[a]);
  }

  lemma NewClaimFits(s: Sys, c: Claim)
    requires MemoryFits(s) && Snapshot(s.db, c.jobId, c.job, c.attemptId, c.attempt)
    ensures MemoryFits(s.(claims := s.claims[c.attemptId := c]))
  {
    hide QueuesFit, TakeoversFit, ReceiptsFit;
  }

  lemma ReportSafe(policy: Policy, s: Sys, a: AttemptId, o: Outcome)
    requires SysInv(policy, s) && a in s.claims && OutcomeFits(policy.retry, s.claims[a].job, o)
    ensures Evolves(s.db, Report(s, s.claims[a], o).db)
    ensures SysInv(policy, Report(s, s.claims[a], o))
  {
    hide DbInv, Evolves, QueuesFit, TakeoversFit, ReceiptsFit, TryFinish;
    var c := s.claims[a];
    FinishSafe(policy.retry, s.db, c.jobId, c.job, a, c.attempt, o);
    CommitSafe(policy, s, Report(s, c, o).db);
  }

  lemma WriteSafe(policy: Policy, s: Sys, w: WorkerId, write: WorkerWrite)
    requires SysInv(policy, s)
    ensures Evolves(s.db, TryWrite(s.db, w, write))
    ensures SysInv(policy, s.(db := TryWrite(s.db, w, write)))
  {
    hide DbInv, Evolves, MemoryFits, TryWrite;
    WorkerWriteKeeps(policy.retry, s.db, w, write);
    WriteEvolves(s.db, w, write);
    CommitSafe(policy, s, TryWrite(s.db, w, write));
  }

  lemma JobRowFits(policy: Policy, s: Sys, j: JobId)
    requires SysInv(policy, s) && j in s.db.jobs
    ensures JobFits(s.db.jobs[j])
  {
    hide MemoryFits, AttemptsFit, NumbersUnique, NumbersPresent, KeysUnique, Spaced, RetryWaits, LogsReplay;
  }

  // The unique constraint on (jobId, attemptNumber) never rejects a claim: only an
  // unregistered worker or a reused attempt id could.
  lemma ClaimNeverCollides(policy: Policy, s: Sys, j: JobId, w: WorkerId, a: AttemptId)
    requires SysInv(policy, s) && j in s.db.jobs
    ensures ClaimAllowed(s.db, j, w, a) <==> w in s.db.workers && a !in s.db.attempts
  {
    hide MemoryFits, KeysUnique, Spaced, RetryWaits, LogsReplay, NumbersUnique, NumbersPresent, JobsFit;
    NextNumberFree(s.db, j);
  }

  // ---- recovery loops ----

  // A loop that has not taken over a worker, or keeps the takeover it has, may change phase.
  lemma PhaseSafe(policy: Policy, s: Sys, l: LoopId, phase: LoopPhase)
    requires SysInv(policy, s) && l in s.loops
    requires phase.Skipped? || TookOver(s.loops[l])
    requires phase.Recovering? ==> QueueFits(s.db, phase.queue)
    ensures SysInv(policy, SetPhase(s, l, phase))
  {
    hide DbInv, ClaimsFit, ReceiptsFit, QueueFits;
  }

  lemma LoopStartSafe(policy: Policy, s: Sys, l: LoopId, w: WorkerId, t: Time)
    requires SysInv(policy, s) && l !in s.loops
    ensures SysInv(policy, s.(loops := s.loops[l := Loop(w, t, Marking)]))
  {
    hide DbInv, ClaimsFit, ReceiptsFit, QueueFits;
  }

  // The guard on UNHEALTHY admits only workers nobody has taken over.
  lemma TakeoverSafe(policy: Policy, s: Sys, l: LoopId, staleBefore: Time)
    requires SysInv(policy, s) && l in s.loops && s.loops[l].phase.Marking?
    requires WriteAllowed(s.db, s.loops[l].workerId, MarkUnhealthy(staleBefore))
    ensures var db' := TryWrite(s.db, s.loops[l].workerId, MarkUnhealthy(staleBefore));
            SysInv(policy, SetPhase(s, l, Reading).(db := db'))
  {
    hide DbInv, ClaimsFit, ReceiptsFit, QueueFits;
    WriteSafe(policy, s, s.loops[l].workerId, MarkUnhealthy(staleBefore));
  }

  // The recovery read finds the open attempt of every job, with the number its job row counts.
  lemma LockedReadFits(db: Db, w: WorkerId, queue: seq<LockedJob>)
    requires RowsFit(db) && IsLockedRead(db, w, queue)
    ensures QueueFits(db, queue)
    ensures forall i :: 0 <= i < |queue| ==> RowFits(db, queue[i]) && CountsValid(queue[i].job)
  {
    forall i | 0 <= i < |queue| ensures RowFits(db, queue[i]) && CountsValid(queue[i].job) {
      assert LockedRow(db, w, queue[i]);
      assert queue[i].jobId in LockedJobs(db, w);
      var a := OpenAttemptExists(db, queue[i].jobId);
    }
  }

  lemma RecoverHeadSafe(policy: Policy, s: Sys, l: LoopId)
    requires SysInv(policy, s) && Ready(s, LoopRecover(l))
    ensures Evolves(s.db, RecoverHead(policy, s, l).db)
    ensures SysInv(policy, RecoverHead(policy, s, l))
  {
    hide DbInv, Evolves, MemoryFits, TryFinish, RecoveryOutcome;
    var loop := s.loops[l];
    var row := loop.phase.queue[0];
    var rest := loop.phase.queue[1..];
    HeadFits(s, l);
    NothingEvolves(s.db);
    PhaseSafe(policy, s, l, Aborted);
    PhaseSafe(policy, s, l, Recovering(rest));
    if FinishAllowed(s.db, row.jobId, loop.workerId, row.attempt.value.0) {
      var (a, attempt) := row.attempt.value;
      var o := RecoveryOutcome(policy.retry, row.job, attempt, loop.recoveredAt);
      RecoveryFits(policy.retry, row.job, attempt, loop.recoveredAt);
      FinishSafe(policy.retry, s.db, row.jobId, row.job, a, attempt, o);
      CommitSafe(policy, SetPhase(s, l, Recovering(rest)), TryFinish(s.db, row.jobId, attempt.worker, a, o));
    }
  }

  lemma RecoveryFits(config: ValidRetryConfig, job: Job, attempt: Attempt, at: Time)
    requires job.attemptCount >= 1
    ensures OutcomeFits(config, job, RecoveryOutcome(config, job, attempt, at))
  {
  }

  lemma HeadFits(s: Sys, l: LoopId)
    requires MemoryFits(s) && l in s.loops && s.loops[l].phase.Recovering? && s.loops[l].phase.queue != []
    ensures RowFits(s.db, s.loops[l].phase.queue[0]) && CountsValid(s.loops[l].phase.queue[0].job)
    ensures QueueFits(s.db, s.loops[l].phase.queue[1..])
  {
  }

  lemma NothingEvolves(db: Db)
    ensures Evolves(db, db)
  {
  }

  lemma LoopStepSafe(policy: Policy, s: Sys, step: Step)
    requires SysInv(policy, s) && Ready(s, step)
    requires step.LoopMark? || step.LoopRead? || step.LoopFinish?
    ensures Evolves(s.db, Apply(policy, s, step).db)
    ensures SysInv(policy, Apply(policy, s, step))
  {
    hide DbInv, Evolves, MemoryFits, WriteAllowed, RowFits;
    NothingEvolves(s.db);
    var l := step.loopId;
    var w := s.loops[l].workerId;
    match step {
      case LoopMark(_) =>
        var write := MarkUnhealthy(s.loops[l].recoveredAt - policy.staleAfterMs);
        WriteEvolves(s.db, w, write);
        if WriteAllowed(s.db, w, write) {
          TakeoverSafe(policy, s, l, write.staleBefore);
        } else {
          PhaseSafe(policy, s, l, Skipped);
        }
      case LoopRead(_, queue) =>
        ReadSafe(policy, s, l, queue);
      case LoopFinish(_) =>
        var write := MarkRecovered(s.loops[l].recoveredAt);
        var phase := if WriteAllowed(s.db, w, write) then Done else Aborted;
        PhaseSafe(policy, s, l, phase);
        WriteSafe(policy, SetPhase(s, l, phase), w, write);
    }
  }

  lemma ReadSafe(policy: Policy, s: Sys, l: LoopId, queue: seq<LockedJob>)
    requires SysInv(policy, s) && Ready(s, LoopRead(l, queue))
    ensures SysInv(policy, SetPhase(s, l, Recovering(queue)))
  {
    hide JobsFit, AttemptsFit, NumbersUnique, NumbersPresent, KeysUnique, Spaced, RetryWaits, LogsReplay;
    hide MemoryFits, IsLockedRead, RowFits;
    LockedReadFits(s.db, s.loops[l].workerId, queue);
    PhaseSafe(policy, s, l, Recovering(queue));
  }

  // Every step keeps the invariant and only evolves the rows.
  lemma StepSafe(policy: Policy, s: Sys, step: Step)
    requires SysInv(policy, s)
    ensures SysInv(policy, Apply(policy, s, step))
    ensures Evolves(s.db, Apply(policy, s, step).db)
  {
    hide DbInv, Evolves, QueuesFit, TakeoversFit, ReceiptsFit, RecoverHead, StartClaim, Report, TryFinish;
    NothingEvolves(s.db);
    if Ready(s, step) {
      match step {
        case SubmitFind(u, key, j) => ReceiptSafe(policy, s, u, Some(key), j);
        case SubmitCreate(u, input, now, j, createdAt) =>
          if CreateAllowed(s.db, j, u, input.idempotencyKey) {
            CreateSafe(policy, s, u, input, now, j, createdAt);
          }
        case Cancel(u, j, at) => CancelSafe(policy, s, u, j, at);
        case ClaimNext(j, w, a, at) =>
          if ClaimAllowed(s.db, j, w, a) {
            ClaimSafe(policy, s, j, w, a, at);
          }
        case ReportSuccess(a, at, ms) => ReportSafe(policy, s, a, Complete(at, ms));
        case ReportFailure(a, at, ms, error) =>
          DecisionFits(policy.retry, s.claims[a].job, at, ms, error, false);
          ReportSafe(policy, s, a, FailureOutcome(policy.retry, s.claims[a].job, at, ms, error));
        case Register(w, at) => RegisterSafe(policy, s, w, at);
        case WriteWorker(w, write) => WriteSafe(policy, s, w, write);
        case LoopStart(l, w, at) => LoopStartSafe(policy, s, l, w, at);
        case LoopRecover(l) => RecoverHeadSafe(policy, s, l);
        case LoopMark(_) => LoopStepSafe(policy, s, step);
        case LoopRead(_, _) => LoopStepSafe(policy, s, step);
        case LoopFinish(_) => LoopStepSafe(policy, s, step);
      }
    }
  }

  lemma CancelSafe(policy: Policy, s: Sys, u: UserId, j: JobId, at: Time)
    requires SysInv(policy, s)
    ensures Evolves(s.db, TryCancel(s.db, u, j, at))
    ensures SysInv(policy, s.(db := TryCancel(s.db, u, j, at)))
  {
    hide NumbersUnique, NumbersPresent, KeysUnique, Spaced, RetryWaits, LogsReplay, AttemptsFit, JobsFit;
    hide Evolves, MemoryFits, TryCancel;
    CancelKeeps(policy.retry, s.db, u, j, at);
    CancelEvolves(s.db, u, j, at);
    CommitSafe(policy, s, TryCancel(s.db, u, j, at));
  }

  lemma RegisterSafe(policy: Policy, s: Sys, w: WorkerId, at: Time)
    requires SysInv(policy, s)
    ensures Evolves(s.db, TryRegister(s.db, w, at))
    ensures SysInv(policy, s.(db := TryRegister(s.db, w, at)))
  {
    hide DbInv, Evolves, MemoryFits, TryRegister;
    RegisterKeeps(policy.retry, s.db, w, at);
    RegisterEvolves(s.db, w, at);
    CommitSafe(policy, s, TryRegister(s.db, w, at));
  }

  // Every state of every run satisfies the invariant, and its rows evolved from those before it.
  lemma {:induction false} RunSafe(policy: Policy, s: Sys, steps: seq<Step>)
    requires SysInv(policy, s)
    ensures SysInv(policy, Run(policy, s, steps))
    ensures Evolves(s.db, Run(policy, s, steps).db)
    decreases |steps|
  {
    hide SysInv, Evolves, Apply;
    if steps == [] {
      NothingEvolves(s.db);
    } else {
      var s1 := Apply(policy, s, steps[0]);
      StepSafe(policy, s, steps[0]);
      RunSafe(policy, s1, steps[1..]);
      EvolvesTransitive(s.db, s1.db, Run(policy, s, steps).db);
    }
  }

  lemma ReachableSafe(policy: Policy, s: Sys)
    requires Reachable(policy, s)
    ensures SysInv(policy, s)
  {
    hide Apply;
    var steps :| Run(policy, INIT, steps) == s;
    RunSafe(policy, INIT, steps);
  }
}
