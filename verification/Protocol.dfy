// The whole job queue as one state machine. Every step is one database transaction, with
// the decisions processes take from rows they still hold in memory. A step whose guard
// fails changes nothing: the transaction rolls back or its update matches no row.
module Protocol {
  import opened Wrappers
  import opened Records
  import opened Backoff
  import opened Transactions
  import opened Decisions

  datatype Policy = Policy(retry: ValidRetryConfig, staleAfterMs: nat)

  // The range createJobSchema accepts for maxAttempts.
  type AttemptLimit = n: nat | 1 <= n <= 10 witness 3

  datatype JobInput = JobInput(priority: Priority, idempotencyKey: Option<string>,
                               maxAttempts: AttemptLimit, availableAt: Option<Time>)

  type LoopId = nat

  // One call of recoverWorker, at its await points.
  datatype LoopPhase =
    | Marking
    | Reading
    | Recovering(queue: seq<LockedJob>)
    | Done
    | Skipped
    | Aborted

  datatype Loop = Loop(workerId: WorkerId, recoveredAt: Time, phase: LoopPhase)

  // A createJob call that returned a job.
  datatype Receipt = Receipt(userId: UserId, idempotencyKey: string, jobId: JobId)

  // Claims are never dropped: a process may hold one for any length of time, use it
  // again after a failed call, or crash and never use it.
  datatype Sys = Sys(db: Db, claims: map<AttemptId, Claim>, loops: map<LoopId, Loop>, receipts: set<Receipt>)

  const INIT := Sys(EMPTY_DB, map[], map[], {})

  datatype Step =
    | SubmitFind(userId: UserId, idempotencyKey: string, found: JobId)
    | SubmitCreate(userId: UserId, input: JobInput, now: Time, jobId: JobId, createdAt: Time)
    | Cancel(userId: UserId, jobId: JobId, at: Time)
    | ClaimNext(jobId: JobId, workerId: WorkerId, attemptId: AttemptId, at: Time)
    | ReportSuccess(attemptId: AttemptId, at: Time, durationMs: nat)
    | ReportFailure(attemptId: AttemptId, at: Time, durationMs: nat, error: string)
    | Register(workerId: WorkerId, at: Time)
    | WriteWorker(workerId: WorkerId, write: WorkerWrite)
    | LoopStart(loopId: LoopId, workerId: WorkerId, at: Time)
    | LoopMark(loopId: LoopId)
    | LoopRead(loopId: LoopId, queue: seq<LockedJob>)
    | LoopRecover(loopId: LoopId)
    | LoopFinish(loopId: LoopId)

  function JobFromInput(userId: UserId, input: JobInput, now: Time, createdAt: Time): Job {
    var availableAt := if input.availableAt.Some? then input.availableAt.value else now;
    NewJob(userId, input.idempotencyKey, input.priority, InitialStatus(availableAt, now),
           input.maxAttempts, availableAt, createdAt)
  }

  function ReceiptFor(userId: UserId, key: Option<string>, jobId: JobId): set<Receipt> {
    if key.Some? then {Receipt(userId, key.value, jobId)} else {}
  }

  function StartClaim(s: Sys, jobId: JobId, workerId: WorkerId, attemptId: AttemptId, at: Time): Sys
    requires jobId in s.db.jobs
  {
    var db' := Claimed(s.db, jobId, workerId, attemptId, at);
    s.(db := db',
       claims := s.claims[attemptId := Claim(jobId, db'.jobs[jobId], attemptId, db'.attempts[attemptId])])
  }

  function Report(s: Sys, claim: Claim, o: Outcome): Sys {
    s.(db := TryFinish(s.db, claim.jobId, claim.attempt.worker, claim.attemptId, o))
  }

  function SetPhase(s: Sys, loopId: LoopId, phase: LoopPhase): Sys
    requires loopId in s.loops
  {
    s.(loops := s.loops[loopId := s.loops[loopId].(phase := phase)])
  }

  // recoverLockedJob applied to the head of the queue.
  function RecoverHead(policy: Policy, s: Sys, loopId: LoopId): Sys
    requires loopId in s.loops && s.loops[loopId].phase.Recovering? && s.loops[loopId].phase.queue != []
  {
    var loop := s.loops[loopId];
    var row := loop.phase.queue[0];
    if row.attempt.None? || !CountsValid(row.job) then SetPhase(s, loopId, Aborted)
    else if !FinishAllowed(s.db, row.jobId, loop.workerId, row.attempt.value.0) then SetPhase(s, loopId, Aborted)
    else
      var o := RecoveryOutcome(policy.retry, row.job, row.attempt.value.1, loop.recoveredAt);
      SetPhase(s, loopId, Recovering(loop.phase.queue[1..]))
        .(db := TryFinish(s.db, row.jobId, loop.workerId, row.attempt.value.0, o))
  }

  // The worker process never issues the two recovery writes itself.
  predicate LifecycleWrite(write: WorkerWrite) {
    !write.MarkUnhealthy? && !write.MarkRecovered?
  }

  // Whether the process that takes this step is at the point where it may take it.
  ghost predicate Ready(s: Sys, step: Step) {
    match step
    case SubmitFind(u, key, j) =>
      j in s.db.jobs && s.db.jobs[j].userId == u && s.db.jobs[j].idempotencyKey == Some(key)
    case ClaimNext(j, _, _, at) => j in s.db.jobs && Claimable(s.db.jobs[j], at)
    case ReportSuccess(a, _, _) => a in s.claims
    case ReportFailure(a, _, _, _) => a in s.claims && CountsValid(s.claims[a].job)
    case WriteWorker(_, write) => LifecycleWrite(write)
    case LoopStart(l, _, _) => l !in s.loops
    case LoopMark(l) => l in s.loops && s.loops[l].phase.Marking?
    case LoopRead(l, queue) => l in s.loops && s.loops[l].phase.Reading? &&
        IsLockedRead(s.db, s.loops[l].workerId, queue)
    case LoopRecover(l) => l in s.loops && s.loops[l].phase.Recovering? && s.loops[l].phase.queue != []
    case LoopFinish(l) => l in s.loops && s.loops[l].phase == Recovering([])
    case _ => true
  }

  ghost function Apply(policy: Policy, s: Sys, step: Step): Sys {
    if !Ready(s, step) then s else
    match step
    case SubmitFind(u, key, j) => s.(receipts := s.receipts + {Receipt(u, key, j)})
    case SubmitCreate(u, input, now, j, createdAt) =>
      if CreateAllowed(s.db, j, u, input.idempotencyKey)
      then s.(db := Created(s.db, j, JobFromInput(u, input, now, createdAt)),
              receipts := s.receipts + ReceiptFor(u, input.idempotencyKey, j))
      else s
    case Cancel(u, j, at) => s.(db := TryCancel(s.db, u, j, at))
    case ClaimNext(j, w, a, at) => if ClaimAllowed(s.db, j, w, a) then StartClaim(s, j, w, a, at) else s
    case ReportSuccess(a, at, ms) => Report(s, s.claims[a], Complete(at, ms))
    case ReportFailure(a, at, ms, error) =>
      Report(s, s.claims[a], FailureOutcome(policy.retry, s.claims[a].job, at, ms, error))
    case Register(w, at) => s.(db := TryRegister(s.db, w, at))
    case WriteWorker(w, write) => s.(db := TryWrite(s.db, w, write))
    case LoopStart(l, w, at) => s.(loops := s.loops[l := Loop(w, at, Marking)])
    case LoopMark(l) =>
      var write := MarkUnhealthy(s.loops[l].recoveredAt - policy.staleAfterMs);
      SetPhase(s, l, if WriteAllowed(s.db, s.loops[l].workerId, write) then Reading else Skipped)
        .(db := TryWrite(s.db, s.loops[l].workerId, write))
    case LoopRead(l, queue) => SetPhase(s, l, Recovering(queue))
    case LoopRecover(l) => RecoverHead(policy, s, l)
    case LoopFinish(l) =>
      var write := MarkRecovered(s.loops[l].recoveredAt);
      SetPhase(s, l, if WriteAllowed(s.db, s.loops[l].workerId, write) then Done else Aborted)
        .(db := TryWrite(s.db, s.loops[l].workerId, write))
  }

  // Any interleaving of any number of workers, recovery loops and API callers.
  ghost function Run(policy: Policy, s: Sys, steps: seq<Step>): Sys
    decreases |steps|
  {
    if steps == [] then s else Run(policy, Apply(policy, s, steps[0]), steps[1..])
  }

  ghost predicate Reachable(policy: Policy, s: Sys) {
    exists steps :: Run(policy, INIT, steps) == s
  }

  lemma {:induction false} RunConcat(policy: Policy, s: Sys, xs: seq<Step>, ys: seq<Step>)
    ensures Run(policy, s, xs + ys) == Run(policy, Run(policy, s, xs), ys)
    decreases |xs|
  {
    hide Apply;
    if xs == [] {
      assert xs + ys == ys;
    } else {
      assert (xs + ys)[1..] == xs[1..] + ys;
      RunConcat(policy, Apply(policy, s, xs[0]), xs[1..], ys);
    }
  }

  lemma RunSnoc(policy: Policy, s: Sys, steps: seq<Step>, step: Step)
    ensures Run(policy, s, steps + [step]) == Apply(policy, Run(policy, s, steps), step)
  {
    hide Apply;
    RunConcat(policy, s, steps, [step]);
    var s1 := Run(policy, s, steps);
    assert Run(policy, s1, [step]) == Run(policy, Apply(policy, s1, step), [step][1..]);
  }

  lemma ReachableRun(policy: Policy, s: Sys, steps: seq<Step>)
    requires Reachable(policy, s)
    ensures Reachable(policy, Run(policy, s, steps))
  {
    hide Apply;
    var before :| Run(policy, INIT, before) == s;
    RunConcat(policy, INIT, before, steps);
  }

  lemma ReachableStep(policy: Policy, s: Sys, step: Step)
    requires Reachable(policy, s)
    ensures Reachable(policy, Apply(policy, s, step))
  {
    hide Apply;
    var steps :| Run(policy, INIT, steps) == s;
    RunSnoc(policy, INIT, steps, step);
  }

  lemma InitReachable(policy: Policy)
    ensures Reachable(policy, INIT)
  {
    hide Apply;
    assert Run(policy, INIT, []) == INIT;
  }
}
