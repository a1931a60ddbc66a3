// What each step of a run writes, column by column and in the source's own constants.
module Effects {
  import opened Wrappers
  import opened Records
  import opened Backoff
  import opened Transactions
  import opened Decisions
  import opened Invariants
  import opened Evolution
  import opened Protocol
  import opened Safety

  // ---- the rows a claim or a recovery call holds ----

  ghost predicate QueueOwned(loop: Loop) {
    loop.phase.Recovering? ==>
      forall i :: 0 <= i < |loop.phase.queue| && loop.phase.queue[i].attempt.Some? ==>
        loop.phase.queue[i].attempt.value.1.worker == loop.workerId
  }

  ghost predicate QueuesOwned(loops: map<LoopId, Loop>) {
    forall l :: l in loops ==> QueueOwned(loops[l])
  }

  lemma StepOwned(policy: Policy, s: Sys, step: Step)
    requires QueuesOwned(s.loops)
    ensures QueuesOwned(Apply(policy, s, step).loops)
  {
    hide Claimed, Created, TryFinish, TryCancel, TryWrite, TryRegister, ClaimAllowed, CreateAllowed, WriteAllowed;
    hide FinishAllowed, RecoveryOutcome, FailureOutcome;
    if step.LoopRead? && Ready(s, step) {
      forall i | 0 <= i < |step.queue| ensures LockedRow(s.db, s.loops[step.loopId].workerId, step.queue[i]) {
      }
    } else {
      hide IsLockedRead;
    }
  }

  lemma {:induction false} RunOwned(policy: Policy, s: Sys, steps: seq<Step>)
    requires QueuesOwned(s.loops)
    ensures QueuesOwned(Run(policy, s, steps).loops)
    decreases |steps|
  {
    hide Apply, QueuesOwned;
    if steps != [] {
      StepOwned(policy, s, steps[0]);
      RunOwned(policy, Apply(policy, s, steps[0]), steps[1..]);
    }
  }

  lemma ReachableOwned(policy: Policy, s: Sys)
    requires Reachable(policy, s)
    ensures QueuesOwned(s.loops)
  {
    hide Apply;
    var steps :| Run(policy, INIT, steps) == s;
    RunOwned(policy, INIT, steps);
  }

  predicate IsOpen(db: Db, a: AttemptId) {
    a in db.attempts && db.attempts[a].status == AttemptProcessing
  }

  lemma OpenFacts(policy: Policy, s: Sys, a: AttemptId)
    requires Reachable(policy, s) && IsOpen(s.db, a)
    ensures s.db.attempts[a].jobId in s.db.jobs
    ensures FinishAllowed(s.db, s.db.attempts[a].jobId, s.db.attempts[a].worker, a)
    ensures var job := s.db.jobs[s.db.attempts[a].jobId];
            s.db.attempts[a].number == job.attemptCount && 1 <= job.attemptCount <= job.maxAttempts
  {
    hide Apply, MemoryFits, KeysUnique, Spaced, RetryWaits, LogsReplay, NumbersUnique, NumbersPresent;
    ReachableSafe(policy, s);
    assert JobFits(s.db.jobs[s.db.attempts[a].jobId]);
  }

  // A claim or a recovery row of an open attempt is of the attempt's job and worker, and
  // counts as the job does.
  lemma ClaimFacts(policy: Policy, s: Sys, a: AttemptId)
    requires Reachable(policy, s) && a in s.claims
    ensures a in s.db.attempts && CountsValid(s.claims[a].job) && s.claims[a].attemptId == a
    ensures s.claims[a].jobId == s.db.attempts[a].jobId && s.claims[a].attempt.worker == s.db.attempts[a].worker
    ensures s.claims[a].job.attemptCount == s.db.attempts[a].number
    ensures s.claims[a].jobId in s.db.jobs && s.claims[a].job.maxAttempts == s.db.jobs[s.claims[a].jobId].maxAttempts
  {
    hide Apply, DbInv, QueuesFit, TakeoversFit, ReceiptsFit;
    ReachableSafe(policy, s);
  }

  ghost predicate Recovers(s: Sys, l: LoopId, a: AttemptId) {
    && l in s.loops && s.loops[l].phase.Recovering? && s.loops[l].phase.queue != []
    && s.loops[l].phase.queue[0].attempt.Some? && s.loops[l].phase.queue[0].attempt.value.0 == a
  }

  lemma RecoveryFacts(policy: Policy, s: Sys, l: LoopId, a: AttemptId)
    requires Reachable(policy, s) && Recovers(s, l, a)
    ensures var row := s.loops[l].phase.queue[0];
            && a in s.db.attempts && CountsValid(row.job)
            && row.jobId == s.db.attempts[a].jobId && s.loops[l].workerId == s.db.attempts[a].worker
            && row.attempt.value.1.startedAt == s.db.attempts[a].startedAt
            && row.job.attemptCount == s.db.attempts[a].number
            && row.jobId in s.db.jobs && row.job.maxAttempts == s.db.jobs[row.jobId].maxAttempts
  {
    hide Apply, DbInv, ClaimsFit, TakeoversFit, ReceiptsFit;
    ReachableSafe(policy, s);
    ReachableOwned(policy, s);
    HeadFits(s, l);
  }

  // ---- how an attempt ends ----

  // The holder of an open attempt reports success.
  lemma SuccessEffect(policy: Policy, s: Sys, a: AttemptId, at: Time, ms: nat)
    requires Reachable(policy, s) && a in s.claims && IsOpen(s.db, a)
    ensures var x := s.db.attempts[a];
            var j := x.jobId;
            && j in s.db.jobs
            && Apply(policy, s, ReportSuccess(a, at, ms)) == s.(db := s.db.(
                 jobs := s.db.jobs[j := s.db.jobs[j].(status := Completed, completedAt := Some(at), lastError := None,
                                                      lockedAt := None, lockedBy := None)],
                 attempts := s.db.attempts[a := x.(status := AttemptCompleted, finishedAt := Some(at),
                                                   durationMs := Some(ms), error := None)],
                 logs := s.db.logs[j := LogOf(s.db, j) + [JobCompleted(x.worker, a, ms)]]))
  {
    OpenFacts(policy, s, a);
    ClaimFacts(policy, s, a);
    hide Reachable, RecoverHead, FinishAllowed;
  }

  // It reports a failure: a retry after the backoff, or the dead letter once no attempt is left.
  lemma FailureEffect(policy: Policy, s: Sys, a: AttemptId, at: Time, ms: nat, error: string)
    requires Reachable(policy, s) && a in s.claims && IsOpen(s.db, a)
    ensures var x := s.db.attempts[a];
            var j := x.jobId;
            && j in s.db.jobs && x.number >= 1
            && var retries := x.number < s.db.jobs[j].maxAttempts;
            var retryAt := at + RetryDelay(policy.retry, x.number);
            var job := s.db.jobs[j].(status := if retries then Retrying else DeadLetter, lastError := Some(error),
                                     lockedAt := None, lockedBy := None);
            Apply(policy, s, ReportFailure(a, at, ms, error)) == s.(db := s.db.(
              jobs := s.db.jobs[j := if retries then job.(availableAt := retryAt) else job],
              attempts := s.db.attempts[a := x.(status := AttemptFailed, finishedAt := Some(at),
                                                durationMs := Some(ms), error := Some(error))],
              logs := s.db.logs[j := LogOf(s.db, j) +
                [if retries then JobRetrying(x.worker, a, retryAt, error, false)
                 else JobDeadLettered(x.worker, a, error, false)]]))
  {
    OpenFacts(policy, s, a);
    ClaimFacts(policy, s, a);
    hide Reachable, RecoverHead, FinishAllowed, RetryDelay;
  }

  // A recovery call comes to it: timed out, with the clock of the call and the stale text.
  lemma RecoveryEffect(policy: Policy, s: Sys, l: LoopId, a: AttemptId)
    requires Reachable(policy, s) && Recovers(s, l, a) && IsOpen(s.db, a)
    ensures var x := s.db.attempts[a];
            var j := x.jobId;
            && j in s.db.jobs && x.number >= 1
            && var at := s.loops[l].recoveredAt;
            var ms := if at >= x.startedAt then at - x.startedAt else 0;
            var error := "Job execution timed out because the owning worker stopped sending heartbeats.";
            var retries := x.number < s.db.jobs[j].maxAttempts;
            var retryAt := at + RetryDelay(policy.retry, x.number);
            var job := s.db.jobs[j].(status := if retries then Retrying else DeadLetter, lastError := Some(error),
                                     lockedAt := None, lockedBy := None);
            Apply(policy, s, LoopRecover(l)) == s.(
              db := s.db.(
                jobs := s.db.jobs[j := if retries then job.(availableAt := retryAt) else job],
                attempts := s.db.attempts[a := x.(status := AttemptTimedOut, finishedAt := Some(at),
                                                  durationMs := Some(ms), error := Some(error))],
                logs := s.db.logs[j := LogOf(s.db, j) +
                  [if retries then JobRetrying(x.worker, a, retryAt, error, true)
                   else JobDeadLettered(x.worker, a, error, true)]]),
              loops := s.loops[l := s.loops[l].(phase := Recovering(s.loops[l].phase.queue[1..]))])
  {
    OpenFacts(policy, s, a);
    RecoveryFacts(policy, s, l, a);
    hide Reachable, FinishAllowed, RetryDelay;
  }

  // A report on a closed attempt does nothing, and a recovery call that comes to one aborts.
  lemma LateEffect(policy: Policy, s: Sys, step: Step, a: AttemptId)
    requires Reachable(policy, s) && !IsOpen(s.db, a)
    requires ((step.ReportSuccess? || step.ReportFailure?) && step.attemptId == a && a in s.claims) ||
             (step.LoopRecover? && Recovers(s, step.loopId, a))
    ensures Apply(policy, s, step) ==
            if step.LoopRecover?
            then s.(loops := s.loops[step.loopId := s.loops[step.loopId].(phase := Aborted)])
            else s
  {
    if step.LoopRecover? {
      RecoveryFacts(policy, s, step.loopId, a);
    } else {
      ClaimFacts(policy, s, a);
    }
    hide Reachable, RetryDelay;
  }

  // ---- claims, submissions, cancellations ----

  // A claim step claims a waiting, available, unlocked job for a registered worker, and
  // otherwise does nothing.
  lemma ClaimEffect(policy: Policy, s: Sys, j: JobId, w: WorkerId, a: AttemptId, at: Time)
    requires Reachable(policy, s)
    ensures Apply(policy, s, ClaimNext(j, w, a, at)) ==
            if j in s.db.jobs && s.db.jobs[j].status in {Scheduled, Queued, Retrying} &&
               s.db.jobs[j].availableAt <= at && s.db.jobs[j].lockedBy.None? &&
               w in s.db.workers && a !in s.db.attempts
            then
              var n := s.db.jobs[j].attemptCount + 1;
              var job := s.db.jobs[j].(status := Processing, lockedAt := Some(at), lockedBy := Some(w),
                                       attemptCount := n);
              var attempt := Attempt(j, n, w, AttemptProcessing, at, None, None, None);
              s.(db := s.db.(jobs := s.db.jobs[j := job], attempts := s.db.attempts[a := attempt],
                             logs := s.db.logs[j := LogOf(s.db, j) + [JobProcessing(w, a, n)]]),
                 claims := s.claims[a := Claim(j, job, a, attempt)])
            else s
  {
    hide Apply, SysInv, NumberTaken;
    ReachableSafe(policy, s);
    if j in s.db.jobs {
      ClaimNeverCollides(policy, s, j, w, a);
      hide ClaimAllowed;
      if Claimable(s.db.jobs[j], at) && ClaimAllowed(s.db, j, w, a) {
        ClaimGoes(policy, s, j, w, a, at);
        return;
      }
    }
    hide ClaimAllowed;
    ClaimRefused(policy, s, j, w, a, at);
  }

  lemma ClaimGoes(policy: Policy, s: Sys, j: JobId, w: WorkerId, a: AttemptId, at: Time)
    requires j in s.db.jobs && Claimable(s.db.jobs[j], at) && ClaimAllowed(s.db, j, w, a)
    ensures Apply(policy, s, ClaimNext(j, w, a, at)) == (
              var n := s.db.jobs[j].attemptCount + 1;
              var job := s.db.jobs[j].(status := Processing, lockedAt := Some(at), lockedBy := Some(w),
                                       attemptCount := n);
              var attempt := Attempt(j, n, w, AttemptProcessing, at, None, None, None);
              s.(db := s.db.(jobs := s.db.jobs[j := job], attempts := s.db.attempts[a := attempt],
                             logs := s.db.logs[j := LogOf(s.db, j) + [JobProcessing(w, a, n)]]),
                 claims := s.claims[a := Claim(j, job, a, attempt)]))
  {
    hide RecoverHead, NumberTaken;
  }

  lemma ClaimRefused(policy: Policy, s: Sys, j: JobId, w: WorkerId, a: AttemptId, at: Time)
    requires !(j in s.db.jobs && Claimable(s.db.jobs[j], at) && ClaimAllowed(s.db, j, w, a))
    ensures Apply(policy, s, ClaimNext(j, w, a, at)) == s
  {
    hide RecoverHead, ClaimAllowed, Claimable;
  }

  // A submission stores the requested columns, and a later availability makes it SCHEDULED.
  lemma CreateEffect(policy: Policy, s: Sys, u: UserId, input: JobInput, now: Time, j: JobId, createdAt: Time)
    ensures var taken := input.idempotencyKey.Some? &&
              exists k :: k in s.db.jobs && s.db.jobs[k].userId == u &&
                          s.db.jobs[k].idempotencyKey == input.idempotencyKey;
            var at := if input.availableAt.Some? then input.availableAt.value else now;
            Apply(policy, s, SubmitCreate(u, input, now, j, createdAt)) ==
            if j !in s.db.jobs && !taken
            then s.(db := s.db.(
                      jobs := s.db.jobs[j := Job(u, input.idempotencyKey, input.priority,
                                                 if at > now then Scheduled else Queued, input.maxAttempts, 0, at,
                                                 createdAt, None, None, None, None, None)],
                      logs := s.db.logs[j := LogOf(s.db, j) + [if at > now then JobScheduled(at) else JobQueued(at)]]),
                    receipts := if input.idempotencyKey.Some?
                                then s.receipts + {Receipt(u, input.idempotencyKey.value, j)} else s.receipts)
            else s
  {
    hide RecoverHead;
    assert s.receipts + {} == s.receipts;
  }

  lemma CancelEffect(policy: Policy, s: Sys, u: UserId, j: JobId, at: Time)
    ensures Apply(policy, s, Cancel(u, j, at)) ==
            if j in s.db.jobs && s.db.jobs[j].userId == u && s.db.jobs[j].status in {Scheduled, Queued, Retrying}
            then s.(db := s.db.(jobs := s.db.jobs[j :=
                   s.db.jobs[j].(status := Cancelled, cancelledAt := Some(at), lockedAt := None, lockedBy := None)]))
            else s
  {
    hide RecoverHead;
  }

  // ---- workers ----

  // Which statuses each worker write admits, and what it stores.
  lemma WorkerEffect(policy: Policy, s: Sys, w: WorkerId, write: WorkerWrite)
    requires !write.MarkUnhealthy? && !write.MarkRecovered?
    ensures Apply(policy, s, WriteWorker(w, write)) ==
            if w in s.db.workers &&
               match write {
                 case MarkOnline(_) => s.db.workers[w].status == Starting
                 case MarkBusy(_) => s.db.workers[w].status == Online
                 case MarkAvailable(_) => s.db.workers[w].status == Busy
                 case Heartbeat(_) => s.db.workers[w].status in {Starting, Online, Busy, Stopping}
                 case MarkStopping(_) => s.db.workers[w].status in {Starting, Online, Busy, Unhealthy}
                 case _ => s.db.workers[w].status == Stopping
               }
            then s.(db := s.db.(workers := s.db.workers[w :=
                   match write {
                     case MarkOnline(at) => s.db.workers[w].(status := Online, lastHeartbeatAt := at)
                     case MarkBusy(at) => s.db.workers[w].(status := Busy, lastHeartbeatAt := at)
                     case MarkAvailable(at) => s.db.workers[w].(status := Online, lastHeartbeatAt := at)
                     case Heartbeat(at) => s.db.workers[w].(lastHeartbeatAt := at)
                     case MarkStopping(at) => s.db.workers[w].(status := Stopping, lastHeartbeatAt := at)
                     case MarkOffline(at) =>
                       s.db.workers[w].(status := Offline, lastHeartbeatAt := at, stoppedAt := Some(at))
                     case _ => s.db.workers[w]
                   }]))
            else s
  {
    hide RecoverHead;
  }

  lemma RegisterEffect(policy: Policy, s: Sys, w: WorkerId, at: Time)
    ensures Apply(policy, s, Register(w, at)) ==
            if w in s.db.workers then s
            else s.(db := s.db.(workers := s.db.workers[w := Worker(Starting, at, at, None)]))
  {
    hide RecoverHead;
  }

  // A recovery call takes over a worker that still looks alive but has been silent for
  // staleAfterMs, and gives up any other.
  lemma MarkEffect(policy: Policy, s: Sys, l: LoopId)
    requires l in s.loops && s.loops[l].phase.Marking?
    ensures var w := s.loops[l].workerId;
            Apply(policy, s, LoopMark(l)) ==
            if w in s.db.workers && s.db.workers[w].status in {Starting, Online, Busy} &&
               s.loops[l].recoveredAt - s.db.workers[w].lastHeartbeatAt >= policy.staleAfterMs
            then s.(db := s.db.(workers := s.db.workers[w := s.db.workers[w].(status := Unhealthy)]),
                    loops := s.loops[l := s.loops[l].(phase := Reading)])
            else s.(loops := s.loops[l := s.loops[l].(phase := Skipped)])
  {
    hide RecoverHead;
  }

  // The end of a recovery call that recovered every job it read.
  lemma FinishEffect(policy: Policy, s: Sys, l: LoopId)
    requires l in s.loops && s.loops[l].phase == Recovering([])
    ensures var w := s.loops[l].workerId;
            Apply(policy, s, LoopFinish(l)) ==
            if w in s.db.workers && s.db.workers[w].status == Unhealthy
            then s.(db := s.db.(workers := s.db.workers[w :=
                      s.db.workers[w].(status := Offline, stoppedAt := Some(s.loops[l].recoveredAt))]),
                    loops := s.loops[l := s.loops[l].(phase := Done)])
            else s.(loops := s.loops[l := s.loops[l].(phase := Aborted)])
  {
    hide RecoverHead;
  }

  // A recovery call marks, reads, recovers and finishes in that order: a step out of turn
  // does nothing, so the worker goes OFFLINE only after every job that was read.
  lemma OutOfTurn(policy: Policy, s: Sys, step: Step)
    requires step.LoopMark? || step.LoopRead? || step.LoopRecover? || step.LoopFinish?
    requires step.loopId in s.loops ==>
               match step
               case LoopMark(l) => !s.loops[l].phase.Marking?
               case LoopRead(l, _) => !s.loops[l].phase.Reading?
               case LoopRecover(l) => !(s.loops[l].phase.Recovering? && s.loops[l].phase.queue != [])
               case LoopFinish(l) => s.loops[l].phase != Recovering([])
               case _ => true
    ensures Apply(policy, s, step) == s
  {
    hide RecoverHead, IsLockedRead;
  }

  lemma ReadEffect(policy: Policy, s: Sys, l: LoopId, queue: seq<LockedJob>)
    requires l in s.loops && s.loops[l].phase.Reading? && IsLockedRead(s.db, s.loops[l].workerId, queue)
    ensures Apply(policy, s, LoopRead(l, queue)) ==
            s.(loops := s.loops[l := s.loops[l].(phase := Recovering(queue))])
    ensures forall j :: (exists i :: 0 <= i < |queue| && queue[i].jobId == j) <==>
              j in s.db.jobs && s.db.jobs[j].status == Processing &&
              s.db.jobs[j].lockedBy == Some(s.loops[l].workerId)
  {
    assert forall j :: j in LockedJobs(s.db, s.loops[l].workerId) <==>
                       j in s.db.jobs && OwnsJob(s.db, j, s.loops[l].workerId);
    hide RecoverHead, LockedRow;
  }

  // ---- over whole runs: how each attempt ended ----

  // The open attempts a step closes.
  ghost predicate Closing(s: Sys, step: Step, a: AttemptId) {
    match step
    case ReportSuccess(b, _, _) => b == a && a in s.claims
    case ReportFailure(b, _, _, _) => b == a && a in s.claims
    case LoopRecover(l) => Recovers(s, l, a)
    case _ => false
  }

  lemma OtherSteps(policy: Policy, s: Sys, step: Step, a: AttemptId)
    requires a in s.db.attempts && !step.ReportSuccess? && !step.ReportFailure? && !step.LoopRecover?
    ensures a in Apply(policy, s, step).db.attempts && Apply(policy, s, step).db.attempts[a] == s.db.attempts[a]
  {
    hide IsLockedRead, CreateAllowed, WriteAllowed, NumberTaken, Claimable, RecoverHead;
  }

  lemma OtherReports(policy: Policy, s: Sys, step: Step, a: AttemptId)
    requires Reachable(policy, s) && IsOpen(s.db, a) && !Closing(s, step, a)
    requires step.ReportSuccess? || step.ReportFailure? || step.LoopRecover?
    ensures a in Apply(policy, s, step).db.attempts && Apply(policy, s, step).db.attempts[a] == s.db.attempts[a]
  {
    if step.LoopRecover? {
      if s.loops != map[] && step.loopId in s.loops && s.loops[step.loopId].phase.Recovering? &&
         s.loops[step.loopId].phase.queue != [] && s.loops[step.loopId].phase.queue[0].attempt.Some?
      {
        RecoveryFacts(policy, s, step.loopId, s.loops[step.loopId].phase.queue[0].attempt.value.0);
      }
    } else if step.attemptId in s.claims {
      ClaimFacts(policy, s, step.attemptId);
    }
    hide Reachable, FinishAllowed, RecoveryOutcome, FailureOutcome, FinishedJob, FinishedAttempt, FinishEntry;
  }

  // What the step that closed attempt x left of it.
  ghost predicate EndedBy(s: Sys, step: Step, a: AttemptId, y: Attempt)
    requires a in s.db.attempts
  {
    var x := s.db.attempts[a];
    match step
    case ReportSuccess(b, at, ms) =>
      b == a && y == x.(status := AttemptCompleted, finishedAt := Some(at), durationMs := Some(ms), error := None)
    case ReportFailure(b, at, ms, error) =>
      b == a && y == x.(status := AttemptFailed, finishedAt := Some(at), durationMs := Some(ms), error := Some(error))
    case LoopRecover(l) =>
      && Recovers(s, l, a)
      && var at := s.loops[l].recoveredAt;
      y == x.(status := AttemptTimedOut, finishedAt := Some(at),
              durationMs := Some(if at >= x.startedAt then at - x.startedAt else 0),
              error := Some("Job execution timed out because the owning worker stopped sending heartbeats."))
    case _ => false
  }

  lemma SuccessEnds(policy: Policy, s: Sys, a: AttemptId, at: Time, ms: nat)
    requires Reachable(policy, s) && IsOpen(s.db, a) && a in s.claims
    ensures var s1 := Apply(policy, s, ReportSuccess(a, at, ms));
            a in s1.db.attempts && EndedBy(s, ReportSuccess(a, at, ms), a, s1.db.attempts[a])
  {
    hide Apply, Reachable;
    SuccessEffect(policy, s, a, at, ms);
  }

  lemma FailureEnds(policy: Policy, s: Sys, a: AttemptId, at: Time, ms: nat, error: string)
    requires Reachable(policy, s) && IsOpen(s.db, a) && a in s.claims
    ensures var s1 := Apply(policy, s, ReportFailure(a, at, ms, error));
            a in s1.db.attempts && EndedBy(s, ReportFailure(a, at, ms, error), a, s1.db.attempts[a])
  {
    hide Apply, Reachable;
    FailureEffect(policy, s, a, at, ms, error);
  }

  lemma RecoveryEnds(policy: Policy, s: Sys, l: LoopId, a: AttemptId)
    requires Reachable(policy, s) && IsOpen(s.db, a) && Recovers(s, l, a)
    ensures var s1 := Apply(policy, s, LoopRecover(l));
            a in s1.db.attempts && EndedBy(s, LoopRecover(l), a, s1.db.attempts[a])
  {
    hide Apply, Reachable;
    RecoveryEffect(policy, s, l, a);
  }

  lemma EndedIsClosed(s: Sys, step: Step, a: AttemptId, y: Attempt)
    requires a in s.db.attempts && EndedBy(s, step, a, y)
    ensures y.status != AttemptProcessing
  {
  }

  // A step closes an open attempt exactly when its holder reports or its recovery comes to
  // it, and then the attempt is COMPLETED, FAILED or TIMED_OUT after that step.
  lemma ClosingExact(policy: Policy, s: Sys, step: Step, a: AttemptId)
    requires Reachable(policy, s) && IsOpen(s.db, a)
    ensures a in Apply(policy, s, step).db.attempts
    ensures Closing(s, step, a) <==> !IsOpen(Apply(policy, s, step).db, a)
    ensures if Closing(s, step, a) then EndedBy(s, step, a, Apply(policy, s, step).db.attempts[a])
            else Apply(policy, s, step).db.attempts[a] == s.db.attempts[a]
  {
    hide Apply, Reachable, EndedBy, Recovers;
    if Closing(s, step, a) {
      match step {
        case ReportSuccess(_, at, ms) => SuccessEnds(policy, s, a, at, ms);
        case ReportFailure(_, at, ms, error) => FailureEnds(policy, s, a, at, ms, error);
        case LoopRecover(l) => RecoveryEnds(policy, s, l, a);
      }
      EndedIsClosed(s, step, a, Apply(policy, s, step).db.attempts[a]);
    } else if step.ReportSuccess? || step.ReportFailure? || step.LoopRecover? {
      OtherReports(policy, s, step, a);
    } else {
      OtherSteps(policy, s, step, a);
    }
  }

  // On every run a closed attempt was ended by exactly one kind of step: COMPLETED by its
  // holder's success, FAILED by its failure, TIMED_OUT by a recovery, with that step's clock
  // and message. No later step touches it.
  lemma {:induction false} AttemptHistory(policy: Policy, steps: seq<Step>, a: AttemptId) returns (k: nat)
    requires a in Run(policy, INIT, steps).db.attempts && !IsOpen(Run(policy, INIT, steps).db, a)
    ensures k < |steps| && IsOpen(Run(policy, INIT, steps[..k]).db, a)
    ensures EndedBy(Run(policy, INIT, steps[..k]), steps[k], a, Run(policy, INIT, steps).db.attempts[a])
    decreases |steps|
  {
    hide Apply, EndedBy;
    if steps == [] {
      assert false;
    } else {
      var n := |steps| - 1;
      var front := steps[..n];
      var s := Run(policy, INIT, front);
      assert front + [steps[n]] == steps;
      RunSnoc(policy, INIT, front, steps[n]);
      assert Reachable(policy, s);
      if IsOpen(s.db, a) {
        k := n;
        ClosingExact(policy, s, steps[n], a);
      } else if a in s.db.attempts {
        k := AttemptHistory(policy, front, a);
        assert front[..k] == steps[..k];
        ClosedStays(policy, s, steps[n], a);
      } else {
        NewIsOpen(policy, s, steps[n], a);
      }
    }
  }

  lemma ClosedStays(policy: Policy, s: Sys, step: Step, a: AttemptId)
    requires Reachable(policy, s) && a in s.db.attempts && !IsOpen(s.db, a)
    ensures a in Apply(policy, s, step).db.attempts && Apply(policy, s, step).db.attempts[a] == s.db.attempts[a]
  {
    hide Apply, DbInv, MemoryFits;
    ReachableSafe(policy, s);
    StepSafe(policy, s, step);
  }

  // Only a claim makes an attempt, and it makes it open.
  lemma NewIsOpen(policy: Policy, s: Sys, step: Step, a: AttemptId)
    requires a !in s.db.attempts && a in Apply(policy, s, step).db.attempts
    ensures IsOpen(Apply(policy, s, step).db, a) && step.ClaimNext? && step.attemptId == a
  {
    hide IsLockedRead, CreateAllowed, WriteAllowed, NumberTaken, Claimable, RecoveryOutcome;
    hide FailureOutcome, FinishedJob, FinishedAttempt, FinishEntry;
  }

  // ---- over whole runs: the requested availability ----

  // Until its first claim job j is available from t on, and its first attempt starts no earlier.
  ghost predicate WaitsUntil(db: Db, j: JobId, t: Time) {
    && j in db.jobs && (db.jobs[j].attemptCount == 0 ==> db.jobs[j].availableAt == t)
    && forall a :: a in db.attempts && db.attempts[a].jobId == j && db.attempts[a].number == 1 ==>
         db.attempts[a].startedAt >= t
  }

  // No step but a claim moves the availability of an unclaimed job.
  lemma UnclaimedKeeps(policy: Policy, s: Sys, step: Step, j: JobId)
    requires Reachable(policy, s) && j in s.db.jobs && s.db.jobs[j].attemptCount == 0 && !step.ClaimNext?
    ensures j in Apply(policy, s, step).db.jobs
    ensures Apply(policy, s, step).db.jobs[j].availableAt == s.db.jobs[j].availableAt
  {
    hide SysInv, TryFinish, IsLockedRead, WriteAllowed, KeyTaken, FinishAllowed, RecoveryOutcome, FailureOutcome;
    ReachableSafe(policy, s);
    JobRowFits(policy, s, j);
    hide Reachable;
    if (step.ReportSuccess? || step.ReportFailure?) && step.attemptId in s.claims {
      FinishElsewhere(s.db, j, s.claims[step.attemptId].jobId);
    } else if step.LoopRecover? && Ready(s, step) {
      FinishElsewhere(s.db, j, s.loops[step.loopId].phase.queue[0].jobId);
    }
  }

  // No finish reaches a job that is not PROCESSING.
  lemma FinishElsewhere(db: Db, j: JobId, k: JobId)
    requires j in db.jobs && db.jobs[j].status != Processing
    ensures forall w, a, o :: j in TryFinish(db, k, w, a, o).jobs && TryFinish(db, k, w, a, o).jobs[j] == db.jobs[j]
  {
    hide FinishedJob, FinishedAttempt, FinishEntry, OwnsAttempt;
  }

  lemma ClaimWaits(policy: Policy, s: Sys, step: Step, j: JobId, t: Time)
    requires Reachable(policy, s) && WaitsUntil(s.db, j, t) && step.ClaimNext?
    ensures WaitsUntil(Apply(policy, s, step).db, j, t)
  {
    hide Apply, Reachable;
    ClaimEffect(policy, s, step.jobId, step.workerId, step.attemptId, step.at);
  }

  lemma StepWaits(policy: Policy, s: Sys, step: Step, j: JobId, t: Time)
    requires Reachable(policy, s) && WaitsUntil(s.db, j, t)
    ensures WaitsUntil(Apply(policy, s, step).db, j, t)
  {
    hide Apply, Reachable, DbInv, MemoryFits, Remaining;
    var s1 := Apply(policy, s, step);
    if step.ClaimNext? {
      ClaimWaits(policy, s, step, j, t);
    } else {
      ReachableSafe(policy, s);
      StepSafe(policy, s, step);
      if s.db.jobs[j].attemptCount == 0 {
        UnclaimedKeeps(policy, s, step, j);
      }
      forall a | a in s1.db.attempts && s1.db.attempts[a].jobId == j && s1.db.attempts[a].number == 1
        ensures s1.db.attempts[a].startedAt >= t
      {
        if a !in s.db.attempts {
          NewIsOpen(policy, s, step, a);
        }
      }
    }
  }

  lemma {:induction false} RunWaits(policy: Policy, s: Sys, steps: seq<Step>, j: JobId, t: Time)
    requires Reachable(policy, s) && WaitsUntil(s.db, j, t)
    ensures WaitsUntil(Run(policy, s, steps).db, j, t)
    decreases |steps|
  {
    hide Apply, Reachable, WaitsUntil;
    if steps != [] {
      StepWaits(policy, s, steps[0], j, t);
      ReachableStep(policy, s, steps[0]);
      RunWaits(policy, Apply(policy, s, steps[0]), steps[1..], j, t);
    }
  }

  // On every run the first attempt of a job starts at its requested time or later, and
  // without one at its submission or later.
  lemma FirstAttemptWaits(policy: Policy, before: seq<Step>, u: UserId, input: JobInput, now: Time, j: JobId,
                          createdAt: Time, after: seq<Step>, a: AttemptId)
    requires j !in Run(policy, INIT, before).db.jobs
    requires j in Run(policy, INIT, before + [SubmitCreate(u, input, now, j, createdAt)]).db.jobs
    requires var s := Run(policy, INIT, before + [SubmitCreate(u, input, now, j, createdAt)] + after);
             a in s.db.attempts && s.db.attempts[a].jobId == j && s.db.attempts[a].number == 1
    ensures var s := Run(policy, INIT, before + [SubmitCreate(u, input, now, j, createdAt)] + after);
            s.db.attempts[a].startedAt >= if input.availableAt.Some? then input.availableAt.value else now
  {
    hide Apply;
    var step := SubmitCreate(u, input, now, j, createdAt);
    var s := Run(policy, INIT, before);
    assert Reachable(policy, s);
    RunSnoc(policy, INIT, before, step);
    RunConcat(policy, INIT, before + [step], after);
    CreateEffect(policy, s, u, input, now, j, createdAt);
    NoAttemptsYet(policy, s, j);
    ReachableStep(policy, s, step);
    var t := if input.availableAt.Some? then input.availableAt.value else now;
    RunWaits(policy, Apply(policy, s, step), after, j, t);
  }

  lemma NoAttemptsYet(policy: Policy, s: Sys, j: JobId)
    requires Reachable(policy, s) && j !in s.db.jobs
    ensures forall a :: a in s.db.attempts ==> s.db.attempts[a].jobId != j
  {
    hide Apply, MemoryFits, KeysUnique, Spaced, RetryWaits, LogsReplay, NumbersUnique, NumbersPresent, JobsFit;
    ReachableSafe(policy, s);
  }

  // ---- over whole runs: heartbeats against takeovers ----

  // A stamp that live worker w has stored keeps every recovery call with an older cutoff
  // away, until w stores another stamp.
  predicate NoWriteOf(steps: seq<Step>, w: WorkerId) {
    forall i :: 0 <= i < |steps| ==> !(steps[i].WriteWorker? && steps[i].workerId == w)
  }

  lemma StampStays(policy: Policy, s: Sys, step: Step, w: WorkerId)
    requires w in s.db.workers && !(step.WriteWorker? && step.workerId == w)
    ensures w in Apply(policy, s, step).db.workers
    ensures Apply(policy, s, step).db.workers[w].lastHeartbeatAt == s.db.workers[w].lastHeartbeatAt
  {
    hide IsLockedRead, CreateAllowed, NumberTaken, Claimable, FinishAllowed, RecoveryOutcome, FailureOutcome;
  }

  lemma {:induction false} StampsStay(policy: Policy, s: Sys, steps: seq<Step>, w: WorkerId)
    requires w in s.db.workers && NoWriteOf(steps, w)
    ensures w in Run(policy, s, steps).db.workers
    ensures Run(policy, s, steps).db.workers[w].lastHeartbeatAt == s.db.workers[w].lastHeartbeatAt
    decreases |steps|
  {
    hide Apply;
    if steps != [] {
      StampStays(policy, s, steps[0], w);
      StampsStay(policy, Apply(policy, s, steps[0]), steps[1..], w);
    }
  }

  // The statuses each of the three writes admits.
  predicate Accepts(status: WorkerStatus, write: WorkerWrite) {
    match write
    case Heartbeat(_) => status in {Starting, Online, Busy, Stopping}
    case MarkBusy(_) => status == Online
    case MarkAvailable(_) => status == Busy
    case MarkOnline(_) => status == Starting
    case _ => false
  }

  // After an accepted heartbeat, BUSY or ONLINE write at time t, and until the worker
  // writes again, no recovery call whose cutoff is before t takes it over, however the run
  // goes on.
  lemma FreshStampProtects(policy: Policy, s: Sys, w: WorkerId, write: WorkerWrite, more: seq<Step>, l: LoopId)
    requires w in s.db.workers && Accepts(s.db.workers[w].status, write) && NoWriteOf(more, w)
    ensures var s1 := Run(policy, Apply(policy, s, WriteWorker(w, write)), more);
            && w in s1.db.workers && s1.db.workers[w].lastHeartbeatAt == write.at
            && (forall staleBefore :: staleBefore < write.at ==> !WriteAllowed(s1.db, w, MarkUnhealthy(staleBefore)))
            && (l in s1.loops && s1.loops[l].phase.Marking? && s1.loops[l].workerId == w &&
                s1.loops[l].recoveredAt - policy.staleAfterMs < write.at ==>
                  Apply(policy, s1, LoopMark(l)) == s1.(loops := s1.loops[l := s1.loops[l].(phase := Skipped)]))
  {
    hide Apply;
    WorkerEffect(policy, s, w, write);
    StampsStay(policy, Apply(policy, s, WriteWorker(w, write)), more, w);
    var s1 := Run(policy, Apply(policy, s, WriteWorker(w, write)), more);
    if l in s1.loops && s1.loops[l].phase.Marking? {
      MarkEffect(policy, s1, l);
    }
  }
}
