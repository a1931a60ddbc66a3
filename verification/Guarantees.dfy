// The promises of the protocol, each over every reachable state or every run.
module Guarantees {
  import opened Wrappers
  import opened Records
  import opened Backoff
  import opened LogReplay
  import opened Transactions
  import opened Decisions
  import opened Invariants
  import opened Evolution
  import opened Protocol
  import opened Safety

  // ---- row structure ----

  // A job is PROCESSING exactly when it is locked, and exactly when one attempt is open;
  // that attempt is the lock owner's and carries the job's attempt count.
  lemma RowStructure(policy: Policy, s: Sys, j: JobId)
    requires Reachable(policy, s) && j in s.db.jobs
    ensures s.db.jobs[j].status.Processing? <==> s.db.jobs[j].lockedBy.Some?
    ensures s.db.jobs[j].status.Processing? <==>
            exists a :: a in s.db.attempts && s.db.attempts[a].jobId == j && s.db.attempts[a].status.AttemptProcessing?
    ensures forall a |
              a in s.db.attempts && s.db.attempts[a].jobId == j && s.db.attempts[a].status.AttemptProcessing? ::
              s.db.jobs[j].lockedBy == Some(s.db.attempts[a].worker) &&
              s.db.attempts[a].number == s.db.jobs[j].attemptCount
    ensures forall n: nat :: NumberTaken(s.db, j, n) <==> 1 <= n <= s.db.jobs[j].attemptCount
    ensures NumbersUnique(s.db)
  {
    hide Apply, MemoryFits, KeysUnique, Spaced, RetryWaits, LogsReplay;
    ReachableSafe(policy, s);
    assert JobFits(s.db.jobs[j]);
    if s.db.jobs[j].status.Processing? {
      var a := OpenAttemptExists(s.db, j);
    }
  }

  // ---- fencing ----

  // A finish call takes effect exactly when its attempt is the open one of its job.
  lemma FinishIffOpen(policy: Policy, s: Sys, j: JobId, w: WorkerId, a: AttemptId, o: Outcome)
    requires Reachable(policy, s)
    ensures FinishAllowed(s.db, j, w, a) <==> OwnsAttempt(s.db, j, w, a)
    ensures FinishAllowed(s.db, j, w, a) ==>
              s.db.attempts[a].number == s.db.jobs[j].attemptCount &&
              forall b :: b in s.db.attempts && s.db.attempts[b].jobId == j && !Closed(s.db.attempts[b]) ==> b == a
    ensures TryFinish(s.db, j, w, a, o) != s.db <==> OwnsAttempt(s.db, j, w, a)
  {
    hide Apply, MemoryFits, KeysUnique, Spaced, RetryWaits, LogsReplay, NumbersPresent;
    ReachableSafe(policy, s);
    if FinishAllowed(s.db, j, w, a) {
      assert Finished(s.db, j, w, a, o).attempts[a].status != s.db.attempts[a].status;
    }
  }

  // Once an attempt is closed no finish call naming it ever changes anything again, whatever
  // job, worker or outcome it carries, and however long the run goes on.
  lemma StaleClaimChangesNothing(policy: Policy, s: Sys, more: seq<Step>, a: AttemptId)
    requires Reachable(policy, s) && a in s.db.attempts && Closed(s.db.attempts[a])
    ensures a in Run(policy, s, more).db.attempts
    ensures Run(policy, s, more).db.attempts[a] == s.db.attempts[a]
    ensures forall j, w, o :: TryFinish(Run(policy, s, more).db, j, w, a, o) == Run(policy, s, more).db
  {
    hide Apply, DbInv, MemoryFits;
    ReachableSafe(policy, s);
    RunSafe(policy, s, more);
  }

  ghost predicate IsClosed(db: Db, a: AttemptId) {
    a in db.attempts && Closed(db.attempts[a])
  }

  // How many steps of a run close attempt a.
  ghost function Closings(policy: Policy, s: Sys, steps: seq<Step>, a: AttemptId): nat
    decreases |steps|
  {
    if steps == [] then 0
    else
      var s1 := Apply(policy, s, steps[0]);
      (if IsClosed(s1.db, a) && !IsClosed(s.db, a) then 1 else 0) + Closings(policy, s1, steps[1..], a)
  }

  lemma {:induction false} ClosingsCount(policy: Policy, s: Sys, steps: seq<Step>, a: AttemptId)
    requires SysInv(policy, s)
    ensures Closings(policy, s, steps, a) + (if IsClosed(s.db, a) then 1 else 0)
            == if IsClosed(Run(policy, s, steps).db, a) then 1 else 0
    decreases |steps|
  {
    hide Apply, DbInv, MemoryFits;
    if steps != [] {
      var s1 := Apply(policy, s, steps[0]);
      StepSafe(policy, s, steps[0]);
      ClosingsCount(policy, s1, steps[1..], a);
    }
  }

  // On every run each attempt is closed exactly once if it is closed at all.
  lemma ClosedExactlyOnce(policy: Policy, steps: seq<Step>, a: AttemptId)
    ensures Closings(policy, INIT, steps, a) == if IsClosed(Run(policy, INIT, steps).db, a) then 1 else 0
  {
    hide Apply;
    InitReachable(policy);
    ReachableSafe(policy, INIT);
    ClosingsCount(policy, INIT, steps, a);
  }

  // ---- the log ----

  // The log of a job replays to its row at every reachable state. Only a cancellation is
  // not logged: then the replayed status is the one that was cancelled.
  lemma LogRebuildsRow(policy: Policy, s: Sys, j: JobId)
    requires Reachable(policy, s) && j in s.db.jobs
    ensures var r, job := Replay(LogOf(s.db, j)), s.db.jobs[j];
      && r.Live?
      && r.attemptCount == job.attemptCount && r.availableAt == job.availableAt
      && r.lockedBy == job.lockedBy && r.lastError == job.lastError
      && (r.status == job.status <==> !job.status.Cancelled?)
      && (job.status.Cancelled? ==> Waiting(r.status))
      && (r.open.Some? <==> job.status.Processing?)
      && (r.open.Some? ==> OwnsAttempt(s.db, j, job.lockedBy.value, r.open.value))
  {
    hide Apply, MemoryFits, RowsFit, KeysUnique, Spaced, RetryWaits;
    ReachableSafe(policy, s);
    assert Agrees(s.db, j, Replay(LogOf(s.db, j)));
  }

  // ---- budget ----

  // No run exceeds a job's attempt limit, although the claim never compares the two.
  lemma AttemptBudget(policy: Policy, s: Sys, j: JobId)
    requires Reachable(policy, s) && j in s.db.jobs
    ensures s.db.jobs[j].attemptCount <= s.db.jobs[j].maxAttempts
    ensures forall t :: Claimable(s.db.jobs[j], t) ==> s.db.jobs[j].attemptCount < s.db.jobs[j].maxAttempts
    ensures s.db.jobs[j].status.DeadLetter? ==>
              && s.db.jobs[j].attemptCount == s.db.jobs[j].maxAttempts
              && forall a :: a in s.db.attempts && s.db.attempts[a].jobId == j ==>
                   s.db.attempts[a].status.AttemptFailed? || s.db.attempts[a].status.AttemptTimedOut?
  {
    hide Apply, MemoryFits, KeysUnique, Spaced, RetryWaits, LogsReplay, NumbersUnique, NumbersPresent;
    ReachableSafe(policy, s);
    assert JobFits(s.db.jobs[j]);
  }

  // A decision taken from a job row read apart from its attempt keeps the budget exactly
  // when that row agrees with the current one about whether attempts remain.
  lemma BudgetNeedsCurrentCount(config: ValidRetryConfig, db: Db, j: JobId, w: WorkerId, a: AttemptId,
                                read: Job, at: Time, ms: nat, error: string, stale: bool)
    requires FinishAllowed(db, j, w, a) && JobFits(db.jobs[j])
    requires read.attemptCount >= 1 && read.maxAttempts == db.jobs[j].maxAttempts
    ensures JobFits(Finished(db, j, w, a, DecisionFor(config, read, at, ms, error, stale)).jobs[j])
            <==> (read.attemptCount < read.maxAttempts <==> db.jobs[j].attemptCount < db.jobs[j].maxAttempts)
  {
  }

  // ---- bounded work ----

  // How many steps of a run change job j after it exists.
  ghost function Transitions(policy: Policy, s: Sys, steps: seq<Step>, j: JobId): nat
    decreases |steps|
  {
    if steps == [] then 0
    else
      var s1 := Apply(policy, s, steps[0]);
      (if j in s.db.jobs && (j !in s1.db.jobs || s1.db.jobs[j] != s.db.jobs[j]) then 1 else 0)
      + Transitions(policy, s1, steps[1..], j)
  }

  lemma {:induction false} RemainingFalls(policy: Policy, s: Sys, steps: seq<Step>, j: JobId)
    requires SysInv(policy, s) && j in s.db.jobs
    ensures j in Run(policy, s, steps).db.jobs
    ensures Transitions(policy, s, steps, j) + Remaining(Run(policy, s, steps).db.jobs[j]) <= Remaining(s.db.jobs[j])
    decreases |steps|
  {
    hide Apply, DbInv, MemoryFits;
    if steps != [] {
      var s1 := Apply(policy, s, steps[0]);
      StepSafe(policy, s, steps[0]);
      assert JobEvolves(s.db.jobs[j], s1.db.jobs[j]);
      RemainingFalls(policy, s1, steps[1..], j);
    }
  }

  lemma {:induction false} TransitionBound(policy: Policy, s: Sys, steps: seq<Step>, j: JobId)
    requires SysInv(policy, s) && j in Run(policy, s, steps).db.jobs
    ensures Transitions(policy, s, steps, j) <= 2 * Run(policy, s, steps).db.jobs[j].maxAttempts
    decreases |steps|
  {
    hide Apply, MemoryFits, AttemptsFit, NumbersUnique, NumbersPresent, KeysUnique, Spaced, RetryWaits, LogsReplay;
    if j in s.db.jobs {
      RemainingFalls(policy, s, steps, j);
      RunSafe(policy, s, steps);
      assert JobFits(s.db.jobs[j]);
      assert JobFits(Run(policy, s, steps).db.jobs[j]);
      assert JobEvolves(s.db.jobs[j], Run(policy, s, steps).db.jobs[j]);
    } else {
      StepSafe(policy, s, steps[0]);
      TransitionBound(policy, Apply(policy, s, steps[0]), steps[1..], j);
    }
  }

  // Over a whole run a job changes at most 2 * maxAttempts times after it is created.
  lemma BoundedWork(policy: Policy, steps: seq<Step>, j: JobId)
    requires j in Run(policy, INIT, steps).db.jobs
    ensures Transitions(policy, INIT, steps, j) <= 2 * Run(policy, INIT, steps).db.jobs[j].maxAttempts
  {
    hide Apply;
    InitReachable(policy);
    ReachableSafe(policy, INIT);
    TransitionBound(policy, INIT, steps, j);
  }

  // COMPLETED, DEAD_LETTER and CANCELLED are final.
  lemma TerminalIsFinal(policy: Policy, s: Sys, more: seq<Step>, j: JobId)
    requires Reachable(policy, s) && j in s.db.jobs && Terminal(s.db.jobs[j].status)
    ensures j in Run(policy, s, more).db.jobs
    ensures Run(policy, s, more).db.jobs[j] == s.db.jobs[j]
  {
    hide Apply, MemoryFits, AttemptsFit, NumbersUnique, NumbersPresent, KeysUnique, Spaced, RetryWaits, LogsReplay;
    ReachableSafe(policy, s);
    RunSafe(policy, s, more);
    assert JobFits(Run(policy, s, more).db.jobs[j]);
  }

  // ---- takeover ----

  ghost predicate TakesOver(policy: Policy, s: Sys, step: Step, w: WorkerId) {
    && step.LoopMark? && Ready(s, step) && s.loops[step.loopId].workerId == w
    && WriteAllowed(s.db, w, MarkUnhealthy(s.loops[step.loopId].recoveredAt - policy.staleAfterMs))
  }

  // How many recovery calls of a run pass the UNHEALTHY transition of worker w.
  ghost function Takeovers(policy: Policy, s: Sys, steps: seq<Step>, w: WorkerId): nat
    decreases |steps|
  {
    if steps == [] then 0
    else
      (if TakesOver(policy, s, steps[0], w) then 1 else 0)
      + Takeovers(policy, Apply(policy, s, steps[0]), steps[1..], w)
  }

  lemma {:induction false} TakeoverCount(policy: Policy, s: Sys, steps: seq<Step>, w: WorkerId)
    requires SysInv(policy, s)
    ensures Takeovers(policy, s, steps, w) <= 1
    ensures w in s.db.workers && Rank(s.db.workers[w].status) >= 2 ==> Takeovers(policy, s, steps, w) == 0
    decreases |steps|
  {
    hide DbInv, MemoryFits;
    if steps != [] {
      var s1 := Apply(policy, s, steps[0]);
      if TakesOver(policy, s, steps[0], w) {
        TakeoverRaisesRank(policy, s, steps[0], w);
      }
      StepSafe(policy, s, steps[0]);
      TakeoverCount(policy, s1, steps[1..], w);
    }
  }

  lemma TakeoverRaisesRank(policy: Policy, s: Sys, step: Step, w: WorkerId)
    requires TakesOver(policy, s, step, w)
    ensures Rank(s.db.workers[w].status) < 2
    ensures w in Apply(policy, s, step).db.workers && Rank(Apply(policy, s, step).db.workers[w].status) == 2
  {
  }

  // However many recovery loops run concurrently, one worker is taken over at most once.
  lemma AtMostOneTakeover(policy: Policy, steps: seq<Step>, w: WorkerId)
    ensures Takeovers(policy, INIT, steps, w) <= 1
  {
    hide Apply, TakesOver;
    InitReachable(policy);
    ReachableSafe(policy, INIT);
    TakeoverCount(policy, INIT, steps, w);
  }

  // The calls that act on a worker's jobs are all one call, at any moment of any run.
  lemma OneRecoveryPerWorker(policy: Policy, s: Sys, l: LoopId, m: LoopId)
    requires Reachable(policy, s) && l in s.loops && m in s.loops
    requires TookOver(s.loops[l]) && TookOver(s.loops[m]) && s.loops[l].workerId == s.loops[m].workerId
    ensures l == m
  {
    hide Apply, DbInv, ClaimsFit, QueuesFit, ReceiptsFit;
    ReachableSafe(policy, s);
  }

  // A worker row only moves forward, OFFLINE is final, and stoppedAt is set exactly then.
  lemma WorkerLifecycle(policy: Policy, s: Sys, more: seq<Step>, w: WorkerId)
    requires Reachable(policy, s) && w in s.db.workers
    ensures s.db.workers[w].stoppedAt.Some? <==> s.db.workers[w].status.Offline?
    ensures w in Run(policy, s, more).db.workers
    ensures Rank(s.db.workers[w].status) <= Rank(Run(policy, s, more).db.workers[w].status)
    ensures s.db.workers[w].status.Offline? ==> Run(policy, s, more).db.workers[w] == s.db.workers[w]
  {
    hide Apply, RowsFit, KeysUnique, Spaced, RetryWaits, LogsReplay, MemoryFits;
    ReachableSafe(policy, s);
    RunSafe(policy, s, more);
  }

  // ---- idempotent submission ----

  // Successful submissions with one user and key all returned the same job, and there is no other.
  lemma IdempotentSubmission(policy: Policy, s: Sys, x: Receipt, y: Receipt, j: JobId)
    requires Reachable(policy, s) && x in s.receipts && y in s.receipts
    requires x.userId == y.userId && x.idempotencyKey == y.idempotencyKey
    ensures x.jobId == y.jobId && x.jobId in s.db.jobs
    ensures j in s.db.jobs && s.db.jobs[j].userId == x.userId &&
              s.db.jobs[j].idempotencyKey == Some(x.idempotencyKey) ==>
              j == x.jobId
  {
    hide Apply, RowsFit, Spaced, RetryWaits, LogsReplay, ClaimsFit, QueuesFit, TakeoversFit;
    ReachableSafe(policy, s);
  }

  // Once a submission succeeded, every later creation with that user and key fails and
  // leaves jobs, logs and receipts as they were.
  lemma LosingSubmission(policy: Policy, s: Sys, more: seq<Step>, x: Receipt,
                         input: JobInput, now: Time, j: JobId, createdAt: Time)
    requires Reachable(policy, s) && x in s.receipts && input.idempotencyKey == Some(x.idempotencyKey)
    ensures var s' := Run(policy, s, more);
            Apply(policy, s', SubmitCreate(x.userId, input, now, j, createdAt)) == s'
  {
    hide DbInv, ClaimsFit, QueuesFit, TakeoversFit, Created, RecoverHead, StartClaim, Report;
    ReachableSafe(policy, s);
    RunSafe(policy, s, more);
    var s' := Run(policy, s, more);
    assert KeyTaken(s'.db, x.userId, input.idempotencyKey) by {
      assert x.jobId in s'.db.jobs && JobEvolves(s.db.jobs[x.jobId], s'.db.jobs[x.jobId]);
    }
  }
}
