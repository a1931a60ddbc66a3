// A claimed job whose worker never reports: exactly when recovery can still free it.
module Abandonment {
  import opened Wrappers
  import opened Records
  import opened Transactions
  import opened Decisions
  import opened Invariants
  import opened Evolution
  import opened Protocol
  import opened Safety
  import opened Witnesses
  import Query

  // Worker w holds job j by its open attempt a.
  ghost predicate Holds(policy: Policy, s: Sys, j: JobId, w: WorkerId, a: AttemptId) {
    SysInv(policy, s) && OwnsJob(s.db, j, w) && OwnsAttempt(s.db, j, w, a)
  }

  ghost predicate RowOpen(db: Db, w: WorkerId, row: LockedJob) {
    row.attempt.Some? && OwnsAttempt(db, row.jobId, w, row.attempt.value.0)
  }

  // Row k is attempt a of job j, and no row before it makes the recovery call abort.
  ghost predicate ComesTo(db: Db, w: WorkerId, queue: seq<LockedJob>, k: nat, j: JobId, a: AttemptId) {
    && k < |queue| && queue[k].jobId == j && queue[k].attempt.Some? && queue[k].attempt.value.0 == a
    && forall i :: 0 <= i < k ==> RowOpen(db, w, queue[i])
  }

  ghost predicate WillRecover(db: Db, loop: Loop, j: JobId, a: AttemptId) {
    loop.phase.Reading? ||
    (loop.phase.Recovering? && exists k: nat :: ComesTo(db, loop.workerId, loop.phase.queue, k, j, a))
  }

  // The worker can still be taken over, or a recovery call that took it over has not yet
  // read its jobs, or has read this one and will come to it.
  ghost predicate Recoverable(s: Sys, j: JobId, w: WorkerId, a: AttemptId) {
    (w in s.db.workers && Rank(s.db.workers[w].status) < 2) ||
    exists l :: l in s.loops && s.loops[l].workerId == w && WillRecover(s.db, s.loops[l], j, a)
  }

  // The steps in which the holder reports on attempt a.
  predicate Reports(step: Step, a: AttemptId) {
    (step.ReportSuccess? || step.ReportFailure?) && step.attemptId == a
  }

  predicate Unreported(steps: seq<Step>, a: AttemptId) {
    forall i :: 0 <= i < |steps| ==> !Reports(steps[i], a)
  }

  // ---- a job that recovery cannot reach ----

  lemma OpenIsSole(policy: Policy, s: Sys, j: JobId, w: WorkerId, a: AttemptId, b: AttemptId, v: WorkerId)
    requires Holds(policy, s, j, w, a) && OwnsAttempt(s.db, j, v, b)
    ensures b == a && v == w
  {
    hide MemoryFits, KeysUnique, Spaced, RetryWaits, LogsReplay, NumbersPresent, JobsFit;
  }

  lemma HeldJobFacts(policy: Policy, s: Sys, j: JobId, w: WorkerId, a: AttemptId)
    requires Holds(policy, s, j, w, a)
    ensures w in s.db.workers && ClaimsFit(s.db, s.claims) && QueuesFit(s.db, s.loops)
  {
    hide KeysUnique, Spaced, RetryWaits, LogsReplay, NumbersPresent, NumbersUnique, AttemptsFit, TakeoversFit;
    hide ReceiptsFit;
  }

  // No step but a report of a, or a recovery that will reach it, touches the job.
  lemma JobStays(policy: Policy, s: Sys, step: Step, j: JobId, w: WorkerId, a: AttemptId)
    requires Holds(policy, s, j, w, a) && !Recoverable(s, j, w, a) && !Reports(step, a)
    ensures j in Apply(policy, s, step).db.jobs && Apply(policy, s, step).db.jobs[j] == s.db.jobs[j]
  {
    hide SysInv, Claimed, Created, IsLockedRead, WriteAllowed, CreateAllowed, ClaimAllowed, RecoveryOutcome;
    hide FailureOutcome;
    hide QueuesFit;
    HeldJobFacts(policy, s, j, w, a);
    if Ready(s, step) {
      match step
      case SubmitCreate(_, _, _, _, _) => CreateElsewhere(policy, s, step, j);
      case ClaimNext(k, v, b, at) => if ClaimAllowed(s.db, k, v, b) { ClaimElsewhere(s.db, k, v, b, at, j); }
      case ReportSuccess(b, _, _) => ReportElsewhere(policy, s, b, j, w, a);
      case ReportFailure(b, _, _, _) => ReportElsewhere(policy, s, b, j, w, a);
      case LoopRecover(l) => RecoverElsewhere(policy, s, l, j, w, a);
      case _ =>
    }
  }

  lemma CreateElsewhere(policy: Policy, s: Sys, step: Step, j: JobId)
    requires step.SubmitCreate? && j in s.db.jobs
    ensures j in Apply(policy, s, step).db.jobs && Apply(policy, s, step).db.jobs[j] == s.db.jobs[j]
  {
    hide KeyTaken;
  }

  lemma ClaimElsewhere(db: Db, k: JobId, v: WorkerId, b: AttemptId, at: Time, j: JobId)
    requires k in db.jobs && j in db.jobs && k != j
    ensures Claimed(db, k, v, b, at).jobs.Keys == db.jobs.Keys && Claimed(db, k, v, b, at).jobs[j] == db.jobs[j]
  {
  }

  lemma ReportElsewhere(policy: Policy, s: Sys, b: AttemptId, j: JobId, w: WorkerId, a: AttemptId)
    requires Holds(policy, s, j, w, a) && b in s.claims && b != a
    ensures s.claims[b].attemptId == b
    ensures FinishAllowed(s.db, s.claims[b].jobId, s.claims[b].attempt.worker, b) ==> s.claims[b].jobId != j
  {
    hide SysInv;
    HeldJobFacts(policy, s, j, w, a);
    var c := s.claims[b];
    if FinishAllowed(s.db, c.jobId, c.attempt.worker, b) && c.jobId == j {
      OpenIsSole(policy, s, j, w, a, b, c.attempt.worker);
    }
  }

  lemma RecoverElsewhere(policy: Policy, s: Sys, l: LoopId, j: JobId, w: WorkerId, a: AttemptId)
    requires Holds(policy, s, j, w, a) && !Recoverable(s, j, w, a)
    requires l in s.loops && s.loops[l].phase.Recovering? && s.loops[l].phase.queue != []
    ensures var row := s.loops[l].phase.queue[0];
            row.attempt.Some? && FinishAllowed(s.db, row.jobId, s.loops[l].workerId, row.attempt.value.0) ==>
                row.jobId != j
  {
    hide SysInv;
    var loop := s.loops[l];
    var row := loop.phase.queue[0];
    if row.attempt.Some? && FinishAllowed(s.db, row.jobId, loop.workerId, row.attempt.value.0) && row.jobId == j {
      OpenIsSole(policy, s, j, w, a, row.attempt.value.0, loop.workerId);
      HeadComes(s.db, w, loop.phase.queue, j, a);
    }
  }

  lemma HeadComes(db: Db, w: WorkerId, queue: seq<LockedJob>, j: JobId, a: AttemptId)
    requires queue != [] && queue[0].jobId == j && queue[0].attempt.Some? && queue[0].attempt.value.0 == a
    ensures ComesTo(db, w, queue, 0, j, a)
  {
  }

  // ---- nor can it come to reach it ----

  lemma RowWasOpen(db: Db, db': Db, w: WorkerId, row: LockedJob)
    requires RowFits(db, row) && AttemptsEvolve(db, db') && RowOpen(db', w, row)
    ensures RowOpen(db, w, row)
  {
  }

  lemma ComesToBefore(db: Db, db': Db, w: WorkerId, queue: seq<LockedJob>, k: nat, j: JobId, a: AttemptId)
    requires QueueFits(db, queue) && AttemptsEvolve(db, db') && ComesTo(db', w, queue, k, j, a)
    ensures ComesTo(db, w, queue, k, j, a)
  {
    hide RowFits, AttemptsEvolve, RowOpen;
    forall i | 0 <= i < k ensures RowOpen(db, w, queue[i]) {
      RowWasOpen(db, db', w, queue[i]);
    }
  }

  lemma LoopStaysAway(policy: Policy, s: Sys, step: Step, j: JobId, w: WorkerId, a: AttemptId, l: LoopId)
    requires Holds(policy, s, j, w, a) && !Recoverable(s, j, w, a) && l in Apply(policy, s, step).loops
    requires Apply(policy, s, step).loops[l].workerId == w
    ensures !WillRecover(Apply(policy, s, step).db, Apply(policy, s, step).loops[l], j, a)
  {
    hide SysInv, ComesTo, IsLockedRead, QueuesFit, Evolves, Claimed, Created;
    var s1 := Apply(policy, s, step);
    StepSafe(policy, s, step);
    HeldJobFacts(policy, s, j, w, a);
    LoopMoves(policy, s, step, l);
    if l in s.loops && s1.loops[l].phase.Recovering? {
      var queue := s1.loops[l].phase.queue;
      if k: nat :| ComesTo(s1.db, w, queue, k, j, a) {
        if s.loops[l].phase.Recovering? && s.loops[l].phase.queue == queue {
          QueueOf(s, l);
          assert AttemptsEvolve(s.db, s1.db) by { EvolvesParts(s.db, s1.db); }
          ComesToBefore(s.db, s1.db, w, queue, k, j, a);
        } else if s.loops[l].phase.Recovering? {
          QueueOf(s, l);
          EvolvesParts(s.db, s1.db);
          HeadThenTail(s, s1, l, k, j, a);
        }
      }
    }
  }

  lemma EvolvesParts(db: Db, db': Db)
    requires Evolves(db, db')
    ensures AttemptsEvolve(db, db') && WorkersEvolve(db, db')
  {
  }

  lemma QueueOf(s: Sys, l: LoopId)
    requires QueuesFit(s.db, s.loops) && l in s.loops && s.loops[l].phase.Recovering?
    ensures QueueFits(s.db, s.loops[l].phase.queue)
  {
  }

  // How one step moves a recovery call.
  lemma LoopMoves(policy: Policy, s: Sys, step: Step, l: LoopId)
    requires l in Apply(policy, s, step).loops
    ensures var s1 := Apply(policy, s, step);
            if l !in s.loops then s1.loops[l].phase.Marking?
            else
              && s1.loops[l].workerId == s.loops[l].workerId
              && (s1.loops[l].phase == s.loops[l].phase
                  || s1.loops[l].phase.Done? || s1.loops[l].phase.Skipped? || s1.loops[l].phase.Aborted?
                  || (s1.loops[l].phase.Reading? && s.loops[l].workerId in s.db.workers &&
                      Rank(s.db.workers[s.loops[l].workerId].status) < 2)
                  || (s1.loops[l].phase.Recovering? && s.loops[l].phase.Reading?)
                  || TailOf(s, s1, l))
  {
    hide IsLockedRead, Claimed, Created, TryFinish, TryCancel, ClaimAllowed, CreateAllowed, TryRegister;
  }

  // The call has recovered the head of its queue.
  ghost predicate TailOf(s: Sys, s1: Sys, l: LoopId)
    requires l in s.loops && l in s1.loops
  {
    && s.loops[l].phase.Recovering? && s.loops[l].phase.queue != [] &&
        RowOpen(s.db, s.loops[l].workerId, s.loops[l].phase.queue[0])
    && s1.loops[l].phase == Recovering(s.loops[l].phase.queue[1..])
  }

  lemma HeadThenTail(s: Sys, s1: Sys, l: LoopId, k: nat, j: JobId, a: AttemptId)
    requires l in s.loops && l in s1.loops && TailOf(s, s1, l) && AttemptsEvolve(s.db, s1.db)
    requires QueueFits(s.db, s.loops[l].phase.queue)
    requires ComesTo(s1.db, s.loops[l].workerId, s1.loops[l].phase.queue, k, j, a)
    ensures ComesTo(s.db, s.loops[l].workerId, s.loops[l].phase.queue, k + 1, j, a)
  {
    hide RowFits, AttemptsEvolve, RowOpen;
    var w, queue := s.loops[l].workerId, s.loops[l].phase.queue;
    forall i | 0 <= i < k + 1 ensures RowOpen(s.db, w, queue[i]) {
      if i > 0 {
        assert queue[1..][i - 1] == queue[i];
        RowWasOpen(s.db, s1.db, w, queue[i]);
      }
    }
  }

  lemma StaysHeld(policy: Policy, s: Sys, step: Step, j: JobId, w: WorkerId, a: AttemptId)
    requires Holds(policy, s, j, w, a) && !Recoverable(s, j, w, a) && !Reports(step, a)
    ensures var s1 := Apply(policy, s, step);
            Holds(policy, s1, j, w, a) && !Recoverable(s1, j, w, a) && s1.db.jobs[j] == s.db.jobs[j]
  {
    hide Apply, SysInv, Evolves, WillRecover, QueuesFit;
    var s1 := Apply(policy, s, step);
    StepSafe(policy, s, step);
    JobStays(policy, s, step, j, w, a);
    HeldJobFacts(policy, s, j, w, a);
    EvolvesParts(s.db, s1.db);
    StillOpen(policy, s, s1, j, w, a);
    forall l | l in s1.loops && s1.loops[l].workerId == w ensures !WillRecover(s1.db, s1.loops[l], j, a) {
      LoopStaysAway(policy, s, step, j, w, a, l);
    }
  }

  lemma StillOpen(policy: Policy, s: Sys, s1: Sys, j: JobId, w: WorkerId, a: AttemptId)
    requires Holds(policy, s, j, w, a) && SysInv(policy, s1) && AttemptsEvolve(s.db, s1.db)
    requires j in s1.db.jobs && s1.db.jobs[j] == s.db.jobs[j]
    ensures OwnsAttempt(s1.db, j, w, a)
  {
    hide MemoryFits, KeysUnique, Spaced, RetryWaits, LogsReplay, NumbersPresent, NumbersUnique, JobsFit;
  }

  lemma {:induction false} HeldForEver(policy: Policy, s: Sys, steps: seq<Step>, j: JobId, w: WorkerId, a: AttemptId)
    requires Holds(policy, s, j, w, a) && !Recoverable(s, j, w, a) && Unreported(steps, a)
    ensures j in Run(policy, s, steps).db.jobs && Run(policy, s, steps).db.jobs[j] == s.db.jobs[j]
    decreases |steps|
  {
    hide Apply, SysInv, Recoverable;
    if steps != [] {
      StaysHeld(policy, s, steps[0], j, w, a);
      HeldForEver(policy, Apply(policy, s, steps[0]), steps[1..], j, w, a);
    }
  }

  // ---- a job that recovery can reach ----

  // Recovering the rows before it and then this one.
  lemma {:induction false} QueueFrees(policy: Policy, s: Sys, l: LoopId, k: nat, j: JobId, w: WorkerId, a: AttemptId)
    returns (steps: seq<Step>)
    requires Holds(policy, s, j, w, a) && l in s.loops && s.loops[l].workerId == w && s.loops[l].phase.Recovering?
    requires ComesTo(s.db, w, s.loops[l].phase.queue, k, j, a)
    ensures Unreported(steps, a) && j in Run(policy, s, steps).db.jobs
    ensures Run(policy, s, steps).db.jobs[j] != s.db.jobs[j]
    decreases k
  {
    hide Apply, SysInv, ComesTo, Evolves;
    var s1 := Apply(policy, s, LoopRecover(l));
    HeadOpen(s.db, w, s.loops[l].phase.queue, k, j, a);
    HeadRecovered(policy, s, l);
    StepSafe(policy, s, LoopRecover(l));
    if k == 0 {
      steps := [LoopRecover(l)];
      assert Run(policy, s1, steps[1..]) == s1;
      HeadIs(s.db, w, s.loops[l].phase.queue, j, a);
    } else {
      HeldJobFacts(policy, s, j, w, a);
      QueueOf(s, l);
      TailComes(s, s1, l, k, j, w, a);
      var rest := QueueFrees(policy, s1, l, k - 1, j, w, a);
      steps := [LoopRecover(l)] + rest;
      assert steps[1..] == rest;
    }
  }

  lemma HeadIs(db: Db, w: WorkerId, queue: seq<LockedJob>, j: JobId, a: AttemptId)
    requires ComesTo(db, w, queue, 0, j, a)
    ensures queue[0].jobId == j
  {
  }

  lemma HeadOpen(db: Db, w: WorkerId, queue: seq<LockedJob>, k: nat, j: JobId, a: AttemptId)
    requires ComesTo(db, w, queue, k, j, a) && OwnsAttempt(db, j, w, a)
    ensures queue != [] && RowOpen(db, w, queue[0])
  {
  }

  // An open head passes both fences.
  lemma HeadRecovered(policy: Policy, s: Sys, l: LoopId)
    requires SysInv(policy, s) && l in s.loops && s.loops[l].phase.Recovering? && s.loops[l].phase.queue != []
    requires RowOpen(s.db, s.loops[l].workerId, s.loops[l].phase.queue[0])
    ensures var s1 := Apply(policy, s, LoopRecover(l));
            var head := s.loops[l].phase.queue[0];
            && head.jobId in s.db.jobs && head.attempt.value.0 in s.db.attempts && CountsValid(head.job)
            && s1.loops == s.loops[l := s.loops[l].(phase := Recovering(s.loops[l].phase.queue[1..]))]
            && s1.db == Finished(s.db, head.jobId, s.loops[l].workerId, head.attempt.value.0,
                                 RecoveryOutcome(policy.retry, head.job, head.attempt.value.1, s.loops[l].recoveredAt))
            && s1.db.jobs[head.jobId] != s.db.jobs[head.jobId]
  {
    hide SysInv, RecoveryOutcome, Finished, IsLockedRead;
    HeadUsable(policy, s, l);
    var head := s.loops[l].phase.queue[0];
    OpenIsOwned(policy, s, head.jobId, s.loops[l].workerId, head.attempt.value.0);
    FinishedDiffers(s.db, head.jobId, s.loops[l].workerId, head.attempt.value.0,
                    RecoveryOutcome(policy.retry, head.job, head.attempt.value.1, s.loops[l].recoveredAt));
  }

  lemma HeadUsable(policy: Policy, s: Sys, l: LoopId)
    requires SysInv(policy, s) && l in s.loops && s.loops[l].phase.Recovering? && s.loops[l].phase.queue != []
    ensures s.loops[l].phase.queue[0].attempt.Some? && CountsValid(s.loops[l].phase.queue[0].job)
  {
    hide DbInv;
    HeadFits(s, l);
  }

  lemma FinishedDiffers(db: Db, j: JobId, w: WorkerId, a: AttemptId, o: Outcome)
    requires OwnsJob(db, j, w) && a in db.attempts
    ensures Finished(db, j, w, a, o).jobs[j] != db.jobs[j]
  {
    assert !Finished(db, j, w, a, o).jobs[j].status.Processing?;
  }

  lemma OpenIsOwned(policy: Policy, s: Sys, j: JobId, w: WorkerId, a: AttemptId)
    requires SysInv(policy, s) && OwnsAttempt(s.db, j, w, a)
    ensures OwnsJob(s.db, j, w)
  {
    hide MemoryFits, KeysUnique, Spaced, RetryWaits, LogsReplay, NumbersPresent, NumbersUnique, JobsFit;
  }

  // The other rows of the queue are of other jobs, so they are as they were.
  lemma TailComes(s: Sys, s1: Sys, l: LoopId, k: nat, j: JobId, w: WorkerId, a: AttemptId)
    requires l in s.loops && s.loops[l].phase.Recovering? && k > 0
    requires ComesTo(s.db, w, s.loops[l].phase.queue, k, j, a) && OwnsAttempt(s.db, j, w, a) && OwnsJob(s.db, j, w)
    requires QueueFits(s.db, s.loops[l].phase.queue) && l in s1.loops
    requires s1.loops[l].phase == Recovering(s.loops[l].phase.queue[1..])
    requires var head := s.loops[l].phase.queue[0];
             head.jobId in s.db.jobs && head.attempt.Some? && head.attempt.value.0 in s.db.attempts &&
             exists o :: s1.db == Finished(s.db, head.jobId, w, head.attempt.value.0, o)
    ensures ComesTo(s1.db, w, s1.loops[l].phase.queue, k - 1, j, a)
    ensures OwnsAttempt(s1.db, j, w, a) && OwnsJob(s1.db, j, w) && s1.db.jobs[j] == s.db.jobs[j]
  {
    hide RowFits, FinishedAttempt, FinishedJob;
    var queue := s.loops[l].phase.queue;
    assert RowOpen(s.db, w, queue[0]);
    forall i | 0 <= i < k - 1 ensures RowOpen(s1.db, w, queue[1..][i]) {
      assert queue[1..][i] == queue[i + 1] && RowOpen(s.db, w, queue[i + 1]);
    }
  }

  // What a recovery call that is about to read will find.
  ghost function RowOf(db: Db, w: WorkerId, j: JobId): LockedJob
    requires j in db.jobs && exists a :: OwnsAttempt(db, j, w, a)
  {
    var a :| OwnsAttempt(db, j, w, a);
    LockedJob(j, db.jobs[j], Some((a, db.attempts[a])))
  }

  function LockOrder(db: Db): (nat, nat) -> bool {
    (x, y) => x in db.jobs && y in db.jobs && LockedBefore(db.jobs[x], db.jobs[y])
  }

  lemma ReadExists(policy: Policy, s: Sys, w: WorkerId) returns (queue: seq<LockedJob>)
    requires SysInv(policy, s)
    ensures IsLockedRead(s.db, w, queue)
    ensures forall i :: 0 <= i < |queue| ==> RowOpen(s.db, w, queue[i])
  {
    hide SysInv;
    var db, ids := s.db, LockedJobs(s.db, w);
    LocksHaveAttempts(policy, s, w);
    assert Query.OrdersRows(ids, LockOrder(db)) by { LockOrders(db, w); }
    var rows := Query.OrderExists(ids, LockOrder(db));
    forall i | 0 <= i < |rows| ensures rows[i] in ids {
      assert rows[i] in rows;
    }
    queue := seq(|rows|, i requires 0 <= i < |rows| => RowOf(db, w, rows[i]));
    forall i | 0 <= i < |queue|
      ensures LockedRow(db, w, queue[i]) && queue[i].jobId == rows[i] && RowOpen(db, w, queue[i])
    {
      RowIsLocked(policy, s, w, rows[i]);
    }
    forall x | x in ids ensures exists i :: 0 <= i < |queue| && queue[i].jobId == x {
      var i :| 0 <= i < |rows| && rows[i] == x;
      assert queue[i].jobId == x;
    }
    forall i, k | 0 <= i < k < |queue| ensures LockedBefore(queue[i].job, queue[k].job) {
      assert LockOrder(db)(rows[i], rows[k]);
      assert LockedRow(db, w, queue[i]) && LockedRow(db, w, queue[k]);
    }
  }

  lemma LockOrders(db: Db, w: WorkerId)
    ensures Query.OrdersRows(LockedJobs(db, w), LockOrder(db))
  {
    var before := LockOrder(db);
    assert forall x, y | x in db.jobs && y in db.jobs :: before(x, y) <==> LockedBefore(db.jobs[x], db.jobs[y]);
  }

  lemma LocksHaveAttempts(policy: Policy, s: Sys, w: WorkerId)
    requires SysInv(policy, s)
    ensures forall j :: j in LockedJobs(s.db, w) ==> j in s.db.jobs && exists a :: OwnsAttempt(s.db, j, w, a)
  {
    hide MemoryFits, KeysUnique, Spaced, RetryWaits, LogsReplay;
    forall j | j in LockedJobs(s.db, w) ensures exists a :: OwnsAttempt(s.db, j, w, a) {
      var a := OpenAttemptExists(s.db, j);
    }
  }

  lemma RowIsLocked(policy: Policy, s: Sys, w: WorkerId, j: JobId)
    requires SysInv(policy, s) && j in LockedJobs(s.db, w) && exists a :: OwnsAttempt(s.db, j, w, a)
    ensures LockedRow(s.db, w, RowOf(s.db, w, j)) && RowOf(s.db, w, j).jobId == j && RowOpen(s.db, w, RowOf(s.db, w, j))
  {
    hide SysInv;
    var row := RowOf(s.db, w, j);
    forall b | b in s.db.attempts && OwnsAttempt(s.db, j, w, b) ensures b == row.attempt.value.0 {
      OpenIsSole(policy, s, j, w, row.attempt.value.0, b, w);
    }
  }

  lemma ReadFrees(policy: Policy, s: Sys, l: LoopId, j: JobId, w: WorkerId, a: AttemptId) returns (steps: seq<Step>)
    requires Holds(policy, s, j, w, a) && l in s.loops && s.loops[l].workerId == w && s.loops[l].phase.Reading?
    ensures Unreported(steps, a) && j in Run(policy, s, steps).db.jobs
    ensures Run(policy, s, steps).db.jobs[j] != s.db.jobs[j]
  {
    hide SysInv, IsLockedRead, Run;
    var queue := ReadExists(policy, s, w);
    var s1 := Apply(policy, s, LoopRead(l, queue));
    assert s1 == SetPhase(s, l, Recovering(queue));
    assert SysInv(policy, s1) by { StepSafe(policy, s, LoopRead(l, queue)); }
    var k := RowInQueue(policy, s, j, w, a, queue);
    var rest := QueueFrees(policy, s1, l, k, j, w, a);
    steps := [LoopRead(l, queue)] + rest;
    RunCons(policy, s, LoopRead(l, queue), rest);
  }

  lemma RowInQueue(policy: Policy, s: Sys, j: JobId, w: WorkerId, a: AttemptId, queue: seq<LockedJob>) returns (k: nat)
    requires Holds(policy, s, j, w, a) && IsLockedRead(s.db, w, queue)
    requires forall i :: 0 <= i < |queue| ==> RowOpen(s.db, w, queue[i])
    ensures ComesTo(s.db, w, queue, k, j, a)
  {
    hide SysInv, LockedRow;
    assert j in LockedJobs(s.db, w);
    k :| 0 <= k < |queue| && queue[k].jobId == j;
    assert RowOpen(s.db, w, queue[k]);
    OpenIsSole(policy, s, j, w, a, queue[k].attempt.value.0, w);
  }

  lemma RunCons(policy: Policy, s: Sys, step: Step, rest: seq<Step>)
    ensures Run(policy, s, [step] + rest) == Run(policy, Apply(policy, s, step), rest)
  {
    hide Apply;
    assert ([step] + rest)[1..] == rest;
  }

  // A recovery call late enough takes the worker over.
  lemma TakeoverPossible(policy: Policy, s: Sys, w: WorkerId) returns (start: Step, l: LoopId, s1: Sys, s2: Sys)
    requires SysInv(policy, s) && w in s.db.workers && Rank(s.db.workers[w].status) < 2
    ensures start.LoopStart? && s1 == Apply(policy, s, start) && s2 == Apply(policy, s1, LoopMark(l))
    ensures l in s2.loops && s2.loops[l].workerId == w && s2.loops[l].phase.Reading?
    ensures s2.db.jobs == s.db.jobs && s2.db.attempts == s.db.attempts && SysInv(policy, s2)
  {
    hide SysInv, IsLockedRead, Claimed, Created, TryFinish, RecoverHead, KeyTaken;
    l := FreshId(s.loops.Keys);
    var at := s.db.workers[w].lastHeartbeatAt + policy.staleAfterMs;
    start := LoopStart(l, w, at);
    s1 := Apply(policy, s, start);
    assert s1 == s.(loops := s.loops[l := Loop(w, at, Marking)]);
    StepSafe(policy, s, start);
    s2 := Apply(policy, s1, LoopMark(l));
    StepSafe(policy, s1, LoopMark(l));
  }

  lemma TakeoverFrees(policy: Policy, s: Sys, j: JobId, w: WorkerId, a: AttemptId) returns (steps: seq<Step>)
    requires Holds(policy, s, j, w, a) && w in s.db.workers && Rank(s.db.workers[w].status) < 2
    ensures Unreported(steps, a) && j in Run(policy, s, steps).db.jobs
    ensures Run(policy, s, steps).db.jobs[j] != s.db.jobs[j]
  {
    hide SysInv, Run, Apply;
    var start, l, s1, s2 := TakeoverPossible(policy, s, w);
    var rest := ReadFrees(policy, s2, l, j, w, a);
    steps := [start] + ([LoopMark(l)] + rest);
    RunCons(policy, s, start, [LoopMark(l)] + rest);
    RunCons(policy, s1, LoopMark(l), rest);
  }

  // Without a report of its holder, some continuation changes the job exactly when recovery
  // can reach it; otherwise it stays locked for ever.
  lemma FreedExact(policy: Policy, s: Sys, j: JobId, w: WorkerId, a: AttemptId)
    requires Holds(policy, s, j, w, a)
    ensures (exists steps :: Unreported(steps, a) && j in Run(policy, s, steps).db.jobs &&
                             Run(policy, s, steps).db.jobs[j] != s.db.jobs[j])
            <==> Recoverable(s, j, w, a)
  {
    hide SysInv, Run, Apply, ComesTo;
    if Recoverable(s, j, w, a) {
      var steps;
      if w in s.db.workers && Rank(s.db.workers[w].status) < 2 {
        steps := TakeoverFrees(policy, s, j, w, a);
      } else {
        var l :| l in s.loops && s.loops[l].workerId == w && WillRecover(s.db, s.loops[l], j, a);
        if s.loops[l].phase.Reading? {
          steps := ReadFrees(policy, s, l, j, w, a);
        } else {
          var k: nat :| ComesTo(s.db, w, s.loops[l].phase.queue, k, j, a);
          steps := QueueFrees(policy, s, l, k, j, w, a);
        }
      }
    } else {
      forall steps | Unreported(steps, a)
        ensures j in Run(policy, s, steps).db.jobs && Run(policy, s, steps).db.jobs[j] == s.db.jobs[j]
      {
        HeldForEver(policy, s, steps, j, w, a);
      }
    }
  }

  // ---- a dropped claim ----

  // A runtime that was stopping when its claim returned drops the claim and goes OFFLINE:
  // the job is then out of reach.
  lemma DroppedClaim(policy: Policy) returns (s: Sys)
    ensures Reachable(policy, s) && Holds(policy, s, 0, 0, 1) && !Recoverable(s, 0, 0, 1)
    ensures s.db.workers[0].status.Offline?
  {
    hide SysInv, Apply;
    var s0 := OneJobState(policy, 3);
    var s1 := ClaimEffect(policy, s0, 0, 0, 1, 0);
    ReachableStep(policy, s0, ClaimNext(0, 0, 1, 0));
    var s2 := WriteStep(policy, s1, 0, MarkStopping(0));
    s := WriteStep(policy, s2, 0, MarkOffline(0));
    ReachableSafe(policy, s);
  }

  lemma WriteStep(policy: Policy, s: Sys, w: WorkerId, write: WorkerWrite) returns (t: Sys)
    requires Reachable(policy, s) && LifecycleWrite(write)
    ensures t == s.(db := TryWrite(s.db, w, write)) && Reachable(policy, t)
  {
    t := Apply(policy, s, WriteWorker(w, write));
    ReachableStep(policy, s, WriteWorker(w, write));
    hide TryWrite, Reachable;
  }
}
