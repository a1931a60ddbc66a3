// Backoff over whole runs: how far apart the attempts of one job start.
module Spacing {
  import opened Wrappers
  import opened Records
  import opened Backoff
  import opened Transactions
  import opened Decisions
  import opened Invariants
  import opened Protocol
  import opened Safety
  import opened Witnesses

  // ids[k] is attempt number k + 1 of job j.
  ghost predicate AttemptChain(db: Db, j: JobId, ids: seq<AttemptId>) {
    forall k :: 0 <= k < |ids| ==>
      ids[k] in db.attempts && db.attempts[ids[k]].jobId == j && db.attempts[ids[k]].number == k + 1
  }

  // Consecutive attempts, whether the first one failed or was recovered: it is closed, and
  // the next starts no earlier than its finish plus the backoff.
  lemma ConsecutiveSpacing(policy: Policy, s: Sys, a: AttemptId, b: AttemptId)
    requires Reachable(policy, s) && a in s.db.attempts && b in s.db.attempts
    requires s.db.attempts[a].jobId == s.db.attempts[b].jobId
    requires s.db.attempts[b].number == s.db.attempts[a].number + 1
    ensures s.db.attempts[a].number >= 1
    ensures s.db.attempts[a].status.AttemptFailed? || s.db.attempts[a].status.AttemptTimedOut?
    ensures s.db.attempts[a].finishedAt.Some?
    ensures s.db.attempts[b].startedAt >=
            s.db.attempts[a].finishedAt.value + RetryDelay(policy.retry, s.db.attempts[a].number)
  {
    hide Apply, MemoryFits, KeysUnique, RetryWaits, LogsReplay, NumbersUnique, NumbersPresent, JobsFit;
    ReachableSafe(policy, s);
    assert Follows(s.db.attempts[b], s.db.attempts[a]);
  }

  // The measured length of the listed attempts; negative when a finish stamp precedes its start.
  ghost function RunTime(db: Db, ids: seq<AttemptId>): int
    requires forall a :: a in ids ==> a in db.attempts && db.attempts[a].finishedAt.Some?
  {
    if ids == [] then 0
    else RunTime(db, ids[..|ids| - 1]) +
         db.attempts[ids[|ids| - 1]].finishedAt.value - db.attempts[ids[|ids| - 1]].startedAt
  }

  // Attempt n starts no earlier than attempt 1 plus all delays and the measured run times
  // in between, on every run and with no assumption about clocks.
  lemma {:induction false} TelescopedSpacing(policy: Policy, s: Sys, j: JobId, ids: seq<AttemptId>)
    requires Reachable(policy, s) && ids != [] && AttemptChain(s.db, j, ids)
    ensures forall a :: a in ids[..|ids| - 1] ==> a in s.db.attempts && s.db.attempts[a].finishedAt.Some?
    ensures s.db.attempts[ids[|ids| - 1]].startedAt >=
            s.db.attempts[ids[0]].startedAt + TotalDelay(policy.retry, |ids|) + RunTime(s.db, ids[..|ids| - 1])
  {
    hide Reachable;
    if |ids| >= 2 {
      var n := |ids|;
      var front := ids[..n - 1];
      TelescopedSpacing(policy, s, j, front);
      ConsecutiveSpacing(policy, s, ids[n - 2], ids[n - 1]);
      AttemptClosed(policy, s, ids[n - 2]);
      assert front[..n - 2] + [ids[n - 2]] == front;
      assert front[|front| - 1] == ids[n - 2];
    }
  }

  lemma AttemptClosed(policy: Policy, s: Sys, a: AttemptId)
    requires Reachable(policy, s) && a in s.db.attempts
    ensures Closed(s.db.attempts[a]) <==> s.db.attempts[a].finishedAt.Some?
  {
    hide Apply, MemoryFits, KeysUnique, Spaced, RetryWaits, LogsReplay, NumbersUnique, NumbersPresent, JobsFit;
    ReachableSafe(policy, s);
  }

  lemma {:induction false} RunTimeNonNegative(db: Db, ids: seq<AttemptId>)
    requires forall a :: a in ids ==> a in db.attempts && db.attempts[a].finishedAt.Some?
    requires forall a :: a in ids ==> db.attempts[a].startedAt <= db.attempts[a].finishedAt.value
    ensures RunTime(db, ids) >= 0
  {
    if ids != [] {
      RunTimeNonNegative(db, ids[..|ids| - 1]);
    }
  }

  // When no attempt carries a finish stamp older than its start, the delays alone separate
  // attempt n from attempt 1; uncapped they are base * (2^(n-1) - 1).
  lemma OrderedStampsSpacing(policy: Policy, s: Sys, j: JobId, ids: seq<AttemptId>)
    requires Reachable(policy, s) && ids != [] && AttemptChain(s.db, j, ids)
    requires forall a :: a in ids && s.db.attempts[a].finishedAt.Some? ==>
               s.db.attempts[a].startedAt <= s.db.attempts[a].finishedAt.value
    ensures s.db.attempts[ids[|ids| - 1]].startedAt >= s.db.attempts[ids[0]].startedAt + TotalDelay(policy.retry, |ids|)
    ensures (|ids| >= 2 ==> policy.retry.baseDelayMs * Pow2(|ids| - 2) <= policy.retry.maxDelayMs) ==>
              s.db.attempts[ids[|ids| - 1]].startedAt >=
              s.db.attempts[ids[0]].startedAt + policy.retry.baseDelayMs * (Pow2(|ids| - 1) - 1)
  {
    hide Reachable;
    TelescopedSpacing(policy, s, j, ids);
    RunTimeNonNegative(s.db, ids[..|ids| - 1]);
    if |ids| >= 2 ==> policy.retry.baseDelayMs * Pow2(|ids| - 2) <= policy.retry.maxDelayMs {
      UncappedTotalDelay(policy.retry, |ids|);
    }
  }

  // Exactly when the next attempt is sure to start a full delay after this one started:
  // the finish stamp must not be older than the attempt's start.
  lemma StartSpacingExact(config: ValidRetryConfig, db: Db, j: JobId, w: WorkerId, a: AttemptId,
                          at: Time, ms: nat, error: string, stale: bool)
    requires FinishAllowed(db, j, w, a) && 1 <= db.jobs[j].attemptCount < db.jobs[j].maxAttempts
    ensures var o := DecisionFor(config, db.jobs[j], at, ms, error, stale);
            var delay := RetryDelay(config, db.jobs[j].attemptCount);
            (forall t :: Claimable(Finished(db, j, w, a, o).jobs[j], t) ==> t >= db.attempts[a].startedAt + delay)
            <==> at >= db.attempts[a].startedAt
  {
    var o := DecisionFor(config, db.jobs[j], at, ms, error, stale);
    var delay := RetryDelay(config, db.jobs[j].attemptCount);
    assert Claimable(Finished(db, j, w, a, o).jobs[j], at + delay);
  }

  // ---- clocks ----

  // The clock a step reads, when it reads one.
  function ClockRead(step: Step): Option<Time> {
    match step
    case SubmitCreate(_, _, now, _, _) => Some(now)
    case Cancel(_, _, at) => Some(at)
    case ClaimNext(_, _, _, at) => Some(at)
    case ReportSuccess(_, at, _) => Some(at)
    case ReportFailure(_, at, _, _) => Some(at)
    case Register(_, at) => Some(at)
    case LoopStart(_, _, at) => Some(at)
    case _ => None
  }

  // The clock after a run, if it never went back: one clock, read by every step that
  // reads one, in the order the steps are taken.
  ghost function ClockAfter(steps: seq<Step>, clock: Time): Option<Time> {
    if steps == [] then Some(clock)
    else
      var before := ClockAfter(steps[..|steps| - 1], clock);
      var reading := ClockRead(steps[|steps| - 1]);
      if before.None? || reading.None? then before
      else if before.value <= reading.value then reading else None
  }

  ghost predicate StampsOrdered(db: Db, clock: Time) {
    forall a :: a in db.attempts ==>
      && db.attempts[a].startedAt <= clock
      && (db.attempts[a].status.AttemptFailed? || db.attempts[a].status.AttemptCompleted? ==>
            db.attempts[a].finishedAt.Some? && db.attempts[a].startedAt <= db.attempts[a].finishedAt.value)
  }

  lemma FinishStamps(db: Db, j: JobId, w: WorkerId, a: AttemptId, o: Outcome, clock: Time)
    requires StampsOrdered(db, clock) && (o.Complete? || !o.stale ==> clock <= o.finishedAt)
    ensures StampsOrdered(TryFinish(db, j, w, a, o), clock)
  {
  }

  lemma StepStamps(policy: Policy, s: Sys, step: Step, clock: Time)
    requires StampsOrdered(s.db, clock) && (ClockRead(step).Some? ==> clock <= ClockRead(step).value)
    ensures StampsOrdered(Apply(policy, s, step).db, if ClockRead(step).Some? then ClockRead(step).value else clock)
  {
    hide TryFinish, IsLockedRead, CreateAllowed, ClaimAllowed, Claimable, WriteAllowed, RetryDelay;
    if Ready(s, step) {
      match step {
        case ReportSuccess(a, at, ms) =>
          var c := s.claims[a];
          FinishStamps(s.db, c.jobId, c.attempt.worker, c.attemptId, Complete(at, ms), at);
        case ReportFailure(a, at, ms, error) =>
          var c := s.claims[a];
          var o := FailureOutcome(policy.retry, c.job, at, ms, error);
          FinishStamps(s.db, c.jobId, c.attempt.worker, c.attemptId, o, at);
        case LoopRecover(l) =>
          var loop := s.loops[l];
          var row := loop.phase.queue[0];
          if row.attempt.Some? && CountsValid(row.job) {
            FinishStamps(s.db, row.jobId, loop.workerId, row.attempt.value.0,
                         RecoveryOutcome(policy.retry, row.job, row.attempt.value.1, loop.recoveredAt), clock);
          }
        case _ =>
      }
    }
  }

  lemma {:induction false} RunStamps(policy: Policy, steps: seq<Step>, clock: Time)
    requires ClockAfter(steps, clock).Some?
    ensures StampsOrdered(Run(policy, INIT, steps).db, ClockAfter(steps, clock).value)
  {
    hide Apply;
    if steps != [] {
      var front, last := steps[..|steps| - 1], steps[|steps| - 1];
      assert front + [last] == steps;
      RunStamps(policy, front, clock);
      RunSnoc(policy, INIT, front, last);
      StepStamps(policy, Run(policy, INIT, front), last, ClockAfter(front, clock).value);
    }
  }

  // Under one ordered clock an attempt its own worker closed never finishes before it
  // starts. Only a recovery stamp, read before the jobs are, can be older.
  lemma WorkerStampsOrdered(policy: Policy, steps: seq<Step>, clock: Time, a: AttemptId)
    requires ClockAfter(steps, clock).Some? && a in Run(policy, INIT, steps).db.attempts
    ensures var x := Run(policy, INIT, steps).db.attempts[a];
            (x.status.AttemptFailed? || x.status.AttemptCompleted?) ==>
              x.finishedAt.Some? && x.startedAt <= x.finishedAt.value
  {
    hide Apply;
    RunStamps(policy, steps, clock);
  }

  // ---- a recovery stamp older than the attempt ----

  // A run so far: the state it reaches and the clock it has read.
  ghost predicate Trace(policy: Policy, steps: seq<Step>, s: Sys, clock: Time) {
    Run(policy, INIT, steps) == s && SysInv(policy, s) && ClockAfter(steps, 0) == Some(clock)
  }

  lemma Extend(policy: Policy, steps: seq<Step>, s: Sys, clock: Time, step: Step)
    returns (steps': seq<Step>, s': Sys, clock': Time)
    requires Trace(policy, steps, s, clock) && (ClockRead(step).Some? ==> clock <= ClockRead(step).value)
    ensures steps' == steps + [step] && s' == Apply(policy, s, step)
    ensures clock' == if ClockRead(step).Some? then ClockRead(step).value else clock
    ensures Trace(policy, steps', s', clock')
  {
    hide Apply, SysInv;
    steps', s' := steps + [step], Apply(policy, s, step);
    clock' := if ClockRead(step).Some? then ClockRead(step).value else clock;
    RunSnoc(policy, INIT, steps, step);
    StepSafe(policy, s, step);
    assert steps'[..|steps'| - 1] == steps;
  }

  lemma OneJobTrace(policy: Policy) returns (s: Sys)
    ensures Trace(policy, OneJobRun(3), s, 0)
    ensures s.db.jobs == map[0 := QueuedJob(3)] && s.db.attempts == map[] && s.loops == map[]
    ensures s.db.workers == map[0 := ONLINE_WORKER]
  {
    hide SysInv, Apply, Run;
    s := OneJobState(policy, 3);
    var steps := OneJobRun(3);
    assert steps[..2][..1][..0] == [] && steps[..2][..1] == steps[..1];
    assert ClockAfter(steps[..1], 0) == Some(0) && ClockAfter(steps[..2], 0) == Some(0);
  }

  // A recovery process reads its clock and marks the slow worker UNHEALTHY.
  lemma LateMark(policy: Policy) returns (steps: seq<Step>, s: Sys)
    ensures Trace(policy, steps, s, policy.staleAfterMs)
    ensures s.loops == map[0 := Loop(0, policy.staleAfterMs, LoopPhase.Reading)]
    ensures s.db.workers.Keys == {0} && s.db.attempts == map[] && s.db.jobs == map[0 := QueuedJob(3)]
  {
    hide SysInv, Run, ClockAfter, RecoverHead;
    var clock := 0;
    s := OneJobTrace(policy);
    steps := OneJobRun(3);
    steps, s, clock := Extend(policy, steps, s, clock, LoopStart(0, 0, policy.staleAfterMs));
    steps, s, clock := Extend(policy, steps, s, clock, LoopMark(0));
  }

  // Only then that worker claims the job.
  lemma LateClaim(policy: Policy) returns (steps: seq<Step>, s: Sys)
    ensures Trace(policy, steps, s, policy.staleAfterMs + 1)
    ensures s.loops == map[0 := Loop(0, policy.staleAfterMs, LoopPhase.Reading)]
    ensures s.db.workers.Keys == {0}
    ensures s.db.jobs == map[0 := ClaimedJob(QueuedJob(3), 0, policy.staleAfterMs + 1)]
    ensures s.db.attempts == map[1 := NewAttempt(0, 1, 0, policy.staleAfterMs + 1)]
  {
    hide SysInv, Run, ClockAfter, RecoverHead;
    var clock := policy.staleAfterMs;
    steps, s := LateMark(policy);
    ClaimNeverCollides(policy, s, 0, 0, 1);
    steps, s, clock := Extend(policy, steps, s, clock, ClaimNext(0, 0, 1, clock + 1));
  }

  lemma OneLockedRow(db: Db, row: LockedJob)
    requires db.jobs.Keys == {0} && OwnsJob(db, 0, 0) && db.attempts.Keys == {1} && OwnsAttempt(db, 0, 0, 1)
    requires row == LockedJob(0, db.jobs[0], Some((1, db.attempts[1])))
    ensures IsLockedRead(db, 0, [row])
  {
    assert LockedJobs(db, 0) == {0};
    forall j ensures j in LockedJobs(db, 0) <==> exists i :: 0 <= i < |[row]| && [row][i].jobId == j {
      assert [row][0].jobId == 0;
      assert j in db.jobs ==> j in db.jobs.Keys;
    }
    assert forall a :: a in db.attempts ==> a in db.attempts.Keys;
  }

  // The recovery then closes that attempt with its older stamp.
  lemma LateRecovery(policy: Policy) returns (steps: seq<Step>, s: Sys)
    ensures Trace(policy, steps, s, policy.staleAfterMs + 1)
    ensures s.db.jobs.Keys == {0} && s.db.attempts.Keys == {1} && 0 in s.db.workers
    ensures Claimable(s.db.jobs[0], policy.staleAfterMs + policy.retry.baseDelayMs) && s.db.jobs[0].attemptCount == 1
    ensures s.db.attempts[1].jobId == 0 && s.db.attempts[1].number == 1
    ensures s.db.attempts[1].startedAt == policy.staleAfterMs + 1
  {
    hide SysInv, Run, ClockAfter, IsLockedRead;
    var clock := policy.staleAfterMs + 1;
    steps, s := LateClaim(policy);
    var row := LockedJob(0, s.db.jobs[0], Some((1, s.db.attempts[1])));
    OneLockedRow(s.db, row);
    steps, s, clock := Extend(policy, steps, s, clock, LoopRead(0, [row]));
    assert [row][1..] == [];
    steps, s, clock := Extend(policy, steps, s, clock, LoopRecover(0));
    assert RetryDelay(policy.retry, 1) == policy.retry.baseDelayMs;
  }

  // The next attempt starts less than one delay after this one did, although one clock
  // ordered every reading of the run.
  lemma RecoveryBreaksStartSpacing(policy: Policy) returns (steps: seq<Step>, s: Sys)
    ensures s == Run(policy, INIT, steps) && ClockAfter(steps, 0).Some?
    ensures s.db.attempts.Keys == {1, 2} && AttemptChain(s.db, 0, [1, 2])
    ensures s.db.attempts[2].startedAt < s.db.attempts[1].startedAt + RetryDelay(policy.retry, 1)
  {
    hide SysInv, Run, ClockAfter, RecoverHead;
    var at, clock := policy.staleAfterMs + policy.retry.baseDelayMs, policy.staleAfterMs + 1;
    steps, s := LateRecovery(policy);
    ClaimNeverCollides(policy, s, 0, 0, 2);
    steps, s, clock := Extend(policy, steps, s, clock, ClaimNext(0, 0, 2, at));
    assert RetryDelay(policy.retry, 1) == policy.retry.baseDelayMs;
  }
}
