// Runs that show the bounds are reached and the guards are needed.
module Witnesses {
  import opened Wrappers
  import opened Records
  import opened Transactions
  import opened Decisions
  import opened Invariants
  import opened Evolution
  import opened Protocol
  import opened Safety
  import opened Guarantees

  // Identifiers never run out.
  lemma FreshId(used: set<nat>) returns (id: nat)
    ensures id !in used
  {
    var rest := used;
    id := 0;
    while rest != {}
      invariant rest <= used
      invariant forall x :: x in used && x !in rest ==> x < id
      decreases rest
    {
      var x :| x in rest;
      rest := rest - {x};
      id := if x >= id then x + 1 else id;
    }
  }

  // A claimable job is claimed whenever a registered worker asks for it.
  lemma ClaimEffect(policy: Policy, s: Sys, j: JobId, w: WorkerId, a: AttemptId, t: Time) returns (s': Sys)
    requires SysInv(policy, s) && j in s.db.jobs && Claimable(s.db.jobs[j], t)
    requires w in s.db.workers && a !in s.db.attempts
    ensures s' == Apply(policy, s, ClaimNext(j, w, a, t)) == StartClaim(s, j, w, a, t)
    ensures SysInv(policy, s') && FinishAllowed(s'.db, j, w, a)
    ensures 1 <= s'.db.jobs[j].attemptCount <= s'.db.jobs[j].maxAttempts
  {
    hide DbInv, MemoryFits, RecoverHead, Report;
    s' := Apply(policy, s, ClaimNext(j, w, a, t));
    ClaimNeverCollides(policy, s, j, w, a);
    StepSafe(policy, s, ClaimNext(j, w, a, t));
    JobRowFits(policy, s, j);
  }

  // A failure report whose claim still passes both fences closes the attempt.
  lemma FailEffect(policy: Policy, s: Sys, a: AttemptId, t: Time) returns (s': Sys)
    requires SysInv(policy, s) && a in s.claims && s.claims[a].attemptId == a
    requires FinishAllowed(s.db, s.claims[a].jobId, s.claims[a].attempt.worker, a) && CountsValid(s.claims[a].job)
    ensures s' == Apply(policy, s, ReportFailure(a, t, 0, "failed"))
    ensures SysInv(policy, s')
    ensures s' == s.(db := Finished(s.db, s.claims[a].jobId, s.claims[a].attempt.worker, a,
                                    FailureOutcome(policy.retry, s.claims[a].job, t, 0, "failed")))
  {
    hide DbInv, MemoryFits, RecoverHead, StartClaim;
    s' := Apply(policy, s, ReportFailure(a, t, 0, "failed"));
    StepSafe(policy, s, ReportFailure(a, t, 0, "failed"));
  }

  lemma FinishedRow(db: Db, j: JobId, w: WorkerId, a: AttemptId, o: Outcome)
    requires j in db.jobs && a in db.attempts
    ensures Finished(db, j, w, a, o).jobs == db.jobs[j := FinishedJob(db.jobs[j], o)]
    ensures Finished(db, j, w, a, o).workers == db.workers
  {
  }

  // From every waiting job of every reachable state some continuation makes exactly the
  // transitions the bound leaves, so 2 * maxAttempts is the least bound.
  lemma {:induction false} BoundIsReached(policy: Policy, s: Sys, j: JobId, w: WorkerId) returns (steps: seq<Step>)
    requires SysInv(policy, s) && j in s.db.jobs && Waiting(s.db.jobs[j].status) && w in s.db.workers
    ensures Transitions(policy, s, steps, j) == Remaining(s.db.jobs[j])
    ensures j in Run(policy, s, steps).db.jobs && Run(policy, s, steps).db.jobs[j].status.DeadLetter?
    decreases s.db.jobs[j].maxAttempts - s.db.jobs[j].attemptCount
  {
    hide Apply, SysInv, Finished;
    JobRowFits(policy, s, j);
    var job := s.db.jobs[j];
    var a := FreshId(s.db.attempts.Keys);
    var t := job.availableAt;
    var s1 := ClaimEffect(policy, s, j, w, a, t);
    var s2 := FailEffect(policy, s1, a, t);
    FinishedRow(s1.db, j, w, a, FailureOutcome(policy.retry, s1.claims[a].job, t, 0, "failed"));
    var rest: seq<Step> := [];
    if s2.db.jobs[j].status.Retrying? {
      rest := BoundIsReached(policy, s2, j, w);
    }
    var fail := ReportFailure(a, t, 0, "failed");
    steps := [ClaimNext(j, w, a, t)] + ([fail] + rest);
    assert steps[1..] == [fail] + rest && ([fail] + rest)[1..] == rest;
    assert Run(policy, s1, [fail] + rest) == Run(policy, s2, rest);
    assert Transitions(policy, s1, [fail] + rest, j) == 1 + Transitions(policy, s2, rest, j);
  }

  // A registered worker and one queued job of the given limit.
  ghost function QueuedJob(limit: AttemptLimit): Job {
    JobFromInput(0, JobInput(Medium, None, limit, None), 0, 0)
  }

  // A worker comes online and one job is submitted.
  ghost function OneJobRun(limit: AttemptLimit): seq<Step> {
    [Register(0, 0), WriteWorker(0, MarkOnline(0)), SubmitCreate(0, JobInput(Medium, None, limit, None), 0, 0, 0)]
  }

  const ONLINE_WORKER := Worker(Online, 0, 0, None)

  lemma OneJobState(policy: Policy, limit: AttemptLimit) returns (s: Sys)
    ensures s == Run(policy, INIT, OneJobRun(limit)) && Reachable(policy, s) && SysInv(policy, s)
    ensures s.db.jobs == map[0 := QueuedJob(limit)] && s.db.attempts == map[] && s.claims == map[] && s.loops == map[]
    ensures s.db.workers == map[0 := ONLINE_WORKER]
  {
    hide RecoverHead, StartClaim, Report, SysInv;
    var steps := OneJobRun(limit);
    var s0 := Apply(policy, INIT, steps[0]);
    var s1 := Apply(policy, s0, steps[1]);
    s := Apply(policy, s1, steps[2]);
    assert s1.db.workers == map[0 := ONLINE_WORKER];
    assert s == Run(policy, INIT, steps) by {
      hide Apply;
      RunSnoc(policy, INIT, [], steps[0]);
      RunSnoc(policy, INIT, [steps[0]], steps[1]);
      RunSnoc(policy, INIT, [steps[0], steps[1]], steps[2]);
      assert [] + [steps[0]] == [steps[0]] && [steps[0]] + [steps[1]] == [steps[0], steps[1]];
      assert [steps[0], steps[1]] + [steps[2]] == steps;
    }
    ReachableSafe(policy, s);
  }

  // For every limit some reachable job has all its 2 * limit transitions ahead of it, and makes them.
  lemma LeastBound(policy: Policy, limit: AttemptLimit) returns (s: Sys, steps: seq<Step>)
    ensures Reachable(policy, s) && 0 in s.db.jobs && s.db.jobs[0].maxAttempts == limit
    ensures Transitions(policy, s, steps, 0) == 2 * limit
  {
    hide Apply, SysInv;
    s := OneJobState(policy, limit);
    steps := BoundIsReached(policy, s, 0, 0);
  }

  // The attempt check is needed: a worker holding a stale claim can have claimed the same
  // job again, and then the job-row check alone lets the stale claim through.
  lemma StaleClaimPassesJobCheck(policy: Policy) returns (s: Sys, a: AttemptId)
    ensures Reachable(policy, s) && a in s.claims
    ensures a in s.db.attempts && Closed(s.db.attempts[a])
    ensures OwnsJob(s.db, s.claims[a].jobId, s.claims[a].attempt.worker)
    ensures !FinishAllowed(s.db, s.claims[a].jobId, s.claims[a].attempt.worker, a)
  {
    hide Apply, DbInv, MemoryFits;
    var s0 := OneJobState(policy, 3);
    a := 1;
    var s1 := ClaimEffect(policy, s0, 0, 0, a, 0);
    ReachableStep(policy, s0, ClaimNext(0, 0, a, 0));
    var s2 := FailEffect(policy, s1, a, 0);
    ReachableStep(policy, s1, ReportFailure(a, 0, 0, "failed"));
    var t := s2.db.jobs[0].availableAt;
    s := ClaimEffect(policy, s2, 0, 0, 2, t);
    ReachableStep(policy, s2, ClaimNext(0, 0, 2, t));
  }
}
