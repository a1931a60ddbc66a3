// recoverAllWorkers: accounting over a batch of stale workers, and how fast batches drain them.
module RecoveryBatch {
  import opened Wrappers
  import opened Records
  import opened Transactions
  import opened Invariants
  import opened Protocol
  import opened Database
  import opened StaleWorkerRepository
  import opened StaleWorkerService

  datatype BatchSummary = BatchSummary(workersRecovered: nat, jobsRecovered: nat, jobsRetried: nat,
                                       jobsDeadLettered: nat, failures: seq<(WorkerId, RecoveryError)>)

  // The jobs that really left PROCESSING between two snapshots.
  function Moved(before: Db, after: Db): set<JobId> {
    set j | j in before.jobs && j in after.jobs && before.jobs[j].status.Processing? &&
        !after.jobs[j].status.Processing?
  }

  // The jobs that left it for the given status.
  function MovedTo(before: Db, after: Db, status: JobStatus): set<JobId> {
    set j | j in before.jobs && j in after.jobs && before.jobs[j].status == Processing && after.jobs[j].status == status
  }

  // Recovery never puts a job into PROCESSING, and touches no job that is not.
  ghost predicate NoneStarted(before: Db, after: Db) {
    && after.jobs.Keys == before.jobs.Keys
    && (forall j :: j in before.jobs && after.jobs[j].status.Processing? ==> before.jobs[j].status.Processing?)
    && (forall j :: j in before.jobs && before.jobs[j].status != Processing ==> after.jobs[j] == before.jobs[j])
  }

  lemma MovedInTurn(before: Db, cur: Db, after: Db)
    requires NoneStarted(before, cur) && NoneStarted(cur, after)
    ensures NoneStarted(before, after)
    ensures |Moved(before, after)| == |Moved(before, cur)| + |Moved(cur, after)|
    ensures forall status :: status in {Retrying, DeadLetter} ==>
              |MovedTo(before, after, status)| == |MovedTo(before, cur, status)| + |MovedTo(cur, after, status)|
  {
    MovedToInTurn(before, cur, after, Retrying);
    MovedToInTurn(before, cur, after, DeadLetter);
    hide MovedTo;
    forall j ensures j in before.jobs <==> j in cur.jobs && j in after.jobs {
      assert j in cur.jobs.Keys <==> j in before.jobs;
      assert j in after.jobs.Keys <==> j in cur.jobs;
    }
    UnionSize(Moved(before, after), Moved(before, cur), Moved(cur, after));
  }

  lemma MovedToInTurn(before: Db, cur: Db, after: Db, status: JobStatus)
    requires NoneStarted(before, cur) && NoneStarted(cur, after) && status != Processing
    ensures |MovedTo(before, after, status)| == |MovedTo(before, cur, status)| + |MovedTo(cur, after, status)|
  {
    var first, second := MovedTo(before, cur, status), MovedTo(cur, after, status);
    assert forall j :: j in first ==> j in cur.jobs && cur.jobs[j].status == status;
    forall j ensures j in MovedTo(before, after, status) <==> j in first || j in second {
      MovedOnce(before, cur, after, status, j);
    }
    UnionSize(MovedTo(before, after, status), first, second);
  }

  lemma MovedOnce(before: Db, cur: Db, after: Db, status: JobStatus, j: JobId)
    requires NoneStarted(before, cur) && NoneStarted(cur, after) && status != Processing
    ensures j in MovedTo(before, after, status) <==>
            j in MovedTo(before, cur, status) || j in MovedTo(cur, after, status)
  {
    assert j in before.jobs <==> j in cur.jobs.Keys;
    assert j in cur.jobs <==> j in after.jobs.Keys;
  }

  lemma UnionSize<T>(all: set<T>, x: set<T>, y: set<T>)
    requires x !! y && forall t :: t in all <==> t in x || t in y
    ensures |all| == |x| + |y|
  {
    assert all == x + y;
  }

  // A recovered worker's summary counts exactly the jobs that moved; after a failure jobs
  // may have moved uncounted.
  lemma WorkerMoved(policy: Policy, before: Db, after: Db, w: WorkerId, at: Time, links: seq<Link>,
                    r: Result<WorkerSummary, RecoveryError>)
    requires RecoverWorkerEffect(policy, before, after, w, at, links, r)
    ensures NoneStarted(before, after)
    ensures r.Success? ==> r.value.jobsRecovered == |Moved(before, after)|
    ensures r.Success? ==> r.value.jobsRetried == |MovedTo(before, after, Retrying)|
    ensures r.Success? ==> r.value.jobsDeadLettered == |MovedTo(before, after, DeadLetter)|
  {
    hide RecoverWorkerEffect, Moved, MovedTo, NoneStarted;
    RecoveryStartsNone(policy, before, after, w, at, links, r);
    if r.Success? {
      MovedKinds(policy, before, after, w, at, links, r);
      AllMoved(policy, before, after, w, at, links, r);
    }
  }

  lemma RecoveryStartsNone(policy: Policy, before: Db, after: Db, w: WorkerId, at: Time, links: seq<Link>,
                           r: Result<WorkerSummary, RecoveryError>)
    requires RecoverWorkerEffect(policy, before, after, w, at, links, r)
    ensures NoneStarted(before, after)
  {
    hide DbInv, AllRecovered;
    forall j | j in before.jobs
      ensures j in after.jobs && (after.jobs[j].status.Processing? ==> before.jobs[j].status.Processing?)
      ensures before.jobs[j].status != Processing ==> after.jobs[j] == before.jobs[j]
    {
      assert j in after.jobs.Keys;
      assert JobUntouched(before, after, j) || OwnsJob(before, j, w);
    }
  }

  lemma AllMoved(policy: Policy, before: Db, after: Db, w: WorkerId, at: Time, links: seq<Link>,
                 r: Result<WorkerSummary, RecoveryError>)
    requires RecoverWorkerEffect(policy, before, after, w, at, links, r) && r.Success?
    ensures r.value.jobsRecovered == |Moved(before, after)|
  {
    hide DbInv;
    if r.value.skipped {
      assert Moved(before, after) == {};
    } else {
      forall j | j in before.jobs ensures j in Moved(before, after) <==> j in LockedJobs(before, w) {
        KindOf(policy, before, after, w, at, j);
      }
      assert Moved(before, after) == LockedJobs(before, w);
    }
  }

  // The jobs with attempts left go to RETRYING, the others to DEAD_LETTER.
  lemma MovedKinds(policy: Policy, before: Db, after: Db, w: WorkerId, at: Time, links: seq<Link>,
                   r: Result<WorkerSummary, RecoveryError>)
    requires RecoverWorkerEffect(policy, before, after, w, at, links, r) && r.Success?
    ensures r.value.jobsRetried == |MovedTo(before, after, Retrying)|
    ensures r.value.jobsDeadLettered == |MovedTo(before, after, DeadLetter)|
  {
    hide DbInv;
    if r.value.skipped {
      assert MovedTo(before, after, Retrying) == {} && MovedTo(before, after, DeadLetter) == {};
    } else {
      forall j | j in before.jobs
        ensures j in MovedTo(before, after, Retrying) <==> j in RetriableJobs(before, w)
        ensures j in MovedTo(before, after, DeadLetter) <==> j in LockedJobs(before, w) - RetriableJobs(before, w)
      {
        KindOf(policy, before, after, w, at, j);
      }
      assert MovedTo(before, after, Retrying) == RetriableJobs(before, w);
      assert MovedTo(before, after, DeadLetter) == LockedJobs(before, w) - RetriableJobs(before, w);
      SetMinus(LockedJobs(before, w), RetriableJobs(before, w));
    }
  }

  lemma SetMinus<T>(x: set<T>, y: set<T>)
    requires y <= x
    ensures |x - y| == |x| - |y|
  {
  }

  lemma KindOf(policy: Policy, before: Db, after: Db, w: WorkerId, at: Time, j: JobId)
    requires PartlyRecovered(policy.retry, before, after, w, at) && AllRecovered(policy.retry, before, after, w, at)
    requires j in before.jobs
    ensures j in MovedTo(before, after, Retrying) <==> j in RetriableJobs(before, w)
    ensures j in MovedTo(before, after, DeadLetter) <==> j in LockedJobs(before, w) - RetriableJobs(before, w)
  {
    if OwnsJob(before, j, w) {
      var a :| JobRecoveredBy(policy.retry, before, after, w, j, at, a);
    } else {
      assert JobUntouched(before, after, j);
    }
  }

  // Worker rows after a batch: its members have left the stale candidates, the others are as before.
  ghost predicate BatchTaken(before: Db, after: Db, batch: seq<WorkerId>) {
    && after.workers.Keys == before.workers.Keys
    && (forall v :: v in before.workers && v !in batch ==> after.workers[v] == before.workers[v])
    && (forall v :: v in before.workers && v in batch ==>
          after.workers[v].status.Unhealthy? || after.workers[v].status.Offline?)
  }

  // Batch member i is recovered with the clock reading clock(i + 1) over the calls links(i).
  ghost predicate ClockKeepsUp(clock: nat -> Time) {
    forall i: nat :: clock(i) >= clock(0)
  }

  ghost predicate MarksDelivered(links: nat -> seq<Link>) {
    forall i: nat :: !LinkAt(links(i), 0).LostBefore?
  }

  // ---- the books after the first n members ----

  ghost predicate Counted(before: Db, cur: Db, batch: seq<WorkerId>, n: nat, s: BatchSummary, skipped: nat) {
    && n <= |batch| && NoneStarted(before, cur)
    && n == s.workersRecovered + skipped + |s.failures|
    && (forall i :: 0 <= i < |s.failures| ==> s.failures[i].0 in batch[..n])
    && (forall i, k :: 0 <= i < k < |s.failures| ==> s.failures[i].0 != s.failures[k].0)
    && s.jobsRecovered == s.jobsRetried + s.jobsDeadLettered
    && s.jobsRecovered <= |Moved(before, cur)|
    && s.jobsRetried <= |MovedTo(before, cur, Retrying)| && s.jobsDeadLettered <= |MovedTo(before, cur, DeadLetter)|
    && (s.failures == [] ==>
          && s.jobsRecovered == |Moved(before, cur)|
          && s.jobsRetried == |MovedTo(before, cur, Retrying)|
          && s.jobsDeadLettered == |MovedTo(before, cur, DeadLetter)|)
  }

  ghost predicate RowsTaken(before: Db, cur: Db, batch: seq<WorkerId>, n: nat, taken: bool) {
    && n <= |batch| && cur.workers.Keys == before.workers.Keys
    && (forall v :: v in before.workers && v !in batch[..n] ==> cur.workers[v] == before.workers[v])
    && (taken ==> forall v :: v in before.workers && v in batch[..n] ==>
          cur.workers[v].status.Unhealthy? || cur.workers[v].status.Offline?)
  }

  function Tally(s: BatchSummary, w: WorkerId, result: Result<WorkerSummary, RecoveryError>): BatchSummary {
    match result
    case Success(v) =>
      BatchSummary(s.workersRecovered + v.workerRecovered, s.jobsRecovered + v.jobsRecovered,
                   s.jobsRetried + v.jobsRetried, s.jobsDeadLettered + v.jobsDeadLettered, s.failures)
    case Failure(error) => s.(failures := s.failures + [(w, error)])
  }

  function SkipCount(result: Result<WorkerSummary, RecoveryError>): nat {
    if result.Success? && result.value.skipped then 1 else 0
  }

  lemma CountMember(policy: Policy, before: Db, cur: Db, after: Db, batch: seq<WorkerId>, n: nat, s: BatchSummary,
                    skipped: nat, at: Time, links: seq<Link>, result: Result<WorkerSummary, RecoveryError>)
    requires Counted(before, cur, batch, n, s, skipped) && n < |batch| && batch[n] !in batch[..n]
    requires RecoverWorkerEffect(policy, cur, after, batch[n], at, links, result)
    ensures Counted(before, after, batch, n + 1, Tally(s, batch[n], result), skipped + SkipCount(result))
  {
    hide RecoverWorkerEffect, Moved, MovedTo, NoneStarted;
    EffectFacts(policy, cur, after, batch[n], at, links, result);
    WorkerMoved(policy, cur, after, batch[n], at, links, result);
    MovedInTurn(before, cur, after);
    assert batch[..n + 1] == batch[..n] + [batch[n]];
  }

  // A member untouched so far is still stale, so its mark is refused only if the clock fell back.
  lemma TakeMember(policy: Policy, before: Db, cur: Db, after: Db, batch: seq<WorkerId>, n: nat, taken: bool,
                   staleBefore: Time, at: Time, links: seq<Link>, result: Result<WorkerSummary, RecoveryError>)
    requires RowsTaken(before, cur, batch, n, taken) && n < |batch| && batch[n] !in batch[..n]
    requires batch[n] in StaleWorkers(before, staleBefore)
    requires RecoverWorkerEffect(policy, cur, after, batch[n], at, links, result)
    requires taken ==> at - policy.staleAfterMs >= staleBefore && !LinkAt(links, 0).LostBefore?
    ensures RowsTaken(before, after, batch, n + 1, taken)
    ensures at - policy.staleAfterMs >= staleBefore ==> SkipCount(result) == 0
  {
    hide RecoverWorkerEffect;
    EffectFacts(policy, cur, after, batch[n], at, links, result);
    assert batch[..n + 1] == batch[..n] + [batch[n]];
    assert cur.workers[batch[n]] == before.workers[batch[n]];
  }

  // The part of one recovery's effect that the batch accounting needs.
  lemma EffectFacts(policy: Policy, before: Db, after: Db, w: WorkerId, at: Time, links: seq<Link>,
                    r: Result<WorkerSummary, RecoveryError>)
    requires RecoverWorkerEffect(policy, before, after, w, at, links, r)
    ensures DbInv(policy.retry, after) && after.workers.Keys == before.workers.Keys
    ensures forall v :: v in before.workers && v != w ==> after.workers[v] == before.workers[v]
    ensures Marked(policy, before, w, at, links) ==>
              after.workers[w].status.Unhealthy? || after.workers[w].status.Offline?
    ensures r.Success? ==> r.value.workerRecovered == (if r.value.skipped then 0 else 1)
    ensures r.Success? ==> r.value.jobsRecovered == r.value.jobsRetried + r.value.jobsDeadLettered
    ensures SkipCount(r) == 1 ==> !WriteAllowed(before, w, MarkUnhealthy(at - policy.staleAfterMs))
    ensures AllDelivered(links) ==> r.Success?
  {
    hide DbInv, AllRecovered, JobUntouched, JobRecovered;
  }

  // ---- the batch ----

  // Each batch worker is counted as recovered, was skipped, or is listed once in failures.
  // jobsRecovered counts the jobs that really moved, exactly so when nothing failed.
  method RecoverAllWorkers(prisma: Prisma, policy: Policy, limit: nat, clock: nat -> Time, find: Link,
                           links: nat -> seq<Link>)
    returns (r: Result<BatchSummary, RecoveryError>, ghost batch: seq<WorkerId>, ghost skipped: nat)
    requires DbInv(policy.retry, prisma.View())
    modifies prisma
    ensures DbInv(policy.retry, prisma.View())
    ensures r.Failure? <==> !find.Delivered?
    ensures r.Failure? ==> prisma.View() == old(prisma.View())
    ensures r.Success? ==>
              && IsStaleBatch(old(prisma.View()), clock(0) - policy.staleAfterMs, limit, batch)
              && Counted(old(prisma.View()), prisma.View(), batch, |batch|, r.value, skipped)
    ensures r.Success? && ClockKeepsUp(clock) ==> skipped == 0
    ensures r.Success? && ClockKeepsUp(clock) && MarksDelivered(links) ==>
              BatchTaken(old(prisma.View()), prisma.View(), batch)
    ensures r.Success? && (forall i: nat :: AllDelivered(links(i))) ==> r.value.failures == []
  {
    hide DbInv, RecoverWorkerEffect, Counted, RowsTaken;
    batch, skipped := [], 0;
    if !find.Delivered? {
      return Failure(ConnectionLost), batch, skipped;
    }
    ghost var before := prisma.View();
    ghost var taken := ClockKeepsUp(clock) && MarksDelivered(links);
    var staleWorkers := FindStaleWorkers(prisma, clock(0) - policy.staleAfterMs, limit);
    batch := staleWorkers;
    var summary := BatchSummary(0, 0, 0, 0, []);
    NothingCounted(before, batch, taken);
    for n := 0 to |staleWorkers|
      invariant DbInv(policy.retry, prisma.View())
      invariant Counted(before, prisma.View(), batch, n, summary, skipped)
      invariant RowsTaken(before, prisma.View(), batch, n, taken)
      invariant ClockKeepsUp(clock) ==> skipped == 0
      invariant (forall i: nat :: AllDelivered(links(i))) ==> summary.failures == []
    {
      ghost var cur := prisma.View();
      var w := staleWorkers[n];
      assert w !in batch[..n];
      var result := RecoverWorker(prisma, policy, w, clock(n + 1), links(n));
      EffectFacts(policy, cur, prisma.View(), w, clock(n + 1), links(n), result);
      CountMember(policy, before, cur, prisma.View(), batch, n, summary, skipped, clock(n + 1), links(n), result);
      TakeMember(policy, before, cur, prisma.View(), batch, n, taken, clock(0) - policy.staleAfterMs,
                 clock(n + 1), links(n), result);
      if result.Success? {
        summary := summary.(workersRecovered := summary.workersRecovered + result.value.workerRecovered,
                            jobsRecovered := summary.jobsRecovered + result.value.jobsRecovered,
                            jobsRetried := summary.jobsRetried + result.value.jobsRetried,
                            jobsDeadLettered := summary.jobsDeadLettered + result.value.jobsDeadLettered);
      } else {
        summary := summary.(failures := summary.failures + [(w, result.error)]);
      }
      skipped := skipped + SkipCount(result);
    }
    WholeBatch(before, prisma.View(), batch, taken);
    return Success(summary), batch, skipped;
  }

  lemma NothingCounted(before: Db, batch: seq<WorkerId>, taken: bool)
    ensures Counted(before, before, batch, 0, BatchSummary(0, 0, 0, 0, []), 0)
    ensures RowsTaken(before, before, batch, 0, taken)
  {
    assert Moved(before, before) == {};
    assert MovedTo(before, before, Retrying) == {} && MovedTo(before, before, DeadLetter) == {};
  }

  lemma WholeBatch(before: Db, after: Db, batch: seq<WorkerId>, taken: bool)
    requires RowsTaken(before, after, batch, |batch|, taken)
    ensures taken ==> BatchTaken(before, after, batch)
  {
    assert batch[..|batch|] == batch;
  }

  // ---- draining the stale workers ----

  // What is left of early once members, the first limit of all, are gone.
  lemma Leftover<T>(early: set<T>, all: set<T>, members: set<T>, limit: nat)
    requires early <= all && members <= all
    requires |members| == if |all| <= limit then |all| else limit
    requires members <= early || early <= members
    ensures |early - members| == if |early| <= limit then 0 else |early| - limit
  {
    SubsetSize(early, all);
    if early <= members {
      SubsetSize(early, members);
      assert early - members == {};
    } else {
      SubsetSize(members, early);
      assert |early - members| == |early| - |members|;
      assert early - members != {};
    }
  }

  lemma BatchMembers(before: Db, now: Time, limit: nat, batch: seq<WorkerId>) returns (members: set<WorkerId>)
    requires IsStaleBatch(before, now, limit, batch)
    ensures forall v :: v in members <==> v in batch
    ensures members <= StaleWorkers(before, now)
    ensures |members| == if |StaleWorkers(before, now)| <= limit then |StaleWorkers(before, now)| else limit
    ensures forall m, v :: m in members && v in StaleWorkers(before, now) && v !in members ==>
              m in before.workers && before.workers[m].lastHeartbeatAt <= before.workers[v].lastHeartbeatAt
  {
    members := set i | 0 <= i < |batch| :: batch[i];
    BatchSize(batch);
  }

  lemma StaleAfter(before: Db, after: Db, cutoff: Time, batch: seq<WorkerId>)
    requires BatchTaken(before, after, batch)
    ensures forall v :: v in StaleWorkers(after, cutoff) <==> v in StaleWorkers(before, cutoff) && v !in batch
  {
    assert forall v :: v in before.workers <==> v in after.workers.Keys;
  }

  // One fault-free cycle run alone removes the limit oldest of the workers stale at any
  // earlier cutoff, or all of them: workers that went stale later cannot displace them.
  lemma CycleShrinksStale(before: Db, after: Db, cutoff: Time, now: Time, limit: nat, batch: seq<WorkerId>)
    requires IsStaleBatch(before, now, limit, batch) && BatchTaken(before, after, batch) && cutoff <= now
    ensures StaleWorkers(after, cutoff) <= StaleWorkers(before, cutoff)
    ensures |StaleWorkers(after, cutoff)| ==
            if |StaleWorkers(before, cutoff)| <= limit then 0 else |StaleWorkers(before, cutoff)| - limit
    ensures forall w, v |
              w in StaleWorkers(before, cutoff) - StaleWorkers(after, cutoff) && v in StaleWorkers(after, cutoff) ::
              before.workers[w].lastHeartbeatAt <= before.workers[v].lastHeartbeatAt
  {
    hide IsStaleBatch, BatchTaken;
    var early, all := StaleWorkers(before, cutoff), StaleWorkers(before, now);
    var members := BatchMembers(before, now, limit, batch);
    StaleAfter(before, after, cutoff, batch);
    assert StaleWorkers(after, cutoff) == early - members;
    if !(early <= members) {
      var v :| v in early && v !in members;
      assert v in all;
      forall m | m in members ensures m in early {
        assert before.workers[m].lastHeartbeatAt <= before.workers[v].lastHeartbeatAt;
      }
    }
    Leftover(early, all, members, limit);
  }

  lemma SubsetSize<T>(x: set<T>, y: set<T>)
    requires x <= y
    ensures |x| <= |y|
  {
    assert |y - x| == |y| - |x|;
  }

  lemma {:induction false} BatchSize(batch: seq<WorkerId>)
    requires forall i, k :: 0 <= i < k < |batch| ==> batch[i] != batch[k]
    ensures |set i | 0 <= i < |batch| :: batch[i]| == |batch|
  {
    if batch != [] {
      var front := batch[..|batch| - 1];
      BatchSize(front);
      assert (set i | 0 <= i < |batch| :: batch[i]) == (set i | 0 <= i < |front| :: front[i]) + {batch[|batch| - 1]};
    }
  }

  // dbs[k] to dbs[k + 1] is one cycle at time nows[k].
  ghost predicate Cycles(dbs: seq<Db>, nows: seq<Time>, limit: nat, cutoff: Time) {
    |dbs| == |nows| + 1 &&
    forall k :: 0 <= k < |nows| ==> cutoff <= nows[k] && Cycle(dbs[k], dbs[k + 1], nows[k], limit)
  }

  ghost predicate Cycle(before: Db, after: Db, now: Time, limit: nat) {
    exists batch :: IsStaleBatch(before, now, limit, batch) && BatchTaken(before, after, batch)
  }

  lemma OneCycle(before: Db, after: Db, cutoff: Time, now: Time, limit: nat)
    requires Cycle(before, after, now, limit) && cutoff <= now
    ensures |StaleWorkers(after, cutoff)| ==
            if |StaleWorkers(before, cutoff)| <= limit then 0 else |StaleWorkers(before, cutoff)| - limit
  {
    hide IsStaleBatch, BatchTaken, StaleWorkers;
    var batch :| IsStaleBatch(before, now, limit, batch) && BatchTaken(before, after, batch);
    CycleShrinksStale(before, after, cutoff, now, limit, batch);
  }

  // n stale workers are gone after ceil(n / limit) cycles.
  lemma {:induction false} CyclesDrain(dbs: seq<Db>, nows: seq<Time>, limit: nat, cutoff: Time)
    requires Cycles(dbs, nows, limit, cutoff)
    ensures |StaleWorkers(dbs[|nows|], cutoff)| ==
            if |StaleWorkers(dbs[0], cutoff)| <= |nows| * limit then 0
            else |StaleWorkers(dbs[0], cutoff)| - |nows| * limit
  {
    hide Cycle, StaleWorkers;
    if nows != [] {
      var n := |nows|;
      var shorter := nows[..n - 1];
      assert Cycles(dbs[..n], shorter, limit, cutoff) by {
        forall k | 0 <= k < n - 1
          ensures cutoff <= shorter[k] && Cycle(dbs[..n][k], dbs[..n][k + 1], shorter[k], limit)
        {
          assert Cycle(dbs[k], dbs[k + 1], nows[k], limit);
        }
      }
      CyclesDrain(dbs[..n], shorter, limit, cutoff);
      assert Cycle(dbs[n - 1], dbs[n], nows[n - 1], limit);
      OneCycle(dbs[n - 1], dbs[n], cutoff, nows[n - 1], limit);
      assert n * limit == (n - 1) * limit + limit;
    }
  }
}
