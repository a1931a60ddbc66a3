// Counting rows: the sums and group counts behind the metrics.
module Counting {
  import opened Records
  import opened Transactions
  import opened Invariants
  import opened Protocol
  import opened Safety

  // ---- counting by correspondence ----

  // f maps xs one to one onto ys.
  ghost predicate Bijection(xs: set<nat>, ys: set<nat>, f: map<nat, nat>) {
    && xs <= f.Keys
    && (forall x :: x in xs ==> f[x] in ys)
    && (forall x, y | x in xs && y in xs :: f[x] == f[y] ==> x == y)
    && (forall y :: y in ys ==> exists x :: x in xs && f[x] == y)
  }

  lemma {:induction false} SameSize(xs: set<nat>, ys: set<nat>, f: map<nat, nat>)
    requires Bijection(xs, ys, f)
    ensures |xs| == |ys|
    decreases |xs|
  {
    if xs == {} {
      assert ys == {};
    } else {
      var x :| x in xs;
      SameSize(xs - {x}, ys - {f[x]}, f);
    }
  }

  function Numbers(n: nat): (r: set<nat>)
    ensures forall k: nat :: k in r <==> 1 <= k <= n
    ensures |r| == n
  {
    if n == 0 then {} else Numbers(n - 1) + {n}
  }

  // ---- the counts ----

  ghost function JobsWith(db: Db, status: JobStatus): set<JobId> {
    set j | j in db.jobs && db.jobs[j].status == status
  }

  ghost function AttemptsWith(db: Db, status: AttemptStatus): set<AttemptId> {
    set a | a in db.attempts && db.attempts[a].status == status
  }

  ghost function LockedRows(db: Db): set<JobId> {
    set j | j in db.jobs && db.jobs[j].lockedBy.Some?
  }

  ghost function AttemptsOf(db: Db, j: JobId): set<AttemptId> {
    set a | a in db.attempts && db.attempts[a].jobId == j
  }

  ghost function SumAttempts(db: Db, js: set<JobId>): nat
    requires forall j :: j in js ==> j in db.jobs
    decreases |js|
  {
    if js == {} then 0
    else
      var j :| j in js;
      db.jobs[j].attemptCount + SumAttempts(db, js - {j})
  }

  // A job has exactly attemptCount attempts.
  lemma AttemptsOfJob(db: Db, j: JobId)
    requires RowsFit(db) && j in db.jobs
    ensures |AttemptsOf(db, j)| == db.jobs[j].attemptCount
  {
    hide JobsFit, Numbers;
    var f := map a | a in db.attempts :: db.attempts[a].number;
    forall k | k in Numbers(db.jobs[j].attemptCount) ensures exists a :: a in AttemptsOf(db, j) && f[a] == k {
      assert NumberTaken(db, j, k);
      var a :| a in db.attempts && db.attempts[a].jobId == j && db.attempts[a].number == k;
      assert a in AttemptsOf(db, j) && f[a] == k;
    }
    SameSize(AttemptsOf(db, j), Numbers(db.jobs[j].attemptCount), f);
  }

  ghost function AttemptsAmong(db: Db, js: set<JobId>): set<AttemptId> {
    set a | a in db.attempts && db.attempts[a].jobId in js
  }

  lemma {:induction false} AttemptsSum(db: Db, js: set<JobId>)
    requires RowsFit(db) && forall j :: j in js ==> j in db.jobs
    ensures |AttemptsAmong(db, js)| == SumAttempts(db, js)
    decreases |js|
  {
    hide RowsFit;
    if js == {} {
      assert AttemptsAmong(db, js) == {};
    } else {
      var j :| j in js && SumAttempts(db, js) == db.jobs[j].attemptCount + SumAttempts(db, js - {j});
      AttemptsSum(db, js - {j});
      AttemptsOfJob(db, j);
      assert AttemptsAmong(db, js) == AttemptsAmong(db, js - {j}) + AttemptsOf(db, j);
      assert AttemptsAmong(db, js - {j}) !! AttemptsOf(db, j);
    }
  }

  // The last attempts of the jobs in one status are the attempts in the matching status.
  lemma LastAttempts(db: Db, xs: set<AttemptId>, ys: set<JobId>)
    requires RowsFit(db) && xs <= db.attempts.Keys && ys <= db.jobs.Keys
    requires forall a :: a in xs <==> a in db.attempts && db.attempts[a].jobId in ys &&
                                      db.attempts[a].jobId in db.jobs &&
                                      db.attempts[a].number == db.jobs[db.attempts[a].jobId].attemptCount
    requires forall j :: j in ys ==> db.jobs[j].attemptCount >= 1
    ensures |xs| == |ys|
  {
    hide JobsFit;
    var f := map a | a in db.attempts :: db.attempts[a].jobId;
    forall j | j in ys ensures exists a :: a in xs && f[a] == j {
      assert NumberTaken(db, j, db.jobs[j].attemptCount);
      var a :| a in db.attempts && db.attempts[a].jobId == j && db.attempts[a].number == db.jobs[j].attemptCount;
      assert a in xs && f[a] == j;
    }
    SameSize(xs, ys, f);
  }

  // ---- conservation ----

  // One committed snapshot at any point of any run.
  lemma CountsConserved(policy: Policy, s: Sys)
    requires Reachable(policy, s)
    ensures |s.db.attempts| == SumAttempts(s.db, s.db.jobs.Keys)
    ensures |AttemptsWith(s.db, AttemptProcessing)| == |JobsWith(s.db, Processing)| == |LockedRows(s.db)|
    ensures |AttemptsWith(s.db, AttemptCompleted)| == |JobsWith(s.db, Completed)|
    ensures JobsWith(s.db, Failed) == {}
  {
    hide Apply, MemoryFits, KeysUnique, Spaced, RetryWaits, LogsReplay;
    ReachableSafe(policy, s);
    AttemptsSum(s.db, s.db.jobs.Keys);
    assert AttemptsAmong(s.db, s.db.jobs.Keys) == s.db.attempts.Keys;
    OpenCounts(s.db);
  }

  lemma OpenCounts(db: Db)
    requires RowsFit(db)
    ensures |AttemptsWith(db, AttemptProcessing)| == |JobsWith(db, Processing)| == |LockedRows(db)|
    ensures |AttemptsWith(db, AttemptCompleted)| == |JobsWith(db, Completed)|
    ensures JobsWith(db, Failed) == {}
  {
    hide NumbersUnique, NumbersPresent;
    forall j | j in db.jobs ensures JobFits(db.jobs[j]) {
    }
    assert LockedRows(db) == JobsWith(db, Processing);
    LastAttempts(db, AttemptsWith(db, AttemptProcessing), JobsWith(db, Processing));
    LastAttempts(db, AttemptsWith(db, AttemptCompleted), JobsWith(db, Completed));
  }
}
