// Claiming again and again at one moment, with nothing else running.
module ClaimDrain {
  import opened Wrappers
  import opened Records
  import opened Backoff
  import opened Transactions
  import opened Invariants
  import opened Database
  import opened WorkerRepository
  import Query

  // countClaimableJobs
  function CountClaimable(db: Db, asOf: Time): nat {
    |ClaimableIds(db, asOf)|
  }

  // x may be returned before y, by the rows of db.
  ghost predicate Before(db: Db, x: JobId, y: JobId) {
    x in db.jobs && y in db.jobs && ClaimOrder(db.jobs[x], db.jobs[y])
  }

  ghost predicate OneClaim(before: Db, after: Db, j: JobId, asOf: Time) {
    IsBestClaimable(before, j, asOf) && exists w, a :: after == Claimed(before, j, w, a, asOf)
  }

  // dbs[k] to dbs[k + 1] is a claimNextJob call that returned js[k].
  ghost predicate ClaimTrace(dbs: seq<Db>, js: seq<JobId>, asOf: Time) {
    |dbs| == |js| + 1 && forall k :: 0 <= k < |js| ==> OneClaim(dbs[k], dbs[k + 1], js[k], asOf)
  }

  lemma OneClaimEffect(before: Db, after: Db, j: JobId, asOf: Time)
    requires OneClaim(before, after, j, asOf)
    ensures j in ClaimableIds(before, asOf)
    ensures ClaimableIds(after, asOf) == ClaimableIds(before, asOf) - {j}
    ensures forall k :: k in ClaimableIds(before, asOf) ==> Before(before, j, k)
    ensures forall x, y :: x in ClaimableIds(after, asOf) && y in ClaimableIds(after, asOf) ==>
              (Before(after, x, y) <==> Before(before, x, y))
  {
  }

  function Ids(js: seq<JobId>): set<JobId> {
    set i | 0 <= i < |js| :: js[i]
  }

  lemma {:induction false} ClaimsSoFar(dbs: seq<Db>, js: seq<JobId>, asOf: Time)
    requires ClaimTrace(dbs, js, asOf)
    ensures Ids(js) <= ClaimableIds(dbs[0], asOf)
    ensures forall i, k :: 0 <= i < k < |js| ==> js[i] != js[k] && Before(dbs[0], js[i], js[k])
    ensures ClaimableIds(dbs[|js|], asOf) == ClaimableIds(dbs[0], asOf) - Ids(js)
    ensures |Ids(js)| == |js|
    decreases |js|
  {
    hide OneClaim, Before, ClaimableIds;
    if js != [] {
      var rest := js[1..];
      assert OneClaim(dbs[0], dbs[1], js[0], asOf);
      assert ClaimTrace(dbs[1..], rest, asOf) by {
        forall k | 0 <= k < |rest| ensures OneClaim(dbs[1..][k], dbs[1..][k + 1], rest[k], asOf) {
          assert OneClaim(dbs[k + 1], dbs[k + 2], js[k + 1], asOf);
        }
      }
      ClaimsSoFar(dbs[1..], rest, asOf);
      OneClaimEffect(dbs[0], dbs[1], js[0], asOf);
      assert Ids(js) == {js[0]} + Ids(rest);
      forall i, k | 0 <= i < k < |js| ensures js[i] != js[k] && Before(dbs[0], js[i], js[k]) {
        assert js[k] == rest[k - 1] && js[k] in Ids(rest);
        if i > 0 {
          assert js[i] == rest[i - 1] && js[i] in Ids(rest);
        }
      }
    }
  }

  // High before Medium before Low, then the longest available, then the oldest.
  lemma InClaimOrder(db: Db, js: seq<JobId>, asOf: Time)
    requires forall i, k :: 0 <= i < k < |js| ==> Before(db, js[i], js[k])
    requires Ids(js) <= ClaimableIds(db, asOf)
    ensures forall i :: 0 <= i < |js| ==> js[i] in db.jobs
    ensures forall i, k | 0 <= i < k < |js| ::
              var x, y := db.jobs[js[i]], db.jobs[js[k]];
              && (y.priority.High? ==> x.priority.High?)
              && (y.priority.Medium? ==> !x.priority.Low?)
              && (x.priority == y.priority ==> x.availableAt <= y.availableAt)
              && (x.priority == y.priority && x.availableAt == y.availableAt ==> x.createdAt <= y.createdAt)
  {
    forall i | 0 <= i < |js| ensures js[i] in db.jobs {
      assert js[i] in Ids(js);
    }
    forall i, k | 0 <= i < k < |js| ensures ClaimOrder(db.jobs[js[i]], db.jobs[js[k]]) {
      assert Before(db, js[i], js[k]);
    }
  }

  // Repeated claims return exactly countClaimableJobs jobs and then none: all the eligible
  // jobs, each once, by priority, then availability, then age.
  lemma ClaimsDrainInOrder(dbs: seq<Db>, js: seq<JobId>, asOf: Time)
    requires ClaimTrace(dbs, js, asOf)
    ensures |js| <= CountClaimable(dbs[0], asOf)
    ensures ClaimableIds(dbs[|js|], asOf) == {} <==> |js| == CountClaimable(dbs[0], asOf)
    ensures |js| == CountClaimable(dbs[0], asOf) ==> Ids(js) == ClaimableIds(dbs[0], asOf)
    ensures forall i, k :: 0 <= i < k < |js| ==> js[i] != js[k] && Before(dbs[0], js[i], js[k])
    ensures forall i :: 0 <= i < |js| ==> js[i] in dbs[0].jobs
    ensures forall i, k | 0 <= i < k < |js| ::
              var x, y := dbs[0].jobs[js[i]], dbs[0].jobs[js[k]];
              && (y.priority.High? ==> x.priority.High?)
              && (y.priority.Medium? ==> !x.priority.Low?)
              && (x.priority == y.priority ==> x.availableAt <= y.availableAt)
              && (x.priority == y.priority && x.availableAt == y.availableAt ==> x.createdAt <= y.createdAt)
  {
    hide OneClaim, Before, ClaimableIds, Ids;
    ClaimsSoFar(dbs, js, asOf);
    InClaimOrder(dbs[0], js, asOf);
    var all, taken := ClaimableIds(dbs[0], asOf), Ids(js);
    assert |all - taken| == |all| - |taken|;
    assert all - taken == {} ==> all == taken;
  }

  lemma ClaimGoesThrough(config: ValidRetryConfig, db: Db, j: JobId, w: WorkerId, a: AttemptId, asOf: Time)
    requires DbInv(config, db) && IsBestClaimable(db, j, asOf) && w in db.workers && a !in db.attempts
    ensures ClaimAllowed(db, j, w, a) && DbInv(config, Claimed(db, j, w, a, asOf))
  {
    NextNumberFree(db, j);
    ClaimKeeps(config, db, j, w, a, asOf);
    hide DbInv;
  }

  lemma TraceGrows(dbs: seq<Db>, js: seq<JobId>, asOf: Time, after: Db, j: JobId)
    requires ClaimTrace(dbs, js, asOf) && OneClaim(dbs[|js|], after, j, asOf)
    ensures ClaimTrace(dbs + [after], js + [j], asOf)
  {
    hide OneClaim;
    forall k | 0 <= k < |js| + 1 ensures OneClaim((dbs + [after])[k], (dbs + [after])[k + 1], (js + [j])[k], asOf) {
      if k < |js| {
        assert OneClaim(dbs[k], dbs[k + 1], js[k], asOf);
      }
    }
  }

  // A registered worker that claims until it is told null, with nothing else running, gets
  // every eligible job once, in order, as many as countClaimableJobs said: no claim fails.
  method ClaimUntilNull(prisma: Prisma, ghost config: ValidRetryConfig, workerId: WorkerId, asOf: Time,
                        attemptIds: nat -> AttemptId)
    returns (js: seq<JobId>)
    requires DbInv(config, prisma.View()) && workerId in prisma.workers
    requires forall i: nat :: attemptIds(i) !in prisma.attempts
    requires forall i: nat, k: nat :: attemptIds(i) == attemptIds(k) ==> i == k
    modifies prisma
    ensures |js| == CountClaimable(old(prisma.View()), asOf) && Ids(js) == ClaimableIds(old(prisma.View()), asOf)
    ensures forall i, k :: 0 <= i < k < |js| ==> js[i] != js[k] && Before(old(prisma.View()), js[i], js[k])
    ensures forall j :: j in js <==>
              && j in old(prisma.jobs) && old(prisma.jobs)[j].status in {Scheduled, Queued, Retrying}
              && old(prisma.jobs)[j].availableAt <= asOf && old(prisma.jobs)[j].lockedBy.None?
    ensures forall i, k | 0 <= i < k < |js| ::
              var x, y := old(prisma.jobs)[js[i]], old(prisma.jobs)[js[k]];
              && (y.priority.High? ==> x.priority.High?)
              && (y.priority.Medium? ==> !x.priority.Low?)
              && (x.priority == y.priority ==> x.availableAt <= y.availableAt)
              && (x.priority == y.priority && x.availableAt == y.availableAt ==> x.createdAt <= y.createdAt)
    ensures ClaimableIds(prisma.View(), asOf) == {} && DbInv(config, prisma.View())
  {
    hide DbInv, Before, Claimable, ClaimOrder, OneClaim, ClaimTrace, Claimed;
    ghost var dbs := [prisma.View()];
    js := [];
    NoClaims(prisma.View(), asOf);
    while true
      invariant ClaimTrace(dbs, js, asOf) && |dbs| == |js| + 1 && dbs[0] == old(prisma.View()) &&
          dbs[|js|] == prisma.View()
      invariant DbInv(config, prisma.View()) && workerId in prisma.workers
      invariant forall i: nat :: i >= |js| ==> attemptIds(i) !in prisma.attempts
      decreases |ClaimableIds(prisma.View(), asOf)|
    {
      ghost var before := prisma.View();
      forall j | IsBestClaimable(before, j, asOf) ensures ClaimAllowed(before, j, workerId, attemptIds(|js|)) {
        ClaimGoesThrough(config, before, j, workerId, attemptIds(|js|), asOf);
      }
      var r := ClaimNextJob(prisma, workerId, asOf, attemptIds(|js|));
      if r == Success(None) {
        ClaimsDrainInOrder(dbs, js, asOf);
        AreClaimable(dbs[0], js, asOf);
        return;
      }
      ClaimGoesThrough(config, before, r.value.value.jobId, workerId, attemptIds(|js|), asOf);
      ClaimStep(before, prisma.View(), r.value.value.jobId, workerId, attemptIds(|js|), asOf);
      TraceGrows(dbs, js, asOf, prisma.View(), r.value.value.jobId);
      dbs, js := dbs + [prisma.View()], js + [r.value.value.jobId];
    }
  }

  lemma AreClaimable(db: Db, js: seq<JobId>, asOf: Time)
    requires Ids(js) == ClaimableIds(db, asOf)
    ensures forall j :: j in js <==>
              && j in db.jobs && db.jobs[j].status in {Scheduled, Queued, Retrying}
              && db.jobs[j].availableAt <= asOf && db.jobs[j].lockedBy.None?
  {
    forall j ensures j in js <==> j in Ids(js) {
    }
  }

  lemma NoClaims(db: Db, asOf: Time)
    ensures ClaimTrace([db], [], asOf)
  {
  }

  lemma ClaimStep(before: Db, after: Db, j: JobId, w: WorkerId, a: AttemptId, asOf: Time)
    requires IsBestClaimable(before, j, asOf) && after == Claimed(before, j, w, a, asOf)
    ensures OneClaim(before, after, j, asOf)
    ensures |ClaimableIds(after, asOf)| < |ClaimableIds(before, asOf)|
    ensures after.workers == before.workers && after.attempts.Keys == before.attempts.Keys + {a}
  {
    assert OneClaim(before, after, j, asOf);
    OneClaimEffect(before, after, j, asOf);
    hide OneClaim, Before;
  }

  function AvailableBefore(db: Db): (nat, nat) -> bool {
    (x, y) => x in db.jobs && y in db.jobs &&
              (db.jobs[x].availableAt < db.jobs[y].availableAt ||
               (db.jobs[x].availableAt == db.jobs[y].availableAt && db.jobs[x].createdAt <= db.jobs[y].createdAt))
  }

  lemma AvailableBeforeOrders(db: Db, asOf: Time)
    ensures Query.OrdersRows(ClaimableIds(db, asOf), AvailableBefore(db))
    ensures forall x, y | x in db.jobs && y in db.jobs :: AvailableBefore(db)(x, y) ==>
              && db.jobs[x].availableAt <= db.jobs[y].availableAt
              && (db.jobs[x].availableAt == db.jobs[y].availableAt ==> db.jobs[x].createdAt <= db.jobs[y].createdAt)
  {
    hide Claimable;
    var before := AvailableBefore(db);
    assert forall x, y | x in db.jobs && y in db.jobs :: before(x, y) <==>
      (db.jobs[x].availableAt < db.jobs[y].availableAt ||
       (db.jobs[x].availableAt == db.jobs[y].availableAt && db.jobs[x].createdAt <= db.jobs[y].createdAt));
  }

  // It is null exactly when the claim at the same moment would be; otherwise no claimable
  // job has been available for longer.
  method FindOldestClaimableJob(db: Db, asOf: Time) returns (found: Option<JobId>)
    ensures found.None? <==> CountClaimable(db, asOf) == 0
    ensures found.None? <==> ClaimableIds(db, asOf) == {}
    ensures found.Some? ==> found.value in ClaimableIds(db, asOf)
    ensures found.Some? ==> forall k :: k in ClaimableIds(db, asOf) ==>
              AvailableBefore(db)(found.value, k) && db.jobs[found.value].availableAt <= db.jobs[k].availableAt
    ensures found.Some? ==> forall k :: k in ClaimableIds(db, asOf) ==>
              db.jobs[k].availableAt == db.jobs[found.value].availableAt ==>
                db.jobs[found.value].createdAt <= db.jobs[k].createdAt
  {
    hide AvailableBefore, Claimable;
    var ids := ClaimableIds(db, asOf);
    if ids == {} {
      return None;
    }
    AvailableBeforeOrders(db, asOf);
    var before := AvailableBefore(db);
    var rows := Query.OrderBy(ids, before);
    assert rows[0] in rows && rows[0] in ids;
    forall k | k in ids ensures before(rows[0], k) {
      var i :| 0 <= i < |rows| && rows[i] == k;
    }
    return Some(rows[0]);
  }
}
