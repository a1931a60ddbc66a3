// apps/api/src/metrics: the queue metrics of one committed state.
module Metrics {
  import opened Wrappers
  import opened Records
  import opened Transactions
  import opened Invariants
  import opened Evolution
  import opened Counting
  import opened ClaimDrain

  // ---- grouped counts ----

  const JOB_STATUSES: set<JobStatus> :=
    {Scheduled, Queued, Processing, Retrying, Completed, Failed, DeadLetter, Cancelled}

  // Every supported status gets its count; a status without a group gets zero and an
  // unsupported one is dropped.
  method NormalizeGroupedCounts<K(==)>(statuses: set<K>, groups: seq<(K, nat)>) returns (counts: map<K, nat>)
    ensures counts.Keys == statuses
    ensures forall s :: s in statuses && (forall i :: 0 <= i < |groups| ==> groups[i].0 != s) ==> counts[s] == 0
    ensures forall i | 0 <= i < |groups| && groups[i].0 in statuses ::
              (forall k :: i < k < |groups| ==> groups[k].0 != groups[i].0) ==> counts[groups[i].0] == groups[i].1
  {
    counts := map s | s in statuses :: 0;
    for n := 0 to |groups|
      invariant counts.Keys == statuses
      invariant forall s :: s in statuses && (forall i :: 0 <= i < n ==> groups[i].0 != s) ==> counts[s] == 0
      invariant forall i | 0 <= i < n && groups[i].0 in statuses ::
                  (forall k :: i < k < n ==> groups[k].0 != groups[i].0) ==> counts[groups[i].0] == groups[i].1
    {
      if groups[n].0 in counts {
        counts := counts[groups[n].0 := groups[n].1];
      }
    }
  }

  // SELECT status, COUNT(*) GROUP BY status: only the statuses that occur.
  ghost predicate GroupsJobs(db: Db, groups: seq<(JobStatus, nat)>) {
    && (forall i, k :: 0 <= i < k < |groups| ==> groups[i].0 != groups[k].0)
    && (forall i :: 0 <= i < |groups| ==> groups[i].1 == |JobsWith(db, groups[i].0)|)
    && (forall s: JobStatus :: JobsWith(db, s) != {} ==> exists i :: 0 <= i < |groups| && groups[i].0 == s)
  }

  ghost function JobsAmong(db: Db, statuses: set<JobStatus>): set<JobId> {
    set j | j in db.jobs && db.jobs[j].status in statuses
  }

  lemma OneMoreStatus(db: Db, statuses: set<JobStatus>, s: JobStatus)
    requires s !in statuses
    ensures |JobsAmong(db, statuses + {s})| == |JobsAmong(db, statuses)| + |JobsWith(db, s)|
  {
    assert JobsAmong(db, statuses + {s}) == JobsAmong(db, statuses) + JobsWith(db, s);
    assert JobsAmong(db, statuses) !! JobsWith(db, s);
  }

  lemma WaitingCount(db: Db)
    ensures |JobsAmong(db, {Scheduled, Queued, Retrying})| ==
            |JobsWith(db, Scheduled)| + |JobsWith(db, Queued)| + |JobsWith(db, Retrying)|
  {
    hide JobsWith;
    assert JobsAmong(db, {}) == {};
    hide JobsAmong;
    OneMoreStatus(db, {}, Scheduled);
    OneMoreStatus(db, {Scheduled}, Queued);
    OneMoreStatus(db, {Scheduled, Queued}, Retrying);
    assert {} + {Scheduled} == {Scheduled} && {Scheduled} + {Queued} == {Scheduled, Queued};
    assert {Scheduled, Queued} + {Retrying} == {Scheduled, Queued, Retrying};
  }

  // Every job is in exactly one of the eight statuses.
  lemma EightStatuses(db: Db)
    ensures |db.jobs| ==
            |JobsWith(db, Scheduled)| + |JobsWith(db, Queued)| + |JobsWith(db, Processing)| + |JobsWith(db, Retrying)| +
            |JobsWith(db, Completed)| + |JobsWith(db, Failed)| + |JobsWith(db, DeadLetter)| + |JobsWith(db, Cancelled)|
  {
    hide JobsWith;
    WaitingCount(db);
    var waiting := {Scheduled, Queued, Retrying};
    OneMoreStatus(db, waiting, Processing);
    OneMoreStatus(db, waiting + {Processing}, Completed);
    OneMoreStatus(db, waiting + {Processing} + {Completed}, Failed);
    OneMoreStatus(db, waiting + {Processing} + {Completed} + {Failed}, DeadLetter);
    OneMoreStatus(db, waiting + {Processing} + {Completed} + {Failed} + {DeadLetter}, Cancelled);
    var all := waiting + {Processing} + {Completed} + {Failed} + {DeadLetter} + {Cancelled};
    assert JobsAmong(db, all) == db.jobs.Keys by {
      forall j | j in db.jobs ensures db.jobs[j].status in all {
        match db.jobs[j].status {
          case Scheduled => case Queued => case Processing => case Retrying =>
          case Completed => case Failed => case DeadLetter => case Cancelled =>
        }
      }
    }
  }

  lemma PendingCoversClaimable(db: Db, asOf: Time)
    ensures CountClaimable(db, asOf) <= |JobsWith(db, Scheduled)| + |JobsWith(db, Queued)| + |JobsWith(db, Retrying)|
  {
    WaitingCount(db);
    var pending := JobsAmong(db, {Scheduled, Queued, Retrying});
    assert ClaimableIds(db, asOf) <= pending;
    assert |pending - ClaimableIds(db, asOf)| == |pending| - |ClaimableIds(db, asOf)|;
  }

  datatype QueueMetrics = QueueMetrics(total: nat, counts: map<JobStatus, nat>, pending: nat, claimable: nat,
                                       oldestAgeMs: Option<int>)

  // How long the longest-waiting claimable job has been available.
  ghost predicate OldestAge(db: Db, now: Time, age: Option<int>) {
    && (age.None? <==> ClaimableIds(db, now) == {})
    && (age.Some? ==> exists j :: j in ClaimableIds(db, now) && now - db.jobs[j].availableAt == age.value)
    && (age.Some? ==> forall j :: j in ClaimableIds(db, now) ==> now - db.jobs[j].availableAt <= age.value)
  }

  method OldestClaimableAgeMs(db: Db, now: Time) returns (age: Option<int>)
    ensures OldestAge(db, now, age)
  {
    hide AvailableBefore;
    var oldest := FindOldestClaimableJob(db, now);
    if oldest.None? {
      return None;
    }
    var waited := now - db.jobs[oldest.value].availableAt;
    assert oldest.value in ClaimableIds(db, now);
    return Some(if waited >= 0 then waited else 0);
  }

  method CountJobsByStatus(ghost db: Db, groups: seq<(JobStatus, nat)>) returns (counts: map<JobStatus, nat>)
    requires GroupsJobs(db, groups)
    ensures counts.Keys == JOB_STATUSES
    ensures forall s :: s in JOB_STATUSES ==> counts[s] == |JobsWith(db, s)|
  {
    counts := NormalizeGroupedCounts(JOB_STATUSES, groups);
    forall s | s in JOB_STATUSES ensures counts[s] == |JobsWith(db, s)| {
      if i :| 0 <= i < |groups| && groups[i].0 == s {
        assert counts[groups[i].0] == groups[i].1;
      } else {
        assert JobsWith(db, s) == {};
      }
    }
  }

  function StatusTotal(counts: map<JobStatus, nat>): nat
    requires counts.Keys == JOB_STATUSES
  {
    counts[Scheduled] + counts[Queued] + counts[Processing] + counts[Retrying] +
    counts[Completed] + counts[Failed] + counts[DeadLetter] + counts[Cancelled]
  }

  // The queue section. The queries run in parallel, each on the committed state it meets:
  // atTotal, atGroups, atClaimable and atOldest. Its figures add up as far as those agree,
  // and the statuses never add up to more than a total counted later.
  method GetQueueMetrics(atTotal: Db, ghost atGroups: Db, atClaimable: Db, atOldest: Db,
                         groups: seq<(JobStatus, nat)>, now: Time)
    returns (q: QueueMetrics)
    requires GroupsJobs(atGroups, groups)
    ensures q.counts.Keys == JOB_STATUSES && q.total == |atTotal.jobs| &&
              q.claimable == |ClaimableIds(atClaimable, now)|
    ensures forall s :: s in JOB_STATUSES ==> q.counts[s] == |JobsWith(atGroups, s)|
    ensures q.pending == |JobsAmong(atGroups, {Scheduled, Queued, Retrying})|
    ensures OldestAge(atOldest, now, q.oldestAgeMs)
    ensures RowsFit(atGroups) ==> q.counts[Failed] == 0
    ensures atTotal == atGroups ==> q.total == StatusTotal(q.counts)
    ensures JobsEvolve(atGroups, atTotal) ==> StatusTotal(q.counts) <= q.total
    ensures atClaimable == atGroups ==> q.claimable <= q.pending
    ensures atClaimable == atOldest ==> (q.claimable == 0 <==> q.oldestAgeMs.None?)
  {
    hide RowsFit, JobsWith, ClaimableIds, GroupsJobs, JobsEvolve;
    var counts := CountJobsByStatus(atGroups, groups);
    EightStatuses(atGroups);
    WaitingCount(atGroups);
    PendingCoversClaimable(atGroups, now);
    if RowsFit(atGroups) {
      OpenCounts(atGroups);
    }
    if JobsEvolve(atGroups, atTotal) {
      JobsOnlyGrow(atGroups, atTotal);
    }
    var age := OldestClaimableAgeMs(atOldest, now);
    return QueueMetrics(|atTotal.jobs|, counts, counts[Scheduled] + counts[Queued] + counts[Retrying],
                        CountClaimable(atClaimable, now), age);
  }

  lemma JobsOnlyGrow(db: Db, later: Db)
    requires JobsEvolve(db, later)
    ensures |db.jobs| <= |later.jobs|
  {
    assert db.jobs.Keys <= later.jobs.Keys;
    assert |later.jobs.Keys - db.jobs.Keys| == |later.jobs.Keys| - |db.jobs.Keys|;
  }
}
