// The claim as PostgreSQL runs it: SELECT ... FOR UPDATE SKIP LOCKED, then an update by id
// with no guard. Between the two other transactions run; this refines the atomic claim step.
module ClaimRefinement {
  import opened Records
  import opened Transactions
  import opened Decisions
  import opened Invariants
  import opened Protocol
  import opened Safety

  type TxId = nat

  // An open claim transaction and the row lock it took.
  datatype Held = Held(jobId: JobId, workerId: WorkerId, claimedAt: Time)

  datatype TwoPhase = TwoPhase(sys: Sys, held: map<TxId, Held>)

  const START := TwoPhase(INIT, map[])

  datatype TxStep =
    | Select(tx: TxId, jobId: JobId, workerId: WorkerId, claimedAt: Time)
    | Commit(tx: TxId, attemptId: AttemptId)
    | Abort(tx: TxId)
    | Other(step: Step)

  predicate RowHeld(held: map<TxId, Held>, jobId: JobId) {
    exists tx :: tx in held && held[tx].jobId == jobId
  }

  // The row the query returns: the first claimable one that no open transaction has locked.
  ghost predicate Selectable(t: TwoPhase, jobId: JobId, asOf: Time) {
    && jobId in ClaimableIds(t.sys.db, asOf) && !RowHeld(t.held, jobId)
    && forall k :: k in ClaimableIds(t.sys.db, asOf) && !RowHeld(t.held, k) ==>
         ClaimOrder(t.sys.db.jobs[jobId], t.sys.db.jobs[k])
  }

  // The job row a step updates. The update waits while another transaction has it locked.
  ghost predicate UpdatesRow(s: Sys, step: Step, jobId: JobId) {
    match step
    case Cancel(_, j, _) => j == jobId
    case ReportSuccess(a, _, _) => a in s.claims && s.claims[a].jobId == jobId
    case ReportFailure(a, _, _, _) => a in s.claims && s.claims[a].jobId == jobId
    case LoopRecover(l) =>
      Ready(s, step) && s.loops[l].phase.queue[0].jobId == jobId
    case _ => false
  }

  ghost predicate Waits(t: TwoPhase, step: Step) {
    step.ClaimNext? || exists tx :: tx in t.held && UpdatesRow(t.sys, step, t.held[tx].jobId)
  }

  ghost function TxApply(policy: Policy, t: TwoPhase, step: TxStep): TwoPhase {
    match step
    case Select(tx, j, w, at) =>
      if tx !in t.held && Selectable(t, j, at) then t.(held := t.held[tx := Held(j, w, at)]) else t
    case Commit(tx, a) =>
      if tx !in t.held then t
      else
        var h := t.held[tx];
        // No guard on the row: only the database's own constraints can stop the update.
        if h.jobId in t.sys.db.jobs && ClaimAllowed(t.sys.db, h.jobId, h.workerId, a)
        then TwoPhase(StartClaim(t.sys, h.jobId, h.workerId, a, h.claimedAt), t.held - {tx})
        else t.(held := t.held - {tx})
    case Abort(tx) => t.(held := t.held - {tx})
    case Other(step) => if Waits(t, step) then t else t.(sys := Apply(policy, t.sys, step))
  }

  ghost function TxRun(policy: Policy, t: TwoPhase, steps: seq<TxStep>): TwoPhase
    decreases |steps|
  {
    if steps == [] then t else TxRun(policy, TxApply(policy, t, steps[0]), steps[1..])
  }

  // Open claim transactions hold different rows, and every held row is still claimable.
  ghost predicate TxInv(policy: Policy, t: TwoPhase) {
    && SysInv(policy, t.sys)
    && (forall x, y | x in t.held && y in t.held :: t.held[x].jobId == t.held[y].jobId ==> x == y)
    && (forall tx :: tx in t.held ==> HeldClaimable(t, t.held[tx]))
  }

  ghost predicate HeldClaimable(t: TwoPhase, h: Held) {
    h.jobId in t.sys.db.jobs && Claimable(t.sys.db.jobs[h.jobId], h.claimedAt)
  }

  // A step that does not update a row leaves it as it is.
  lemma RowKept(policy: Policy, s: Sys, step: Step, j: JobId)
    requires j in s.db.jobs && !step.ClaimNext? && !UpdatesRow(s, step, j) && ClaimsFit(s.db, s.claims)
    ensures j in Apply(policy, s, step).db.jobs && Apply(policy, s, step).db.jobs[j] == s.db.jobs[j]
  {
    hide IsLockedRead, FinishAllowed, WriteAllowed, KeyTaken, Snapshot;
  }

  // The atomic steps a two-phase step stands for: a claim happens when it commits.
  ghost function Atomic(t: TwoPhase, step: TxStep): seq<Step> {
    match step
    case Commit(tx, a) =>
      if tx in t.held then [ClaimNext(t.held[tx].jobId, t.held[tx].workerId, a, t.held[tx].claimedAt)] else []
    case Other(step) => if Waits(t, step) then [] else [step]
    case _ => []
  }

  ghost function AtomicRun(policy: Policy, t: TwoPhase, steps: seq<TxStep>): seq<Step>
    decreases |steps|
  {
    if steps == [] then [] else Atomic(t, steps[0]) + AtomicRun(policy, TxApply(policy, t, steps[0]), steps[1..])
  }

  lemma RunAtomic(policy: Policy, t: TwoPhase, step: TxStep)
    ensures Atomic(t, step) == [] ==> Run(policy, t.sys, Atomic(t, step)) == t.sys
    ensures |Atomic(t, step)| == 1 ==> Run(policy, t.sys, Atomic(t, step)) == Apply(policy, t.sys, Atomic(t, step)[0])
  {
    hide Apply;
    if |Atomic(t, step)| == 1 {
      var s1 := Apply(policy, t.sys, Atomic(t, step)[0]);
      assert Run(policy, s1, Atomic(t, step)[1..]) == s1;
    }
  }

  lemma CommitRefines(policy: Policy, t: TwoPhase, tx: TxId, a: AttemptId)
    requires TxInv(policy, t) && tx in t.held
    ensures var t' := TxApply(policy, t, Commit(tx, a));
            t'.sys == Apply(policy, t.sys, Atomic(t, Commit(tx, a))[0]) && TxInv(policy, t')
  {
    hide SysInv, Claimed, StartClaim, ClaimOrder, ClaimAllowed;
    var t' := TxApply(policy, t, Commit(tx, a));
    assert HeldClaimable(t, t.held[tx]);
    StepSafe(policy, t.sys, Atomic(t, Commit(tx, a))[0]);
    forall x | x in t'.held ensures HeldClaimable(t', t'.held[x]) {
      assert HeldClaimable(t, t.held[x]) && t.held[x].jobId != t.held[tx].jobId;
      CommitKeepsOthers(t.sys, t.held[tx], a, t.held[x].jobId);
    }
  }

  lemma OtherRefines(policy: Policy, t: TwoPhase, step: Step)
    requires TxInv(policy, t) && !Waits(t, step)
    ensures TxInv(policy, TxApply(policy, t, Other(step)))
  {
    hide SysInv, Apply, ClaimOrder;
    var t' := TxApply(policy, t, Other(step));
    StepSafe(policy, t.sys, step);
    ClaimsOf(policy, t.sys);
    forall x | x in t'.held ensures HeldClaimable(t', t'.held[x]) {
      assert HeldClaimable(t, t.held[x]);
      RowKept(policy, t.sys, step, t.held[x].jobId);
    }
  }

  lemma StepRefines(policy: Policy, t: TwoPhase, step: TxStep)
    requires TxInv(policy, t)
    ensures TxApply(policy, t, step).sys == Run(policy, t.sys, Atomic(t, step))
    ensures TxInv(policy, TxApply(policy, t, step))
  {
    hide SysInv, Run, Apply, StartClaim, ClaimOrder, ClaimAllowed, UpdatesRow;
    RunAtomic(policy, t, step);
    match step
    case Commit(tx, a) => if tx in t.held { CommitRefines(policy, t, tx, a); }
    case Other(other) => if !Waits(t, other) { OtherRefines(policy, t, other); }
    case _ =>
  }

  lemma ClaimsOf(policy: Policy, s: Sys)
    requires SysInv(policy, s)
    ensures ClaimsFit(s.db, s.claims)
  {
    hide DbInv, QueuesFit, TakeoversFit, ReceiptsFit;
  }

  lemma CommitKeepsOthers(s: Sys, h: Held, a: AttemptId, k: JobId)
    requires h.jobId in s.db.jobs && k in s.db.jobs && k != h.jobId
    ensures k in StartClaim(s, h.jobId, h.workerId, a, h.claimedAt).db.jobs
    ensures StartClaim(s, h.jobId, h.workerId, a, h.claimedAt).db.jobs[k] == s.db.jobs[k]
  {
  }

  // Every two-phase run is an atomic run: same rows, same memory, claims at their commits.
  lemma {:induction false} TwoPhaseRefinesAtomic(policy: Policy, t: TwoPhase, steps: seq<TxStep>)
    requires TxInv(policy, t)
    ensures TxRun(policy, t, steps).sys == Run(policy, t.sys, AtomicRun(policy, t, steps))
    ensures TxInv(policy, TxRun(policy, t, steps))
    decreases |steps|
  {
    hide TxApply, TxInv, Apply, Atomic;
    if steps == [] {
      assert Run(policy, t.sys, []) == t.sys;
    } else {
      var t1 := TxApply(policy, t, steps[0]);
      StepRefines(policy, t, steps[0]);
      TwoPhaseRefinesAtomic(policy, t1, steps[1..]);
      RunConcat(policy, t.sys, Atomic(t, steps[0]), AtomicRun(policy, t1, steps[1..]));
    }
  }

  // So everything proved of reachable states holds under the two-phase claim, no two open
  // claims hold one row, and the row is still claimable when the unguarded update runs.
  lemma TwoPhaseSafe(policy: Policy, steps: seq<TxStep>)
    ensures Reachable(policy, TxRun(policy, START, steps).sys)
    ensures var held := TxRun(policy, START, steps).held;
            forall x, y | x in held && y in held :: held[x].jobId == held[y].jobId ==> x == y
    ensures var t := TxRun(policy, START, steps);
            forall tx :: tx in t.held ==> HeldClaimable(t, t.held[tx])
  {
    hide TxApply, Apply, SysInv;
    InitReachable(policy);
    ReachableSafe(policy, INIT);
    TwoPhaseRefinesAtomic(policy, START, steps);
    ReachableRun(policy, INIT, AtomicRun(policy, START, steps));
  }

  // A cancel racing an open claim waits for it and then finds the job PROCESSING; one that
  // committed first made the row unselectable.
  lemma CancelRace(policy: Policy, t: TwoPhase, tx: TxId, a: AttemptId, u: UserId, at: Time)
    requires TxInv(policy, t) && tx in t.held
    requires var h := t.held[tx]; h.workerId in t.sys.db.workers && a !in t.sys.db.attempts
    ensures TxApply(policy, t, Other(Cancel(u, t.held[tx].jobId, at))) == t
    ensures var t' := TxApply(policy, t, Commit(tx, a));
            && t.held[tx].jobId in t'.sys.db.jobs && t'.sys.db.jobs[t.held[tx].jobId].status.Processing?
            && TryCancel(t'.sys.db, u, t.held[tx].jobId, at) == t'.sys.db
    ensures forall t0: TwoPhase, j, asOf :: CancelAllowed(t0.sys.db, u, j) ==>
              !Selectable(t0.(sys := t0.sys.(db := TryCancel(t0.sys.db, u, j, at))), j, asOf)
  {
    hide SysInv;
    assert HeldClaimable(t, t.held[tx]);
    assert UpdatesRow(t.sys, Cancel(u, t.held[tx].jobId, at), t.held[tx].jobId);
    ClaimNeverCollides(policy, t.sys, t.held[tx].jobId, t.held[tx].workerId, a);
  }

  // Only updates of a locked row wait: every other step takes effect at once.
  lemma OthersProceed(policy: Policy, t: TwoPhase, step: Step)
    requires !step.ClaimNext?
    requires forall tx :: tx in t.held ==>
               match step
               case Cancel(_, j, _) => j != t.held[tx].jobId
               case ReportSuccess(a, _, _) => a in t.sys.claims ==> t.sys.claims[a].jobId != t.held[tx].jobId
               case ReportFailure(a, _, _, _) => a in t.sys.claims ==> t.sys.claims[a].jobId != t.held[tx].jobId
               case LoopRecover(l) =>
                 l in t.sys.loops && t.sys.loops[l].phase.Recovering? && t.sys.loops[l].phase.queue != [] ==>
                   t.sys.loops[l].phase.queue[0].jobId != t.held[tx].jobId
               case _ => true
    ensures TxApply(policy, t, Other(step)) == t.(sys := Apply(policy, t.sys, step))
  {
    hide Apply;
  }

  // A claim transaction alone on its row, selecting and then committing, is one atomic claim
  // of the first job that nobody else has locked.
  lemma ClaimTransaction(policy: Policy, t: TwoPhase, tx: TxId, j: JobId, w: WorkerId, a: AttemptId, at: Time)
    requires TxInv(policy, t) && tx !in t.held && Selectable(t, j, at) && ClaimAllowed(t.sys.db, j, w, a)
    ensures var t' := TxApply(policy, TxApply(policy, t, Select(tx, j, w, at)), Commit(tx, a));
            t'.sys == Apply(policy, t.sys, ClaimNext(j, w, a, at)) && t'.held == t.held && t'.sys != t.sys
  {
    hide SysInv, Claimed;
    assert a in Claimed(t.sys.db, j, w, a, at).attempts by { NewRow(t.sys.db, j, w, a, at); }
    assert (t.held[tx := Held(j, w, at)] - {tx}) == t.held;
  }

  lemma NewRow(db: Db, j: JobId, w: WorkerId, a: AttemptId, at: Time)
    requires j in db.jobs
    ensures a in Claimed(db, j, w, a, at).attempts && j in Claimed(db, j, w, a, at).jobs
  {
  }
}
