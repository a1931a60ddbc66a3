// The timing of heartbeats joined to the worker row: what HeartbeatTiming stores is the
// lastHeartbeatAt that recovery reads.
module HeartbeatRows {
  import opened Wrappers
  import opened Records
  import opened Transactions
  import opened Protocol
  import opened HeartbeatTiming
  import Effects

  // The worker write a timing step commits: the polling loop writes BUSY while the row is
  // ONLINE and ONLINE while it is BUSY.
  function WriteOf(b: Beat, step: BeatStep, row: Worker): Option<WorkerWrite> {
    match step
    case ApplyWrite => Some(Heartbeat(b.stamp))
    case ApplyStatus =>
      if b.status.None? then None
      else Some(if row.status.Online? then MarkBusy(b.status.value) else MarkAvailable(b.status.value))
    case _ => None
  }

  ghost function RowApply(policy: Policy, p: Timing, b: Beat, s: Sys, w: WorkerId, step: BeatStep): Sys
    requires w in s.db.workers
  {
    var write := WriteOf(b, step, s.db.workers[w]);
    if Enabled(p, b, step) && write.Some? then Apply(policy, s, WriteWorker(w, write.value)) else s
  }

  // A live worker's row shows the stamp that the timing machine has stored.
  ghost predicate Shows(b: Beat, s: Sys, w: WorkerId) {
    && w in s.db.workers && s.db.workers[w].status in {Online, Busy}
    && s.db.workers[w].lastHeartbeatAt == b.stored
  }

  lemma StepShows(policy: Policy, p: Timing, b: Beat, s: Sys, w: WorkerId, step: BeatStep)
    requires Shows(b, s, w)
    ensures Shows(BeatApply(p, b, step), RowApply(policy, p, b, s, w, step), w)
  {
    hide Apply;
    var write := WriteOf(b, step, s.db.workers[w]);
    if Enabled(p, b, step) && write.Some? {
      Effects.WorkerEffect(policy, s, w, write.value);
    }
  }

  // The protocol state after the writes of a whole timing run.
  ghost function RowRun(policy: Policy, p: Timing, b: Beat, s: Sys, w: WorkerId, steps: seq<BeatStep>): Sys
    requires Shows(b, s, w)
    decreases |steps|
  {
    if steps == [] then s
    else
      StepShows(policy, p, b, s, w, steps[0]);
      RowRun(policy, p, BeatApply(p, b, steps[0]), RowApply(policy, p, b, s, w, steps[0]), w, steps[1..])
  }

  // Every write of a live worker is accepted, so its row carries the machine's stamp along
  // every timing run.
  lemma {:induction false} RowFollows(policy: Policy, p: Timing, b: Beat, s: Sys, w: WorkerId, steps: seq<BeatStep>)
    requires Shows(b, s, w)
    ensures Shows(BeatRun(p, b, steps), RowRun(policy, p, b, s, w, steps), w)
    decreases |steps|
  {
    assert w in s.db.workers;
    hide Shows, BeatApply, RowApply;
    if steps != [] {
      StepShows(policy, p, b, s, w, steps[0]);
      RowFollows(policy, p, BeatApply(p, b, steps[0]), RowApply(policy, p, b, s, w, steps[0]), w, steps[1..]);
    }
  }

  // A recovery call that reads the clock now takes the worker over.
  ghost predicate TakenNow(policy: Policy, s: Sys, w: WorkerId, clock: Time) {
    exists l ::
      && l !in s.loops
      && var s1 := Apply(policy, Apply(policy, s, LoopStart(l, w, clock)), LoopMark(l));
      w in s1.db.workers && s1.db.workers[w].status.Unhealthy?
  }

  lemma TakenExact(policy: Policy, s: Sys, w: WorkerId, b: Beat)
    requires Shows(b, s, w)
    ensures TakenNow(policy, s, w, b.clock) <==> LooksStale(b, policy.staleAfterMs)
  {
    hide RecoverHead;
    forall l | l !in s.loops
      ensures var s1 := Apply(policy, Apply(policy, s, LoopStart(l, w, b.clock)), LoopMark(l));
              w in s1.db.workers && (s1.db.workers[w].status.Unhealthy? <==> LooksStale(b, policy.staleAfterMs))
    {
      var started := Apply(policy, s, LoopStart(l, w, b.clock));
      assert started == s.(loops := s.loops[l := Loop(w, b.clock, Marking)]);
      Effects.MarkEffect(policy, started, l);
    }
    var l := UnusedLoop(s.loops.Keys);
  }

  lemma {:induction false} UnusedLoop(used: set<nat>) returns (l: nat)
    ensures l !in used && forall k :: k in used ==> k < l
    decreases |used|
  {
    if used == {} {
      l := 0;
    } else {
      var k :| k in used;
      var rest := UnusedLoop(used - {k});
      l := if rest > k then rest else k + 1;
      assert forall x :: x in used ==> x == k || x in used - {k};
    }
  }

  // In the rows of the protocol: a worker that has just come ONLINE and stays alive is
  // never taken over by a recovery call, whatever its schedule, if and only if MaxAge is
  // below staleAfterMs.
  lemma LiveRowsNeverTaken(policy: Policy, p: Timing, s: Sys, w: WorkerId, at: Time)
    requires p.interval >= 1 && Shows(Started(p, at), s, w)
    ensures (forall steps :: !TakenNow(policy, RowRun(policy, p, Started(p, at), s, w, steps), w,
                                       BeatRun(p, Started(p, at), steps).clock))
            <==> MaxAge(p) < policy.staleAfterMs
  {
    hide Shows, TakenNow, RowRun, MaxAge, Started, BeatRun;
    var b0 := Started(p, at);
    forall steps
      ensures TakenNow(policy, RowRun(policy, p, b0, s, w, steps), w, BeatRun(p, b0, steps).clock)
              <==> LooksStale(BeatRun(p, b0, steps), policy.staleAfterMs)
    {
      RowFollows(policy, p, b0, s, w, steps);
      TakenExact(policy, RowRun(policy, p, b0, s, w, steps), w, BeatRun(p, b0, steps));
    }
    LiveWorkersNeverStale(p, at, policy.staleAfterMs);
    if MayLookStale(p, at, policy.staleAfterMs) {
      var b :| Leads(p, b0, b) && LooksStale(b, policy.staleAfterMs);
      var steps :| BeatRun(p, b0, steps) == b;
      assert TakenNow(policy, RowRun(policy, p, b0, s, w, steps), w, BeatRun(p, b0, steps).clock);
    } else {
      forall steps ensures !LooksStale(BeatRun(p, b0, steps), policy.staleAfterMs) {
        assert Leads(p, b0, BeatRun(p, b0, steps));
      }
    }
  }
}
