// How old the stored heartbeat of a live worker can get, and when recovery would take the
// worker for stale.
module HeartbeatTiming {
  import opened Wrappers
  import opened Records
  import opened SingleFlight

  // A timer that ticks every interval ms; heartbeat writes that settle within latency ms, of
  // which at most failures in a row never reach the database; delay ms from the stamp
  // written at registration until the timer is created; and status writes, BUSY and ONLINE,
  // that store the clock read when they were issued at most statusLatency ms later.
  datatype Timing = Timing(interval: nat, latency: nat, delay: nat, failures: nat, statusLatency: nat)

  // stamp is the clock the last heartbeat write read; applied says whether it has reached
  // the database; skips counts the ticks skipped since; fails counts the heartbeat writes
  // lost since one did. status is the stamp of the status write in flight: the polling loop
  // issues one at a time.
  datatype Beat = Beat(clock: Time, nextTick: Time, flight: Flight, stamp: Time, applied: bool,
                       skips: nat, fails: nat, status: Option<Time>, stored: Time)

  // EndStatus: the status write is refused or lost.
  datatype BeatStep =
    | Advance(to: Time) | Tick | ApplyWrite | SettleWrite | FailWrite
    | IssueStatus | ApplyStatus | EndStatus

  function Started(p: Timing, at: Time): Beat {
    Beat(at + p.delay, at + p.delay + p.interval, IDLE, at, true, 0, 0, None, at)
  }

  // Time never passes a due tick, nor the moment a write in flight has to settle.
  predicate Enabled(p: Timing, b: Beat, step: BeatStep) {
    match step
    case Advance(to) =>
      && b.clock <= to <= b.nextTick
      && (b.flight.active.Some? ==> to <= b.stamp + p.latency)
      && (b.status.Some? ==> to <= b.status.value + p.statusLatency)
    case Tick => b.clock == b.nextTick
    case ApplyWrite => b.flight.active.Some? && !b.applied
    case SettleWrite => b.flight.active.Some? && b.applied
    case FailWrite => b.flight.active.Some? && !b.applied && b.fails < p.failures
    case IssueStatus => b.status.None?
    case ApplyStatus => b.status.Some?
    case EndStatus => b.status.Some?
  }

  function BeatApply(p: Timing, b: Beat, step: BeatStep): Beat {
    if !Enabled(p, b, step) then b else
    match step
    case Advance(to) => b.(clock := to)
    case Tick =>
      var flight := Begin(b.flight);
      if flight == b.flight then b.(nextTick := b.nextTick + p.interval, skips := b.skips + 1)
      else b.(nextTick := b.nextTick + p.interval, flight := flight, stamp := b.clock, applied := false, skips := 0)
    case ApplyWrite => b.(stored := b.stamp, applied := true, fails := 0)
    case SettleWrite => b.(flight := Settle(b.flight))
    case FailWrite => b.(flight := Settle(b.flight), fails := b.fails + 1)
    case IssueStatus => b.(status := Some(b.clock))
    case ApplyStatus => b.(stored := b.status.value, status := None)
    case EndStatus => b.(status := None)
  }

  function BeatRun(p: Timing, b: Beat, steps: seq<BeatStep>): Beat
    decreases |steps|
  {
    if steps == [] then b else BeatRun(p, BeatApply(p, b, steps[0]), steps[1..])
  }

  // findStaleWorkers and markWorkerUnhealthy: lastHeartbeatAt <= now - staleAfterMs.
  predicate LooksStale(b: Beat, staleAfterMs: nat) {
    b.stored <= b.clock - staleAfterMs
  }

  // Some schedule of ticks, writes and delays makes recovery take the live worker for stale.
  ghost predicate MayLookStale(p: Timing, at: Time, staleAfterMs: nat) {
    exists b :: Leads(p, Started(p, at), b) && LooksStale(b, staleAfterMs)
  }

  ghost predicate Leads(p: Timing, b: Beat, c: Beat) {
    exists steps :: BeatRun(p, b, steps) == c
  }

  // ---- the bound ----

  // Longest time the ticks skipped during one write take.
  function Skipped(p: Timing): nat
    requires p.interval >= 1
  {
    p.interval * (p.latency / p.interval)
  }

  // Longest time from the start of one write to the start of the next.
  function Gap(p: Timing): nat
    requires p.interval >= 1
  {
    p.interval + Skipped(p)
  }

  // Longest time from the stamp in the database to the start of the next heartbeat write,
  // when none is lost: since registration, or since a status stamp that overwrote the stamp
  // of a heartbeat begun statusLatency later.
  function FirstGap(p: Timing): nat
    requires p.interval >= 1
  {
    p.interval + (if p.delay >= Skipped(p) + p.statusLatency then p.delay else Skipped(p) + p.statusLatency)
  }

  function MaxAge(p: Timing): nat
    requires p.interval >= 1
  {
    FirstGap(p) + p.failures * Gap(p) + p.latency
  }

  ghost predicate BeatInv(p: Timing, b: Beat)
    requires p.interval >= 1
  {
    && !b.flight.stopped
    && b.clock <= b.nextTick <= b.clock + p.interval && b.fails <= p.failures
    && (b.status.Some? ==> b.status.value <= b.clock <= b.status.value + p.statusLatency)
    && (b.flight.active.None? ==> b.nextTick - b.stored <= FirstGap(p) + b.fails * Gap(p))
    && (b.flight.active.Some? ==>
          && b.stamp <= b.clock <= b.stamp + p.latency
          && b.nextTick == b.stamp + (b.skips + 1) * p.interval
          && b.stamp + b.skips * p.interval <= b.clock
          && (if b.applied then b.stamp - b.stored <= p.statusLatency && b.fails == 0
              else b.stamp - b.stored <= FirstGap(p) + b.fails * Gap(p)))
  }

  lemma Scaled(interval: nat, x: int, y: int)
    requires x < y
    ensures x * interval + interval <= y * interval
  {
    assert (y - x - 1) * interval >= 0;
  }

  lemma SkipsBounded(interval: nat, latency: nat, skips: nat)
    requires interval >= 1 && skips * interval <= latency
    ensures skips * interval <= interval * (latency / interval)
  {
    if skips > latency / interval {
      Scaled(interval, latency / interval, skips);
    } else if skips < latency / interval {
      Scaled(interval, skips, latency / interval);
    }
  }

  lemma TickKeeps(p: Timing, b: Beat)
    requires p.interval >= 1 && BeatInv(p, b)
    ensures BeatInv(p, BeatApply(p, b, Tick))
  {
    hide Gap, FirstGap;
    assert (b.skips + 2) * p.interval == (b.skips + 1) * p.interval + p.interval;
    assert (0 + 1) * p.interval == p.interval;
  }

  lemma WriteEndKeeps(p: Timing, b: Beat, step: BeatStep)
    requires p.interval >= 1 && BeatInv(p, b) && Enabled(p, b, step) && (step.SettleWrite? || step.FailWrite?)
    ensures BeatInv(p, BeatApply(p, b, step))
  {
    GapsOrdered(p, b.fails);
    NextTickNear(p, b);
    hide Gap, FirstGap;
    assert (b.fails + 1) * Gap(p) == b.fails * Gap(p) + Gap(p);
  }

  lemma OtherStepKeeps(p: Timing, b: Beat, step: BeatStep)
    requires p.interval >= 1 && BeatInv(p, b)
    requires step.Advance? || step.ApplyWrite? || step.IssueStatus? || step.ApplyStatus? || step.EndStatus?
    ensures BeatInv(p, BeatApply(p, b, step))
  {
    GapsOrdered(p, b.fails);
    hide Gap, FirstGap, Begin;
  }

  lemma BeatKeeps(p: Timing, b: Beat, step: BeatStep)
    requires p.interval >= 1 && BeatInv(p, b)
    ensures BeatInv(p, BeatApply(p, b, step))
  {
    hide BeatInv;
    if Enabled(p, b, step) {
      match step
      case Tick => TickKeeps(p, b);
      case SettleWrite => WriteEndKeeps(p, b, step);
      case FailWrite => WriteEndKeeps(p, b, step);
      case _ => OtherStepKeeps(p, b, step);
    }
  }

  lemma GapsOrdered(p: Timing, fails: nat)
    requires p.interval >= 1
    ensures Gap(p) + p.statusLatency <= FirstGap(p) && p.interval <= Gap(p) && fails * Gap(p) >= 0
  {
  }

  lemma NextTickNear(p: Timing, b: Beat)
    requires p.interval >= 1 && BeatInv(p, b) && b.flight.active.Some?
    ensures b.nextTick - b.stamp <= Gap(p)
  {
    SkipsBounded(p.interval, p.latency, b.skips);
    assert (b.skips + 1) * p.interval == b.skips * p.interval + p.interval;
  }

  lemma {:induction false} AgeBounded(p: Timing, b: Beat, steps: seq<BeatStep>)
    requires p.interval >= 1 && BeatInv(p, b)
    ensures BeatRun(p, b, steps).clock - BeatRun(p, b, steps).stored <= MaxAge(p)
    decreases |steps|
  {
    GapsOrdered(p, b.fails);
    hide Gap, FirstGap;
    if steps == [] {
      FewerFailures(b.fails, p.failures, Gap(p));
    } else {
      BeatKeeps(p, b, steps[0]);
      AgeBounded(p, BeatApply(p, b, steps[0]), steps[1..]);
    }
  }

  lemma FewerFailures(fails: nat, failures: nat, gap: nat)
    requires fails <= failures
    ensures 0 <= fails * gap <= failures * gap
  {
    assert (failures - fails) * gap >= 0;
  }

  // ---- the bound is reached ----

  lemma {:induction false} BeatConcat(p: Timing, b: Beat, xs: seq<BeatStep>, ys: seq<BeatStep>)
    ensures BeatRun(p, b, xs + ys) == BeatRun(p, BeatRun(p, b, xs), ys)
    decreases |xs|
  {
    if xs == [] {
      assert xs + ys == ys;
    } else {
      assert (xs + ys)[1..] == xs[1..] + ys;
      BeatConcat(p, BeatApply(p, b, xs[0]), xs[1..], ys);
    }
  }

  lemma Then(p: Timing, b: Beat, c: Beat, step: BeatStep) returns (d: Beat)
    requires Leads(p, b, c)
    ensures d == BeatApply(p, c, step) && Leads(p, b, d)
  {
    var steps :| BeatRun(p, b, steps) == c;
    d := BeatApply(p, c, step);
    BeatConcat(p, b, steps, [step]);
    assert BeatRun(p, c, [step]) == BeatRun(p, d, [step][1..]);
  }

  // With a write in flight time can run on to any moment before its deadline, skipping the
  // ticks on the way.
  lemma {:induction false} WaitInFlight(p: Timing, b: Beat, c: Beat, target: Time) returns (d: Beat)
    requires p.interval >= 1 && Leads(p, b, c) && c.flight.active.Some? && c.status.None?
    requires c.clock <= target <= c.stamp + p.latency && c.clock <= c.nextTick
    ensures Leads(p, b, d) && d.clock == target < d.nextTick
    ensures d.stored == c.stored && d.stamp == c.stamp && d.applied == c.applied && d.flight == c.flight &&
              d.fails == c.fails && d.status.None?
    ensures d.nextTick <= target + p.interval || d.nextTick == c.nextTick
    ensures exists k: nat :: d.nextTick == c.nextTick + k * p.interval
    decreases target - c.nextTick
  {
    if target < c.nextTick {
      d := Then(p, b, c, Advance(target));
      assert d.nextTick == c.nextTick + 0 * p.interval;
    } else {
      var e := Then(p, b, c, Advance(c.nextTick));
      e := Then(p, b, e, Tick);
      d := WaitInFlight(p, b, e, target);
      var k: nat :| d.nextTick == e.nextTick + k * p.interval;
      assert d.nextTick == c.nextTick + (k + 1) * p.interval;
    }
  }

  // The first multiple of interval after q * interval.
  lemma NextMultiple(interval: nat, q: nat, k: nat)
    requires interval >= 1 && interval * q < (k + 1) * interval <= interval * q + interval
    ensures (k + 1) * interval == interval * q + interval
  {
    if k < q {
      Scaled(interval, k, q);
    } else if k > q {
      Scaled(interval, q, k);
    }
  }

  // A heartbeat write at the moment it began, with the next tick one interval away and no
  // status write in flight.
  ghost predicate Beginning(p: Timing, b: Beat) {
    && b.flight.active.Some? && !b.flight.stopped && b.status.None?
    && b.clock == b.stamp && b.nextTick == b.stamp + p.interval
  }

  ghost predicate JustBegun(p: Timing, b: Beat) {
    Beginning(p, b) && !b.applied
  }

  // It may settle only after as many ticks as it can, having reached the database or not,
  // and then the next write begins a whole gap later.
  lemma SlowWrite(p: Timing, start: Beat, c: Beat) returns (d: Beat)
    requires p.interval >= 1 && Leads(p, start, c) && Beginning(p, c) && (c.applied || c.fails < p.failures)
    ensures Leads(p, start, d) && JustBegun(p, d) && d.stamp == c.stamp + Gap(p) && d.stored == c.stored
    ensures d.fails == if c.applied then c.fails else c.fails + 1
  {
    hide Leads;
    var q := p.latency / p.interval;
    assert Skipped(p) <= p.latency;
    d := WaitInFlight(p, start, c, c.stamp + Skipped(p));
    var k: nat :| d.nextTick == c.stamp + p.interval + k * p.interval;
    assert p.interval + k * p.interval == (k + 1) * p.interval;
    if d.nextTick == c.nextTick && q > 0 {
      SkippedAtLeastOne(p.interval, q);
    }
    NextMultiple(p.interval, q, k);
    d := NextWrite(p, start, d);
  }

  // The write in flight settles, and the next tick begins another.
  lemma NextWrite(p: Timing, start: Beat, c: Beat) returns (d: Beat)
    requires p.interval >= 1 && Leads(p, start, c) && c.flight.active.Some? && !c.flight.stopped && c.status.None?
    requires c.clock <= c.nextTick && (c.applied || c.fails < p.failures)
    ensures Leads(p, start, d) && JustBegun(p, d) && d.stamp == c.nextTick && d.stored == c.stored
    ensures d.fails == if c.applied then c.fails else c.fails + 1
  {
    hide Leads;
    d := Then(p, start, c, if c.applied then SettleWrite else FailWrite);
    d := Then(p, start, d, Advance(d.nextTick));
    d := Then(p, start, d, Tick);
  }

  lemma {:induction false} FailingWrites(p: Timing, start: Beat, c: Beat, n: nat) returns (d: Beat)
    requires p.interval >= 1 && Leads(p, start, c) && JustBegun(p, c) && c.fails + n == p.failures
    ensures Leads(p, start, d) && JustBegun(p, d) && d.stamp == c.stamp + n * Gap(p) && d.stored == c.stored
    decreases n
  {
    if n == 0 {
      d := c;
    } else {
      var e := SlowWrite(p, start, c);
      d := FailingWrites(p, start, e, n - 1);
      assert n * Gap(p) == (n - 1) * Gap(p) + Gap(p);
    }
  }

  // Between heartbeat writes, with none lost and the ticks at base + k * interval.
  ghost predicate Resting(p: Timing, base: Time, b: Beat) {
    && b.flight.active.None? && !b.flight.stopped && b.fails == 0
    && b.clock <= b.nextTick && exists k: nat :: b.nextTick == base + k * p.interval
  }

  // Heartbeat writes that take no time lead to any later moment the status write allows.
  lemma {:induction false} RestUntil(p: Timing, base: Time, start: Beat, c: Beat, target: Time) returns (d: Beat)
    requires p.interval >= 1 && Leads(p, start, c) && Resting(p, base, c) && c.clock <= target
    requires c.status.Some? ==> target <= c.status.value + p.statusLatency
    ensures Leads(p, start, d) && Resting(p, base, d) && d.clock == target && d.status == c.status
    ensures d.nextTick < target + p.interval || d.nextTick == c.nextTick
    decreases target - c.nextTick
  {
    hide Leads;
    if target <= c.nextTick {
      d := Then(p, start, c, Advance(target));
    } else {
      var k: nat :| c.nextTick == base + k * p.interval;
      assert (k + 1) * p.interval == k * p.interval + p.interval;
      d := Then(p, start, c, Advance(c.nextTick));
      d := Then(p, start, d, Tick);
      d := Then(p, start, d, ApplyWrite);
      d := Then(p, start, d, SettleWrite);
      assert d.nextTick == base + (k + 1) * p.interval;
      d := RestUntil(p, base, start, d, target);
    }
  }

  // A status write issued statusLatency before a tick lands just after that tick's heartbeat
  // and stores its older stamp.
  lemma LateStatus(p: Timing, at: Time) returns (b: Beat)
    requires p.interval >= 1
    ensures Leads(p, Started(p, at), b) && Beginning(p, b) && b.applied && b.fails == 0
    ensures b.stamp - b.stored == p.statusLatency
  {
    hide Leads;
    var start, base := Started(p, at), at + p.delay;
    var n := p.statusLatency / p.interval + 1;
    var tick := base + n * p.interval;
    assert n * p.interval == p.interval * (p.statusLatency / p.interval) + p.interval;
    assert p.statusLatency < n * p.interval;
    LeadsToItself(p, start);
    assert start.nextTick == base + 1 * p.interval;
    b := RestUntil(p, base, start, start, tick - p.statusLatency);
    b := Then(p, start, b, IssueStatus);
    b := RestUntil(p, base, start, b, tick);
    var k: nat :| b.nextTick == base + k * p.interval;
    SameTick(p.interval, n, k);
    b := Then(p, start, b, Tick);
    b := Then(p, start, b, ApplyWrite);
    b := Then(p, start, b, ApplyStatus);
  }

  lemma LeadsToItself(p: Timing, b: Beat)
    ensures Leads(p, b, b)
  {
    assert BeatRun(p, b, []) == b;
  }

  lemma SameTick(interval: nat, n: nat, k: nat)
    requires n * interval <= k * interval < n * interval + interval
    ensures k == n
  {
    if k < n {
      Scaled(interval, k, n);
    } else if n < k {
      Scaled(interval, n, k);
    }
  }

  // A worker whose writes take as long as they may and fail as often, at the worst moment.
  lemma OldestHeartbeat(p: Timing, at: Time) returns (b: Beat)
    requires p.interval >= 1
    ensures Leads(p, Started(p, at), b) && b.clock - b.stored == MaxAge(p)
  {
    hide Leads;
    var start := Started(p, at);
    if p.delay < Skipped(p) + p.statusLatency {
      b := LateStatus(p, at);
      b := SlowWrite(p, start, b);
    } else {
      LeadsToItself(p, start);
      b := Then(p, start, start, Advance(start.nextTick));
      b := Then(p, start, b, Tick);
    }
    assert b.stamp - b.stored == FirstGap(p);
    b := FailingWrites(p, start, b, p.failures);
    b := WaitInFlight(p, start, b, b.stamp + p.latency);
  }

  lemma SkippedAtLeastOne(interval: nat, q: nat)
    requires interval >= 1 && q >= 1
    ensures interval * q >= interval
  {
    assert interval * (q - 1) >= 0;
  }

  // Recovery can never take a live worker for stale exactly when staleAfterMs exceeds the
  // largest age its heartbeat can reach.
  lemma LiveWorkersNeverStale(p: Timing, at: Time, staleAfterMs: nat)
    requires p.interval >= 1
    ensures !MayLookStale(p, at, staleAfterMs) <==> MaxAge(p) < staleAfterMs
  {
    if MaxAge(p) < staleAfterMs {
      forall b | Leads(p, Started(p, at), b) ensures !LooksStale(b, staleAfterMs) {
        var steps :| BeatRun(p, Started(p, at), steps) == b;
        AgeBounded(p, Started(p, at), steps);
      }
    } else {
      var b := OldestHeartbeat(p, at);
      assert LooksStale(b, staleAfterMs);
    }
  }

  // readWorkerConfig rejects staleAfterMs <= heartbeatIntervalMs.
  predicate TimingsAccepted(heartbeatIntervalMs: nat, staleAfterMs: nat) {
    heartbeatIntervalMs >= 1 && staleAfterMs >= 1 && staleAfterMs > heartbeatIntervalMs
  }

  // The startup check is exactly what suffices when writes and startup take no time and no
  // write is lost.
  lemma StartupCheckExact(interval: nat, staleAfterMs: nat, at: Time)
    requires interval >= 1
    ensures TimingsAccepted(interval, staleAfterMs) <==> !MayLookStale(Timing(interval, 0, 0, 0, 0), at, staleAfterMs)
  {
    LiveWorkersNeverStale(Timing(interval, 0, 0, 0, 0), at, staleAfterMs);
  }

  // With slower writes it does not suffice: any configuration it accepts lets recovery take
  // a live worker for stale once writes may take half the margin it leaves.
  lemma StartupCheckInsufficient(interval: nat, staleAfterMs: nat, latency: nat, at: Time)
    requires TimingsAccepted(interval, staleAfterMs) && 2 * latency >= staleAfterMs - interval
    ensures MayLookStale(Timing(interval, latency, 0, 0, latency), at, staleAfterMs)
  {
    LiveWorkersNeverStale(Timing(interval, latency, 0, 0, latency), at, staleAfterMs);
  }

  // Nor does it when a write may be lost: instant writes leave a margin of one interval for
  // each write lost in a row.
  lemma LostWritesNeedMargin(interval: nat, staleAfterMs: nat, failures: nat, at: Time)
    requires interval >= 1
    ensures !MayLookStale(Timing(interval, 0, 0, failures, 0), at, staleAfterMs) <==>
              staleAfterMs > (failures + 1) * interval
  {
    var p := Timing(interval, 0, 0, failures, 0);
    LiveWorkersNeverStale(p, at, staleAfterMs);
    assert Skipped(p) == 0 by {
      assert 0 / interval == 0;
    }
    assert (failures + 1) * interval == failures * interval + interval;
  }
}
