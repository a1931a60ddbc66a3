// Exactly when shutdown disconnects the database only after the process has finished with it.
module ProcessShutdown {
  import opened Wrappers
  import opened SingleFlight
  import RM = RuntimeMachine
  import RS = RuntimeStop
  import opened ProcessMachine

  // ---- what a caller may ask before shutdown ----

  predicate AllDead(r: RM.Runtime) {
    forall k :: 0 <= k < |r.beats| ==> RM.Dead(r.beats[k])
  }

  // A runtime that never reaches the database again.
  predicate Gone(r: RM.Runtime) {
    RuntimeQuiet(r) && AllDead(r)
  }

  // A runtime whose stop returns at once.
  predicate Inert(r: RM.Runtime) {
    Gone(r) && (r.stopped || r.beats == [])
  }

  // A runtime that is up or has ended, and was not marked stopped while coming up.
  predicate Stoppable(r: RM.Runtime) {
    !RM.StartInFlight(r) && StopsEnded(r) && (r.stopped ==> AllDead(r))
  }

  // Shutdown will stop runtime k.
  predicate Current(p: Process, k: nat) {
    p.started && p.runtime == Some(k)
  }

  // No start call is waiting for a runtime that may still come up.
  predicate StartsFailed(p: Process) {
    forall id :: id in p.starts && IsStarting(p, id) ==> RuntimeFailed(p.runtimes[p.starts[id].runtime])
  }

  // Some failing start call has yet to stop what the variable runtime names.
  predicate WillRollBack(p: Process) {
    exists id :: id in p.starts && (p.starts[id].Starting? || p.starts[id].StoppingRecovery?)
  }

  // Some failing start call awaits that stop, after which it clears the shared variables.
  predicate WillClear(p: Process) {
    exists id :: id in p.starts && p.starts[id].StoppingRuntime?
  }

  predicate NamesOnly(p: Process, ok: RM.Runtime -> bool) {
    p.runtime.Some? && p.runtime.value < |p.runtimes| ==> ok(p.runtimes[p.runtime.value])
  }

  // No start may still come up, and every runtime but the one shutdown will stop is gone.
  predicate NothingLost(p: Process) {
    && StartsFailed(p)
    && (forall k :: 0 <= k < |p.runtimes| ==>
          if Current(p, k) then Stoppable(p.runtimes[k]) else Gone(p.runtimes[k]))
  }

  // Nor will a failing start take that runtime away or stop it beside shutdown, and every
  // recovery scheduler but the one shutdown will stop is dead.
  predicate Clean(p: Process) {
    && NothingLost(p)
    && (WillRollBack(p) ==> NamesOnly(p, Inert))
    && (WillClear(p) ==> NamesOnly(p, Gone))
    && (forall k :: 0 <= k < |p.recoveries| && p.recovery != Some(k) ==> RM.Dead(p.recoveries[k]))
  }

  // ---- one runtime ----

  lemma GoneStays(r: RM.Runtime, e: RM.Event)
    requires RuntimeFits(r) && Gone(r) && RS.Inside(e)
    ensures RM.Next(r, e) == r
  {
    hide RM.StopsFit, Settled;
    if RM.BeatEvent(e) {
      if e.beat < |r.beats| {
        assert r.beats[e.beat := r.beats[e.beat]] == r.beats;
      }
    } else if e.PollCalled? && r.beats != [] {
      assert RM.Dead(r.beats[0]);
    }
  }

  lemma FailedStays(r: RM.Runtime, e: RM.Event)
    requires RuntimeFits(r) && RuntimeFailed(r) && RS.Inside(e)
    ensures RuntimeFailed(RM.Next(r, e))
  {
    hide RM.StopsFit, RM.BeatsFit, Settled, Begin, Settle;
  }

  lemma StoppableStays(r: RM.Runtime, e: RM.Event)
    requires RuntimeFits(r) && Stoppable(r) && RS.Inside(e)
    ensures Stoppable(RM.Next(r, e))
  {
    hide RM.StopsFit, Settled;
    if RM.BeatEvent(e) {
    } else if RM.StopEvent(e) {
    }
  }

  lemma InertStop(r: RM.Runtime, id: RM.StopId)
    requires RuntimeFits(r) && Inert(r) && id !in r.stops
    ensures var s := RM.Next(r, RM.StopCalled(id)); Inert(s) && StopEnded(s, id)
  {
    hide RM.StopsFit, RM.BeatsFit;
  }

  // What is left of a runtime once stop call id has begun, all its other stop calls having ended.
  ghost predicate Ending(r: RM.Runtime, id: RM.StopId) {
    RS.Closing(r, id) && OthersEnded(r, id)
  }

  ghost predicate OthersEnded(r: RM.Runtime, id: RM.StopId) {
    forall other :: other in r.stops && other != id ==> RM.Ended(r.stops[other])
  }

  lemma StoppableStops(r: RM.Runtime, id: RM.StopId)
    requires RuntimeFits(r) && Stoppable(r) && id !in r.stops
    ensures Ending(RM.Next(r, RM.StopCalled(id)), id)
  {
    RS.StopCloses(r, id);
    hide RM.RuntimeInv, RS.Closing;
  }

  lemma WorkKeepsStops(r: RM.Runtime, e: RM.Event)
    requires RM.FlagsFit(r) && RM.BeatsFit(r) && !RM.StopEvent(e)
    ensures RM.Next(r, e).stops == r.stops && RM.Next(r, e).stopped == r.stopped
  {
    hide RM.Next, RM.FlagsFit, RM.BeatsFit;
    if RM.StartEvent(e) {
      RM.StartEventFits(r, e);
    } else if RM.BeatEvent(e) {
      RM.BeatEventFits(r, e);
    } else {
      RM.PollEventFits(r, e);
    }
  }

  // Events of a stop call that has ended, or was never made, change nothing.
  lemma EndedStops(r: RM.Runtime, e: RM.Event)
    requires RM.StopEvent(e) && !e.StopCalled? && (e.id in r.stops ==> RM.Ended(r.stops[e.id]))
    ensures RM.Next(r, e) == r
  {
    hide Settled;
  }

  lemma OthersStay(r: RM.Runtime, id: RM.StopId, e: RM.Event)
    requires RM.FlagsFit(r) && RM.BeatsFit(r) && OthersEnded(r, id) && RS.Inside(e)
    ensures OthersEnded(RM.Next(r, e), id)
  {
    hide RM.Next, RM.FlagsFit, RM.BeatsFit, RM.OnlyStops;
    if !RM.StopEvent(e) {
      WorkKeepsStops(r, e);
    } else if e.id == id {
      RM.StopEventFrame(r, e);
      assert forall other :: other in RM.Next(r, e).stops ==> other in RM.Next(r, e).stops.Keys;
    } else {
      EndedStops(r, e);
    }
  }

  lemma EndingStays(r: RM.Runtime, id: RM.StopId, e: RM.Event)
    requires Ending(r, id) && RS.Inside(e)
    ensures Ending(RM.Next(r, e), id)
  {
    RS.ClosingStep(r, id, e);
    OthersStay(r, id, e);
    hide RM.Next, RS.Closing, OthersEnded;
  }

  // A rollback's stop of it returns at once.
  lemma EndingInert(r: RM.Runtime, id: RM.StopId, rollback: RM.StopId)
    requires Ending(r, id) && Inert(r) && rollback !in r.stops
    ensures Ending(RM.Next(r, RM.StopCalled(rollback)), id)
  {
    RS.ClosingStep(r, id, RM.StopCalled(rollback));
    hide RM.RuntimeInv, RS.Closing;
  }

  lemma EndingGone(r: RM.Runtime, id: RM.StopId)
    requires Ending(r, id) && StopEnded(r, id)
    ensures Gone(r)
  {
    RS.ClosedIsQuiet(r, id);
  }

  // ---- a clean shutdown ----

  ghost predicate RuntimesClosing(p: Process) {
    match p.shutdown
    case AwaitRecovery(_, _) =>
      forall k :: 0 <= k < |p.runtimes| ==>
        if Current(p, k) then Stoppable(p.runtimes[k]) else Gone(p.runtimes[k])
    case AwaitRuntime(x) =>
      forall k :: 0 <= k < |p.runtimes| ==> if k == x then Ending(p.runtimes[k], SHUTDOWN_STOP) else Gone(p.runtimes[k])
    case _ => forall k :: 0 <= k < |p.runtimes| ==> Gone(p.runtimes[k])
  }

  ghost predicate RecoveriesClosing(p: Process) {
    forall k :: 0 <= k < |p.recoveries| ==>
      p.recoveries[k].stopped &&
      (p.recoveries[k].active.Some? ==> p.shutdown.AwaitRecovery? && p.shutdown.task == k)
  }

  ghost predicate StartsClosing(p: Process) {
    && StartsFailed(p)
    && (WillRollBack(p) ==> NamesOnly(p, Inert))
    && (WillClear(p) && p.shutdown.AwaitRecovery? ==> NamesOnly(p, Gone))
  }

  ghost predicate Closing(p: Process) {
    ProcessInv(p) && p.shuttingDown && StartsClosing(p) && RuntimesClosing(p) && RecoveriesClosing(p)
  }

  // The runtime an event changes is still what it was to shutdown.
  ghost predicate StillFits(r: RM.Runtime, s: RM.Runtime) {
    && (Gone(r) ==> s == r)
    && (RuntimeFailed(r) ==> RuntimeFailed(s))
    && (Stoppable(r) ==> Stoppable(s))
    && (Ending(r, SHUTDOWN_STOP) ==> Ending(s, SHUTDOWN_STOP))
  }

  lemma EventStillFits(r: RM.Runtime, e: RM.Event)
    requires RuntimeFits(r) && RS.Inside(e)
    ensures StillFits(r, RM.Next(r, e))
  {
    hide RM.Next, Gone, RuntimeFailed, Stoppable, Ending, RuntimeFits;
    if Gone(r) { GoneStays(r, e); }
    if RuntimeFailed(r) { FailedStays(r, e); }
    if Stoppable(r) { StoppableStays(r, e); }
    if Ending(r, SHUTDOWN_STOP) { EndingStays(r, SHUTDOWN_STOP, e); }
  }

  lemma ReplacedCloses(p: Process, k: nat, s: RM.Runtime)
    requires StartsClosing(p) && RuntimesClosing(p) && RecoveriesClosing(p)
    requires k < |p.runtimes| && StillFits(p.runtimes[k], s)
    ensures var q := p.(runtimes := p.runtimes[k := s]); StartsClosing(q) && RuntimesClosing(q) && RecoveriesClosing(q)
  {
    hide Gone, Stoppable, Ending, RuntimeFailed, RecoveriesClosing;
    InertIsGone(p.runtimes[k]);
    RecoveriesApart(p, p.runtimes[k := s]);
  }

  lemma InertIsGone(r: RM.Runtime)
    ensures Inert(r) ==> Gone(r)
  {
  }

  lemma RecoveriesApart(p: Process, runtimes: seq<RM.Runtime>)
    ensures RecoveriesClosing(p.(runtimes := runtimes)) == RecoveriesClosing(p)
  {
  }

  lemma InRuntimeCloses(p: Process, k: nat, e: RM.Event)
    requires Closing(p) && k < |p.runtimes| && RS.Inside(e)
    ensures Closing(SetRuntime(p, k, e))
  {
    hide RM.Next, ProcessInv, StartsClosing, RuntimesClosing, RecoveriesClosing, StillFits, RuntimeFits;
    InRuntimeKeeps(p, k, e);
    RuntimeOf(p, k);
    EventStillFits(p.runtimes[k], e);
    ReplacedCloses(p, k, RM.Next(p.runtimes[k], e));
  }

  // A rollback stops a runtime that is inert, or has none to stop.
  lemma RollBackRuntimeCloses(p: Process, id: StartId)
    requires Closing(p) && id in p.starts && (p.starts[id].Starting? || p.starts[id].StoppingRecovery?)
    ensures Closing(RollBackRuntime(p, id))
  {
    hide RM.Next, RuntimeFits, Gone, Stoppable, Ending, RuntimeFailed;
    RollBackRuntimeKeeps(p, id);
    assert p.runtime.Some? ==> p.runtime.value < |p.runtimes| by { FlagsOf(p); }
    if p.runtime.Some? {
      var r := p.runtimes[p.runtime.value];
      RollbackIsNew(p, p.runtime.value, id);
      RollbackStillFits(r, RollbackStop(id));
      hide ProcessInv;
      RollbackMoves(p, id);
    } else {
      hide ProcessInv;
      ClearedCloses(p, id);
    }
  }

  lemma RollbackIsNew(p: Process, k: nat, id: StartId)
    requires ProcessInv(p) && k < |p.runtimes|
    requires id in p.starts && (p.starts[id].Starting? || p.starts[id].StoppingRecovery?)
    ensures RollbackStop(id) !in p.runtimes[k].stops && RuntimeFits(p.runtimes[k])
  {
    assert StopsKnown(p, p.runtimes[k]);
  }

  // A rollback's stop leaves an inert runtime what it was to shutdown.
  lemma RollbackStillFits(r: RM.Runtime, id: RM.StopId)
    requires RuntimeFits(r) && Inert(r) && id !in r.stops
    ensures var s := RM.Next(r, RM.StopCalled(id));
            Inert(s) && Stoppable(s) && StopEnded(s, id) && (RuntimeFailed(r) ==> RuntimeFailed(s)) &&
            (Ending(r, SHUTDOWN_STOP) ==> Ending(s, SHUTDOWN_STOP))
  {
    InertStop(r, id);
    if Ending(r, SHUTDOWN_STOP) {
      EndingInert(r, SHUTDOWN_STOP, id);
    }
    hide RM.StopsFit, RM.BeatsFit, RM.FlagsFit, Ending;
  }

  lemma RollbackMoves(p: Process, id: StartId)
    requires StartsClosing(p) && RuntimesClosing(p) && RecoveriesClosing(p) && WillRollBack(p)
    requires id in p.starts && p.runtime.Some? && p.runtime.value < |p.runtimes|
    requires var r := p.runtimes[p.runtime.value];
             var s := RM.Next(r, RM.StopCalled(RollbackStop(id)));
             Inert(s) && Gone(s) && Stoppable(s) && (RuntimeFailed(r) ==> RuntimeFailed(s)) &&
             (Ending(r, SHUTDOWN_STOP) ==> Ending(s, SHUTDOWN_STOP))
    ensures var q := RollBackRuntime(p, id); StartsClosing(q) && RuntimesClosing(q) && RecoveriesClosing(q)
  {
    hide RM.Next, Gone, Inert, Stoppable, Ending, RuntimeFailed;
  }

  lemma ClearedCloses(p: Process, id: StartId)
    requires StartsClosing(p) && RuntimesClosing(p) && RecoveriesClosing(p) && id in p.starts
    requires p.shutdown.AwaitRecovery? ==> NamesOnly(p, Gone)
    requires p.runtime.Some? ==> p.runtime.value < |p.runtimes|
    ensures var q := Cleared(p, id); StartsClosing(q) && RuntimesClosing(q) && RecoveriesClosing(q)
  {
    hide Gone, Inert, Stoppable, Ending, RuntimeFailed;
  }

  // While shutting down every recovery is already halted.
  lemma RollBackCloses(p: Process, id: StartId)
    requires Closing(p) && IsStarting(p, id)
    ensures Closing(RollBack(p, id))
  {
    hide RM.Next, ProcessInv, StartsClosing, RuntimesClosing, RecoveriesClosing, RollBackRuntime;
    RollBackKeeps(p, id);
    RollBackRuntimeCloses(p, id);
    if p.recovery.Some? && p.recovery.value < |p.recoveries| {
      var k := p.recovery.value;
      HaltChangesNothing(p, k);
      AwaitCloses(p, id, StoppingRecovery(k, p.recoveries[k].active));
    }
  }

  lemma HaltChangesNothing(p: Process, k: nat)
    requires RecoveriesClosing(p) && k < |p.recoveries|
    ensures SetRecovery(p, k, Halt(p.recoveries[k])) == p
  {
    assert Halt(p.recoveries[k]) == p.recoveries[k];
    assert p.recoveries[k := p.recoveries[k]] == p.recoveries;
  }

  lemma AwaitCloses(p: Process, id: StartId, pc: StartPc)
    requires StartsClosing(p) && RuntimesClosing(p) && RecoveriesClosing(p) && IsStarting(p, id) && pc.StoppingRecovery?
    ensures var q := SetStart(p, id, pc); StartsClosing(q) && RuntimesClosing(q) && RecoveriesClosing(q)
  {
    hide Gone, Inert, Stoppable, Ending, RuntimeFailed;
  }

  lemma RecoveryMovesClose(p: Process, k: nat, f: Flight)
    requires Closing(p) && k < |p.recoveries| && FlightFits(f)
    requires p.recoveries[k].stopped ==> f.stopped && (f.active.Some? ==> f.active == p.recoveries[k].active)
    ensures Closing(SetRecovery(p, k, f))
  {
    RecoveryMoves(p, k, f);
    hide ProcessInv, Gone, Inert, Stoppable, Ending, RuntimeFailed;
  }

  lemma RecoveryEventCloses(p: Process, e: Event)
    requires Closing(p) && (e.RecoveryTick? || e.RecoveryReturned?)
    ensures Closing(Next(p, e))
  {
    hide RuntimesFit, StartsFit, StartsClosing, RuntimesClosing;
    if e.k < |p.recoveries| {
      RecoveryMovesClose(p, e.k, if e.RecoveryTick? then Begin(p.recoveries[e.k]) else Settle(p.recoveries[e.k]));
    }
  }

  lemma StopRuntimeCloses(p: Process)
    requires Closing(p) && p.shutdown.AwaitRecovery? && RecoveryQuiet(p)
    ensures Closing(StopRuntime(p))
  {
    hide RM.Next, RuntimeFits, Gone, Inert, Stoppable, Ending, RuntimeFailed;
    StopRuntimeKeeps(p);
    assert p.runtime.Some? ==> p.runtime.value < |p.runtimes| by { FlagsOf(p); }
    if p.runtime.Some? && p.started {
      var k := p.runtime.value;
      ShutdownStopIsNew(p, k);
      StoppableStops(p.runtimes[k], SHUTDOWN_STOP);
      ShutdownStillFits(p.runtimes[k]);
    }
    hide ProcessInv;
  }

  lemma ShutdownStopIsNew(p: Process, k: nat)
    requires ProcessInv(p) && k < |p.runtimes| && (p.shutdown.AwaitRecovery? || p.shutdown.NotRequested?)
    ensures SHUTDOWN_STOP !in p.runtimes[k].stops && RuntimeFits(p.runtimes[k])
  {
    assert StopsKnown(p, p.runtimes[k]);
  }

  lemma ShutdownStillFits(r: RM.Runtime)
    requires RuntimeFits(r) && SHUTDOWN_STOP !in r.stops
    ensures var s := RM.Next(r, RM.StopCalled(SHUTDOWN_STOP));
            (Inert(r) ==> Inert(s)) && (RuntimeFailed(r) ==> RuntimeFailed(s))
  {
    if Inert(r) {
      InertStop(r, SHUTDOWN_STOP);
    }
    hide RM.StopsFit, RM.BeatsFit, RM.FlagsFit;
  }

  lemma AwaitedIsQuiet(p: Process)
    requires Closing(p) && p.shutdown.AwaitRecovery? && p.shutdown.task < |p.recoveries|
    requires Settled(p.recoveries[p.shutdown.task], p.shutdown.run)
    ensures RecoveryQuiet(p)
  {
    hide RuntimesFit, StartsFit, StartsClosing, RuntimesClosing;
  }

  lemma RuntimeStopCloses(p: Process)
    requires Closing(p) && p.shutdown.AwaitRuntime? && p.shutdown.runtime < |p.runtimes|
    requires StopEnded(p.runtimes[p.shutdown.runtime], SHUTDOWN_STOP)
    ensures Closing(p.(shutdown := Disconnecting))
  {
    assert Next(p, RuntimeStopSettled) == p.(shutdown := Disconnecting);
    ShutdownMoves(p, RuntimeStopSettled);
    EndingGone(p.runtimes[p.shutdown.runtime], SHUTDOWN_STOP);
    hide ProcessInv, Gone, Inert, Stoppable, Ending, RuntimeFailed, Next;
  }

  lemma ClosingStep(p: Process, e: Event)
    requires Closing(p)
    ensures Closing(Next(p, e))
  {
    hide RM.Next, ProcessInv, StartsClosing, RuntimesClosing, RecoveriesClosing, RollBack, RollBackRuntime, StopRuntime;
    NextKeeps(p, e);
    match e
    case StartReturned(id, _) => if IsStarting(p, id) { NoLateStart(p, id); }
    case StartThrew(id) => if IsStarting(p, id) { RollBackCloses(p, id); }
    case RollbackRecoverySettled(id) =>
      if id in p.starts && p.starts[id].StoppingRecovery? { RollBackRuntimeCloses(p, id); }
    case RollbackRuntimeSettled(id) => if id in p.starts && p.starts[id].StoppingRuntime? { ClearCloses(p, id); }
    case InRuntime(k, event) => if k < |p.runtimes| && RS.Inside(event) { InRuntimeCloses(p, k, event); }
    case RecoveryTick(_) => RecoveryEventCloses(p, e);
    case RecoveryReturned(_) => RecoveryEventCloses(p, e);
    case RecoveryStopSettled =>
      if p.shutdown.AwaitRecovery? && p.shutdown.task < |p.recoveries| &&
         Settled(p.recoveries[p.shutdown.task], p.shutdown.run)
      {
        AwaitedIsQuiet(p);
        StopRuntimeCloses(p);
      }
    case RuntimeStopSettled =>
      if p.shutdown.AwaitRuntime? && p.shutdown.runtime < |p.runtimes| &&
         StopEnded(p.runtimes[p.shutdown.runtime], SHUTDOWN_STOP)
      {
        RuntimeStopCloses(p);
      }
    case Disconnected => DisconnectedCloses(p);
    case _ =>
  }

  lemma NoLateStart(p: Process, id: StartId)
    requires StartsClosing(p) && IsStarting(p, id)
    ensures !RuntimeUp(p.runtimes[p.starts[id].runtime])
  {
  }

  lemma ClearCloses(p: Process, id: StartId)
    requires Closing(p) && id in p.starts && p.starts[id].StoppingRuntime?
    ensures Closing(Cleared(p, id))
  {
    ClearedKeeps(p, id);
    FlagsOf(p);
    hide ProcessInv, RuntimesClosing, RecoveriesClosing, Gone, Inert, RuntimeFailed;
    ClearedCloses(p, id);
  }

  lemma DisconnectedCloses(p: Process)
    requires Closing(p)
    ensures Closing(Next(p, Disconnected))
  {
    ShutdownMoves(p, Disconnected);
    hide ProcessInv, Gone, Inert, Stoppable, Ending, RuntimeFailed;
  }

  lemma {:induction false} ClosingRun(p: Process, events: seq<Event>)
    requires Closing(p)
    ensures Closing(Runs(p, events))
    decreases |events|
  {
    hide Next, Closing;
    if events != [] {
      ClosingStep(p, events[0]);
      ClosingRun(Next(p, events[0]), events[1..]);
    }
  }

  lemma ShutdownCloses(p: Process)
    requires ProcessInv(p) && !p.shuttingDown && Clean(p)
    ensures Closing(Next(p, ShutdownCalled))
  {
    ShutdownBeginsKeeps(p);
    FlagsOf(p);
    hide RM.Next, RuntimesFit, StartsFit, Gone, Inert, Stoppable, Ending, RuntimeFailed;
  }

  lemma DisconnectIsQuiet(p: Process)
    requires Closing(p) && Disconnects(p)
    ensures AllQuiet(p)
  {
    hide ProcessInv, StartsClosing, RM.Quiet, StopsEnded;
  }

  // On every run, after a clean shutdown request: runtime.stop begins only when recovery is
  // quiet, and from the disconnect on nothing the process ever created uses the database,
  // whether or not runtime.stop threw.
  lemma ShutdownIsOrdered(before: seq<Event>, after: seq<Event>)
    requires !Runs(NEW_PROCESS, before).shuttingDown && Clean(Runs(NEW_PROCESS, before))
    ensures var p := Runs(Next(Runs(NEW_PROCESS, before), ShutdownCalled), after);
            (p.shutdown.AwaitRuntime? ==> RecoveryQuiet(p)) && (Disconnects(p) ==> AllQuiet(p))
  {
    hide Next, AllQuiet, ProcessInv, Clean, StartsClosing, RuntimesClosing;
    NewProcessFits();
    RunsKeep(NEW_PROCESS, before);
    var p := Runs(NEW_PROCESS, before);
    ShutdownCloses(p);
    ClosingRun(Next(p, ShutdownCalled), after);
    var q := Runs(Next(p, ShutdownCalled), after);
    if Disconnects(q) {
      DisconnectIsQuiet(q);
    }
  }

  // ---- any other shutdown ----

  ghost predicate LeadsTo(p: Process, q: Process) {
    exists events :: Runs(p, events) == q
  }

  ghost predicate QuietOnceDisconnected(p: Process) {
    forall q | LeadsTo(p, q) && Disconnects(q) :: AllQuiet(q)
  }

  lemma LeadsToItself(p: Process)
    ensures LeadsTo(p, p)
  {
    assert Runs(p, []) == p;
  }

  lemma Then(p: Process, q: Process, e: Event) returns (t: Process)
    requires LeadsTo(p, q)
    ensures t == Next(q, e) && LeadsTo(p, t)
  {
    hide Next;
    var events :| Runs(p, events) == q;
    t := Next(q, e);
    RunsConcat(p, events, [e]);
    assert Runs(q, [e]) == Runs(t, [e][1..]);
  }

  // What one runtime may do on its own, the process may see it do.
  lemma {:induction false} Lift(p: Process, q: Process, k: nat, events: seq<RM.Event>) returns (t: Process)
    requires LeadsTo(p, q) && k < |q.runtimes| && forall i :: 0 <= i < |events| ==> RS.Inside(events[i])
    ensures LeadsTo(p, t) && t == q.(runtimes := q.runtimes[k := RM.Runs(q.runtimes[k], events)])
    decreases |events|
  {
    hide LeadsTo, RM.Next;
    if events == [] {
      t := q;
      assert q.runtimes[k := q.runtimes[k]] == q.runtimes;
    } else {
      t := Then(p, q, InRuntime(k, events[0]));
      var r := RM.Next(q.runtimes[k], events[0]);
      t := Lift(p, t, k, events[1..]);
      assert q.runtimes[k := r][k := RM.Runs(r, events[1..])] == q.runtimes[k := RM.Runs(r, events[1..])];
    }
  }

  // What shutdown's own stop call leaves of the runtime it stops.
  ghost predicate Survives(r: RM.Runtime, s: RM.Runtime) {
    && s.registering == r.registering && s.goingOnline == r.goingOnline && |s.beats| == |r.beats|
    && (r.stopped ==> s.beats == r.beats)
    && (r.beats != [] ==> s.stopped == r.stopped)
    && forall id :: id in r.stops ==> id in s.stops && s.stops[id] == r.stops[id]
  }

  lemma StopMayEnd(r: RM.Runtime) returns (s: RM.Runtime)
    requires RuntimeFits(r) && SHUTDOWN_STOP !in r.stops
    ensures RS.Inner(RM.Next(r, RM.StopCalled(SHUTDOWN_STOP)), s) && StopEnded(s, SHUTDOWN_STOP) && Survives(r, s)
  {
    hide RS.Inner;
    var r1 := RM.Next(r, RM.StopCalled(SHUTDOWN_STOP));
    RuntimeStopFits(r, SHUTDOWN_STOP);
    RS.InnerItself(r1);
    s := r1;
    if r1.stops[SHUTDOWN_STOP].AwaitHeartbeat? {
      s := RS.StopReturns(r1, r1, SHUTDOWN_STOP);
    }
  }

  // Shutdown can always come to its disconnect with nothing else moving.
  ghost predicate Untouched(p: Process, q: Process) {
    && q.starts == p.starts && q.runtime == p.runtime && q.recovery == p.recovery
    && |q.runtimes| == |p.runtimes| && |q.recoveries| == |p.recoveries|
    && (forall k :: 0 <= k < |p.runtimes| ==>
          if Current(p, k) then Survives(p.runtimes[k], q.runtimes[k]) else q.runtimes[k] == p.runtimes[k])
    && (forall k :: 0 <= k < |p.recoveries| && p.recovery != Some(k) ==> q.recoveries[k] == p.recoveries[k])
  }

  lemma ReachedFits(p: Process, q: Process)
    requires ProcessInv(p) && LeadsTo(p, q)
    ensures ProcessInv(q)
  {
    hide ProcessInv;
    var events :| Runs(p, events) == q;
    RunsKeep(p, events);
  }

  lemma LiftInner(p: Process, q: Process, k: nat, r: RM.Runtime) returns (t: Process)
    requires LeadsTo(p, q) && k < |q.runtimes| && RS.Inner(q.runtimes[k], r)
    ensures LeadsTo(p, t) && t == q.(runtimes := q.runtimes[k := r])
  {
    hide LeadsTo;
    var events: seq<RM.Event> :|
      (forall i :: 0 <= i < |events| ==> RS.Inside(events[i])) && RM.Runs(q.runtimes[k], events) == r;
    t := Lift(p, q, k, events);
  }

  lemma ShutdownMayEnd(p: Process) returns (q: Process)
    requires ProcessInv(p) && !p.shuttingDown
    ensures LeadsTo(Next(p, ShutdownCalled), q) && Disconnects(q) && ProcessInv(q) && Untouched(p, q)
  {
    hide LeadsTo, RM.Next, RuntimesFit, StartsFit, Survives;
    var s := Next(p, ShutdownCalled);
    NextKeeps(p, ShutdownCalled);
    LeadsToItself(s);
    q := s;
    if p.recovery.Some? {
      q := Then(s, q, RecoveryReturned(p.recovery.value));
      q := StopMayDisconnect(s, q, p);
    }
    ReachedFits(s, q);
  }

  lemma StopMayDisconnect(s: Process, a: Process, p: Process) returns (q: Process)
    requires LeadsTo(s, a) && ProcessInv(p) && !p.shuttingDown && a.shutdown.AwaitRecovery?
    requires a.shutdown.task < |a.recoveries| && a.recoveries[a.shutdown.task].active.None?
    requires a.runtimes == p.runtimes && a.runtime == p.runtime && a.started == p.started
    requires a.starts == p.starts && a.recovery == p.recovery && |a.recoveries| == |p.recoveries|
    requires forall k :: 0 <= k < |p.recoveries| && p.recovery != Some(k) ==> a.recoveries[k] == p.recoveries[k]
    ensures LeadsTo(s, q) && Disconnects(q) && Untouched(p, q)
  {
    hide LeadsTo, RM.Next, Next, RuntimesFit, StartsFit, Survives, StopEnded;
    FlagsOf(p);
    q := RecoveryMaySettle(s, a);
    if q.shutdown.AwaitRuntime? {
      var k := p.runtime.value;
      ShutdownStopIsNew(p, k);
      var r := StopMayEnd(p.runtimes[k]);
      q := LiftInner(s, q, k, r);
      q := RuntimeMaySettle(s, q);
    }
  }

  lemma RecoveryMaySettle(s: Process, a: Process) returns (q: Process)
    requires LeadsTo(s, a) && a.shutdown.AwaitRecovery?
    requires a.shutdown.task < |a.recoveries| && a.recoveries[a.shutdown.task].active.None?
    ensures LeadsTo(s, q) && q == StopRuntime(a)
  {
    hide LeadsTo, RM.Next;
    q := Then(s, a, RecoveryStopSettled);
  }

  lemma RuntimeMaySettle(s: Process, a: Process) returns (q: Process)
    requires LeadsTo(s, a) && a.shutdown.AwaitRuntime? && a.shutdown.runtime < |a.runtimes|
    requires StopEnded(a.runtimes[a.shutdown.runtime], SHUTDOWN_STOP)
    ensures LeadsTo(s, q) && q == a.(shutdown := Disconnecting)
  {
    hide LeadsTo, RM.Next;
    q := Then(s, a, RuntimeStopSettled);
  }

  // ---- what can still happen after the disconnect ----

  ghost predicate Breaks(s: Process) {
    exists q :: LeadsTo(s, q) && Disconnects(q) && !AllQuiet(q)
  }

  lemma RecoveryBreaks(s: Process, q: Process, k: nat)
    requires LeadsTo(s, q) && Disconnects(q) && k < |q.recoveries| && !RM.Dead(q.recoveries[k])
    ensures Breaks(s)
  {
    hide LeadsTo;
    var t := Then(s, q, RecoveryTick(k));
    assert t.recoveries[k].active.Some?;
    assert !AllQuiet(t);
  }

  lemma RuntimeBreaks(s: Process, q: Process, k: nat)
    requires LeadsTo(s, q) && Disconnects(q) && k < |q.runtimes| && !Gone(q.runtimes[k])
    ensures Breaks(s)
  {
    hide LeadsTo;
    if RuntimeQuiet(q.runtimes[k]) {
      var j: nat :| j < |q.runtimes[k].beats| && !RM.Dead(q.runtimes[k].beats[j]);
      var t := Then(s, q, InRuntime(k, RM.HeartbeatTick(j)));
      assert t.runtimes[k].beats[j].active.Some?;
      assert !AllQuiet(t);
    } else {
      assert !AllQuiet(q);
    }
  }

  lemma LiveStartBreaks(p: Process, id: StartId)
    requires ProcessInv(p) && !p.shuttingDown && IsStarting(p, id) && !RuntimeFailed(p.runtimes[p.starts[id].runtime])
    ensures Breaks(Next(p, ShutdownCalled))
  {
    hide LeadsTo, ProcessInv, RM.Next, Next, Breaks;
    var s := Next(p, ShutdownCalled);
    var q := ShutdownMayEnd(p);
    var k := p.starts[id].runtime;
    SameCounts(p, q, k);
    if RM.StartInFlight(q.runtimes[k]) {
      assert !Gone(q.runtimes[k]);
      RuntimeBreaks(s, q, k);
    } else {
      var t := Then(s, q, StartReturned(id, true));
      LateRecovery(q, t, id);
      RecoveryBreaks(s, t, |q.recoveries|);
    }
  }

  lemma SameCounts(p: Process, q: Process, k: nat)
    requires Untouched(p, q) && k < |p.runtimes|
    ensures RM.StartInFlight(q.runtimes[k]) == RM.StartInFlight(p.runtimes[k])
    ensures |q.runtimes[k].beats| == |p.runtimes[k].beats|
    ensures p.runtimes[k].beats != [] ==> q.runtimes[k].stopped == p.runtimes[k].stopped
  {
  }

  lemma LateRecovery(q: Process, t: Process, id: StartId)
    requires IsStarting(q, id) && RuntimeUp(q.runtimes[q.starts[id].runtime]) && t == Next(q, StartReturned(id, true))
    ensures |t.recoveries| == |q.recoveries| + 1 && t.recoveries[|q.recoveries|] == IDLE && t.shutdown == q.shutdown
  {
  }

  lemma LostRuntimeBreaks(p: Process, k: nat)
    requires ProcessInv(p) && !p.shuttingDown && k < |p.runtimes|
    requires if Current(p, k) then !Stoppable(p.runtimes[k]) else !Gone(p.runtimes[k])
    ensures Breaks(Next(p, ShutdownCalled))
  {
    hide LeadsTo, RM.Next, Next, Breaks;
    var q := ShutdownMayEnd(p);
    if Current(p, k) {
      ShutdownStopIsNew(p, k);
      SurvivesUnstoppable(p.runtimes[k], q.runtimes[k]);
    }
    RuntimeBreaks(Next(p, ShutdownCalled), q, k);
  }

  lemma SurvivesUnstoppable(r: RM.Runtime, s: RM.Runtime)
    requires Survives(r, s) && !Stoppable(r)
    ensures !Gone(s)
  {
  }

  lemma LostRecoveryBreaks(p: Process, k: nat)
    requires ProcessInv(p) && !p.shuttingDown
    requires k < |p.recoveries| && p.recovery != Some(k) && !RM.Dead(p.recoveries[k])
    ensures Breaks(Next(p, ShutdownCalled))
  {
    hide LeadsTo, RM.Next, Next, Breaks, ProcessInv;
    var q := ShutdownMayEnd(p);
    RecoveryBreaks(Next(p, ShutdownCalled), q, k);
  }

  lemma NotInert(p: Process, k: nat)
    requires ProcessInv(p) && NothingLost(p) && k < |p.runtimes| && !Inert(p.runtimes[k])
    ensures !p.runtimes[k].stopped && p.runtimes[k].beats != []
  {
    RuntimeOf(p, k);
    hide ProcessInv, RM.StopsFit, RM.BeatsFit;
  }

  // A failing start call that has yet to stop the runtime does so beside shutdown, and its
  // status writes may come after the disconnect.
  lemma RollBackBreaks(p: Process, id: StartId)
    requires ProcessInv(p) && !p.shuttingDown && NothingLost(p)
    requires id in p.starts && (p.starts[id].Starting? || p.starts[id].StoppingRecovery?)
    requires p.runtime.Some? && p.runtime.value < |p.runtimes| && !Inert(p.runtimes[p.runtime.value])
    ensures Breaks(Next(p, ShutdownCalled))
  {
    hide LeadsTo, RM.Next, Next, Breaks, Inert, RollBackRuntime, Gone;
    var s, k := Next(p, ShutdownCalled), p.runtime.value;
    NotInert(p, k);
    var q := ShutdownMayEnd(p);
    SameCounts(p, q, k);
    var t := RollBackReaches(p, s, q, id);
    assert ProcessInv(s) by { NextKeeps(p, ShutdownCalled); }
    ReachedFits(s, q);
    RollbackIsNew(q, k, id);
    RollbackWrites(q, t, id, k);
    RuntimeBreaks(s, t, k);
  }

  lemma RollBackReaches(p: Process, s: Process, q: Process, id: StartId) returns (t: Process)
    requires ProcessInv(p) && StartsFailed(p) && Untouched(p, q) && LeadsTo(s, q) && ProcessInv(q)
    requires id in p.starts && (p.starts[id].Starting? || p.starts[id].StoppingRecovery?) && p.runtime.Some?
    ensures LeadsTo(s, t) && t.shutdown == q.shutdown && t.runtimes == RollBackRuntime(q, id).runtimes
  {
    hide LeadsTo, RM.Next, RuntimesFit, RuntimeFailed;
    var pc := p.starts[id];
    if pc.Starting? {
      assert StartFits(p, id, pc);
      SameCounts(p, q, pc.runtime);
      FailedSame(p.runtimes[pc.runtime], q.runtimes[pc.runtime]);
      t := Then(s, q, StartThrew(id));
      if q.recovery.Some? {
        t := RollBackGoesOn(s, t, id);
      }
    } else {
      assert StartFits(q, id, pc);
      t := RollBackGoesOn(s, q, id);
    }
  }

  lemma RollBackGoesOn(s: Process, q: Process, id: StartId) returns (t: Process)
    requires LeadsTo(s, q) && id in q.starts && q.starts[id].StoppingRecovery? && q.starts[id].task < |q.recoveries|
    ensures LeadsTo(s, t) && t.shutdown == q.shutdown && t.runtimes == RollBackRuntime(q, id).runtimes
  {
    hide LeadsTo, RM.Next;
    t := Then(s, q, RecoveryReturned(q.starts[id].task));
    t := Then(s, t, RollbackRecoverySettled(id));
  }

  lemma FailedSame(r: RM.Runtime, s: RM.Runtime)
    requires RuntimeFailed(r) && |s.beats| == |r.beats| && RM.StartInFlight(s) == RM.StartInFlight(r)
    ensures RuntimeFailed(s)
  {
  }

  lemma RollbackWrites(q: Process, t: Process, id: StartId, k: nat)
    requires q.runtime == Some(k) && k < |q.runtimes| && t.runtimes == RollBackRuntime(q, id).runtimes
    requires RuntimeFits(q.runtimes[k]) && RollbackStop(id) !in q.runtimes[k].stops
    requires !q.runtimes[k].stopped && q.runtimes[k].beats != []
    ensures |t.runtimes| == |q.runtimes| && !Gone(t.runtimes[k])
  {
    hide RM.StopsFit, RM.BeatsFit;
    assert t.runtimes[k] == RM.Next(q.runtimes[k], RM.StopCalled(RollbackStop(id)));
    assert t.runtimes[k].stops[RollbackStop(id)].AwaitHeartbeat?;
  }

  // A failing start call that has stopped the runtime it found clears the variables, and
  // then shutdown does not see the runtime they name by now.
  lemma ClearBreaks(p: Process, id: StartId)
    requires ProcessInv(p) && !p.shuttingDown && NothingLost(p) && id in p.starts && p.starts[id].StoppingRuntime?
    requires p.runtime.Some? && p.runtime.value < |p.runtimes| && !Gone(p.runtimes[p.runtime.value])
    ensures Breaks(Next(p, ShutdownCalled))
  {
    hide LeadsTo, RM.Next, Breaks, Gone, RuntimesFit, Stoppable;
    var s, k, r := Next(p, ShutdownCalled), p.runtime.value, p.starts[id].runtime;
    assert Current(p, k);
    assert StartFits(p, id, p.starts[id]);
    StopsHaveEnded(p, r, id);
    LeadsToItself(s);
    var q := Then(s, s, RollbackRuntimeSettled(id));
    q := Then(s, q, RecoveryReturned(p.recovery.value));
    q := Then(s, q, RecoveryStopSettled);
    RuntimeBreaks(s, q, k);
  }

  lemma StopsHaveEnded(p: Process, r: nat, id: StartId)
    requires NothingLost(p) && r < |p.runtimes| && RollbackStop(id) in p.runtimes[r].stops
    ensures StopEnded(p.runtimes[r], RollbackStop(id))
  {
    assert StopsEnded(p.runtimes[r]);
  }

  // From every reachable state: once shutdown has disconnected the database nothing of the
  // process uses it, exactly when shutdown was clean to request.
  lemma ShutdownQuietExact(p: Process)
    requires ProcessInv(p) && !p.shuttingDown
    ensures QuietOnceDisconnected(Next(p, ShutdownCalled)) <==> Clean(p)
  {
    hide Next, ProcessInv, LeadsTo, AllQuiet, Stoppable, Gone, Inert, RuntimeFailed, Closing;
    var s := Next(p, ShutdownCalled);
    if Clean(p) {
      ShutdownCloses(p);
      forall q | LeadsTo(s, q) && Disconnects(q) ensures AllQuiet(q) {
        ClosesTo(s, q);
        DisconnectIsQuiet(q);
      }
    } else {
      UncleanBreaks(p);
    }
  }

  lemma ClosesTo(s: Process, q: Process)
    requires Closing(s) && LeadsTo(s, q)
    ensures Closing(q)
  {
    hide Closing;
    var events :| Runs(s, events) == q;
    ClosingRun(s, events);
  }

  lemma UncleanBreaks(p: Process)
    requires ProcessInv(p) && !p.shuttingDown && !Clean(p)
    ensures Breaks(Next(p, ShutdownCalled))
  {
    FlagsOf(p);
    hide Next, ProcessInv, FlagsFit, Breaks, Stoppable, Gone, Inert, RuntimeFailed;
    if id :| id in p.starts && IsStarting(p, id) && !RuntimeFailed(p.runtimes[p.starts[id].runtime]) {
      LiveStartBreaks(p, id);
    } else if k: nat :| k < |p.runtimes| && if Current(p, k) then !Stoppable(p.runtimes[k]) else !Gone(p.runtimes[k]) {
      LostRuntimeBreaks(p, k);
    } else if k: nat :| k < |p.recoveries| && p.recovery != Some(k) && !RM.Dead(p.recoveries[k]) {
      LostRecoveryBreaks(p, k);
    } else if WillRollBack(p) && !NamesOnly(p, Inert) {
      var id :| id in p.starts && (p.starts[id].Starting? || p.starts[id].StoppingRecovery?);
      RollBackBreaks(p, id);
    } else {
      var id :| id in p.starts && p.starts[id].StoppingRuntime?;
      ClearBreaks(p, id);
    }
  }

  // A start call that has not failed goes on behind the disconnect, up to heartbeats.
  lemma HeartbeatAfterDisconnect(p: Process, id: StartId)
    requires IsStarting(p, id) && RM.StartInFlight(p.runtimes[p.starts[id].runtime]) && Disconnects(p)
    ensures !QuietOnceDisconnected(p)
  {
    hide LeadsTo;
    LeadsToItself(p);
    var k := p.starts[id].runtime;
    var q := Then(p, p, InRuntime(k, RM.Registered(true)));
    q := Then(p, q, InRuntime(k, RM.WentOnline(true)));
    q := Then(p, q, InRuntime(k, RM.HeartbeatTick(|q.runtimes[k].beats| - 1)));
    assert q.runtimes[k].beats[|q.runtimes[k].beats| - 1].active.Some?;
    assert !AllQuiet(q);
  }

  // Two overlapping start calls that both succeed: shutdown stops the second runtime and
  // never the first one.
  lemma OverlapOutlivesShutdown() returns (p: Process)
    ensures LeadsTo(NEW_PROCESS, p) && !p.shuttingDown && p.started && p.starts == map[0 := Over, 1 := Over]
    ensures !QuietOnceDisconnected(Next(p, ShutdownCalled))
  {
    hide LeadsTo;
    NewProcessFits();
    LeadsToItself(NEW_PROCESS);
    p := Then(NEW_PROCESS, NEW_PROCESS, StartCalled(0));
    p := Then(NEW_PROCESS, p, StartCalled(1));
    p := ComesUp(p, 0);
    p := ComesUp(p, 1);
    ReachedFits(NEW_PROCESS, p);
    assert !RM.Dead(p.runtimes[0].beats[0]);
    hide Next;
    ShutdownQuietExact(p);
  }

  lemma ComesUp(p: Process, id: StartId) returns (q: Process)
    requires LeadsTo(NEW_PROCESS, p) && IsStarting(p, id) && p.starts[id].runtime == id
    requires p.runtimes[id] == RM.Next(RM.NEW_RUNTIME, RM.StartCalled)
    ensures LeadsTo(NEW_PROCESS, q) && q.started && q.starts == p.starts[id := Over] && q.runtime == p.runtime
    ensures |q.runtimes| == |p.runtimes| && q.runtimes[id].beats == [IDLE] && q.shuttingDown == p.shuttingDown
    ensures forall k :: 0 <= k < |p.runtimes| && k != id ==> q.runtimes[k] == p.runtimes[k]
  {
    hide LeadsTo, RM.Next, Next;
    var r := StartedComesUp();
    InRuntimeMoves(p, id, RM.Registered(true));
    q := Then(NEW_PROCESS, p, InRuntime(id, RM.Registered(true)));
    InRuntimeMoves(q, id, RM.WentOnline(true));
    q := Then(NEW_PROCESS, q, InRuntime(id, RM.WentOnline(true)));
    assert q == p.(runtimes := p.runtimes[id := r]);
    StartCompletes(q, id);
    q := Then(NEW_PROCESS, q, StartReturned(id, true));
  }

  lemma StartedComesUp() returns (r: RM.Runtime)
    ensures r == RM.Next(RM.Next(RM.Next(RM.NEW_RUNTIME, RM.StartCalled), RM.Registered(true)), RM.WentOnline(true))
    ensures r.beats == [IDLE]
  {
    r := RM.Next(RM.Next(RM.Next(RM.NEW_RUNTIME, RM.StartCalled), RM.Registered(true)), RM.WentOnline(true));
  }

  lemma InRuntimeMoves(p: Process, k: nat, e: RM.Event)
    requires k < |p.runtimes| && RS.Inside(e)
    ensures Next(p, InRuntime(k, e)) == p.(runtimes := p.runtimes[k := RM.Next(p.runtimes[k], e)])
  {
    hide RM.Next, RollBack, RollBackRuntime, StopRuntime, ShutdownBegins;
  }

  lemma StartCompletes(p: Process, id: StartId)
    requires IsStarting(p, id) && RuntimeUp(p.runtimes[p.starts[id].runtime])
    ensures Next(p, StartReturned(id, true)) == p.(starts := p.starts[id := Over], started := true,
              recoveries := p.recoveries + [IDLE], recovery := Some(|p.recoveries|))
  {
    hide RM.Next, RollBack, RollBackRuntime, StopRuntime, ShutdownBegins;
  }

  // ---- start calls that do not overlap ----

  predicate Pending(p: Process, id: StartId) {
    id in p.starts && !p.starts[id].Over?
  }

  // No start call is made while another one has not settled.
  ghost predicate NoOverlap(p: Process, events: seq<Event>)
    decreases |events|
  {
    events == [] ||
    ((events[0].StartCalled? ==> forall id :: !Pending(p, id)) && NoOverlap(Next(p, events[0]), events[1..]))
  }

  predicate Unstopped(r: RM.Runtime) {
    r.stops == map[] && !r.stopped
  }

  // A start call in progress is the last one made, and no start has completed.
  ghost predicate PendingFits(p: Process, id: StartId) {
    && Pending(p, id) && !p.started && p.recovery.None?
    && p.runtime.Some? && p.runtime.value < |p.runtimes|
    && var r := p.runtimes[p.runtime.value];
       match p.starts[id]
       case Starting(k) => k == p.runtime.value && Unstopped(r)
       case StoppingRuntime(k) => k == p.runtime.value && Ending(r, RollbackStop(id))
       case _ => false
  }

  // With none in progress, the variables name what the completed start left, if any.
  ghost predicate RestFits(p: Process) {
    && (p.recovery.Some? ==> p.started)
    && (p.runtime.Some? ==>
          p.started && p.runtime.value < |p.runtimes| &&
          Unstopped(p.runtimes[p.runtime.value]) && !RM.StartInFlight(p.runtimes[p.runtime.value]))
  }

  ghost predicate OthersGone(p: Process) {
    && (forall k :: 0 <= k < |p.runtimes| && p.runtime != Some(k) ==> Gone(p.runtimes[k]))
    && (forall k :: 0 <= k < |p.recoveries| && p.recovery != Some(k) ==> RM.Dead(p.recoveries[k]))
  }

  ghost predicate SoleStart(p: Process, who: Option<StartId>) {
    && (forall id: StartId :: Pending(p, id) ==> who == Some(id))
    && (if who.Some? then PendingFits(p, who.value) else RestFits(p))
    && OthersGone(p)
  }

  ghost predicate SoleInv(p: Process, who: Option<StartId>) {
    ProcessInv(p) && !p.shuttingDown && SoleStart(p, who)
  }

  // A start call that may still reach the database.
  predicate MayReach(p: Process, id: StartId) {
    Pending(p, id) &&
    !(IsStarting(p, id) && RuntimeFailed(p.runtimes[p.starts[id].runtime])) &&
    !(p.starts[id].StoppingRuntime? && p.starts[id].runtime < |p.runtimes| &&
      StopEnded(p.runtimes[p.starts[id].runtime], RollbackStop(id)))
  }

  lemma UnstoppedStays(r: RM.Runtime, e: RM.Event)
    requires RuntimeFits(r) && Unstopped(r) && RS.Inside(e)
    ensures Unstopped(RM.Next(r, e)) && (!RM.StartInFlight(r) ==> !RM.StartInFlight(RM.Next(r, e)))
  {
    if RM.StopEvent(e) {
      EndedStops(r, e);
    } else {
      WorkKeepsStops(r, e);
    }
    hide RM.RuntimeInv, Begin, Settle;
  }

  lemma SoleInRuntime(p: Process, who: Option<StartId>, k: nat, e: RM.Event)
    requires SoleInv(p, who) && k < |p.runtimes| && RS.Inside(e)
    ensures SoleStart(SetRuntime(p, k, e), who)
  {
    RuntimeOf(p, k);
    var r, s := p.runtimes[k], RM.Next(p.runtimes[k], e);
    if Gone(r) { GoneStays(r, e); }
    if Unstopped(r) { UnstoppedStays(r, e); }
    if who.Some? && Ending(r, RollbackStop(who.value)) { EndingStays(r, RollbackStop(who.value), e); }
    SoleReplaced(p, who, k, s);
  }

  lemma SoleReplaced(p: Process, who: Option<StartId>, k: nat, s: RM.Runtime)
    requires SoleStart(p, who) && k < |p.runtimes|
    requires Gone(p.runtimes[k]) ==> Gone(s)
    requires Unstopped(p.runtimes[k]) ==>
               Unstopped(s) && (!RM.StartInFlight(p.runtimes[k]) ==> !RM.StartInFlight(s))
    requires who.Some? && Ending(p.runtimes[k], RollbackStop(who.value)) ==> Ending(s, RollbackStop(who.value))
    ensures SoleStart(p.(runtimes := p.runtimes[k := s]), who)
  {
    hide Gone, Ending, Unstopped;
    assert forall id :: Pending(p.(runtimes := p.runtimes[k := s]), id) == Pending(p, id);
  }

  // It stops the runtime it started, with no recovery scheduler to stop before.
  lemma SoleRollBack(p: Process, who: Option<StartId>, id: StartId)
    requires SoleInv(p, who) && IsStarting(p, id)
    requires RuntimeUp(p.runtimes[p.starts[id].runtime]) || RuntimeFailed(p.runtimes[p.starts[id].runtime])
    ensures SoleStart(RollBack(p, id), who)
  {
    assert Pending(p, id);
    var k, stop := p.runtime.value, RollbackStop(id);
    RuntimeOf(p, k);
    UnstoppedStoppable(p.runtimes[k]);
    StoppableStops(p.runtimes[k], stop);
    SoleStopping(p, id, RM.Next(p.runtimes[k], RM.StopCalled(stop)));
  }

  lemma SoleStopping(p: Process, id: StartId, s: RM.Runtime)
    requires SoleStart(p, Some(id)) && Ending(s, RollbackStop(id))
    ensures SoleStart(SetStart(p.(runtimes := p.runtimes[p.runtime.value := s]), id, StoppingRuntime(p.runtime.value)),
                      Some(id))
  {
    hide Gone, Ending;
    var q := SetStart(p.(runtimes := p.runtimes[p.runtime.value := s]), id, StoppingRuntime(p.runtime.value));
    assert forall j :: Pending(q, j) ==> Pending(p, j);
  }

  lemma UnstoppedStoppable(r: RM.Runtime)
    requires RuntimeFits(r) && Unstopped(r) && (RuntimeUp(r) || RuntimeFailed(r))
    ensures Stoppable(r) && !RM.StartInFlight(r)
  {
    hide RM.RuntimeInv;
  }

  lemma SoleEvent(p: Process, who: Option<StartId>, e: Event) returns (next: Option<StartId>)
    requires SoleInv(p, who) && !Next(p, e).shuttingDown && (e.StartCalled? ==> forall id :: !Pending(p, id))
    ensures SoleInv(Next(p, e), next)
  {
    hide RM.Next, ProcessInv, SoleStart, RollBack, Cleared;
    NextKeeps(p, e);
    NotRequestedYet(p);
    next := who;
    match e
    case StartCalled(id) => if !StartRefused(p, id) { next := SoleCall(p, who, id); }
    case StartReturned(id, ok) =>
      if IsStarting(p, id) && RuntimeUp(p.runtimes[p.starts[id].runtime]) {
        if ok { next := SoleReturn(p, who, id); } else { SoleRollBack(p, who, id); }
      }
    case StartThrew(id) =>
      if IsStarting(p, id) && RuntimeFailed(p.runtimes[p.starts[id].runtime]) { SoleRollBack(p, who, id); }
    case RollbackRecoverySettled(id) => SoleNoRecovery(p, who, id);
    case RollbackRuntimeSettled(id) => if Next(p, e) != p { next := SoleClear(p, who, id); }
    case InRuntime(k, event) => if k < |p.runtimes| && RS.Inside(event) { SoleInRuntime(p, who, k, event); }
    case RecoveryTick(k) => if k < |p.recoveries| { SoleRecovery(p, who, k, Begin(p.recoveries[k])); }
    case RecoveryReturned(k) => if k < |p.recoveries| { SoleRecovery(p, who, k, Settle(p.recoveries[k])); }
    case _ =>
  }

  lemma NotRequestedYet(p: Process)
    requires ProcessInv(p) && !p.shuttingDown
    ensures p.shutdown.NotRequested?
  {
  }

  lemma SoleNoRecovery(p: Process, who: Option<StartId>, id: StartId)
    requires SoleStart(p, who)
    ensures id in p.starts ==> !p.starts[id].StoppingRecovery?
  {
    assert id in p.starts && p.starts[id].StoppingRecovery? ==> Pending(p, id);
  }

  lemma SoleCall(p: Process, who: Option<StartId>, id: StartId) returns (next: Option<StartId>)
    requires SoleInv(p, who) && !StartRefused(p, id) && forall j :: !Pending(p, j)
    ensures SoleStart(Next(p, StartCalled(id)), next)
  {
    NewIsUnstopped();
    hide RM.Next, ProcessInv, Gone, Ending, Unstopped;
    var q := Next(p, StartCalled(id));
    next := Some(id);
    assert who.None?;
    assert forall j :: Pending(q, j) ==> j == id || Pending(p, j);
    assert Pending(q, id);
  }

  lemma NewIsUnstopped()
    ensures Unstopped(RM.Next(RM.NEW_RUNTIME, RM.StartCalled))
  {
  }

  lemma SoleReturn(p: Process, who: Option<StartId>, id: StartId) returns (next: Option<StartId>)
    requires SoleInv(p, who) && IsStarting(p, id) && RuntimeUp(p.runtimes[p.starts[id].runtime])
    ensures SoleStart(Next(p, StartReturned(id, true)), next)
  {
    assert Pending(p, id);
    RuntimeOf(p, p.runtime.value);
    UnstoppedStoppable(p.runtimes[p.runtime.value]);
    hide RM.Next, ProcessInv, Gone, Ending, RuntimeFits, Unstopped;
    next := None;
    assert forall j :: Pending(Next(p, StartReturned(id, true)), j) ==> j != id && Pending(p, j);
  }

  lemma SoleClear(p: Process, who: Option<StartId>, id: StartId) returns (next: Option<StartId>)
    requires SoleInv(p, who) && Next(p, RollbackRuntimeSettled(id)) != p
    ensures SoleStart(Next(p, RollbackRuntimeSettled(id)), next)
  {
    assert Pending(p, id);
    EndingGone(p.runtimes[p.runtime.value], RollbackStop(id));
    hide ProcessInv, Gone, Ending;
    next := None;
    assert forall j :: Pending(Cleared(p, id), j) ==> j != id && Pending(p, j);
  }

  lemma SoleRecovery(p: Process, who: Option<StartId>, k: nat, f: Flight)
    requires SoleStart(p, who) && k < |p.recoveries| && (RM.Dead(p.recoveries[k]) ==> RM.Dead(f))
    ensures SoleStart(SetRecovery(p, k, f), who)
  {
    hide Gone, Ending, Unstopped;
    assert forall id :: Pending(SetRecovery(p, k, f), id) == Pending(p, id);
  }

  lemma {:induction false} RunsSole(p: Process, who: Option<StartId>, events: seq<Event>)
    returns (last: Option<StartId>)
    requires SoleInv(p, who) && NoOverlap(p, events)
    ensures Runs(p, events).shuttingDown || SoleInv(Runs(p, events), last)
    decreases |events|
  {
    hide Next, SoleInv;
    last := who;
    if events != [] {
      var q := Next(p, events[0]);
      if q.shuttingDown {
        ShuttingDownLatches(q, events[1..]);
      } else {
        last := SoleEvent(p, who, events[0]);
        last := RunsSole(q, last, events[1..]);
      }
    }
  }

  lemma {:induction false} ShuttingDownLatches(p: Process, events: seq<Event>)
    requires p.shuttingDown
    ensures Runs(p, events).shuttingDown
    decreases |events|
  {
    hide RM.Next;
    if events != [] {
      ShuttingDownLatches(Next(p, events[0]), events[1..]);
    }
  }

  // Unless start calls overlap, it is clean to shut down exactly when no start call may
  // still reach the database: at any time after a start completed, for one.
  lemma SoleStartClean(events: seq<Event>)
    requires NoOverlap(NEW_PROCESS, events) && !Runs(NEW_PROCESS, events).shuttingDown
    ensures var p := Runs(NEW_PROCESS, events); Clean(p) <==> forall id :: !MayReach(p, id)
  {
    NewProcessFits();
    hide ProcessInv;
    var last := RunsSole(NEW_PROCESS, None, events);
    SoleIsClean(Runs(NEW_PROCESS, events), last);
  }

  lemma SoleIsClean(p: Process, who: Option<StartId>)
    requires SoleInv(p, who)
    ensures Clean(p) <==> forall id :: !MayReach(p, id)
  {
    FlagsOf(p);
    assert forall id :: id in p.starts && !p.starts[id].Over? ==> Pending(p, id);
    hide ProcessInv, PendingFits, Ending, Gone, Stoppable, Inert, RuntimeFailed;
    if who.Some? {
      SolePending(p, who.value);
    } else {
      SoleRest(p);
    }
  }

  lemma SoleRest(p: Process)
    requires SoleInv(p, None)
    ensures Clean(p)
  {
    FlagsOf(p);
    if p.runtime.Some? {
      RestStoppable(p);
    }
    assert forall id :: id in p.starts && !p.starts[id].Over? ==> Pending(p, id);
    hide ProcessInv, Gone, Stoppable, Inert, RuntimeFailed, Unstopped;
  }

  lemma RestStoppable(p: Process)
    requires ProcessInv(p) && RestFits(p) && p.runtime.Some?
    ensures Stoppable(p.runtimes[p.runtime.value])
  {
    RuntimeOf(p, p.runtime.value);
    UnstoppedStoppable(p.runtimes[p.runtime.value]);
  }

  // The start call in progress decides whether its runtime is gone.
  lemma SolePending(p: Process, id: StartId)
    requires SoleInv(p, Some(id))
    ensures p.runtime.Some? && p.runtime.value < |p.runtimes| && !p.started && p.recovery.None?
    ensures p.starts[id].runtime == p.runtime.value && !p.starts[id].StoppingRecovery?
    ensures MayReach(p, id) ==> !NothingLost(p)
    ensures !MayReach(p, id) ==>
              var r := p.runtimes[p.runtime.value];
              Gone(r) && (p.starts[id].Starting? ==> Inert(r) && RuntimeFailed(r))
  {
    var r := p.runtimes[p.runtime.value];
    RuntimeOf(p, p.runtime.value);
    if p.starts[id].Starting? {
      assert IsStarting(p, id);
      if RuntimeFailed(r) {
        FailedIsInert(r);
      }
    } else if StopEnded(r, RollbackStop(id)) {
      EndingGone(r, RollbackStop(id));
    } else {
      assert !StopsEnded(r);
    }
    hide ProcessInv, RuntimeFits;
  }

  lemma FailedIsInert(r: RM.Runtime)
    requires RuntimeFits(r) && Unstopped(r) && RuntimeFailed(r)
    ensures Inert(r)
  {
  }
}
