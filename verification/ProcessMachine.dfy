// apps/worker/src/worker.js between its await points: one process, any number of start
// calls, each with its own runtime. Only the process starts and stops its runtimes.
module ProcessMachine {
  import opened Wrappers
  import opened SingleFlight
  import RM = RuntimeMachine
  import RS = RuntimeStop

  type StartId = nat

  // Where a start call waits: for its runtime's start, or in rollbackStartup for the stop of
  // the recovery scheduler and then of the runtime that the shared variables named.
  datatype StartPc =
    | Starting(runtime: nat) | StoppingRecovery(task: nat, run: Option<nat>) | StoppingRuntime(runtime: nat) | Over

  // Where shutdown waits.
  datatype ShutdownPc =
    | NotRequested | AwaitRecovery(task: nat, run: Option<nat>) | AwaitRuntime(runtime: nat) | Disconnecting | Done

  // runtimes and recoveries hold all that were ever created; the variables runtime and
  // recoveryScheduler name one of them or null.
  datatype Process = Process(
    runtimes: seq<RM.Runtime>, recoveries: seq<Flight>, runtime: Option<nat>, recovery: Option<nat>,
    starts: map<StartId, StartPc>, started: bool, shuttingDown: bool, shutdown: ShutdownPc)

  const NEW_PROCESS := Process([], [], None, None, map[], false, false, NotRequested)

  // The stop call that shutdown makes on a runtime, and the one of a rollback.
  const SHUTDOWN_STOP: RM.StopId := 0

  function RollbackStop(id: StartId): RM.StopId {
    id + 1
  }

  // StartReturned(id, false): runtime.start succeeded, but a factory called after it threw.
  datatype Event =
    | StartCalled(id: StartId) | StartReturned(id: StartId, ok: bool) | StartThrew(id: StartId)
    | RollbackRecoverySettled(id: StartId) | RollbackRuntimeSettled(id: StartId)
    | InRuntime(k: nat, event: RM.Event) | RecoveryTick(k: nat) | RecoveryReturned(k: nat)
    | ShutdownCalled | RecoveryStopSettled | RuntimeStopSettled | Disconnected

  predicate RuntimeUp(r: RM.Runtime) {
    r.beats != []
  }

  // runtime.start has thrown.
  predicate RuntimeFailed(r: RM.Runtime) {
    r.beats == [] && !RM.StartInFlight(r)
  }

  predicate StopEnded(r: RM.Runtime, id: RM.StopId) {
    id in r.stops && RM.Ended(r.stops[id])
  }

  predicate IsStarting(p: Process, id: StartId) {
    id in p.starts && p.starts[id].Starting? && p.starts[id].runtime < |p.runtimes|
  }

  function SetRuntime(p: Process, k: nat, e: RM.Event): Process
    requires k < |p.runtimes|
  {
    p.(runtimes := p.runtimes[k := RM.Next(p.runtimes[k], e)])
  }

  function SetRecovery(p: Process, k: nat, f: Flight): Process
    requires k < |p.recoveries|
  {
    p.(recoveries := p.recoveries[k := f])
  }

  function SetStart(p: Process, id: StartId, pc: StartPc): Process {
    p.(starts := p.starts[id := pc])
  }

  function Completed(p: Process, id: StartId): Process {
    SetStart(p, id, Over).(recoveries := p.recoveries + [IDLE], recovery := Some(|p.recoveries|), started := true)
  }

  function Cleared(p: Process, id: StartId): Process {
    SetStart(p, id, Over).(runtime := None, recovery := None, started := false)
  }

  function RollBackRuntime(p: Process, id: StartId): Process {
    if p.runtime.Some? && p.runtime.value < |p.runtimes|
    then SetStart(SetRuntime(p, p.runtime.value, RM.StopCalled(RollbackStop(id))), id, StoppingRuntime(p.runtime.value))
    else Cleared(p, id)
  }

  function RollBack(p: Process, id: StartId): Process {
    if p.recovery.Some? && p.recovery.value < |p.recoveries|
    then
      var f := p.recoveries[p.recovery.value];
      SetStart(SetRecovery(p, p.recovery.value, Halt(f)), id, StoppingRecovery(p.recovery.value, f.active))
    else RollBackRuntime(p, id)
  }

  // The second half of shutdown: runtime.stop, but only for a completed start.
  function StopRuntime(p: Process): Process {
    if p.runtime.Some? && p.runtime.value < |p.runtimes| && p.started
    then SetRuntime(p, p.runtime.value, RM.StopCalled(SHUTDOWN_STOP)).(shutdown := AwaitRuntime(p.runtime.value))
    else p.(shutdown := Disconnecting)
  }

  function ShutdownBegins(p: Process): Process {
    var q := p.(shuttingDown := true);
    if p.recovery.Some? && p.recovery.value < |p.recoveries|
    then
      var f := p.recoveries[p.recovery.value];
      SetRecovery(q, p.recovery.value, Halt(f)).(shutdown := AwaitRecovery(p.recovery.value, f.active))
    else StopRuntime(q)
  }

  predicate StartRefused(p: Process, id: StartId) {
    p.started || p.shuttingDown || id in p.starts
  }

  function Next(p: Process, e: Event): Process {
    match e
    case StartCalled(id) =>
      if StartRefused(p, id) then p
      else p.(runtimes := p.runtimes + [RM.Next(RM.NEW_RUNTIME, RM.StartCalled)], runtime := Some(|p.runtimes|),
              starts := p.starts[id := Starting(|p.runtimes|)])
    case StartReturned(id, ok) =>
      if !IsStarting(p, id) || !RuntimeUp(p.runtimes[p.starts[id].runtime]) then p
      else if ok then Completed(p, id)
      else RollBack(p, id)
    case StartThrew(id) =>
      if IsStarting(p, id) && RuntimeFailed(p.runtimes[p.starts[id].runtime]) then RollBack(p, id) else p
    case RollbackRecoverySettled(id) =>
      if id in p.starts && p.starts[id].StoppingRecovery? && p.starts[id].task < |p.recoveries| &&
         Settled(p.recoveries[p.starts[id].task], p.starts[id].run)
      then RollBackRuntime(p, id) else p
    case RollbackRuntimeSettled(id) =>
      if id in p.starts && p.starts[id].StoppingRuntime? && p.starts[id].runtime < |p.runtimes| &&
         StopEnded(p.runtimes[p.starts[id].runtime], RollbackStop(id))
      then Cleared(p, id) else p
    case InRuntime(k, event) => if k < |p.runtimes| && RS.Inside(event) then SetRuntime(p, k, event) else p
    case RecoveryTick(k) => if k < |p.recoveries| then SetRecovery(p, k, Begin(p.recoveries[k])) else p
    case RecoveryReturned(k) => if k < |p.recoveries| then SetRecovery(p, k, Settle(p.recoveries[k])) else p
    case ShutdownCalled => if p.shuttingDown then p else ShutdownBegins(p)
    case RecoveryStopSettled =>
      if p.shutdown.AwaitRecovery? && p.shutdown.task < |p.recoveries| &&
         Settled(p.recoveries[p.shutdown.task], p.shutdown.run)
      then StopRuntime(p) else p
    case RuntimeStopSettled =>
      if p.shutdown.AwaitRuntime? && p.shutdown.runtime < |p.runtimes| &&
         StopEnded(p.runtimes[p.shutdown.runtime], SHUTDOWN_STOP)
      then p.(shutdown := Disconnecting) else p
    case Disconnected =>
      if p.shutdown.Disconnecting? then p.(shutdown := Done, started := false) else p
  }

  function Runs(p: Process, events: seq<Event>): Process
    decreases |events|
  {
    if events == [] then p else Runs(Next(p, events[0]), events[1..])
  }

  lemma {:induction false} RunsConcat(p: Process, xs: seq<Event>, ys: seq<Event>)
    ensures Runs(p, xs + ys) == Runs(Runs(p, xs), ys)
    decreases |xs|
  {
    hide Next;
    if xs == [] {
      assert xs + ys == ys;
    } else {
      assert (xs + ys)[1..] == xs[1..] + ys;
      RunsConcat(Next(p, xs[0]), xs[1..], ys);
    }
  }

  // No stop call of the runtime is still waiting or writing a worker status.
  predicate StopsEnded(r: RM.Runtime) {
    forall id :: id in r.stops ==> RM.Ended(r.stops[id])
  }

  predicate RuntimeQuiet(r: RM.Runtime) {
    RM.Quiet(r) && !RM.StartInFlight(r) && StopsEnded(r)
  }

  predicate RecoveryQuiet(p: Process) {
    forall k :: 0 <= k < |p.recoveries| ==> p.recoveries[k].active.None?
  }

  // Nothing this process ever created is using the database.
  predicate AllQuiet(p: Process) {
    RecoveryQuiet(p) && forall k :: 0 <= k < |p.runtimes| ==> RuntimeQuiet(p.runtimes[k])
  }

  predicate Disconnects(p: Process) {
    p.shutdown.Disconnecting? || p.shutdown.Done?
  }

  // ---- the invariant of every run ----

  ghost predicate RuntimeFits(r: RM.Runtime) {
    RM.RuntimeInv(r) && RM.SoleStart(r)
  }

  // The stop calls a runtime has seen are the process's own, each at its time.
  ghost predicate StopsKnown(p: Process, r: RM.Runtime) {
    && (SHUTDOWN_STOP in r.stops ==> p.shutdown.AwaitRuntime? || Disconnects(p))
    && forall id: StartId :: RollbackStop(id) in r.stops ==>
         id in p.starts && (p.starts[id].StoppingRuntime? || p.starts[id].Over?)
  }

  ghost predicate RuntimesFit(p: Process) {
    forall k :: 0 <= k < |p.runtimes| ==> RuntimeFits(p.runtimes[k]) && StopsKnown(p, p.runtimes[k])
  }

  // A run that a stop call awaits is the one in flight, and no other will begin.
  ghost predicate Awaited(p: Process, k: nat, run: Option<nat>) {
    k < |p.recoveries| && p.recoveries[k].stopped && (p.recoveries[k].active.Some? ==> run == p.recoveries[k].active)
  }

  ghost predicate StartFits(p: Process, id: StartId, pc: StartPc) {
    match pc
    case Starting(k) => k < |p.runtimes|
    case StoppingRecovery(k, run) => Awaited(p, k, run)
    case StoppingRuntime(k) => k < |p.runtimes| && RollbackStop(id) in p.runtimes[k].stops
    case Over => true
  }

  ghost predicate StartsFit(p: Process) {
    forall id :: id in p.starts ==> StartFits(p, id, p.starts[id])
  }

  ghost predicate ShutdownFits(p: Process) {
    match p.shutdown
    case AwaitRecovery(k, run) => Awaited(p, k, run)
    case AwaitRuntime(k) => k < |p.runtimes| && SHUTDOWN_STOP in p.runtimes[k].stops
    case _ => true
  }

  ghost predicate FlagsFit(p: Process) {
    && (p.runtime.Some? ==> p.runtime.value < |p.runtimes|)
    && (p.recovery.Some? ==> p.recovery.value < |p.recoveries|)
    && (p.started ==> p.recovery.Some?)
    && (p.shuttingDown <==> !p.shutdown.NotRequested?)
    && forall k :: 0 <= k < |p.recoveries| ==> FlightFits(p.recoveries[k])
  }

  ghost predicate ProcessInv(p: Process) {
    RuntimesFit(p) && StartsFit(p) && ShutdownFits(p) && FlagsFit(p)
  }

  lemma RuntimeEventFits(r: RM.Runtime, e: RM.Event)
    requires RuntimeFits(r) && RS.Inside(e)
    ensures RuntimeFits(RM.Next(r, e)) && RM.Next(r, e).stops.Keys == r.stops.Keys
  {
    RM.NextKeeps(r, e);
    RM.StepSoleStart(r, e);
    hide RuntimeFits, Begin, Settle, Settled;
    if RM.StopEvent(e) {
    } else if RM.StartEvent(e) {
    }
  }

  lemma RuntimeStopFits(r: RM.Runtime, id: RM.StopId)
    requires RuntimeFits(r)
    ensures var s := RM.Next(r, RM.StopCalled(id)); RuntimeFits(s) && s.stops.Keys == r.stops.Keys + {id}
  {
    RM.NextKeeps(r, RM.StopCalled(id));
    RM.StepSoleStart(r, RM.StopCalled(id));
    hide RuntimeFits;
  }

  lemma RuntimeReplaced(p: Process, k: nat, s: RM.Runtime)
    requires ProcessInv(p) && k < |p.runtimes| && RuntimeFits(s) && StopsKnown(p, s)
    requires p.runtimes[k].stops.Keys <= s.stops.Keys
    ensures ProcessInv(p.(runtimes := p.runtimes[k := s]))
  {
    hide RuntimeFits;
    assert forall id :: id in p.runtimes[k].stops ==> id in s.stops.Keys;
  }

  lemma StartMoves(p: Process, id: StartId, pc: StartPc)
    requires ProcessInv(p) && StartFits(p, id, pc) && (pc.StoppingRuntime? || pc.Over?)
    ensures ProcessInv(SetStart(p, id, pc))
  {
    hide RuntimeFits;
  }

  lemma InRuntimeKeeps(p: Process, k: nat, e: RM.Event)
    requires ProcessInv(p) && k < |p.runtimes| && RS.Inside(e)
    ensures ProcessInv(SetRuntime(p, k, e))
  {
    RuntimeEventFits(p.runtimes[k], e);
    hide RM.Next, RuntimeFits;
    KeysDecide(p.runtimes[k], RM.Next(p.runtimes[k], e));
    KnownByKeys(p, p.runtimes[k], RM.Next(p.runtimes[k], e));
    hide ProcessInv, StopsKnown;
    RuntimeReplaced(p, k, RM.Next(p.runtimes[k], e));
  }

  lemma KnownByKeys(p: Process, r: RM.Runtime, s: RM.Runtime)
    requires StopsKnown(p, r) && forall id :: id in s.stops ==> id in r.stops
    ensures StopsKnown(p, s)
  {
  }

  lemma KeysDecide(r: RM.Runtime, s: RM.Runtime)
    requires s.stops.Keys == r.stops.Keys
    ensures forall id :: id in s.stops <==> id in r.stops
  {
    forall id ensures id in s.stops <==> id in r.stops {
      assert id in s.stops <==> id in s.stops.Keys;
    }
  }

  lemma RecoveryMoves(p: Process, k: nat, f: Flight)
    requires ProcessInv(p) && k < |p.recoveries| && FlightFits(f)
    requires p.recoveries[k].stopped ==> f.stopped && (f.active.Some? ==> f.active == p.recoveries[k].active)
    ensures ProcessInv(SetRecovery(p, k, f))
  {
    hide RuntimeFits;
  }

  lemma StopAdded(p: Process, r: RM.Runtime, id: RM.StopId)
    requires StopsKnown(p, r)
    requires id == SHUTDOWN_STOP ==> Disconnects(p)
    requires id != SHUTDOWN_STOP ==> id - 1 in p.starts && p.starts[id - 1].Over?
    ensures StopsKnown(p, RM.Next(r, RM.StopCalled(id)))
  {
    hide RM.BeatsFit;
  }

  lemma StopRuntimeKeeps(p: Process)
    requires ProcessInv(p) && p.shuttingDown && p.shutdown.AwaitRecovery?
    ensures ProcessInv(StopRuntime(p))
  {
    hide RM.Next, RuntimeFits;
    var q := p.(shutdown := Disconnecting);
    assert ProcessInv(q);
    if p.runtime.Some? && p.started {
      var k := p.runtime.value;
      RuntimeStopFits(p.runtimes[k], SHUTDOWN_STOP);
      StopAdded(q, p.runtimes[k], SHUTDOWN_STOP);
      RuntimeReplaced(q, k, RM.Next(p.runtimes[k], RM.StopCalled(SHUTDOWN_STOP)));
      AwaitsRuntime(q.(runtimes := q.runtimes[k := RM.Next(p.runtimes[k], RM.StopCalled(SHUTDOWN_STOP))]), k);
    }
  }

  lemma AwaitsRuntime(p: Process, k: nat)
    requires ProcessInv(p) && p.shutdown.Disconnecting? && k < |p.runtimes| && SHUTDOWN_STOP in p.runtimes[k].stops.Keys
    ensures ProcessInv(p.(shutdown := AwaitRuntime(k)))
  {
    hide RuntimeFits;
  }

  lemma RollBackRuntimeKeeps(p: Process, id: StartId)
    requires ProcessInv(p) && id in p.starts && (p.starts[id].Starting? || p.starts[id].StoppingRecovery?)
    ensures ProcessInv(RollBackRuntime(p, id))
  {
    hide RM.Next, RuntimeFits, ProcessInv;
    var q := SetStart(p, id, Over);
    StartMoves(p, id, Over);
    assert p.runtime.Some? ==> p.runtime.value < |p.runtimes| by { FlagsOf(p); }
    if p.runtime.Some? {
      var k := p.runtime.value;
      var s := RM.Next(p.runtimes[k], RM.StopCalled(RollbackStop(id)));
      RuntimeOf(q, k);
      RuntimeStopFits(p.runtimes[k], RollbackStop(id));
      StopAdded(q, p.runtimes[k], RollbackStop(id));
      RuntimeReplaced(q, k, s);
      assert RollbackStop(id) in s.stops.Keys;
      StartMoves(q.(runtimes := q.runtimes[k := s]), id, StoppingRuntime(k));
      assert q.(runtimes := q.runtimes[k := s]).starts[id := StoppingRuntime(k)] == p.starts[id := StoppingRuntime(k)];
    } else {
      ClearedKeeps(p, id);
    }
  }

  lemma FlagsOf(p: Process)
    requires ProcessInv(p)
    ensures FlagsFit(p)
  {
  }

  lemma RuntimeOf(p: Process, k: nat)
    requires ProcessInv(p) && k < |p.runtimes|
    ensures RuntimeFits(p.runtimes[k]) && StopsKnown(p, p.runtimes[k])
  {
  }

  lemma RollBackKeeps(p: Process, id: StartId)
    requires ProcessInv(p) && IsStarting(p, id)
    ensures ProcessInv(RollBack(p, id))
  {
    hide RM.Next, RuntimeFits, RollBackRuntime;
    RollBackRuntimeKeeps(p, id);
    if p.recovery.Some? {
      RecoveryMoves(p, p.recovery.value, Halt(p.recoveries[p.recovery.value]));
    }
  }

  lemma ShutdownBeginsKeeps(p: Process)
    requires ProcessInv(p) && !p.shuttingDown
    ensures ProcessInv(ShutdownBegins(p))
  {
    hide RM.Next, RuntimeFits;
    if p.recovery.Some? {
      RecoveryMoves(p, p.recovery.value, Halt(p.recoveries[p.recovery.value]));
    }
  }

  lemma StartCallKeeps(p: Process, id: StartId)
    requires ProcessInv(p) && !StartRefused(p, id)
    ensures ProcessInv(Next(p, StartCalled(id)))
  {
    NewRuntimeFits();
    hide RM.Next, RuntimeFits;
  }

  lemma NewRuntimeFits()
    ensures var r := RM.Next(RM.NEW_RUNTIME, RM.StartCalled);
            RuntimeFits(r) && r.stops == map[] && r.beats == [] && RM.StartInFlight(r)
  {
    RM.NextKeeps(RM.NEW_RUNTIME, RM.StartCalled);
  }

  lemma NextKeeps(p: Process, e: Event)
    requires ProcessInv(p)
    ensures ProcessInv(Next(p, e))
  {
    hide RM.Next, RuntimesFit, StartsFit, SetRuntime, RollBackRuntime, RollBack, StopRuntime, ShutdownBegins;
    match e
    case StartCalled(id) => if !StartRefused(p, id) { StartCallKeeps(p, id); }
    case StartReturned(id, ok) => if IsStarting(p, id) { RollBackKeeps(p, id); StartReturnKeeps(p, id); }
    case StartThrew(id) => if IsStarting(p, id) { RollBackKeeps(p, id); }
    case RollbackRecoverySettled(id) =>
      if id in p.starts && p.starts[id].StoppingRecovery? { RollBackRuntimeKeeps(p, id); }
    case RollbackRuntimeSettled(id) => if id in p.starts && p.starts[id].StoppingRuntime? { ClearedKeeps(p, id); }
    case InRuntime(k, event) => if k < |p.runtimes| && RS.Inside(event) { InRuntimeKeeps(p, k, event); }
    case RecoveryTick(k) => if k < |p.recoveries| { RecoveryMoves(p, k, Begin(p.recoveries[k])); }
    case RecoveryReturned(k) => if k < |p.recoveries| { RecoveryMoves(p, k, Settle(p.recoveries[k])); }
    case ShutdownCalled => if !p.shuttingDown { ShutdownBeginsKeeps(p); }
    case RecoveryStopSettled => if p.shutdown.AwaitRecovery? { StopRuntimeKeeps(p); }
    case RuntimeStopSettled => ShutdownMoves(p, e);
    case Disconnected => ShutdownMoves(p, e);
  }

  lemma StartReturnKeeps(p: Process, id: StartId)
    requires ProcessInv(p) && IsStarting(p, id)
    ensures ProcessInv(Completed(p, id))
  {
    hide RuntimeFits;
  }

  lemma ClearedKeeps(p: Process, id: StartId)
    requires ProcessInv(p) && id in p.starts
    ensures ProcessInv(Cleared(p, id))
  {
    hide RuntimeFits;
  }

  lemma ShutdownMoves(p: Process, e: Event)
    requires ProcessInv(p) && (e.RuntimeStopSettled? || e.Disconnected?)
    ensures ProcessInv(Next(p, e))
  {
    hide RuntimeFits, RM.Next;
  }

  lemma {:induction false} RunsKeep(p: Process, events: seq<Event>)
    requires ProcessInv(p)
    ensures ProcessInv(Runs(p, events))
    decreases |events|
  {
    hide Next, ProcessInv;
    if events != [] {
      NextKeeps(p, events[0]);
      RunsKeep(Next(p, events[0]), events[1..]);
    }
  }

  lemma NewProcessFits()
    ensures ProcessInv(NEW_PROCESS)
  {
  }
}
