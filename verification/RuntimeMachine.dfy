// apps/worker/src/runtime/worker-runtime.js between its await points. One event is one
// synchronous stretch of the event loop; any number of start and stop calls may overlap.
module RuntimeMachine {
  import opened Wrappers
  import opened SingleFlight

  // Where the polling cycle waits. The three Reporting points await the error callback.
  datatype PollPc =
    | NoPoll | Claiming | SettingBusy | Executing | ReportingExecution
    | SettingAvailable | ReportingAvailability | ReportingPoll

  // Returned is the early return of a runtime that is not running or already stopped.
  // Finished is the end of the full path, ok or with the error stopWorkerInstance threw.
  datatype StopPc =
    | AwaitHeartbeat(beat: nat, run: Option<nat>) | AwaitPoll(run: Option<nat>)
    | WritingStopping | WritingOffline
    | Returned | Finished(ok: bool)

  type StopId = nat

  // registering and goingOnline count the start calls at their two awaits. beats holds every
  // heartbeat ever created; the variable heartbeat names the last one.
  datatype Runtime = Runtime(
    registering: nat, goingOnline: nat, started: bool, stopping: bool, stopped: bool,
    pollTimer: bool, poll: PollPc, activePoll: Option<nat>, polls: nat,
    beats: seq<Flight>, stops: map<StopId, StopPc>)

  const NEW_RUNTIME := Runtime(0, 0, false, false, false, false, NoPoll, None, 0, [], map[])

  datatype ClaimResult = ClaimThrew | NoClaim | GotClaim

  datatype Event =
    | StartCalled | Registered(ok: bool) | WentOnline(ok: bool)
    | PollCalled | ClaimReturned(result: ClaimResult) | BusyReturned(ok: bool)
    | ExecutionReturned(ok: bool) | AvailableReturned(ok: bool) | ReportReturned
    | HeartbeatTick(beat: nat) | HeartbeatReturned(beat: nat)
    | StopCalled(id: StopId) | StopHeartbeatSettled(id: StopId) | StopPollSettled(id: StopId)
    | StoppingReturned(id: StopId, ok: bool) | OfflineReturned(id: StopId, ok: bool)

  predicate StartInFlight(r: Runtime) {
    r.registering + r.goingOnline > 0
  }

  predicate StartRefused(r: Runtime) {
    r.started || r.stopping || r.stopped
  }

  function EndPoll(r: Runtime): Runtime {
    r.(poll := NoPoll, activePoll := None)
  }

  // The execution's finally block: back to ONLINE, unless shutdown has begun.
  function AfterExecution(r: Runtime): Runtime {
    if !r.stopping && !r.stopped then r.(poll := SettingAvailable) else EndPoll(r)
  }

  function StopBegins(r: Runtime, id: StopId): (s: Runtime)
    ensures s.polls == r.polls && (r.stopping ==> s.stopping) && (r.stopped ==> s.stopped)
    ensures (s.stopping || s.stopped) && id in s.stops
  {
    if r.stopped then r.(stops := r.stops[id := Returned])
    else if !r.started || r.beats == [] then r.(stopped := true, stops := r.stops[id := Returned])
    else
      var last := |r.beats| - 1;
      r.(stopping := true, pollTimer := false, beats := r.beats[last := Halt(r.beats[last])],
         stops := r.stops[id := AwaitHeartbeat(last, r.beats[last].active)])
  }

  function OnlineEnds(r: Runtime, ok: bool): Runtime
    requires r.goingOnline > 0
  {
    var s := r.(goingOnline := r.goingOnline - 1);
    if ok then s.(started := true, pollTimer := true, beats := r.beats + [IDLE]) else s
  }

  function StopMoves(r: Runtime, id: StopId, pc: StopPc): Runtime {
    r.(stops := r.stops[id := pc])
  }

  predicate At(r: Runtime, id: StopId, pc: StopPc) {
    id in r.stops && r.stops[id] == pc
  }

  function Next(r: Runtime, e: Event): Runtime {
    match e
    case StartCalled => if StartRefused(r) then r else r.(registering := r.registering + 1)
    case Registered(ok) =>
      if r.registering == 0 then r
      else r.(registering := r.registering - 1, goingOnline := r.goingOnline + if ok then 1 else 0)
    case WentOnline(ok) =>
      if r.goingOnline == 0 then r else OnlineEnds(r, ok)
    case PollCalled =>
      if !r.started || r.stopping || r.stopped || r.activePoll.Some? then r
      else r.(poll := Claiming, activePoll := Some(r.polls), polls := r.polls + 1)
    case ClaimReturned(result) =>
      if !r.poll.Claiming? then r
      else if result.ClaimThrew? then r.(poll := ReportingPoll)
      else if result.NoClaim? || r.stopping then EndPoll(r)
      else r.(poll := SettingBusy)
    case BusyReturned(ok) =>
      if !r.poll.SettingBusy? then r else r.(poll := if ok then Executing else ReportingPoll)
    case ExecutionReturned(ok) =>
      if !r.poll.Executing? then r
      else if ok then AfterExecution(r) else r.(poll := ReportingExecution)
    case AvailableReturned(ok) =>
      if !r.poll.SettingAvailable? then r
      else if ok then EndPoll(r) else r.(poll := ReportingAvailability)
    case ReportReturned =>
      if r.poll.ReportingExecution? then AfterExecution(r)
      else if r.poll.ReportingAvailability? || r.poll.ReportingPoll? then EndPoll(r)
      else r
    case HeartbeatTick(k) => if k < |r.beats| then r.(beats := r.beats[k := Begin(r.beats[k])]) else r
    case HeartbeatReturned(k) => if k < |r.beats| then r.(beats := r.beats[k := Settle(r.beats[k])]) else r
    case StopCalled(id) => if id in r.stops then r else StopBegins(r, id)
    case StopHeartbeatSettled(id) =>
      if id in r.stops && r.stops[id].AwaitHeartbeat? && r.stops[id].beat < |r.beats| &&
         Settled(r.beats[r.stops[id].beat], r.stops[id].run)
      then StopMoves(r, id, AwaitPoll(r.activePoll)) else r
    case StopPollSettled(id) =>
      if id in r.stops && r.stops[id].AwaitPoll? && (r.stops[id].run.None? || r.activePoll != r.stops[id].run)
      then StopMoves(r, id, WritingStopping) else r
    case StoppingReturned(id, ok) =>
      if At(r, id, WritingStopping) then StopMoves(r, id, if ok then WritingOffline else Finished(false)) else r
    case OfflineReturned(id, ok) =>
      if !At(r, id, WritingOffline) then r
      else if ok then StopMoves(r, id, Finished(true)).(stopped := true, started := false)
      else StopMoves(r, id, Finished(false))
  }

  function Runs(r: Runtime, events: seq<Event>): Runtime
    decreases |events|
  {
    if events == [] then r else Runs(Next(r, events[0]), events[1..])
  }

  // No poll, execution or availability write of this runtime is in flight.
  predicate PollQuiet(r: Runtime) {
    r.poll.NoPoll? && r.activePoll.None?
  }

  // Nor is any of its heartbeat writes.
  predicate Quiet(r: Runtime) {
    PollQuiet(r) && forall k :: 0 <= k < |r.beats| ==> r.beats[k].active.None?
  }

  // stop is writing STOPPING or OFFLINE, or has ended after doing so.
  predicate PastWaits(pc: StopPc) {
    pc.WritingStopping? || pc.WritingOffline? || pc.Finished?
  }

  predicate Ended(pc: StopPc) {
    pc.Returned? || pc.Finished?
  }

  // A heartbeat that never writes again.
  predicate Dead(f: Flight) {
    f.stopped && f.active.None?
  }

  predicate OnlyBeatDead(r: Runtime) {
    |r.beats| == 1 ==> Dead(r.beats[0])
  }

  ghost predicate StopFits(r: Runtime, pc: StopPc) {
    match pc
    case AwaitHeartbeat(k, run) =>
      r.stopping && k < |r.beats| && r.beats[k].stopped && (r.beats[k].active.Some? ==> run == r.beats[k].active)
    case AwaitPoll(run) => r.stopping && OnlyBeatDead(r) && (r.activePoll.Some? ==> run == r.activePoll)
    case Returned => r.stopped
    case Finished(ok) =>
      r.stopping && PollQuiet(r) && OnlyBeatDead(r) && (ok ==> r.stopped && (|r.beats| == 1 ==> !r.started))
    case _ => r.stopping && PollQuiet(r) && OnlyBeatDead(r)
  }

  ghost predicate BeatsFit(r: Runtime) {
    && (forall k :: 0 <= k < |r.beats| ==> FlightFits(r.beats[k]) && (r.beats[k].stopped ==> r.stopping))
    && (|r.beats| == 1 && r.stopping ==> r.beats[0].stopped)
    && (r.stopping && r.stopped ==> OnlyBeatDead(r))
  }

  ghost predicate FlagsFit(r: Runtime) {
    && (r.activePoll.Some? <==> !r.poll.NoPoll?)
    && (r.activePoll.Some? ==> r.activePoll.value < r.polls && r.beats != [] && !r.stopped)
    && (r.started || r.stopping ==> r.beats != [])
    && (r.beats != [] && !(r.stopping && r.stopped) ==> r.started)
  }

  ghost predicate StopsFit(r: Runtime) {
    forall id :: id in r.stops ==> StopFits(r, r.stops[id])
  }

  ghost predicate RuntimeInv(r: Runtime) {
    FlagsFit(r) && BeatsFit(r) && StopsFit(r)
  }

  predicate StopEvent(e: Event) {
    e.StopCalled? || e.StopHeartbeatSettled? || e.StopPollSettled? || e.StoppingReturned? || e.OfflineReturned?
  }

  // A stopped heartbeat only ends, a poll only ends while stopping, and only a new
  // heartbeat can come with new flags.
  ghost predicate OnlyEnds(r: Runtime, s: Runtime) {
    && s.stopping == r.stopping && s.stops == r.stops && s.stopped == r.stopped
    && (r.stopping && s.activePoll.Some? ==> s.activePoll == r.activePoll)
    && |r.beats| <= |s.beats|
    && (|r.beats| == |s.beats| ==> s.started == r.started)
    && forall k :: 0 <= k < |r.beats| && r.beats[k].stopped ==>
         s.beats[k].stopped && (s.beats[k].active.Some? ==> s.beats[k].active == r.beats[k].active)
  }

  predicate StartEvent(e: Event) {
    e.StartCalled? || e.Registered? || e.WentOnline?
  }

  predicate BeatEvent(e: Event) {
    e.HeartbeatTick? || e.HeartbeatReturned?
  }

  lemma StartEventFits(r: Runtime, e: Event)
    requires FlagsFit(r) && BeatsFit(r) && StartEvent(e)
    ensures FlagsFit(Next(r, e)) && BeatsFit(Next(r, e)) && OnlyEnds(r, Next(r, e))
  {
    hide Halt, Settled, StopBegins, StopMoves, At, EndPoll, AfterExecution, Begin, Settle;
  }

  lemma BeatEventFits(r: Runtime, e: Event)
    requires FlagsFit(r) && BeatsFit(r) && BeatEvent(e)
    ensures FlagsFit(Next(r, e)) && BeatsFit(Next(r, e)) && OnlyEnds(r, Next(r, e))
  {
    hide Halt, Settled, StopBegins, StopMoves, At, EndPoll, AfterExecution;
  }

  lemma PollEventFits(r: Runtime, e: Event)
    requires FlagsFit(r) && BeatsFit(r) && !StartEvent(e) && !BeatEvent(e) && !StopEvent(e)
    ensures FlagsFit(Next(r, e)) && BeatsFit(Next(r, e)) && OnlyEnds(r, Next(r, e))
  {
    hide Halt, Settled, StopBegins, StopMoves, At, Begin, Settle, FlightFits;
    assert Next(r, e).beats == r.beats;
  }

  lemma WorkEventKeepsStops(r: Runtime, s: Runtime)
    requires RuntimeInv(r) && FlagsFit(s) && OnlyEnds(r, s)
    ensures StopsFit(s)
  {
    forall id | id in s.stops ensures StopFits(s, s.stops[id]) {
      assert StopFits(r, r.stops[id]);
    }
  }

  lemma StopEventFits(r: Runtime, e: Event)
    requires RuntimeInv(r) && StopEvent(e)
    ensures FlagsFit(Next(r, e)) && BeatsFit(Next(r, e))
  {
    if e.id in r.stops {
      assert StopFits(r, r.stops[e.id]);
    }
  }

  // What a stop event leaves alone, as the other stop calls see it.
  ghost predicate OnlyStops(r: Runtime, s: Runtime) {
    && (r.stopping ==> s.stopping) && (r.stopped ==> s.stopped) && (s.started ==> r.started)
    && s.poll == r.poll && s.activePoll == r.activePoll && |s.beats| == |r.beats|
    && forall k :: 0 <= k < |r.beats| ==>
         s.beats[k].active == r.beats[k].active && (r.beats[k].stopped ==> s.beats[k].stopped)
  }

  lemma StopFitsStays(r: Runtime, s: Runtime, pc: StopPc)
    requires StopFits(r, pc) && OnlyStops(r, s)
    ensures StopFits(s, pc)
  {
  }

  lemma StopEventFrame(r: Runtime, e: Event)
    requires StopEvent(e)
    ensures OnlyStops(r, Next(r, e)) && Next(r, e).stops.Keys <= r.stops.Keys + {e.id}
    ensures forall id :: id in r.stops && id != e.id ==> id in Next(r, e).stops && Next(r, e).stops[id] == r.stops[id]
  {
    hide Begin, Settle, FlightFits, EndPoll, AfterExecution, Settled;
  }

  lemma OwnStopFits(r: Runtime, e: Event)
    requires RuntimeInv(r) && StopEvent(e) && e.id in Next(r, e).stops
    ensures StopFits(Next(r, e), Next(r, e).stops[e.id])
  {
    hide Begin, Settle, FlightFits, EndPoll, AfterExecution;
    if e.id in r.stops {
      assert StopFits(r, r.stops[e.id]);
    }
  }

  lemma StopEventKeepsStops(r: Runtime, e: Event)
    requires RuntimeInv(r) && StopEvent(e)
    ensures StopsFit(Next(r, e))
  {
    hide Next, StopFits, OnlyStops, FlagsFit, BeatsFit;
    var s := Next(r, e);
    StopEventFrame(r, e);
    forall id | id in s.stops ensures StopFits(s, s.stops[id]) {
      if id == e.id {
        OwnStopFits(r, e);
      } else {
        assert id in s.stops.Keys && id in r.stops;
        StopFitsStays(r, s, r.stops[id]);
      }
    }
  }

  lemma NextKeeps(r: Runtime, e: Event)
    requires RuntimeInv(r)
    ensures RuntimeInv(Next(r, e))
  {
    hide Next, FlagsFit, BeatsFit, StopsFit;
    if StopEvent(e) {
      StopEventFits(r, e);
      StopEventKeepsStops(r, e);
    } else {
      if StartEvent(e) {
        StartEventFits(r, e);
      } else if BeatEvent(e) {
        BeatEventFits(r, e);
      } else {
        PollEventFits(r, e);
      }
      WorkEventKeepsStops(r, Next(r, e));
    }
  }

  lemma {:induction false} RunsKeep(r: Runtime, events: seq<Event>)
    requires RuntimeInv(r)
    ensures RuntimeInv(Runs(r, events))
    decreases |events|
  {
    hide Next, RuntimeInv;
    if events != [] {
      NextKeeps(r, events[0]);
      RunsKeep(Next(r, events[0]), events[1..]);
    }
  }

  // ---- what stop promises on every interleaving ----

  // The STOPPING and OFFLINE writes are in flight, and a full stop has ended, only while no
  // poll, execution or availability write is, and when one start has succeeded no heartbeat
  // either. A stop that succeeded then has the runtime stopped.
  lemma StoppingIsQuiet(events: seq<Event>, id: StopId)
    ensures var r := Runs(NEW_RUNTIME, events);
            id in r.stops && PastWaits(r.stops[id]) ==> PollQuiet(r) && (|r.beats| <= 1 ==> Quiet(r))
    ensures var r := Runs(NEW_RUNTIME, events);
            At(r, id, Finished(true)) ==> r.stopped && (|r.beats| <= 1 ==> !r.started)
  {
    hide Next;
    RunsKeep(NEW_RUNTIME, events);
    var r := Runs(NEW_RUNTIME, events);
    if id in r.stops && PastWaits(r.stops[id]) {
      assert StopFits(r, r.stops[id]);
    }
  }

  // No start call is made while another one is in flight.
  predicate NoOverlap(r: Runtime, events: seq<Event>)
    decreases |events|
  {
    events == [] || (!(events[0].StartCalled? && StartInFlight(r)) && NoOverlap(Next(r, events[0]), events[1..]))
  }

  predicate SoleStart(r: Runtime) {
    r.registering + r.goingOnline + |r.beats| <= 1
  }

  lemma StepSoleStart(r: Runtime, e: Event)
    requires FlagsFit(r) && SoleStart(r) && !(e.StartCalled? && StartInFlight(r))
    ensures SoleStart(Next(r, e))
  {
    hide Settled, At, Begin, Settle, Halt;
  }

  lemma {:induction false} RunsSoleStart(r: Runtime, events: seq<Event>)
    requires RuntimeInv(r) && SoleStart(r) && NoOverlap(r, events)
    ensures SoleStart(Runs(r, events))
    decreases |events|
  {
    hide Next, BeatsFit, StopsFit;
    if events != [] {
      NextKeeps(r, events[0]);
      StepSoleStart(r, events[0]);
      RunsSoleStart(Next(r, events[0]), events[1..]);
    }
  }

  // So unless start calls overlap, at most one heartbeat ever exists.
  lemma OneHeartbeat(events: seq<Event>)
    requires NoOverlap(NEW_RUNTIME, events)
    ensures |Runs(NEW_RUNTIME, events).beats| <= 1
  {
    RunsSoleStart(NEW_RUNTIME, events);
  }

  // Two overlapping start calls both register, and then the first heartbeat is lost: it
  // writes on while STOPPING is written.
  lemma OverlappingStarts() returns (events: seq<Event>)
    ensures var r := Runs(NEW_RUNTIME, events); |r.beats| == 2 && At(r, 0, WritingStopping) && !Quiet(r)
  {
    var r1 := RunsPair(NEW_RUNTIME, StartCalled, StartCalled);
    var r2 := RunsPair(r1, Registered(true), Registered(true));
    var r3 := RunsPair(r2, WentOnline(true), WentOnline(true));
    var r4 := RunsPair(r3, HeartbeatTick(0), StopCalled(0));
    var r5 := RunsPair(r4, StopHeartbeatSettled(0), StopPollSettled(0));
    var e1, e2 := [StartCalled, StartCalled], [Registered(true), Registered(true)];
    var e3 := [WentOnline(true), WentOnline(true)];
    var e4, e5 := [HeartbeatTick(0), StopCalled(0)], [StopHeartbeatSettled(0), StopPollSettled(0)];
    events := e1 + (e2 + (e3 + (e4 + e5)));
    assert Runs(NEW_RUNTIME, events) == r5 by {
      hide Next;
      RunsConcat(NEW_RUNTIME, e1, e2 + (e3 + (e4 + e5)));
      RunsConcat(r1, e2, e3 + (e4 + e5));
      RunsConcat(r2, e3, e4 + e5);
      RunsConcat(r3, e4, e5);
    }
    assert r5.beats[0].active == Some(0);
  }

  lemma RunsPair(r: Runtime, a: Event, b: Event) returns (s: Runtime)
    ensures s == Next(Next(r, a), b) == Runs(r, [a, b])
  {
    hide Next;
    s := Next(Next(r, a), b);
    assert [a, b][1..] == [b] && [b][1..] == [];
    assert Runs(Next(r, a), [b]) == Runs(s, []);
  }

  lemma {:induction false} RunsConcat(r: Runtime, xs: seq<Event>, ys: seq<Event>)
    ensures Runs(r, xs + ys) == Runs(Runs(r, xs), ys)
    decreases |xs|
  {
    hide Next;
    if xs == [] {
      assert xs + ys == ys;
    } else {
      assert (xs + ys)[1..] == xs[1..] + ys;
      RunsConcat(Next(r, xs[0]), xs[1..], ys);
    }
  }

  lemma StopLatches(r: Runtime, e: Event)
    ensures (r.stopping ==> Next(r, e).stopping) && (r.stopped ==> Next(r, e).stopped)
    ensures r.stopping || r.stopped ==> Next(r, e).polls == r.polls
  {
    hide Begin, Settle, Settled, At, StopBegins;
  }

  // Once any stop call has begun, no claim is started again.
  lemma {:induction false} NoClaimAfterStop(r: Runtime, events: seq<Event>)
    requires r.stopping || r.stopped
    ensures Runs(r, events).polls == r.polls
    decreases |events|
  {
    hide Next;
    if events != [] {
      StopLatches(r, events[0]);
      NoClaimAfterStop(Next(r, events[0]), events[1..]);
    }
  }

  lemma StopBlocksClaims(r: Runtime, id: StopId, events: seq<Event>)
    requires id !in r.stops
    ensures Runs(Next(r, StopCalled(id)), events).polls == r.polls
  {
    NoClaimAfterStop(Next(r, StopCalled(id)), events);
  }

  // What a stopping runtime may still do: end what it began. A claim it is waiting for is
  // dropped, an execution is not followed by an availability write, and a stopped heartbeat
  // never begins another.
  ghost predicate WindsDown(r: Runtime, s: Runtime) {
    && (s.poll.SettingBusy? ==> r.poll.SettingBusy?)
    && (s.poll.Executing? ==> r.poll.Executing? || r.poll.SettingBusy?)
    && (s.poll.SettingAvailable? ==> r.poll.SettingAvailable?)
    && |r.beats| <= |s.beats|
    && forall k :: 0 <= k < |r.beats| && r.beats[k].stopped ==>
         s.beats[k].stopped && s.beats[k].started == r.beats[k].started
  }

  lemma StepWindsDown(r: Runtime, e: Event)
    requires FlagsFit(r) && r.stopping
    ensures WindsDown(r, Next(r, e))
  {
    hide Settled, At;
  }

  lemma {:induction false} StoppingWindsDown(r: Runtime, events: seq<Event>)
    requires RuntimeInv(r) && r.stopping
    ensures WindsDown(r, Runs(r, events))
    decreases |events|
  {
    hide Next, StopsFit, BeatsFit;
    if events != [] {
      NextKeeps(r, events[0]);
      StopLatches(r, events[0]);
      StepWindsDown(r, events[0]);
      StoppingWindsDown(Next(r, events[0]), events[1..]);
    }
  }
}
