// What a runtime does while it runs, counted on the events of a whole run: every claim is
// executed or accounted for, and every start and stop passes through its writes.
module RuntimeWork {
  import opened Wrappers
  import opened SingleFlight
  import opened RuntimeMachine
  import opened RuntimeStop

  type Happening = (Runtime, Event) -> bool

  // How often something happens on a run.
  function Count(what: Happening, r: Runtime, events: seq<Event>): nat
    decreases |events|
  {
    if events == [] then 0
    else (if what(r, events[0]) then 1 else 0) + Count(what, Next(r, events[0]), events[1..])
  }

  // ---- one polling cycle ----

  // A poll of a running runtime with none in flight.
  predicate PollDue(r: Runtime, e: Event) {
    e.PollCalled? && r.started && !r.stopping && !r.stopped && r.activePoll.None?
  }

  predicate ClaimGot(r: Runtime, e: Event) {
    r.poll.Claiming? && e == ClaimReturned(GotClaim)
  }

  predicate ClaimDropped(r: Runtime, e: Event) {
    ClaimGot(r, e) && r.stopping
  }

  predicate BusyOk(r: Runtime, e: Event) {
    r.poll.SettingBusy? && e == BusyReturned(true)
  }

  predicate BusyFailed(r: Runtime, e: Event) {
    r.poll.SettingBusy? && e == BusyReturned(false)
  }

  predicate ClaimFailed(r: Runtime, e: Event) {
    r.poll.Claiming? && e == ClaimReturned(ClaimThrew)
  }

  // The execution has returned, or its error has been reported.
  predicate ExecutionOver(r: Runtime, e: Event) {
    (r.poll.Executing? && e == ExecutionReturned(true)) || (r.poll.ReportingExecution? && e.ReportReturned?)
  }

  predicate OverWhileRunning(r: Runtime, e: Event) {
    ExecutionOver(r, e) && !r.stopping && !r.stopped
  }

  predicate OverWhileStopping(r: Runtime, e: Event) {
    ExecutionOver(r, e) && (r.stopping || r.stopped)
  }

  predicate PollOver(r: Runtime, e: Event) {
    || (r.poll.Claiming? && (e == ClaimReturned(NoClaim) || (e == ClaimReturned(GotClaim) && r.stopping)))
    || OverWhileStopping(r, e)
    || (r.poll.SettingAvailable? && e == AvailableReturned(true))
    || ((r.poll.ReportingAvailability? || r.poll.ReportingPoll?) && e.ReportReturned?)
  }

  predicate AvailableOver(r: Runtime, e: Event) {
    r.poll.SettingAvailable? && e.AvailableReturned?
  }

  predicate BeginsClaim(r: Runtime, e: Event) {
    !r.poll.Claiming? && Next(r, e).poll.Claiming?
  }

  predicate BeginsBusyWrite(r: Runtime, e: Event) {
    !r.poll.SettingBusy? && Next(r, e).poll.SettingBusy?
  }

  predicate BeginsExecution(r: Runtime, e: Event) {
    !r.poll.Executing? && Next(r, e).poll.Executing?
  }

  predicate BeginsAvailableWrite(r: Runtime, e: Event) {
    !r.poll.SettingAvailable? && Next(r, e).poll.SettingAvailable?
  }

  predicate Reporting(r: Runtime) {
    r.poll.ReportingPoll? || r.poll.ReportingExecution? || r.poll.ReportingAvailability?
  }

  predicate BeginsReport(r: Runtime, e: Event) {
    !Reporting(r) && Reporting(Next(r, e))
  }

  predicate WorkFailed(r: Runtime, e: Event) {
    || ClaimFailed(r, e) || BusyFailed(r, e)
    || (r.poll.Executing? && e == ExecutionReturned(false))
    || (r.poll.SettingAvailable? && e == AvailableReturned(false))
  }

  predicate PollEvent(e: Event) {
    !StartEvent(e) && !BeatEvent(e) && !StopEvent(e)
  }

  lemma OtherEvent(r: Runtime, e: Event)
    requires !PollEvent(e)
    ensures Next(r, e).poll == r.poll && Next(r, e).polls == r.polls && Next(r, e).activePoll == r.activePoll
  {
    hide Begin, Settle, Halt, Settled, At, EndPoll, AfterExecution;
    if StartEvent(e) {
    } else if BeatEvent(e) {
    } else {
      hide OnlineEnds;
    }
  }

  lemma PollWork(r: Runtime, e: Event)
    requires FlagsFit(r) && PollEvent(e)
    ensures Worked(r, e, Next(r, e))
  {
    hide Begin, Settle, Halt, Settled, FlightFits, At, StopMoves, StopBegins, OnlineEnds;
    if e.PollCalled? || e.ClaimReturned? || e.BusyReturned? {
    } else if e.ExecutionReturned? {
    } else if e.AvailableReturned? {
    }
  }

  // What an event begins and what it ends.
  ghost predicate Worked(r: Runtime, e: Event, s: Runtime) {
    && (!r.poll.Claiming? && s.poll.Claiming? <==> PollDue(r, e))
    && s.polls == (if PollDue(r, e) then r.polls + 1 else r.polls)
    && (!r.poll.SettingBusy? && s.poll.SettingBusy? <==> ClaimGot(r, e) && !r.stopping)
    && (r.poll.SettingBusy? && !s.poll.SettingBusy? <==> BusyOk(r, e) || BusyFailed(r, e))
    && (!r.poll.Executing? && s.poll.Executing? <==> BusyOk(r, e))
    && (!InExecution(r) && InExecution(s) <==> BusyOk(r, e))
    && (InExecution(r) && !InExecution(s) <==> ExecutionOver(r, e))
    && (!r.poll.SettingAvailable? && s.poll.SettingAvailable? <==> OverWhileRunning(r, e))
    && (r.poll.SettingAvailable? && !s.poll.SettingAvailable? <==> AvailableOver(r, e))
    && (!Reporting(r) && Reporting(s) <==> WorkFailed(r, e))
    && (r.activePoll.None? && s.activePoll.Some? <==> PollDue(r, e))
    && (r.activePoll.Some? && s.activePoll.None? <==> PollOver(r, e))
  }

  lemma WorkStep(r: Runtime, e: Event)
    requires FlagsFit(r)
    ensures Worked(r, e, Next(r, e))
  {
    hide Next, FlagsFit;
    if PollEvent(e) {
      PollWork(r, e);
    } else {
      OtherEvent(r, e);
    }
  }

  predicate InExecution(r: Runtime) {
    r.poll.Executing? || r.poll.ReportingExecution?
  }

  function One(b: bool): nat {
    if b then 1 else 0
  }

  ghost predicate Flows(r: Runtime, events: seq<Event>) {
    && Count(BeginsClaim, r, events) == Count(PollDue, r, events)
    && Count(ClaimGot, r, events) == Count(ClaimDropped, r, events) + Count(BeginsBusyWrite, r, events)
    && Count(BeginsExecution, r, events) == Count(BusyOk, r, events)
    && Count(BeginsAvailableWrite, r, events) == Count(OverWhileRunning, r, events)
    && Count(ExecutionOver, r, events) == Count(OverWhileRunning, r, events) + Count(OverWhileStopping, r, events)
    && Count(BeginsReport, r, events) == Count(WorkFailed, r, events)
  }

  // What was begun is over or still in flight.
  ghost predicate Conserved(r: Runtime, events: seq<Event>) {
    var s := Runs(r, events);
    && s.polls == r.polls + Count(PollDue, r, events)
    && One(r.activePoll.Some?) + Count(PollDue, r, events) == Count(PollOver, r, events) + One(s.activePoll.Some?)
    && One(r.poll.SettingBusy?) + Count(BeginsBusyWrite, r, events) ==
       Count(BusyOk, r, events) + Count(BusyFailed, r, events) + One(s.poll.SettingBusy?)
    && One(InExecution(r)) + Count(BeginsExecution, r, events) == Count(ExecutionOver, r, events) + One(InExecution(s))
    && One(r.poll.SettingAvailable?) + Count(BeginsAvailableWrite, r, events) ==
       Count(AvailableOver, r, events) + One(s.poll.SettingAvailable?)
  }

  lemma {:induction false} WorkFlows(r: Runtime, events: seq<Event>)
    requires RuntimeInv(r)
    ensures Flows(r, events)
    decreases |events|
  {
    hide Next, RuntimeInv, PollOver, PollDue, ExecutionOver, AvailableOver, WorkFailed, InExecution, Reporting;
    if events != [] {
      assert FlagsFit(r) by { FlagsOf(r); }
      WorkStep(r, events[0]);
      NextKeeps(r, events[0]);
      WorkFlows(Next(r, events[0]), events[1..]);
    }
  }

  lemma FlagsOf(r: Runtime)
    requires RuntimeInv(r)
    ensures FlagsFit(r)
  {
  }

  lemma {:induction false} WorkConserved(r: Runtime, events: seq<Event>)
    requires RuntimeInv(r)
    ensures Conserved(r, events)
    decreases |events|
  {
    hide Next, RuntimeInv, PollOver, PollDue, ExecutionOver, AvailableOver, WorkFailed, InExecution, Reporting;
    if events != [] {
      assert FlagsFit(r) by { FlagsOf(r); }
      WorkStep(r, events[0]);
      NextKeeps(r, events[0]);
      WorkConserved(Next(r, events[0]), events[1..]);
    }
  }

  // On every run: of the claims got, those that arrive while stopping are dropped, and
  // every other one is executed unless its BUSY write failed or is still in flight. Each
  // execution ends once, and then writes ONLINE exactly when the runtime is not stopping.
  lemma ClaimsAccounted(events: seq<Event>)
    ensures var r, s := NEW_RUNTIME, Runs(NEW_RUNTIME, events);
            && Count(BeginsClaim, r, events) == Count(PollDue, r, events) == s.polls
            && Count(ClaimGot, r, events) == Count(ClaimDropped, r, events) + Count(BeginsBusyWrite, r, events)
            && Count(BeginsBusyWrite, r, events) ==
               Count(BeginsExecution, r, events) + Count(BusyFailed, r, events) + One(s.poll.SettingBusy?)
            && Count(BeginsExecution, r, events) == Count(ExecutionOver, r, events) + One(InExecution(s))
            && Count(ExecutionOver, r, events) ==
               Count(BeginsAvailableWrite, r, events) + Count(OverWhileStopping, r, events)
            && Count(BeginsReport, r, events) == Count(WorkFailed, r, events)
  {
    WorkFlows(NEW_RUNTIME, events);
    WorkConserved(NEW_RUNTIME, events);
    hide Next, Runs, Count;
  }

  // ---- a running runtime keeps working ----

  const CYCLE: seq<Event> :=
    [PollCalled, ClaimReturned(GotClaim), BusyReturned(true), ExecutionReturned(true), AvailableReturned(true)]

  predicate Idle(r: Runtime) {
    r.started && !r.stopping && !r.stopped && r.poll.NoPoll? && r.activePoll.None?
  }

  // One claim, one BUSY write, one execution, one ONLINE write, and ready to claim again.
  lemma FullCycle(r: Runtime)
    requires Idle(r)
    ensures Runs(r, CYCLE) == r.(polls := r.polls + 1)
    ensures Count(ClaimGot, r, CYCLE) == Count(BeginsBusyWrite, r, CYCLE) == 1
    ensures Count(BeginsExecution, r, CYCLE) == Count(BeginsAvailableWrite, r, CYCLE) == 1
  {
    var r1, r2, r3, r4 := CycleStates(r);
    CycleUnrolled(ClaimGot, r, r1, r2, r3, r4);
    CycleUnrolled(BeginsBusyWrite, r, r1, r2, r3, r4);
    CycleUnrolled(BeginsExecution, r, r1, r2, r3, r4);
    CycleUnrolled(BeginsAvailableWrite, r, r1, r2, r3, r4);
    hide Next, Count, Runs;
  }

  lemma CycleStates(r: Runtime) returns (r1: Runtime, r2: Runtime, r3: Runtime, r4: Runtime)
    requires Idle(r)
    ensures r1 == Next(r, PollCalled) && r1.poll.Claiming?
    ensures r2 == Next(r1, ClaimReturned(GotClaim)) && r2.poll.SettingBusy?
    ensures r3 == Next(r2, BusyReturned(true)) && r3.poll.Executing?
    ensures r4 == Next(r3, ExecutionReturned(true)) && r4.poll.SettingAvailable?
    ensures Next(r4, AvailableReturned(true)) == r.(polls := r.polls + 1)
  {
    r1 := Next(r, PollCalled);
    r2 := Next(r1, ClaimReturned(GotClaim));
    r3 := Next(r2, BusyReturned(true));
    r4 := Next(r3, ExecutionReturned(true));
  }

  lemma CycleUnrolled(what: Happening, r: Runtime, r1: Runtime, r2: Runtime, r3: Runtime, r4: Runtime)
    requires r1 == Next(r, CYCLE[0]) && r2 == Next(r1, CYCLE[1]) && r3 == Next(r2, CYCLE[2]) && r4 == Next(r3, CYCLE[3])
    ensures Runs(r, CYCLE) == Next(r4, CYCLE[4])
    ensures Count(what, r, CYCLE) == One(what(r, CYCLE[0])) + One(what(r1, CYCLE[1])) + One(what(r2, CYCLE[2])) +
                                     One(what(r3, CYCLE[3])) + One(what(r4, CYCLE[4]))
  {
    hide Next;
    var t1, t2, t3, t4 := CYCLE[1..], CYCLE[2..], CYCLE[3..], CYCLE[4..];
    assert t1[1..] == t2 && t2[1..] == t3 && t3[1..] == t4 && t4[1..] == [];
    assert Runs(r4, t4) == Next(r4, CYCLE[4]) && Count(what, r4, t4) == One(what(r4, CYCLE[4]));
    assert Runs(r3, t3) == Runs(r4, t4);
    assert Runs(r2, t2) == Runs(r3, t3);
    assert Count(what, r3, t3) == One(what(r3, CYCLE[3])) + Count(what, r4, t4);
    assert Count(what, r2, t2) == One(what(r2, CYCLE[2])) + Count(what, r3, t3);
  }

  function Cycles(n: nat): seq<Event> {
    if n == 0 then [] else CYCLE + Cycles(n - 1)
  }

  lemma {:induction false} CountConcat(what: Happening, r: Runtime, xs: seq<Event>, ys: seq<Event>)
    ensures Count(what, r, xs + ys) == Count(what, r, xs) + Count(what, Runs(r, xs), ys)
    decreases |xs|
  {
    hide Next;
    if xs == [] {
      assert xs + ys == ys;
    } else {
      assert (xs + ys)[1..] == xs[1..] + ys;
      CountConcat(what, Next(r, xs[0]), xs[1..], ys);
    }
  }

  lemma {:induction false} KeepsWorking(r: Runtime, n: nat)
    requires Idle(r)
    ensures Runs(r, Cycles(n)) == r.(polls := r.polls + n)
    ensures Count(BeginsExecution, r, Cycles(n)) == n
    decreases n
  {
    hide Next;
    if n > 0 {
      FullCycle(r);
      KeepsWorking(r.(polls := r.polls + 1), n - 1);
      RunsConcat(r, CYCLE, Cycles(n - 1));
      CountConcat(BeginsExecution, r, CYCLE, Cycles(n - 1));
    }
  }

  const UP: seq<Event> := [StartCalled, Registered(true), WentOnline(true)]

  // So some run from the start executes any number of jobs, one after another.
  lemma ExecutesAnyNumber(n: nat)
    ensures Count(BeginsExecution, NEW_RUNTIME, UP + Cycles(n)) == n
    ensures Idle(Runs(NEW_RUNTIME, UP + Cycles(n)))
  {
    var r1 := Next(NEW_RUNTIME, UP[0]);
    var r2 := Next(r1, UP[1]);
    var r3 := Next(r2, UP[2]);
    assert UP[1..][1..] == UP[2..] && UP[2..][1..] == [];
    assert Idle(r3);
    assert !BeginsExecution(NEW_RUNTIME, UP[0]) && !BeginsExecution(r1, UP[1]) && !BeginsExecution(r2, UP[2]);
    hide Next, BeginsExecution;
    assert Runs(r1, UP[1..]) == Runs(r2, UP[2..]) == r3;
    assert Count(BeginsExecution, r1, UP[1..]) == Count(BeginsExecution, r2, UP[2..]) == 0;
    RunsConcat(NEW_RUNTIME, UP, Cycles(n));
    CountConcat(BeginsExecution, NEW_RUNTIME, UP, Cycles(n));
    KeepsWorking(r3, n);
  }

  // ---- starts and stops pass through their writes ----

  predicate StartTaken(r: Runtime, e: Event) {
    e.StartCalled? && !r.started && !r.stopping && !r.stopped
  }

  predicate RegistrationOk(r: Runtime, e: Event) {
    r.registering > 0 && e == Registered(true)
  }

  predicate RegistrationFailed(r: Runtime, e: Event) {
    r.registering > 0 && e == Registered(false)
  }

  predicate OnlineOk(r: Runtime, e: Event) {
    r.goingOnline > 0 && e == WentOnline(true)
  }

  predicate OnlineFailed(r: Runtime, e: Event) {
    r.goingOnline > 0 && e == WentOnline(false)
  }

  // Polls and heartbeats leave everything else alone.
  lemma WorkFrame(r: Runtime, e: Event)
    requires !StartEvent(e) && !StopEvent(e)
    ensures var s := Next(r, e);
            s == r.(poll := s.poll, activePoll := s.activePoll, polls := s.polls, beats := s.beats) &&
            |s.beats| == |r.beats|
  {
    if BeatEvent(e) {
      hide EndPoll, AfterExecution, Begin, Settle, Settled, At, StopBegins, OnlineEnds, StopMoves;
    } else {
      PollFrame(r, e);
    }
    hide Next;
  }

  lemma PollFrame(r: Runtime, e: Event)
    requires PollEvent(e)
    ensures var s := Next(r, e); s == r.(poll := s.poll, activePoll := s.activePoll, polls := s.polls)
  {
    hide Begin, Settle, Settled, At, StopBegins, OnlineEnds, StopMoves;
  }

  lemma StartStep(r: Runtime, e: Event)
    ensures var s := Next(r, e);
            && r.registering + One(StartTaken(r, e)) ==
               s.registering + One(RegistrationOk(r, e)) + One(RegistrationFailed(r, e))
            && r.goingOnline + One(RegistrationOk(r, e)) ==
               s.goingOnline + One(OnlineOk(r, e)) + One(OnlineFailed(r, e))
            && |s.beats| == |r.beats| + One(OnlineOk(r, e))
  {
    hide Begin, Settle, Halt, Settled, At, EndPoll, AfterExecution;
    if StartEvent(e) {
    } else if StopEvent(e) {
      hide OnlineEnds;
    } else {
      WorkFrame(r, e);
      hide StopBegins, OnlineEnds, StopMoves;
    }
  }

  // Every accepted start registers once, goes ONLINE once if that succeeded, and makes one
  // heartbeat if that succeeded too.
  lemma {:induction false} StartsAccounted(r: Runtime, events: seq<Event>)
    ensures var s := Runs(r, events);
            && r.registering + Count(StartTaken, r, events) ==
               s.registering + Count(RegistrationOk, r, events) + Count(RegistrationFailed, r, events)
            && r.goingOnline + Count(RegistrationOk, r, events) ==
               s.goingOnline + Count(OnlineOk, r, events) + Count(OnlineFailed, r, events)
            && |s.beats| == |r.beats| + Count(OnlineOk, r, events)
    decreases |events|
  {
    hide Next, StartTaken, RegistrationOk, RegistrationFailed, OnlineOk, OnlineFailed;
    if events != [] {
      StartStep(r, events[0]);
      StartsAccounted(Next(r, events[0]), events[1..]);
    }
  }

  function StoppingOk(id: StopId): Happening {
    (r: Runtime, e: Event) => At(r, id, WritingStopping) && e == StoppingReturned(id, true)
  }

  function OfflineOk(id: StopId): Happening {
    (r: Runtime, e: Event) => At(r, id, WritingOffline) && e == OfflineReturned(id, true)
  }

  // The stop call has had STOPPING written, and has had OFFLINE written.
  predicate StoppingWritten(r: Runtime, id: StopId) {
    At(r, id, WritingOffline) || At(r, id, Finished(true))
  }

  predicate StopOver(r: Runtime, id: StopId) {
    id in r.stops && (r.stops[id].WritingOffline? || r.stops[id].Finished?)
  }

  // How stop call id moves on.
  ghost predicate StopMoved(r: Runtime, id: StopId, e: Event, s: Runtime) {
    && (StoppingWritten(s, id) <==> StoppingOk(id)(r, e) || (StoppingWritten(r, id) && !OfflineLost(r, id, e)))
    && (StopOver(r, id) ==> StopOver(s, id) && !StoppingOk(id)(r, e))
    && (StoppingOk(id)(r, e) ==> StopOver(s, id))
    && (At(s, id, Finished(true)) <==> OfflineOk(id)(r, e) || At(r, id, Finished(true)))
    && (OfflineOk(id)(r, e) ==> !At(r, id, Finished(true)))
  }

  lemma OwnStopStep(r: Runtime, e: Event)
    requires StopEvent(e)
    ensures StopMoved(r, e.id, e, Next(r, e))
  {
    hide Begin, Settle, Halt, Settled, EndPoll, AfterExecution, OnlineEnds;
  }

  lemma StopUnmoved(r: Runtime, id: StopId, e: Event, s: Runtime)
    requires StopEvent(e) ==> e.id != id
    requires (id in s.stops <==> id in r.stops) && (id in r.stops ==> s.stops[id] == r.stops[id])
    ensures StopMoved(r, id, e, s)
  {
  }

  lemma StopStep(r: Runtime, id: StopId, e: Event)
    ensures StopMoved(r, id, e, Next(r, e))
  {
    hide StopMoved, Begin, Settle, Halt, Settled, At, EndPoll, AfterExecution;
    if StopEvent(e) {
      hide Next;
      if e.id == id {
        OwnStopStep(r, e);
      } else {
        StopEventFrame(r, e);
        assert id in Next(r, e).stops <==> id in Next(r, e).stops.Keys;
        StopUnmoved(r, id, e, Next(r, e));
      }
    } else {
      if !StartEvent(e) {
        WorkFrame(r, e);
      }
      StopUnmoved(r, id, e, Next(r, e));
    }
  }

  predicate OfflineLost(r: Runtime, id: StopId, e: Event) {
    At(r, id, WritingOffline) && e == OfflineReturned(id, false)
  }

  lemma {:induction false} StopCounts(r: Runtime, id: StopId, events: seq<Event>)
    ensures var s := Runs(r, events);
            && Count(StoppingOk(id), r, events) + One(StoppingWritten(r, id)) >= One(StoppingWritten(s, id))
            && Count(StoppingOk(id), r, events) + One(StopOver(r, id)) <= 1
            && Count(OfflineOk(id), r, events) + One(At(r, id, Finished(true))) == One(At(s, id, Finished(true)))
    decreases |events|
  {
    hide Next, At, StopOver, StoppingWritten, StoppingOk, OfflineOk;
    if events != [] {
      StopStep(r, id, events[0]);
      StopCounts(Next(r, events[0]), id, events[1..]);
    }
  }

  // A stop call that succeeded has written STOPPING once and then OFFLINE once.
  lemma StopWritesBoth(events: seq<Event>, id: StopId)
    requires At(Runs(NEW_RUNTIME, events), id, Finished(true))
    ensures Count(StoppingOk(id), NEW_RUNTIME, events) == 1
    ensures Count(OfflineOk(id), NEW_RUNTIME, events) == 1
  {
    hide Next, Runs, Count;
    StopCounts(NEW_RUNTIME, id, events);
  }

  // And a stop call of a started runtime can always come to that end, leaving it stopped.
  lemma StopCanSucceed(r: Runtime, id: StopId) returns (t: Runtime)
    requires RuntimeInv(r) && id !in r.stops && r.started && !r.stopped
    ensures Inner(Next(r, StopCalled(id)), t)
    ensures At(t, id, Finished(true)) && t.stopped && !t.started && !t.pollTimer
  {
    hide Inner;
    var s := Next(r, StopCalled(id));
    FlagsOf(r);
    NextKeeps(r, StopCalled(id));
    FlagsOf(s);
    hide RuntimeInv;
    InnerItself(s);
    t := BeatReturns(s, s, id);
    t := PollReturns(s, t);
    t := WritesReturn(s, t, id);
  }

  lemma WritesReturn(r: Runtime, s: Runtime, id: StopId) returns (t: Runtime)
    requires Inner(r, s) && id in s.stops && s.stops[id].AwaitPoll? && s.activePoll.None?
    ensures Inner(r, t)
    ensures t == s.(stops := s.stops[id := Finished(true)], stopped := true, started := false)
  {
    hide Inner;
    t := RuntimeStop.Then(r, s, StopPollSettled(id));
    t := RuntimeStop.Then(r, t, StoppingReturned(id, true));
    t := RuntimeStop.Then(r, t, OfflineReturned(id, true));
  }

  // ---- the polling timer ----

  ghost predicate TimerFits(r: Runtime) {
    r.pollTimer <==> r.beats != [] && !r.stopping
  }

  lemma TimerStep(r: Runtime, e: Event)
    requires FlagsFit(r) && SoleStart(r) && TimerFits(r)
    ensures TimerFits(Next(r, e))
  {
    hide Begin, Settle, Halt, Settled, At, EndPoll, AfterExecution;
    if StartEvent(e) {
    } else if StopEvent(e) {
      hide OnlineEnds;
    } else {
      WorkFrame(r, e);
      hide StopBegins, OnlineEnds, StopMoves;
    }
  }

  lemma {:induction false} TimerRuns(r: Runtime, events: seq<Event>)
    requires RuntimeInv(r) && SoleStart(r) && TimerFits(r) && NoOverlap(r, events)
    ensures TimerFits(Runs(r, events))
    decreases |events|
  {
    hide Next, RuntimeInv, TimerFits, SoleStart;
    if events != [] {
      FlagsOf(r);
      TimerStep(r, events[0]);
      NextKeeps(r, events[0]);
      StepSoleStart(r, events[0]);
      TimerRuns(Next(r, events[0]), events[1..]);
    }
  }

  // Unless starts overlap, the polling timer is set exactly from the end of start to the
  // first stop call that goes through.
  lemma PollTimerSet(events: seq<Event>)
    requires NoOverlap(NEW_RUNTIME, events)
    ensures var r := Runs(NEW_RUNTIME, events); r.pollTimer <==> r.beats != [] && !r.stopping
  {
    TimerRuns(NEW_RUNTIME, events);
  }
}
