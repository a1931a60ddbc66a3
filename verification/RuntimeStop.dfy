// Exactly when a stop call leaves the runtime quiet for ever.
module RuntimeStop {
  import opened Wrappers
  import opened SingleFlight
  import opened RuntimeMachine

  ghost predicate LeadsTo(r: Runtime, s: Runtime) {
    exists events :: Runs(r, events) == s
  }

  // From the end of this stop call on, nothing of the runtime is in flight.
  ghost predicate QuietOnceStopped(r: Runtime, id: StopId) {
    forall s | LeadsTo(r, s) && id in s.stops && Ended(s.stops[id]) :: Quiet(s)
  }

  // No start call is in flight, no heartbeat that an overlapping start replaced is alive,
  // and the runtime is not one that an earlier stop call, made during start, marked stopped
  // while its heartbeat went on.
  predicate CleanToStop(r: Runtime) {
    && !StartInFlight(r)
    && (forall k :: 0 <= k < |r.beats| - 1 ==> Dead(r.beats[k]))
    && (r.stopped && r.beats != [] ==> Dead(r.beats[|r.beats| - 1]))
  }

  // ---- a clean stop ----

  // How far the stop call has come: only the last heartbeat may still be writing, and only
  // while this call awaits it.
  ghost predicate Closing(r: Runtime, id: StopId) {
    && RuntimeInv(r) && id in r.stops && (r.stopping || r.stopped) && !StartInFlight(r)
    && (forall k :: 0 <= k < |r.beats| - 1 ==> Dead(r.beats[k]))
    && (r.beats != [] ==> r.beats[|r.beats| - 1].stopped)
    && (r.beats != [] && r.beats[|r.beats| - 1].active.Some? ==>
          r.stops[id].AwaitHeartbeat? && r.stops[id].beat == |r.beats| - 1)
  }

  lemma StopCloses(r: Runtime, id: StopId)
    requires RuntimeInv(r) && id !in r.stops && CleanToStop(r)
    ensures Closing(Next(r, StopCalled(id)), id)
  {
    NextKeeps(r, StopCalled(id));
  }

  lemma ClosingStep(r: Runtime, id: StopId, e: Event)
    requires Closing(r, id)
    ensures Closing(Next(r, e), id)
  {
    hide RuntimeInv, Next, StopFits;
    NextKeeps(r, e);
    StopLatches(r, e);
    if StopEvent(e) {
      StopEventFrame(r, e);
      CountsStay(r, e);
      if e.id == id && r.stops[id].AwaitHeartbeat? {
        OwnMove(r, e);
      }
    } else {
      CalmEvent(r, e);
    }
  }

  lemma CountsStay(r: Runtime, e: Event)
    requires StopEvent(e)
    ensures Next(r, e).registering == r.registering && Next(r, e).goingOnline == r.goingOnline
    ensures forall id :: id in r.stops ==> id in Next(r, e).stops
  {
    hide Settled, Begin, Settle, EndPoll, AfterExecution, Halt;
  }

  // The call leaves its first await only when the heartbeat it names has settled.
  lemma OwnMove(r: Runtime, e: Event)
    requires RuntimeInv(r) && StopEvent(e) && e.id in r.stops && r.stops[e.id].AwaitHeartbeat?
    ensures var s := Next(r, e); e.id in s.stops && (s.stops[e.id] != r.stops[e.id] ==>
              r.stops[e.id].beat < |r.beats| && r.beats[r.stops[e.id].beat].active.None?)
  {
    assert StopFits(r, r.stops[e.id]);
    hide RuntimeInv, Begin, Settle, AfterExecution, EndPoll, StopBegins;
  }

  // With no start in flight and none accepted, other events keep the heartbeats.
  lemma CalmEvent(r: Runtime, e: Event)
    requires !StopEvent(e) && !StartInFlight(r) && (r.stopping || r.stopped)
    ensures var s := Next(r, e);
            && !StartInFlight(s) && s.stops == r.stops && |s.beats| == |r.beats|
            && forall k :: 0 <= k < |r.beats| && r.beats[k].stopped ==>
                 s.beats[k].stopped && (s.beats[k].active.Some? ==> s.beats[k].active == r.beats[k].active)
  {
    hide Halt, Settled, StopBegins, StopMoves, At;
  }

  lemma {:induction false} ClosingRun(r: Runtime, id: StopId, events: seq<Event>)
    requires Closing(r, id)
    ensures Closing(Runs(r, events), id)
    decreases |events|
  {
    hide Next, Closing;
    if events != [] {
      ClosingStep(r, id, events[0]);
      ClosingRun(Next(r, events[0]), id, events[1..]);
    }
  }

  lemma ClosedIsQuiet(r: Runtime, id: StopId)
    requires Closing(r, id) && Ended(r.stops[id])
    ensures Quiet(r)
  {
    assert StopFits(r, r.stops[id]);
  }

  // ---- any other stop ----

  predicate Inside(e: Event) {
    !e.StartCalled? && !e.StopCalled?
  }

  // With no further call of start or stop.
  ghost predicate Inner(r: Runtime, s: Runtime) {
    exists events: seq<Event> :: (forall i :: 0 <= i < |events| ==> Inside(events[i])) && Runs(r, events) == s
  }

  lemma InnerLeads(r: Runtime, s: Runtime)
    requires Inner(r, s)
    ensures LeadsTo(r, s)
  {
  }

  lemma InnerItself(r: Runtime)
    ensures Inner(r, r)
  {
    var events: seq<Event> := [];
    assert Runs(r, events) == r;
  }

  lemma Then(r: Runtime, s: Runtime, e: Event) returns (t: Runtime)
    requires Inner(r, s) && Inside(e)
    ensures t == Next(s, e) && Inner(r, t)
  {
    hide Next;
    var events: seq<Event> :| (forall i :: 0 <= i < |events| ==> Inside(events[i])) && Runs(r, events) == s;
    t := Next(s, e);
    RunsConcat(r, events, [e]);
    assert Runs(s, [e]) == Runs(t, [e][1..]);
    assert forall i :: 0 <= i < |events + [e]| ==> Inside((events + [e])[i]);
  }

  // Whatever the poll waits for may return, and while stopping that ends it.
  lemma PollReturns(r: Runtime, s: Runtime) returns (t: Runtime)
    requires Inner(r, s) && s.stopping && (s.activePoll.Some? <==> !s.poll.NoPoll?)
    ensures Inner(r, t) && t == EndPoll(s)
  {
    hide Inner;
    t := Then(r, s, ClaimReturned(NoClaim));
    t := Then(r, t, BusyReturned(false));
    t := Then(r, t, ExecutionReturned(true));
    t := Then(r, t, AvailableReturned(true));
    t := Then(r, t, ReportReturned);
  }

  lemma BeatReturns(r: Runtime, s: Runtime, id: StopId) returns (t: Runtime)
    requires Inner(r, s) && id in s.stops && s.stops[id].AwaitHeartbeat? && s.stops[id].beat < |s.beats|
    ensures Inner(r, t)
    ensures var b := s.stops[id].beat;
            t == s.(beats := s.beats[b := Settle(s.beats[b])], stops := s.stops[id := AwaitPoll(s.activePoll)])
  {
    hide Inner;
    t := Then(r, s, HeartbeatReturned(s.stops[id].beat));
    t := Then(r, t, StopHeartbeatSettled(id));
  }

  // A stop call that awaits its heartbeat can always come to an end, with no other
  // heartbeat, no start call and no other stop call moving meanwhile.
  lemma StopReturns(r: Runtime, s: Runtime, id: StopId) returns (t: Runtime)
    requires Inner(r, s) && FlagsFit(s) && s.stopping
    requires id in s.stops && s.stops[id].AwaitHeartbeat? && s.stops[id].beat < |s.beats|
    ensures Inner(r, t)
    ensures var b := s.stops[id].beat;
            t == EndPoll(s).(beats := s.beats[b := Settle(s.beats[b])], stops := s.stops[id := Finished(false)])
  {
    hide Inner;
    t := BeatReturns(r, s, id);
    t := PollReturns(r, t);
    t := Then(r, t, StopPollSettled(id));
    t := Then(r, t, StoppingReturned(id, false));
  }

  // A start call in flight may still come online and begin a heartbeat.
  lemma StartComesOnline(r: Runtime, s: Runtime) returns (t: Runtime)
    requires Inner(r, s) && StartInFlight(s)
    ensures Inner(r, t) && !Quiet(t) && t.stops == s.stops
  {
    hide Inner;
    t := Then(r, s, Registered(true));
    t := Then(r, t, WentOnline(true));
    t := Then(r, t, HeartbeatTick(|t.beats| - 1));
    assert t.beats[|t.beats| - 1].active.Some?;
  }

  lemma LiveBeatBegins(r: Runtime, s: Runtime, k: nat) returns (t: Runtime)
    requires Inner(r, s) && k < |s.beats| && !Dead(s.beats[k])
    ensures Inner(r, t) && !Quiet(t) && t.stops == s.stops
  {
    hide Inner;
    t := Then(r, s, HeartbeatTick(k));
    assert t.beats[k].active.Some?;
  }

  lemma UncleanStopGoesOn(r: Runtime, id: StopId)
    requires RuntimeInv(r) && id !in r.stops && !CleanToStop(r)
    ensures !QuietOnceStopped(Next(r, StopCalled(id)), id)
  {
    hide LeadsTo, Inner;
    var s := Next(r, StopCalled(id));
    NextKeeps(r, StopCalled(id));
    InnerItself(s);
    var t := s;
    if s.stops[id].AwaitHeartbeat? {
      t := StopReturns(s, s, id);
    }
    assert |t.beats| == |r.beats| && forall k :: 0 <= k < |r.beats| - 1 ==> t.beats[k] == r.beats[k];
    var u: Runtime;
    if StartInFlight(r) {
      u := StartComesOnline(s, t);
    } else if k: nat :| k < |r.beats| - 1 && !Dead(r.beats[k]) {
      u := LiveBeatBegins(s, t, k);
    } else {
      u := LiveBeatBegins(s, t, |r.beats| - 1);
    }
    InnerLeads(s, u);
    assert LeadsTo(s, u) && id in u.stops && Ended(u.stops[id]) && !Quiet(u);
  }

  // At every reachable state, stop leaves the runtime quiet for ever, once it ends, exactly
  // when it was clean to call it.
  lemma StopQuietExact(r: Runtime, id: StopId)
    requires RuntimeInv(r) && id !in r.stops
    ensures QuietOnceStopped(Next(r, StopCalled(id)), id) <==> CleanToStop(r)
  {
    hide RuntimeInv, Next;
    var s := Next(r, StopCalled(id));
    if CleanToStop(r) {
      StopCloses(r, id);
      forall t | LeadsTo(s, t) && id in t.stops && Ended(t.stops[id]) ensures Quiet(t) {
        var events :| Runs(s, events) == t;
        ClosingRun(s, id, events);
        ClosedIsQuiet(t, id);
      }
    } else {
      UncleanStopGoesOn(r, id);
    }
  }

  // While start calls do not overlap that leaves two cases: start is in flight, or it was
  // when an earlier stop call came.
  lemma SoleStartStop(r: Runtime)
    requires RuntimeInv(r) && SoleStart(r)
    ensures CleanToStop(r) <==> !StartInFlight(r) && !(r.started && r.stopped && !r.stopping)
  {
  }
}
