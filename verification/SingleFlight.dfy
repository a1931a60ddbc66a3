// A periodic operation of which at most one runs at a time: the control state shared by
// heartbeat.js and recovery-scheduler.js, and the two controllers themselves.
module SingleFlight {
  import opened Wrappers

  // started counts the runs begun; active names the one in flight, whose promise the
  // source keeps in activeHeartbeat or activeRecovery.
  datatype Flight = Flight(stopped: bool, active: Option<nat>, started: nat)

  const IDLE := Flight(false, None, 0)

  // A timer tick, or a direct call of runNow.
  function Begin(f: Flight): Flight {
    if f.stopped || f.active.Some? then f
    else f.(active := Some(f.started), started := f.started + 1)
  }

  // The run in flight settles, however it ended.
  function Settle(f: Flight): Flight {
    f.(active := None)
  }

  function Halt(f: Flight): Flight {
    f.(stopped := true)
  }

  // What stop awaits: the run that was in flight when it was called has settled.
  predicate Settled(f: Flight, awaited: Option<nat>) {
    awaited.None? || f.active != awaited
  }

  datatype FlightEvent = Ticked | RunSettled | Halted

  function FlightStep(f: Flight, e: FlightEvent): Flight {
    match e
    case Ticked => Begin(f)
    case RunSettled => Settle(f)
    case Halted => Halt(f)
  }

  function FlightRun(f: Flight, events: seq<FlightEvent>): Flight
    decreases |events|
  {
    if events == [] then f else FlightRun(FlightStep(f, events[0]), events[1..])
  }

  ghost predicate FlightFits(f: Flight) {
    f.active.Some? ==> f.active.value < f.started
  }

  // After stop has been called and the run it awaits has settled, nothing is in flight and
  // nothing ever starts again, whatever ticks were already queued.
  lemma {:induction false} StopIsFinal(f: Flight, awaited: Option<nat>, events: seq<FlightEvent>)
    requires FlightFits(f) && f.stopped && (f.active.Some? ==> awaited == f.active)
    ensures FlightRun(f, events).started == f.started && FlightRun(f, events).stopped
    ensures Settled(FlightRun(f, events), awaited) ==> FlightRun(f, events).active.None?
    decreases |events|
  {
    if events != [] {
      StopIsFinal(FlightStep(f, events[0]), awaited, events[1..]);
    }
  }

  // The controller startHeartbeat and startRecoveryScheduler return: a timer that ticks a
  // heartbeat write or a recovery cycle.
  class PeriodicTask {
    var stopped: bool
    var active: Option<nat>
    var begun: nat
    var timerSet: bool

    ghost function View(): Flight
      reads this
    {
      Flight(stopped, active, begun)
    }

    constructor ()
      ensures View() == IDLE && timerSet
    {
      stopped, active, begun, timerSet := false, None, 0, true;
    }

    // Up to the first await: begins says whether a run was begun.
    method RunNow() returns (begins: bool)
      modifies this
      ensures View() == Begin(old(View())) && timerSet == old(timerSet)
      ensures begins <==> old(!stopped && active.None?)
      ensures if begins then active == Some(old(begun)) && begun == old(begun) + 1 && stopped == old(stopped)
              else View() == old(View())
    {
      if stopped || active.Some? {
        return false;
      }
      active, begun := Some(begun), begun + 1;
      return true;
    }

    // The run returned or threw; both reach the finally block.
    method RunEnds()
      modifies this
      ensures View() == Settle(old(View())) && timerSet == old(timerSet)
      ensures active.None? && begun == old(begun) && stopped == old(stopped)
    {
      active := None;
    }

    // Up to the await: awaited is the promise it waits for.
    method Stop() returns (awaited: Option<nat>)
      modifies this
      ensures View() == Halt(old(View())) && timerSet == (old(timerSet) && old(stopped))
      ensures stopped && awaited == active == old(active) && begun == old(begun)
    {
      if !stopped {
        stopped := true;
        timerSet := false;
      }
      return active;
    }
  }
}
