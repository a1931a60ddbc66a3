// The controller createWorkerRuntime returns: one method for each synchronous stretch
// between awaits, each meeting its event of RuntimeMachine. A method that resumes after an
// await requires that the call still waits there.
module RuntimeController {
  import opened Wrappers
  import opened SingleFlight
  import opened RuntimeMachine

  ghost function Views(tasks: seq<PeriodicTask>): (fs: seq<Flight>)
    reads tasks
    ensures |fs| == |tasks| && forall k :: 0 <= k < |tasks| ==> fs[k] == tasks[k].View()
  {
    if tasks == [] then [] else Views(tasks[..|tasks| - 1]) + [tasks[|tasks| - 1].View()]
  }

  // The event that answers what the polling cycle awaits.
  predicate Answers(pc: PollPc, e: Event) {
    match pc
    case NoPoll => false
    case Claiming => e.ClaimReturned?
    case SettingBusy => e.BusyReturned?
    case Executing => e.ExecutionReturned?
    case SettingAvailable => e.AvailableReturned?
    case _ => e.ReportReturned?
  }

  class WorkerRuntime {
    var pollingTimer: bool
    var heartbeat: PeriodicTask?
    var started: bool
    var stopping: bool
    var stopped: bool
    var activePoll: Option<nat>
    var polls: nat
    // Where each pending call waits.
    var polling: PollPc
    var stops: map<StopId, StopPc>
    ghost var registering: nat
    ghost var goingOnline: nat
    // Every heartbeat whose timer was created; the variable heartbeat names the last.
    var beats: seq<PeriodicTask>

    ghost predicate Valid()
      reads this
    {
      && (forall i, k :: 0 <= i < k < |beats| ==> beats[i] != beats[k])
      && heartbeat == if beats == [] then null else beats[|beats| - 1]
    }

    ghost function View(): Runtime
      reads this, beats
    {
      Runtime(registering, goingOnline, started, stopping, stopped, pollingTimer, polling, activePoll, polls,
              Views(beats), stops)
    }

    constructor ()
      ensures Valid() && View() == NEW_RUNTIME && beats == []
    {
      pollingTimer, heartbeat, beats := false, null, [];
      started, stopping, stopped := false, false, false;
      activePoll, polls, polling, stops, registering, goingOnline := None, 0, NoPoll, map[], 0, 0;
    }

    // registers: the call goes on to register a worker. Otherwise it returns the worker of
    // a started runtime, or throws.
    method Start() returns (registers: bool)
      requires Valid()
      modifies this
      ensures Valid() && View() == Next(old(View()), StartCalled) && beats == old(beats)
      ensures registers <==> !StartRefused(old(View()))
    {
      if started {
        return false;
      }
      if stopping || stopped {
        return false;
      }
      registering := registering + 1;
      return true;
    }

    method RegistrationReturned(ok: bool)
      requires Valid() && registering > 0
      modifies this
      ensures Valid() && View() == Next(old(View()), Registered(ok)) && beats == old(beats)
    {
      registering, goingOnline := registering - 1, goingOnline + if ok then 1 else 0;
    }

    // A second start call that gets here replaces the first one's heartbeat unstopped.
    method OnlineReturned(ok: bool)
      requires Valid() && goingOnline > 0
      modifies this
      ensures Valid() && View() == OnlineEnds(old(View()), ok)
      ensures if ok then |beats| == |old(beats)| + 1 && beats[..|old(beats)|] == old(beats) && fresh(heartbeat)
              else beats == old(beats)
    {
      hide Views;
      goingOnline := goingOnline - 1;
      if ok {
        StartHeartbeat();
        pollingTimer, started := true, true;
      }
    }

    method StartHeartbeat()
      requires Valid()
      modifies this`heartbeat, this`beats
      ensures Valid() && fresh(heartbeat) && |beats| == |old(beats)| + 1 && beats[..|old(beats)|] == old(beats)
      ensures Views(beats) == old(Views(beats)) + [IDLE]
    {
      heartbeat := new PeriodicTask();
      beats := beats + [heartbeat];
      assert beats[..|beats| - 1] == old(beats);
    }

    // claims: a claim was started.
    method PollNow() returns (claims: bool)
      requires Valid()
      modifies this
      ensures Valid() && View() == Next(old(View()), PollCalled) && beats == old(beats)
      ensures claims <==> View().polls == old(View()).polls + 1
      ensures claims <==> old(started && !stopping && !stopped && activePoll.None?)
    {
      if !started || stopping || stopped || activePoll.Some? {
        return false;
      }
      polling, activePoll, polls := Claiming, Some(polls), polls + 1;
      return true;
    }

    method PollEnds()
      requires Valid()
      modifies this
      ensures Valid() && View() == EndPoll(old(View())) && beats == old(beats)
    {
      polling, activePoll := NoPoll, None;
    }

    // The finally block of the execution.
    method ExecutionEnds()
      requires Valid()
      modifies this
      ensures Valid() && View() == AfterExecution(old(View())) && beats == old(beats)
    {
      if !stopping && !stopped {
        polling := SettingAvailable;
      } else {
        PollEnds();
      }
    }

    // The cycle goes on with the answer it awaits.
    method PollResumes(e: Event)
      requires Valid() && Answers(polling, e)
      modifies this
      ensures Valid() && View() == Next(old(View()), e) && beats == old(beats)
    {
      hide Views, Settled, StopBegins, OnlineEnds, Begin, Settle, At, StopMoves;
      match e {
        case ClaimReturned(result) =>
          if result.ClaimThrew? {
            polling := ReportingPoll;
          } else if result.NoClaim? || stopping {
            PollEnds();
          } else {
            polling := SettingBusy;
          }
        case BusyReturned(ok) =>
          polling := if ok then Executing else ReportingPoll;
        case ExecutionReturned(ok) =>
          if ok {
            ExecutionEnds();
          } else {
            polling := ReportingExecution;
          }
        case AvailableReturned(ok) =>
          if ok {
            PollEnds();
          } else {
            polling := ReportingAvailability;
          }
        case ReportReturned =>
          if polling.ReportingExecution? {
            ExecutionEnds();
          } else {
            PollEnds();
          }
      }
    }

    // The timer of a heartbeat, replaced or not.
    method TickHeartbeat(beat: PeriodicTask, ghost k: nat) returns (writes: bool)
      requires Valid() && k < |beats| && beat == beats[k]
      modifies beat
      ensures Valid() && View() == Next(old(View()), HeartbeatTick(k))
      ensures writes ==> old(!beat.stopped)
    {
      writes := beat.RunNow();
    }

    method HeartbeatWritten(beat: PeriodicTask, ghost k: nat)
      requires Valid() && k < |beats| && beat == beats[k]
      modifies beat
      ensures Valid() && View() == Next(old(View()), HeartbeatReturned(k))
    {
      beat.RunEnds();
    }

    // waits: the call goes on to await the heartbeat. Otherwise it has returned.
    method Stop(id: StopId) returns (waits: bool)
      requires Valid() && FlagsFit(View()) && id !in stops
      modifies this, heartbeat
      ensures Valid() && View() == Next(old(View()), StopCalled(id)) && beats == old(beats)
      ensures waits <==> old(started && !stopped)
      ensures !waits ==> stopped
    {
      hide Views;
      if stopped {
        stops := stops[id := Returned];
        return false;
      }
      if !started {
        stopped, stops := true, stops[id := Returned];
        return false;
      }
      BeginStopping(id);
      return true;
    }

    method BeginStopping(id: StopId)
      requires Valid() && beats != [] && started && !stopped
      modifies this, heartbeat
      ensures Valid() && View() == StopBegins(old(View()), id) && beats == old(beats)
      ensures id in stops && stopped == old(stopped)
    {
      hide Views;
      stopping, pollingTimer := true, false;
      var awaited := StopHeartbeat();
      stops := stops[id := AwaitHeartbeat(|beats| - 1, awaited)];
    }

    method StopHeartbeat() returns (awaited: Option<nat>)
      requires Valid() && beats != []
      modifies heartbeat
      ensures var last := |beats| - 1;
              awaited == old(Views(beats))[last].active &&
              Views(beats) == old(Views(beats))[last := Halt(old(Views(beats))[last])]
    {
      awaited := heartbeat.Stop();
    }

    method HeartbeatStopped(id: StopId)
      requires Valid() && id in stops && stops[id].AwaitHeartbeat? && stops[id].beat < |beats|
      requires Settled(beats[stops[id].beat].View(), stops[id].run)
      modifies this
      ensures Valid() && View() == Next(old(View()), StopHeartbeatSettled(id)) && beats == old(beats)
    {
      stops := stops[id := AwaitPoll(activePoll)];
    }

    method PollDrained(id: StopId)
      requires Valid() && id in stops && stops[id].AwaitPoll?
      requires stops[id].run.None? || activePoll != stops[id].run
      modifies this
      ensures Valid() && View() == Next(old(View()), StopPollSettled(id)) && beats == old(beats)
    {
      stops := stops[id := WritingStopping];
    }

    method StoppingWritten(id: StopId, ok: bool)
      requires Valid() && id in stops && stops[id].WritingStopping?
      modifies this
      ensures Valid() && View() == Next(old(View()), StoppingReturned(id, ok)) && beats == old(beats)
    {
      stops := stops[id := if ok then WritingOffline else Finished(false)];
    }

    method OfflineWritten(id: StopId, ok: bool)
      requires Valid() && id in stops && stops[id].WritingOffline?
      modifies this
      ensures Valid() && View() == Next(old(View()), OfflineReturned(id, ok)) && beats == old(beats)
    {
      stops := stops[id := Finished(ok)];
      if ok {
        stopped, started := true, false;
      }
    }
  }
}
