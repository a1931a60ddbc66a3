// The controller createWorkerProcess returns: one method for each synchronous stretch
// between awaits, simulating its event of ProcessMachine.
module ProcessController {
  import opened Wrappers
  import opened SingleFlight
  import opened RuntimeController
  import RM = RuntimeMachine
  import opened ProcessMachine

  class WorkerProcess {
    var runtime: WorkerRuntime?
    var recoveryScheduler: PeriodicTask?
    var started: bool
    var shuttingDown: bool
    // Where each start call and the shared shutdown promise wait.
    ghost var starts: map<StartId, StartPc>
    ghost var shutdownAt: ShutdownPc

    // The objects of the runtime that the variable names.
    ghost function Owned(): set<object>
      reads this, runtime
    {
      if runtime == null then {} else {runtime as object} + set t: object | t in runtime.beats
    }

    // The variables are those of p, and the two objects they name are in the states p gives
    // them. A runtime that the variable no longer names is out of this controller's reach.
    ghost predicate Shows(p: Process)
      reads this, runtime, recoveryScheduler, Owned()
    {
      && started == p.started && shuttingDown == p.shuttingDown && starts == p.starts && shutdownAt == p.shutdown
      && (recoveryScheduler == null <==> p.recovery.None?)
      && (recoveryScheduler != null ==>
            p.recovery.value < |p.recoveries| && p.recoveries[p.recovery.value] == recoveryScheduler.View())
      && (runtime == null <==> p.runtime.None?)
      && (runtime != null ==>
            && runtime.Valid() && recoveryScheduler !in runtime.beats
            && p.runtime.value < |p.runtimes| && p.runtimes[p.runtime.value] == runtime.View())
    }

    constructor ()
      ensures Shows(NEW_PROCESS)
    {
      runtime, recoveryScheduler := null, null;
      started, shuttingDown, starts, shutdownAt := false, false, map[], NotRequested;
    }

    // constructs: the call goes on to start a new runtime, which replaces one that another
    // call may still be starting. Otherwise it returns the worker of a started process, or
    // throws because shutdown has begun.
    method Start(id: StartId, ghost p: Process) returns (constructs: bool)
      requires Shows(p) && id !in starts
      modifies this
      ensures Shows(Next(p, StartCalled(id)))
      ensures constructs <==> old(!started && !shuttingDown)
      ensures constructs ==> fresh(runtime)
    {
      if started {
        return false;
      }
      if shuttingDown {
        return false;
      }
      runtime := new WorkerRuntime();
      var registers := runtime.Start();
      starts := starts[id := Starting(|p.runtimes|)];
      return true;
    }

    // runtime.start and the factories after it succeeded, whichever runtime was started.
    method RuntimeOnline(id: StartId, ghost p: Process)
      requires Shows(p) && IsStarting(p, id) && RuntimeUp(p.runtimes[p.starts[id].runtime])
      modifies this
      ensures Shows(Next(p, StartReturned(id, true))) && fresh(recoveryScheduler) && runtime == old(runtime)
      ensures started && recoveryScheduler.timerSet
    {
      recoveryScheduler := new PeriodicTask();
      starts, started := starts[id := Over], true;
    }

    method StopScheduler(ghost p: Process) returns (awaited: Option<nat>)
      requires Shows(p) && recoveryScheduler != null
      modifies recoveryScheduler
      ensures Shows(SetRecovery(p, p.recovery.value, Halt(p.recoveries[p.recovery.value])))
      ensures awaited == p.recoveries[p.recovery.value].active
    {
      awaited := recoveryScheduler.Stop();
    }

    // runtime.start or a factory threw: rollbackStartup up to its first await.
    method RollbackStartup(id: StartId, ghost p: Process)
      requires Shows(p) && ProcessInv(p) && IsStarting(p, id)
      modifies this, recoveryScheduler, Owned()
      ensures Shows(RollBack(p, id))
      ensures old(recoveryScheduler) != null ==> unchanged(old(Owned()))
    {
      if recoveryScheduler != null {
        var awaited := StopScheduler(p);
        starts := starts[id := StoppingRecovery(p.recovery.value, awaited)];
      } else {
        RollbackRuntime(id, p);
      }
    }

    // The scheduler has stopped, or there is none.
    method RollbackRuntime(id: StartId, ghost p: Process)
      requires Shows(p) && ProcessInv(p)
      requires id in starts && (starts[id].Starting? || starts[id].StoppingRecovery?)
      modifies this, Owned()
      ensures Shows(RollBackRuntime(p, id))
    {
      if runtime != null {
        StopIsNew(p, p.runtime.value);
      }
      hide ProcessInv, RM.FlagsFit, RM.Next;
      if runtime != null {
        var waits := runtime.Stop(RollbackStop(id));
        starts := starts[id := StoppingRuntime(p.runtime.value)];
      } else {
        ClearVariables(id, p);
      }
    }

    // What the rollback awaited has settled.
    method ClearVariables(id: StartId, ghost p: Process)
      requires Shows(p)
      modifies this
      ensures Shows(Cleared(p, id)) && runtime == null && recoveryScheduler == null && !started
    {
      runtime, recoveryScheduler, started, starts := null, null, false, starts[id := Over];
    }

    // The process makes each of its stop calls once.
    lemma StopIsNew(p: Process, k: nat)
      requires ProcessInv(p) && k < |p.runtimes|
      ensures RM.FlagsFit(p.runtimes[k])
      ensures p.shutdown.NotRequested? || p.shutdown.AwaitRecovery? ==> SHUTDOWN_STOP !in p.runtimes[k].stops
      ensures forall id :: id in p.starts && (p.starts[id].Starting? || p.starts[id].StoppingRecovery?) ==>
                RollbackStop(id) !in p.runtimes[k].stops
    {
      RuntimeOf(p, k);
    }

    method StopTheRuntime(ghost p: Process)
      requires Shows(p)
      requires runtime != null ==> RM.FlagsFit(runtime.View()) && SHUTDOWN_STOP !in runtime.stops
      modifies this, Owned()
      ensures Shows(StopRuntime(p)) && runtime == old(runtime)
    {
      hide RM.Next, RM.FlagsFit;
      if runtime != null && started {
        var waits := runtime.Stop(SHUTDOWN_STOP);
        shutdownAt := AwaitRuntime(p.runtime.value);
      } else {
        shutdownAt := Disconnecting;
      }
    }

    // A second request shares the first one's promise.
    method Shutdown(ghost p: Process)
      requires Shows(p) && ProcessInv(p)
      modifies this, recoveryScheduler, Owned()
      ensures Shows(Next(p, ShutdownCalled)) && runtime == old(runtime) && shuttingDown
      ensures old(shuttingDown || recoveryScheduler != null) ==> unchanged(old(Owned()))
    {
      if !shuttingDown {
        BeginShutdown(p);
      }
    }

    method BeginShutdown(ghost p: Process)
      requires Shows(p) && ProcessInv(p) && !shuttingDown
      modifies this, recoveryScheduler, Owned()
      ensures Shows(ShutdownBegins(p)) && runtime == old(runtime)
      ensures old(recoveryScheduler) != null ==> unchanged(old(Owned()))
    {
      if runtime != null {
        StopIsNew(p, p.runtime.value);
      }
      hide ProcessInv, RM.FlagsFit, Next, RM.Next;
      shuttingDown := true;
      ghost var q := p.(shuttingDown := true);
      if recoveryScheduler != null {
        var awaited := StopScheduler(q);
        shutdownAt := AwaitRecovery(p.recovery.value, awaited);
      } else {
        StopTheRuntime(q);
      }
    }

    method RecoveryStopped(ghost p: Process)
      requires Shows(p) && ProcessInv(p) && p.shutdown.AwaitRecovery?
      requires Settled(p.recoveries[p.shutdown.task], p.shutdown.run)
      modifies this, Owned()
      ensures Shows(Next(p, RecoveryStopSettled)) && runtime == old(runtime)
    {
      if runtime != null {
        StopIsNew(p, p.runtime.value);
      }
      hide RM.FlagsFit, RM.Next;
      StopTheRuntime(p);
    }

    // runtime.stop returned or threw.
    method RuntimeStopped(ghost p: Process)
      requires Shows(p) && p.shutdown.AwaitRuntime? && p.shutdown.runtime < |p.runtimes|
      requires StopEnded(p.runtimes[p.shutdown.runtime], SHUTDOWN_STOP)
      modifies this`shutdownAt
      ensures Shows(Next(p, RuntimeStopSettled))
    {
      shutdownAt := Disconnecting;
    }

    method DatabaseDisconnected(ghost p: Process)
      requires Shows(p) && p.shutdown.Disconnecting?
      modifies this
      ensures Shows(Next(p, Disconnected)) && runtime == old(runtime)
      ensures !started && shuttingDown == old(shuttingDown)
    {
      shutdownAt, started := Done, false;
    }
  }
}
