// apps/worker/src/worker-instance: the guarded worker-status transitions and the service
// calls that turn a zero count into an error.
module WorkerInstances {
  import opened Wrappers
  import opened Records
  import opened Transactions
  import opened Evolution
  import opened Database

  datatype LifecycleError = IdTaken | NotStarting | NotOnline | NotBusy | NotActive | NotStoppable | NotStopping

  // ---- repository ----

  method RegisterWorker(prisma: Prisma, workerId: WorkerId, startedAt: Time) returns (ok: bool)
    modifies prisma
    ensures ok <==> workerId !in old(prisma.workers)
    ensures prisma.View() == TryRegister(old(prisma.View()), workerId, startedAt)
    ensures ok ==> prisma.workers == old(prisma.workers)[workerId := Worker(Starting, startedAt, startedAt, None)]
  {
    ok := workerId !in prisma.workers;
    if ok {
      prisma.workers := prisma.workers[workerId := Worker(Starting, startedAt, startedAt, None)];
    }
  }

  method MarkWorkerOnline(prisma: Prisma, workerId: WorkerId, onlineAt: Time) returns (count: nat)
    modifies prisma
    ensures count == if WriteAllowed(old(prisma.View()), workerId, MarkOnline(onlineAt)) then 1 else 0
    ensures prisma.View() == TryWrite(old(prisma.View()), workerId, MarkOnline(onlineAt))
    ensures count == 1 <==> workerId in old(prisma.workers) && old(prisma.workers)[workerId].status == Starting
    ensures count == 1 ==> prisma.workers == old(prisma.workers)[workerId := old(prisma.workers)[workerId].(
              status := Online, lastHeartbeatAt := onlineAt)]
  {
    count := prisma.UpdateWorker(workerId, (row: Worker) => row.status.Starting?,
                                 (row: Worker) => row.(status := Online, lastHeartbeatAt := onlineAt));
  }

  method MarkWorkerBusy(prisma: Prisma, workerId: WorkerId, busyAt: Time) returns (count: nat)
    modifies prisma
    ensures count == if WriteAllowed(old(prisma.View()), workerId, MarkBusy(busyAt)) then 1 else 0
    ensures prisma.View() == TryWrite(old(prisma.View()), workerId, MarkBusy(busyAt))
    ensures count == 1 <==> workerId in old(prisma.workers) && old(prisma.workers)[workerId].status == Online
    ensures count == 1 ==> prisma.workers == old(prisma.workers)[workerId := old(prisma.workers)[workerId].(
              status := Busy, lastHeartbeatAt := busyAt)]
  {
    count := prisma.UpdateWorker(workerId, (row: Worker) => row.status.Online?,
                                 (row: Worker) => row.(status := Busy, lastHeartbeatAt := busyAt));
  }

  method MarkWorkerAvailable(prisma: Prisma, workerId: WorkerId, onlineAt: Time) returns (count: nat)
    modifies prisma
    ensures count == if WriteAllowed(old(prisma.View()), workerId, MarkAvailable(onlineAt)) then 1 else 0
    ensures prisma.View() == TryWrite(old(prisma.View()), workerId, MarkAvailable(onlineAt))
    ensures count == 1 <==> workerId in old(prisma.workers) && old(prisma.workers)[workerId].status == Busy
    ensures count == 1 ==> prisma.workers == old(prisma.workers)[workerId := old(prisma.workers)[workerId].(
              status := Online, lastHeartbeatAt := onlineAt)]
  {
    count := prisma.UpdateWorker(workerId, (row: Worker) => row.status.Busy?,
                                 (row: Worker) => row.(status := Online, lastHeartbeatAt := onlineAt));
  }

  method UpdateWorkerHeartbeat(prisma: Prisma, workerId: WorkerId, heartbeatAt: Time) returns (count: nat)
    modifies prisma
    ensures count == if WriteAllowed(old(prisma.View()), workerId, Heartbeat(heartbeatAt)) then 1 else 0
    ensures prisma.View() == TryWrite(old(prisma.View()), workerId, Heartbeat(heartbeatAt))
    ensures count == 1 <==>
            && workerId in old(prisma.workers)
            && old(prisma.workers)[workerId].status in {Starting, Online, Busy, Stopping}
    ensures count == 1 ==> prisma.workers == old(prisma.workers)[workerId := old(prisma.workers)[workerId].(
              lastHeartbeatAt := heartbeatAt)]
  {
    count := prisma.UpdateWorker(workerId, (row: Worker) => row.status in {Starting, Online, Busy, Stopping},
                                 (row: Worker) => row.(lastHeartbeatAt := heartbeatAt));
  }

  method MarkWorkerStopping(prisma: Prisma, workerId: WorkerId, stoppingAt: Time) returns (count: nat)
    modifies prisma
    ensures count == if WriteAllowed(old(prisma.View()), workerId, MarkStopping(stoppingAt)) then 1 else 0
    ensures prisma.View() == TryWrite(old(prisma.View()), workerId, MarkStopping(stoppingAt))
    ensures count == 1 <==>
            && workerId in old(prisma.workers)
            && old(prisma.workers)[workerId].status in {Starting, Online, Busy, Unhealthy}
    ensures count == 1 ==> prisma.workers == old(prisma.workers)[workerId := old(prisma.workers)[workerId].(
              status := Stopping, lastHeartbeatAt := stoppingAt)]
  {
    count := prisma.UpdateWorker(workerId, (row: Worker) => row.status in {Starting, Online, Busy, Unhealthy},
                                 (row: Worker) => row.(status := Stopping, lastHeartbeatAt := stoppingAt));
  }

  method MarkWorkerOffline(prisma: Prisma, workerId: WorkerId, stoppedAt: Time) returns (count: nat)
    modifies prisma
    ensures count == if WriteAllowed(old(prisma.View()), workerId, MarkOffline(stoppedAt)) then 1 else 0
    ensures prisma.View() == TryWrite(old(prisma.View()), workerId, MarkOffline(stoppedAt))
    ensures count == 1 <==> workerId in old(prisma.workers) && old(prisma.workers)[workerId].status == Stopping
    ensures count == 1 ==> prisma.workers == old(prisma.workers)[workerId := old(prisma.workers)[workerId].(
              status := Offline, lastHeartbeatAt := stoppedAt, stoppedAt := Some(stoppedAt))]
  {
    count := prisma.UpdateWorker(workerId, (row: Worker) => row.status.Stopping?,
                                 (row: Worker) => row.(status := Offline,
                                   lastHeartbeatAt := stoppedAt, stoppedAt := Some(stoppedAt)));
  }

  // ---- service ----

  // Registers and brings ONLINE in two transactions; others is what other processes commit
  // in between. ONLINE is refused only when one of them has moved the worker on.
  method StartWorkerInstance(prisma: Prisma, workerId: WorkerId, startedAt: Time, onlineAt: Time, others: Db -> Db)
    returns (r: Result<Worker, LifecycleError>)
    modifies prisma
    ensures r == Failure(IdTaken) <==> workerId in old(prisma.workers)
    ensures r == Failure(IdTaken) ==> prisma.View() == old(prisma.View())
    ensures workerId !in old(prisma.workers) ==>
              var registered := TryRegister(old(prisma.View()), workerId, startedAt);
              && prisma.View() == TryWrite(others(registered), workerId, MarkOnline(onlineAt))
              && (r.Success? <==> WriteAllowed(others(registered), workerId, MarkOnline(onlineAt)))
              && (r.Success? ==> r.value == Worker(Online, startedAt, onlineAt, None))
              && (r.Success? <==> workerId in others(registered).workers &&
                                  others(registered).workers[workerId].status == Starting)
              && (r.Success? ==> prisma.workers == others(registered).workers[workerId :=
                    others(registered).workers[workerId].(status := Online, lastHeartbeatAt := onlineAt)])
              && (r.Failure? && Evolves(registered, others(registered)) ==> Rank(prisma.workers[workerId].status) >= 1)
  {
    var ok := RegisterWorker(prisma, workerId, startedAt);
    if !ok {
      return Failure(IdTaken);
    }
    var worker := prisma.workers[workerId];
    prisma.OthersCommit(others);
    var count := MarkWorkerOnline(prisma, workerId, onlineAt);
    if count != 1 {
      return Failure(NotStarting);
    }
    return Success(worker.(status := Online, lastHeartbeatAt := onlineAt));
  }

  // STOPPING then OFFLINE, with others in between. OFFLINE is refused only when another
  // process has already brought the worker OFFLINE.
  method StopWorkerInstance(prisma: Prisma, workerId: WorkerId, stoppingAt: Time, stoppedAt: Time, others: Db -> Db)
    returns (r: Result<(), LifecycleError>)
    modifies prisma
    ensures r == Failure(NotStoppable) <==> !WriteAllowed(old(prisma.View()), workerId, MarkStopping(stoppingAt))
    ensures r == Failure(NotStoppable) ==> prisma.View() == old(prisma.View())
    ensures r != Failure(NotStoppable) ==>
              var stopping := TryWrite(old(prisma.View()), workerId, MarkStopping(stoppingAt));
              && prisma.View() == TryWrite(others(stopping), workerId, MarkOffline(stoppedAt))
              && (r.Success? <==> WriteAllowed(others(stopping), workerId, MarkOffline(stoppedAt)))
              && (Evolves(stopping, others(stopping)) ==> prisma.workers[workerId].status.Offline?)
    ensures r.Success? ==>
              && workerId in prisma.workers && prisma.workers[workerId].status == Offline
              && prisma.workers[workerId].lastHeartbeatAt == stoppedAt
              && prisma.workers[workerId].stoppedAt == Some(stoppedAt)
  {
    var count := MarkWorkerStopping(prisma, workerId, stoppingAt);
    if count != 1 {
      return Failure(NotStoppable);
    }
    prisma.OthersCommit(others);
    count := MarkWorkerOffline(prisma, workerId, stoppedAt);
    if count != 1 {
      return Failure(NotStopping);
    }
    return Success(());
  }

  method SetWorkerBusy(prisma: Prisma, workerId: WorkerId, busyAt: Time) returns (r: Result<(), LifecycleError>)
    modifies prisma
    ensures var allowed := WriteAllowed(old(prisma.View()), workerId, MarkBusy(busyAt));
            r == if allowed then Success(()) else Failure(NotOnline)
    ensures r.Success? <==> workerId in old(prisma.workers) && old(prisma.workers)[workerId].status == Online
    ensures prisma.View() == TryWrite(old(prisma.View()), workerId, MarkBusy(busyAt))
    ensures r.Success? ==> prisma.View() == old(prisma.View()).(workers := old(prisma.workers)[workerId :=
              old(prisma.workers)[workerId].(status := Busy, lastHeartbeatAt := busyAt)])
  {
    var count := MarkWorkerBusy(prisma, workerId, busyAt);
    return if count == 1 then Success(()) else Failure(NotOnline);
  }

  method SetWorkerAvailable(prisma: Prisma, workerId: WorkerId, onlineAt: Time) returns (r: Result<(), LifecycleError>)
    modifies prisma
    ensures var allowed := WriteAllowed(old(prisma.View()), workerId, MarkAvailable(onlineAt));
            r == if allowed then Success(()) else Failure(NotBusy)
    ensures r.Success? <==> workerId in old(prisma.workers) && old(prisma.workers)[workerId].status == Busy
    ensures prisma.View() == TryWrite(old(prisma.View()), workerId, MarkAvailable(onlineAt))
    ensures r.Success? ==> prisma.View() == old(prisma.View()).(workers := old(prisma.workers)[workerId :=
              old(prisma.workers)[workerId].(status := Online, lastHeartbeatAt := onlineAt)])
  {
    var count := MarkWorkerAvailable(prisma, workerId, onlineAt);
    return if count == 1 then Success(()) else Failure(NotBusy);
  }

  method HeartbeatWorker(prisma: Prisma, workerId: WorkerId, heartbeatAt: Time) returns (r: Result<(), LifecycleError>)
    modifies prisma
    ensures var allowed := WriteAllowed(old(prisma.View()), workerId, Heartbeat(heartbeatAt));
            r == if allowed then Success(()) else Failure(NotActive)
    ensures r.Success? <==>
            && workerId in old(prisma.workers)
            && old(prisma.workers)[workerId].status in {Starting, Online, Busy, Stopping}
    ensures prisma.View() == TryWrite(old(prisma.View()), workerId, Heartbeat(heartbeatAt))
    ensures r.Success? ==> prisma.View() == old(prisma.View()).(workers := old(prisma.workers)[workerId :=
              old(prisma.workers)[workerId].(lastHeartbeatAt := heartbeatAt)])
  {
    var count := UpdateWorkerHeartbeat(prisma, workerId, heartbeatAt);
    return if count == 1 then Success(()) else Failure(NotActive);
  }
}
