// Rebuilding a job row from its lifecycle log alone.
module LogReplay {
  import opened Wrappers
  import opened Records

  // Corrupt marks a log no job can have: a claim of a job that is not waiting, an attempt
  // number out of sequence, or a closing entry that does not match the open attempt.
  datatype Replayed =
    | Absent
    | Corrupt
    | Live(status: JobStatus, attemptCount: nat, availableAt: Time,
           lockedBy: Option<WorkerId>, lastError: Option<string>, open: Option<AttemptId>)

  function ReplayEntry(r: Replayed, e: LogEntry): Replayed {
    match e
    case JobScheduled(at) => if r.Absent? then Live(Scheduled, 0, at, None, None, None) else Corrupt
    case JobQueued(at) => if r.Absent? then Live(Queued, 0, at, None, None, None) else Corrupt
    case JobProcessing(w, a, n) =>
      if r.Live? && Waiting(r.status) && n == r.attemptCount + 1
      then r.(status := Processing, attemptCount := n, lockedBy := Some(w), open := Some(a))
      else Corrupt
    case JobCompleted(w, a, _) =>
      if Closes(r, w, a)
      then r.(status := Completed, lockedBy := None, lastError := None, open := None)
      else Corrupt
    case JobRetrying(w, a, retryAt, error, _) =>
      if Closes(r, w, a)
      then r.(status := Retrying, availableAt := retryAt, lockedBy := None, lastError := Some(error), open := None)
      else Corrupt
    case JobDeadLettered(w, a, error, _) =>
      if Closes(r, w, a)
      then r.(status := DeadLetter, lockedBy := None, lastError := Some(error), open := None)
      else Corrupt
  }

  predicate Closes(r: Replayed, workerId: WorkerId, attemptId: AttemptId) {
    r.Live? && r.status.Processing? && r.lockedBy == Some(workerId) && r.open == Some(attemptId)
  }

  function Replay(log: seq<LogEntry>): Replayed {
    if log == [] then Absent else ReplayEntry(Replay(log[..|log| - 1]), log[|log| - 1])
  }

  lemma ReplayAppend(log: seq<LogEntry>, e: LogEntry)
    ensures Replay(log + [e]) == ReplayEntry(Replay(log), e)
  {
    assert (log + [e])[..|log|] == log;
  }
}
