// The shared database: the tables as they stand after the last commit, and the primitive
// writes a transaction is made of. Each primitive is one SQL statement.
module Database {
  import opened Records
  import opened Transactions

  // What the network does to one database call: the call may throw before the transaction
  // commits, or after it has.
  datatype Link = Delivered | LostBefore | LostAfter

  class Prisma {
    var jobs: map<JobId, Job>
    var attempts: map<AttemptId, Attempt>
    var logs: map<JobId, seq<LogEntry>>
    var workers: map<WorkerId, Worker>

    function View(): Db
      reads this
    {
      Db(jobs, attempts, logs, workers)
    }

    constructor ()
      ensures View() == EMPTY_DB
    {
      jobs, attempts, logs, workers := map[], map[], map[], map[];
    }

    // Restores a snapshot: undoes every write since it was taken.
    method Rollback(saved: Db)
      modifies this
      ensures View() == saved
    {
      jobs, attempts, logs, workers := saved.jobs, saved.attempts, saved.logs, saved.workers;
    }

    // Whatever other processes commit while this one awaits.
    method OthersCommit(others: Db -> Db)
      modifies this
      ensures View() == others(old(View()))
    {
      Rollback(others(View()));
    }

    // job.updateMany on one id: count is the number of rows the remaining WHERE matched.
    method UpdateJob(id: JobId, matches: Job -> bool, data: Job -> Job) returns (count: nat)
      modifies this`jobs
      ensures count == if id in old(jobs) && matches(old(jobs)[id]) then 1 else 0
      ensures jobs == if count == 1 then old(jobs)[id := data(old(jobs)[id])] else old(jobs)
    {
      count := 0;
      if id in jobs && matches(jobs[id]) {
        jobs := jobs[id := data(jobs[id])];
        count := 1;
      }
    }

    method UpdateAttempt(id: AttemptId, matches: Attempt -> bool, data: Attempt -> Attempt) returns (count: nat)
      modifies this`attempts
      ensures count == if id in old(attempts) && matches(old(attempts)[id]) then 1 else 0
      ensures attempts == if count == 1 then old(attempts)[id := data(old(attempts)[id])] else old(attempts)
    {
      count := 0;
      if id in attempts && matches(attempts[id]) {
        attempts := attempts[id := data(attempts[id])];
        count := 1;
      }
    }

    method UpdateWorker(id: WorkerId, matches: Worker -> bool, data: Worker -> Worker) returns (count: nat)
      modifies this`workers
      ensures count == if id in old(workers) && matches(old(workers)[id]) then 1 else 0
      ensures workers == if count == 1 then old(workers)[id := data(old(workers)[id])] else old(workers)
    {
      count := 0;
      if id in workers && matches(workers[id]) {
        workers := workers[id := data(workers[id])];
        count := 1;
      }
    }

    // Fails on the primary key or on the unique (jobId, attemptNumber) constraint.
    method InsertAttempt(id: AttemptId, attempt: Attempt) returns (ok: bool)
      modifies this`attempts
      ensures ok <==> id !in old(attempts) && !NumberTaken(old(View()), attempt.jobId, attempt.number)
      ensures attempts == if ok then old(attempts)[id := attempt] else old(attempts)
    {
      ok := id !in attempts && !NumberTaken(View(), attempt.jobId, attempt.number);
      if ok {
        attempts := attempts[id := attempt];
      }
    }

    // Fails on the primary key or on the unique (userId, idempotencyKey) constraint.
    method InsertJob(id: JobId, job: Job) returns (ok: bool)
      modifies this`jobs
      ensures ok <==> CreateAllowed(old(View()), id, job.userId, job.idempotencyKey)
      ensures jobs == if ok then old(jobs)[id := job] else old(jobs)
    {
      ok := CreateAllowed(View(), id, job.userId, job.idempotencyKey);
      if ok {
        jobs := jobs[id := job];
      }
    }

    method InsertLog(jobId: JobId, entry: LogEntry)
      modifies this`logs
      ensures logs == old(logs)[jobId := LogOf(old(View()), jobId) + [entry]]
    {
      logs := logs[jobId := LogOf(View(), jobId) + [entry]];
    }
  }
}
