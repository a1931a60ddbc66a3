// apps/worker/src/jobs/job-processor.js: running a claimed job and recording its outcome.
module JobProcessor {
  import opened Wrappers
  import opened Records
  import opened Backoff
  import opened Transactions
  import opened Decisions
  import opened Evolution
  import opened Database
  import opened WorkerRepository

  // A thrown JavaScript value, as far as its message goes.
  datatype Thrown = ErrorObject(message: string) | Text(text: string) | OtherValue

  // Handlers are simulated side effects; the claim only sees whether one returned or threw.
  datatype HandlerResult = NoHandler | Returned | Threw(thrown: Thrown)

  datatype ProcessError = HandlerMissing | InvalidCounts | NotRecorded

  const MAX_ERROR_MESSAGE_LENGTH := 2_000
  const UNKNOWN_ERROR := "Job execution failed with an unknown error."
  const CONNECTION_ERROR := "connection lost"
  const NOT_OWNER_ERROR := "Job completion failed because the worker no longer owns the active job."
  const NO_ATTEMPT_ERROR := "Job attempt completion failed because the active attempt was not found."

  // What String.prototype.trim removes.
  predicate IsSpace(c: char) {
    || '\U{9}' <= c <= '\U{d}'
    || '\U{2000}' <= c <= '\U{200a}'
    || c in {' ', '\U{a0}', '\U{1680}', '\U{2028}', '\U{2029}', '\U{202f}', '\U{205f}', '\U{3000}', '\U{feff}'}
  }

  function TrimStart(s: string): (r: string)
    ensures |r| <= |s| && s[|s| - |r|..] == r
    ensures r != "" ==> !IsSpace(r[0])
    ensures forall i :: 0 <= i < |s| - |r| ==> IsSpace(s[i])
  {
    if s != "" && IsSpace(s[0]) then TrimStart(s[1..]) else s
  }

  function TrimEnd(s: string): (r: string)
    ensures |r| <= |s| && s[..|r|] == r
    ensures r != "" ==> !IsSpace(r[|r| - 1])
    ensures forall i :: |r| <= i < |s| ==> IsSpace(s[i])
  {
    if s != "" && IsSpace(s[|s| - 1]) then TrimEnd(s[..|s| - 1]) else s
  }

  // s[lo..hi] begins and ends with no blank, and everything around it is blank.
  predicate IsTrimmed(s: string, lo: int, hi: int) {
    && 0 <= lo < hi <= |s| && !IsSpace(s[lo]) && !IsSpace(s[hi - 1])
    && (forall i :: 0 <= i < lo ==> IsSpace(s[i]))
    && (forall i :: hi <= i < |s| ==> IsSpace(s[i]))
  }

  function Trim(s: string): (r: string)
    ensures r == "" <==> forall i :: 0 <= i < |s| ==> IsSpace(s[i])
    ensures r != "" ==> exists lo, hi :: IsTrimmed(s, lo, hi) && r == s[lo..hi]
  {
    hide IsSpace;
    var tail := TrimStart(s);
    var r := TrimEnd(tail);
    assert r != "" ==> IsTrimmed(s, |s| - |tail|, |s| - |tail| + |r|) by {
      if r != "" {
        assert s[|s| - |tail|..] == tail && tail[..|r|] == r;
        assert forall i :: |r| <= i < |tail| ==> IsSpace(tail[i]);
      }
    }
    assert r != "" ==> r == s[|s| - |tail|..|s| - |tail| + |r|];
    r
  }

  function MessageOf(thrown: Thrown): string {
    match thrown
    case ErrorObject(message) => message
    case Text(text) => text
    case OtherValue => UNKNOWN_ERROR
  }

  // Always a message worth recording: not empty, not longer than the limit, and a message
  // of blanks only is replaced.
  function NormalizeExecutionError(thrown: Thrown): (r: string)
    ensures 1 <= |r| <= 2000 && !IsSpace(r[0])
    ensures (forall i :: 0 <= i < |MessageOf(thrown)| ==> IsSpace(MessageOf(thrown)[i])) ==>
              r == "Job execution failed with an unknown error."
    ensures forall lo, hi :: IsTrimmed(MessageOf(thrown), lo, hi) ==>
              r == MessageOf(thrown)[lo..if hi - lo <= 2000 then hi else lo + 2000]
  {
    assert !IsSpace('J');
    hide IsTrimmed, Trim, MessageOf, IsSpace;
    var message := MessageOf(thrown);
    var normalizedMessage := Trim(message);
    TrimUnique(message);
    if |normalizedMessage| == 0 then UNKNOWN_ERROR
    else if |normalizedMessage| <= MAX_ERROR_MESSAGE_LENGTH then normalizedMessage
    else normalizedMessage[..MAX_ERROR_MESSAGE_LENGTH]
  }

  lemma TrimUnique(s: string)
    ensures forall lo, hi :: IsTrimmed(s, lo, hi) ==>
              Trim(s) != "" && |Trim(s)| == hi - lo &&
              s[lo..if hi - lo <= 2000 then hi else lo + 2000] ==
                (if |Trim(s)| <= 2000 then Trim(s) else Trim(s)[..2000])
    ensures Trim(s) != "" ==> !IsSpace(Trim(s)[0])
  {
    hide IsSpace, Trim;
    forall lo, hi | IsTrimmed(s, lo, hi) ensures Trim(s) == s[lo..hi] && Trim(s) != "" {
      assert !IsSpace(s[lo]) && !IsSpace(s[hi - 1]);
      assert Trim(s) != "";
      var lo', hi' :| IsTrimmed(s, lo', hi') && Trim(s) == s[lo'..hi'];
      assert !IsSpace(s[lo']) && !IsSpace(s[hi' - 1]);
      assert lo == lo' && hi == hi';
    }
  }

  // The parts of one execution: its claim, how the handler ended, and the clocks it read.
  datatype Execution = Execution(workerId: WorkerId, claim: Claim, handler: HandlerResult, startedAt: Time,
                                 completedAt: Time, failedAt: Time)

  predicate Owns(db: Db, x: Execution) {
    FinishAllowed(db, x.claim.jobId, x.workerId, x.claim.attemptId)
  }

  function Recorded(db: Db, x: Execution, o: Outcome): Db {
    TryFinish(db, x.claim.jobId, x.workerId, x.claim.attemptId, o)
  }

  // A returned handler is recorded as completed, unless the call never reaches the database.
  function CompletionEffect(db: Db, x: Execution, link: Link): Db {
    if x.handler.Returned? && !link.LostBefore?
    then Recorded(db, x, Complete(x.completedAt, ElapsedMs(x.startedAt, x.completedAt)))
    else db
  }

  // The message the catch block normalises and records.
  function CaughtMessage(db: Db, x: Execution, link: Link): string
    requires !x.handler.NoHandler?
  {
    if x.handler.Threw? then NormalizeExecutionError(x.handler.thrown)
    else if link.LostBefore? || Owns(db, x) then NormalizeExecutionError(ErrorObject(CONNECTION_ERROR))
    else NormalizeExecutionError(ErrorObject(
      if OwnsJob(db, x.claim.jobId, x.workerId) then NO_ATTEMPT_ERROR else NOT_OWNER_ERROR))
  }

  function FailureEffect(config: ValidRetryConfig, db: Db, x: Execution, message: string, link: Link): Db
    requires x.claim.job.attemptCount >= 1
  {
    if link.LostBefore? then db
    else Recorded(db, x, FailureOutcome(config, x.claim.job, x.failedAt, ElapsedMs(x.startedAt, x.failedAt), message))
  }

  lemma CompletionRecorded(db: Db, x: Execution, link: Link)
    requires x.handler.Returned? && !link.LostBefore? && Owns(db, x)
    ensures var j, a := x.claim.jobId, x.claim.attemptId;
              var ms := if x.completedAt >= x.startedAt then x.completedAt - x.startedAt else 0;
              var job, attempt := db.jobs[j], db.attempts[a];
              CompletionEffect(db, x, link) == db.(
                jobs := db.jobs[j := job.(status := Completed, completedAt := Some(x.completedAt), lockedAt := None,
                                          lockedBy := None, lastError := None)],
                attempts := db.attempts[a := attempt.(status := AttemptCompleted, finishedAt := Some(x.completedAt),
                                                      durationMs := Some(ms), error := None)],
                logs := db.logs[j := LogOf(db, j) + [JobCompleted(x.workerId, a, ms)]])
  {
  }

  lemma FailureRecorded(config: ValidRetryConfig, db: Db, x: Execution, message: string, link: Link)
    requires x.claim.job.attemptCount >= 1 && !link.LostBefore? && Owns(db, x)
    ensures var j, a := x.claim.jobId, x.claim.attemptId;
              var ms := if x.failedAt >= x.startedAt then x.failedAt - x.startedAt else 0;
              var retryAt := x.failedAt + RetryDelay(config, x.claim.job.attemptCount);
              var retries := x.claim.job.attemptCount < x.claim.job.maxAttempts;
              var job, attempt := db.jobs[j], db.attempts[a];
              FailureEffect(config, db, x, message, link) == db.(
                jobs := db.jobs[j := if retries
                                     then job.(status := Retrying, availableAt := retryAt, lastError := Some(message),
                                               lockedAt := None, lockedBy := None)
                                     else job.(status := DeadLetter, lastError := Some(message),
                                               lockedAt := None, lockedBy := None)],
                attempts := db.attempts[a := attempt.(status := AttemptFailed, finishedAt := Some(x.failedAt),
                                                      durationMs := Some(ms), error := Some(message))],
                logs := db.logs[j := LogOf(db, j) + [if retries
                                                     then JobRetrying(x.workerId, a, retryAt, message, false)
                                                     else JobDeadLettered(x.workerId, a, message, false)]])
  {
    hide RetryDelay;
  }

  // others is what other processes commit between the completion call and the failure call.
  // A completion whose acknowledgement is lost stands: the failure call that follows is
  // fenced off, whatever others do in between.
  method ProcessClaim(prisma: Prisma, config: ValidRetryConfig, x: Execution, completeLink: Link, failLink: Link,
                      others: Db -> Db)
    returns (r: Result<(), ProcessError>)
    modifies prisma
    ensures x.handler.NoHandler? ==> r == Failure(HandlerMissing)
    ensures !x.handler.NoHandler? && !CountsValid(x.claim.job) ==> r == Failure(InvalidCounts)
    ensures r == Failure(InvalidCounts) <==>
            !x.handler.NoHandler? && (x.claim.job.attemptCount < 1 || x.claim.job.maxAttempts < 1)
    ensures x.handler.NoHandler? || !CountsValid(x.claim.job) ==> prisma.View() == old(prisma.View())
    ensures CountsValid(x.claim.job) && x.handler.Returned? && completeLink.Delivered? &&
              Owns(old(prisma.View()), x) ==>
              r.Success? && prisma.View() == CompletionEffect(old(prisma.View()), x, completeLink)
    ensures CountsValid(x.claim.job) && !x.handler.NoHandler? &&
            !(x.handler.Returned? && completeLink.Delivered? && Owns(old(prisma.View()), x)) ==>
              var mid := others(CompletionEffect(old(prisma.View()), x, completeLink));
              var message := CaughtMessage(old(prisma.View()), x, completeLink);
              && prisma.View() == FailureEffect(config, mid, x, message, failLink)
              && (r.Success? <==> failLink.Delivered? && Owns(mid, x))
    ensures CountsValid(x.claim.job) && x.handler.Returned? && completeLink.LostAfter? &&
              Owns(old(prisma.View()), x) ==>
              var done := CompletionEffect(old(prisma.View()), x, completeLink);
              AttemptsEvolve(done, others(done)) ==> r.Failure? && prisma.View() == others(done)
    ensures CountsValid(x.claim.job) && x.handler.Returned? && completeLink.Delivered? &&
              Owns(old(prisma.View()), x) ==>
              var before, j, a := old(prisma.View()), x.claim.jobId, x.claim.attemptId;
              var ms := if x.completedAt >= x.startedAt then x.completedAt - x.startedAt else 0;
              var job, attempt := before.jobs[j], before.attempts[a];
              prisma.View() == before.(
                jobs := before.jobs[j := job.(status := Completed, completedAt := Some(x.completedAt), lockedAt := None,
                                          lockedBy := None, lastError := None)],
                attempts := before.attempts[a := attempt.(status := AttemptCompleted, finishedAt := Some(x.completedAt),
                                                      durationMs := Some(ms), error := None)],
                logs := before.logs[j := LogOf(before, j) + [JobCompleted(x.workerId, a, ms)]])
    ensures CountsValid(x.claim.job) && x.handler.Threw? && !failLink.LostBefore? &&
              Owns(others(old(prisma.View())), x) ==>
              var mid, j, a := others(old(prisma.View())), x.claim.jobId, x.claim.attemptId;
              var message := NormalizeExecutionError(x.handler.thrown);
              var ms := if x.failedAt >= x.startedAt then x.failedAt - x.startedAt else 0;
              var retryAt := x.failedAt + RetryDelay(config, x.claim.job.attemptCount);
              var retries := x.claim.job.attemptCount < x.claim.job.maxAttempts;
              var job, attempt := mid.jobs[j], mid.attempts[a];
              prisma.View() == mid.(
                jobs := mid.jobs[j := if retries
                                     then job.(status := Retrying, availableAt := retryAt, lastError := Some(message),
                                               lockedAt := None, lockedBy := None)
                                     else job.(status := DeadLetter, lastError := Some(message),
                                               lockedAt := None, lockedBy := None)],
                attempts := mid.attempts[a := attempt.(status := AttemptFailed, finishedAt := Some(x.failedAt),
                                                      durationMs := Some(ms), error := Some(message))],
                logs := mid.logs[j := LogOf(mid, j) + [if retries
                                                     then JobRetrying(x.workerId, a, retryAt, message, false)
                                                     else JobDeadLettered(x.workerId, a, message, false)]])
  {
    hide NormalizeExecutionError, CaughtMessage, CompletionEffect, FailureEffect, Owns, RetryDelay, LogOf;
    if x.handler.NoHandler? {
      return Failure(HandlerMissing);
    }
    if x.claim.job.attemptCount < 1 || x.claim.job.maxAttempts < 1 {
      return Failure(InvalidCounts);
    }
    ghost var mid := others(CompletionEffect(prisma.View(), x, completeLink));
    LateFailureIsFenced(config, prisma.View(), mid, x, completeLink);
    ghost var before := prisma.View();
    if x.handler.Threw? {
      ThrewIsCaught(before, x, completeLink);
    }
    var thrown := TryHandler(prisma, x, completeLink);
    if thrown.None? {
      CompletionRecorded(before, x, completeLink);
      return Success(());
    }
    prisma.OthersCommit(others);
    if !failLink.LostBefore? && Owns(mid, x) {
      FailureRecorded(config, mid, x, NormalizeExecutionError(thrown.value), failLink);
    }
    var recorded := RecordFailure(prisma, config, x, NormalizeExecutionError(thrown.value), failLink);
    return if recorded then Success(()) else Failure(NotRecorded);
  }

  lemma ThrewIsCaught(db: Db, x: Execution, link: Link)
    requires x.handler.Threw?
    ensures CompletionEffect(db, x, link) == db
    ensures CaughtMessage(db, x, link) == NormalizeExecutionError(x.handler.thrown)
  {
  }

  // The try block: what it throws, if it does.
  method TryHandler(prisma: Prisma, x: Execution, link: Link) returns (thrown: Option<Thrown>)
    requires !x.handler.NoHandler?
    modifies prisma
    ensures prisma.View() == CompletionEffect(old(prisma.View()), x, link)
    ensures thrown.None? <==> x.handler.Returned? && link.Delivered? && Owns(old(prisma.View()), x)
    ensures thrown.Some? ==> NormalizeExecutionError(thrown.value) == CaughtMessage(old(prisma.View()), x, link)
  {
    hide NormalizeExecutionError, TryFinish;
    if x.handler.Threw? {
      return Some(x.handler.thrown);
    }
    if link.LostBefore? {
      return Some(ErrorObject(CONNECTION_ERROR));
    }
    var completed := CompleteClaimedJob(prisma, x.claim.jobId, x.workerId, x.claim.attemptId,
                                        x.completedAt, ElapsedMs(x.startedAt, x.completedAt));
    if completed.Failure? {
      return Some(ErrorObject(if completed.error.NotOwner? then NOT_OWNER_ERROR else NO_ATTEMPT_ERROR));
    }
    return if link.LostAfter? then Some(ErrorObject(CONNECTION_ERROR)) else None;
  }

  // A completed attempt stays closed, so no later failure call passes its fences.
  lemma LateFailureIsFenced(config: ValidRetryConfig, db: Db, mid: Db, x: Execution, link: Link)
    requires x.claim.job.attemptCount >= 1
    ensures x.handler.Returned? && link.LostAfter? && Owns(db, x) &&
              AttemptsEvolve(CompletionEffect(db, x, link), mid) ==>
              !Owns(mid, x) && forall message, failLink :: FailureEffect(config, mid, x, message, failLink) == mid
  {
  }

  // The catch block.
  method RecordFailure(prisma: Prisma, config: ValidRetryConfig, x: Execution, errorMessage: string, link: Link)
    returns (ok: bool)
    requires CountsValid(x.claim.job)
    modifies prisma
    ensures prisma.View() == FailureEffect(config, old(prisma.View()), x, errorMessage, link)
    ensures ok <==> link.Delivered? && Owns(old(prisma.View()), x)
  {
    var job := x.claim.job;
    var durationMs := ElapsedMs(x.startedAt, x.failedAt);
    if link.LostBefore? {
      return false;
    }
    var recorded;
    var attemptsRemain := job.attemptCount < job.maxAttempts;
    if !attemptsRemain {
      recorded := MoveJobToDeadLetter(prisma, x.claim.jobId, x.workerId, x.claim.attemptId, errorMessage,
                                      x.failedAt, durationMs);
    } else {
      var retryDelayMs := CalculateRetryDelayMs(job.attemptCount, config.baseDelayMs, config.maxDelayMs);
      recorded := ReleaseJobForRetry(prisma, x.claim.jobId, x.workerId, x.claim.attemptId, errorMessage,
                                     x.failedAt + retryDelayMs.value, x.failedAt, durationMs);
    }
    return recorded.Success? && link.Delivered?;
  }
}
