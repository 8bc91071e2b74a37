/** Claiming a job, finishing an attempt and releasing its slot (jobs/services/execution.py). */
module Execution {
  import opened Tables
  import opened Overlap

  const RETRY_DELAYS: map<nat, Time> := map[1 := 3 * SECOND, 2 := 5 * SECOND, 3 := 10 * SECOND]

  // ---- release_capacity ----------------------------------------------------------------------

  /** The slot of `j` given back: no reservation, no locks, and a counter one lower unless it was 0.
    * The counter is lowered whether or not there was a reservation to delete.
    */
  function Released(db: Db, j: JobId): Db
    requires j in db.jobs && db.jobs[j].tenant in db.sched
  {
    var t := db.jobs[j].tenant;
    var row := db.sched[t];
    db.(reservations := db.reservations - {j},
        locks := Unlocked(db.locks, j),
        sched := db.sched[t := row.(active := if row.active == 0 then 0 else row.active - 1)])
  }

  method ReleaseCapacity(db: Database, j: JobId) returns (ok: bool)
    requires j in db.jobs
    modifies db`reservations, db`locks, db`sched
    ensures ok <==> db.jobs[j].tenant in old(db.sched)
    ensures ok ==> db.View() == Released(old(db.View()), j)
  {
    db.reservations := db.reservations - {j};
    ReleaseOverlaps(db, j);
    var t := db.jobs[j].tenant;
    if t !in db.sched {
      return false;
    }
    var state := db.sched[t];
    if state.active != 0 {
      state := state.(active := state.active - 1);
      db.sched := db.sched[t := state];
    }
    return true;
  }

  /** A job that is missing, or queued with no scheduler row to release its slot in: recovering or
    * cancelling it raises.
    */
  predicate NoWayOut(db: Db, j: JobId) {
    j !in db.jobs || (db.jobs[j].status.Queued? && db.jobs[j].tenant !in db.sched)
  }

  // ---- claim_job -----------------------------------------------------------------------------

  function StartedAttempt(now: Time): Attempt {
    Attempt(Running, None, None, None, now, None, now, now + LEASE)
  }

  function ClaimedJob(job: Job, now: Time): Job {
    job.(attemptCount := job.attemptCount + 1,
         status := Executing,
         startedAt := if job.startedAt.Some? then job.startedAt else Some(now))
  }

  predicate Claimable(db: Db, j: JobId) {
    j in db.jobs && db.jobs[j].status.Queued?
  }

  function NextAttempt(db: Db, j: JobId): AttemptId
    requires j in db.jobs
  {
    AttemptId(j, db.jobs[j].attemptCount + 1)
  }

  function Claimed(db: Db, j: JobId, now: Time): Db {
    if !Claimable(db, j) || NextAttempt(db, j) in db.attempts then db
    else db.(jobs := db.jobs[j := ClaimedJob(db.jobs[j], now)],
             attempts := db.attempts[NextAttempt(db, j) := StartedAttempt(now)])
  }

  method ClaimJob(db: Database, j: JobId, now: Time) returns (r: Outcome<Option<AttemptId>>)
    modifies db
    ensures db.View() == Claimed(old(db.View()), j, now)
    ensures r.Ok? && r.value.Some? <==> Claimable(old(db.View()), j) && NextAttempt(old(db.View()), j) !in old(db.attempts)
    ensures r.Ok? && r.value.Some? ==> r.value.value == NextAttempt(old(db.View()), j)
    ensures r.Raised? <==> Claimable(old(db.View()), j) && NextAttempt(old(db.View()), j) in old(db.attempts)
  {
    var saved := db.View();
    if j !in db.jobs || !db.jobs[j].status.Queued? {
      return Ok(None);
    }
    var job := db.jobs[j];
    job := job.(attemptCount := job.attemptCount + 1, status := Executing);
    if job.startedAt.None? {
      job := job.(startedAt := Some(now));
    }
    db.jobs := db.jobs[j := job];
    var a := AttemptId(j, job.attemptCount);
    if a in db.attempts {
      db.Restore(saved);
      return Raised(IntegrityError);
    }
    db.attempts := db.attempts[a := StartedAttempt(now)];
    return Ok(Some(a));
  }

  // ---- complete_job --------------------------------------------------------------------------

  /** Every row that finishing an attempt reads is there. */
  predicate Finishable(db: Db, a: AttemptId) {
    a in db.attempts && a.job in db.jobs && db.jobs[a.job].tenant in db.sched
  }

  function SucceededJob(job: Job, result: string, now: Time): Job {
    job.(status := JobStatus.Succeeded, result := Some(result), completedAt := Some(now))
  }

  function SucceededRows(db: Db, a: AttemptId, result: string, now: Time): Db
    requires Finishable(db, a)
  {
    var attempt := db.attempts[a].(status := AttemptStatus.Succeeded, finishedAt := Some(now));
    db.(attempts := db.attempts[a := attempt], jobs := db.jobs[a.job := SucceededJob(db.jobs[a.job], result, now)])
  }

  function Completed(db: Db, a: AttemptId, result: string, now: Time): Db {
    if !Finishable(db, a) then db else Released(SucceededRows(db, a, result, now), a.job)
  }

  method CompleteJob(db: Database, a: AttemptId, result: string, now: Time) returns (r: Outcome<()>)
    modifies db
    ensures db.View() == Completed(old(db.View()), a, result, now)
    ensures r.Ok? <==> Finishable(old(db.View()), a)
  {
    hide Released;
    var saved := db.View();
    if a !in db.attempts || a.job !in db.jobs {
      return Raised(DoesNotExist);
    }
    var attempt := db.attempts[a];
    db.attempts := db.attempts[a := attempt.(status := AttemptStatus.Succeeded, finishedAt := Some(now))];
    var job := db.jobs[a.job];
    job := job.(status := JobStatus.Succeeded, result := Some(result), completedAt := Some(now));
    db.jobs := db.jobs[a.job := job];
    var released := ReleaseCapacity(db, a.job);
    if !released {
      db.Restore(saved);
      return Raised(DoesNotExist);
    }
    return Ok(());
  }

  // ---- fail_job ------------------------------------------------------------------------------

  predicate CanRetry(failure: FailureType, attemptCount: nat) {
    (failure.Transient? || failure.Infrastructure? || failure.Timeout? || failure.Unknown?)
    && attemptCount in RETRY_DELAYS
  }

  /** The dead letters once `j` is among them; an earlier letter of `j` stays as it is. */
  function Buried(db: Db, j: JobId, failure: FailureType, message: string, now: Time): map<JobId, DeadLetter>
    requires j in db.jobs
  {
    if j in db.deadLetters then db.deadLetters
    else
      var reason := if failure.Permanent? then PermanentFailure else RetriesExhausted;
      db.deadLetters[j := DeadLetter(db.jobs[j].tenant, reason, Open, message, db.jobs[j].attemptCount, now, None, None)]
  }

  function FailedRows(db: Db, a: AttemptId, message: string, traceback: string, failure: FailureType, now: Time): Db
    requires Finishable(db, a)
  {
    var attempt := db.attempts[a].(status := AttemptStatus.Failed, failureType := Some(failure),
                                   error := Some(message), traceback := Some(traceback), finishedAt := Some(now));
    var job := db.jobs[a.job].(lastError := Some(message));
    if CanRetry(failure, job.attemptCount) then
      var at := now + RETRY_DELAYS[job.attemptCount];
      db.(attempts := db.attempts[a := attempt],
          jobs := db.jobs[a.job := job.(status := RetryWait, availableAt := at, readySince := at)])
    else
      db.(attempts := db.attempts[a := attempt],
          jobs := db.jobs[a.job := job.(status := FailedFinal, completedAt := Some(now))],
          deadLetters := Buried(db, a.job, failure, message, now))
  }

  function Failed(db: Db, a: AttemptId, message: string, traceback: string, failure: FailureType, now: Time): Db {
    if !Finishable(db, a) then db else Released(FailedRows(db, a, message, traceback, failure, now), a.job)
  }

  method FailJob(db: Database, a: AttemptId, message: string, traceback: string, failure: FailureType, now: Time)
    returns (r: Outcome<()>)
    modifies db
    ensures db.View() == Failed(old(db.View()), a, message, traceback, failure, now)
    ensures r.Ok? <==> Finishable(old(db.View()), a)
  {
    hide Released;
    var saved := db.View();
    if a !in db.attempts || a.job !in db.jobs {
      return Raised(DoesNotExist);
    }
    var attempt := db.attempts[a];
    attempt := attempt.(status := AttemptStatus.Failed, failureType := Some(failure));
    attempt := attempt.(error := Some(message), traceback := Some(traceback), finishedAt := Some(now));
    db.attempts := db.attempts[a := attempt];

    var job := db.jobs[a.job];
    if CanRetry(failure, job.attemptCount) {
      var delay := RETRY_DELAYS[job.attemptCount];
      job := job.(status := RetryWait, availableAt := now + delay);
      job := job.(readySince := job.availableAt);
    } else {
      job := job.(status := FailedFinal, completedAt := Some(now));
      var reason := if failure.Permanent? then PermanentFailure else RetriesExhausted;
      if a.job !in db.deadLetters {
        db.deadLetters := db.deadLetters[a.job :=
          DeadLetter(job.tenant, reason, Open, message, job.attemptCount, now, None, None)];
      }
    }
    job := job.(lastError := Some(message));
    db.jobs := db.jobs[a.job := job];

    var released := ReleaseCapacity(db, a.job);
    if !released {
      db.Restore(saved);
      return Raised(DoesNotExist);
    }
    return Ok(());
  }

  // ---- execute -------------------------------------------------------------------------------

  /** What a handler does with the payload: it is an arbitrary program. */
  datatype HandlerOutcome =
    | Returns(result: string)
    | RaisesRetryable(message: string)
    | RaisesPermanent(message: string)
    | RaisesOther(message: string)

  /** The tables after a worker took message `j`, seen while no other transaction runs. */
  function Executed(db: Db, j: JobId, handler: HandlerOutcome, traceback: string, start: Time, end: Time): Db {
    var claimed := Claimed(db, j, start);
    if !Claimable(db, j) || NextAttempt(db, j) in db.attempts then db
    else
      var a := NextAttempt(db, j);
      match handler
      case Returns(result) => Completed(claimed, a, result, end)
      case RaisesRetryable(m) => Failed(claimed, a, m, traceback, Transient, end)
      case RaisesPermanent(m) => Failed(claimed, a, m, traceback, Permanent, end)
      case RaisesOther(m) => Failed(claimed, a, m, traceback, Unknown, end)
  }

  /** An exception leaves the worker: the attempt number is taken, or there is no scheduler row to release
    * the slot in, so that failing the attempt raises as finishing it did.
    */
  predicate WorkerRaises(db: Db, j: JobId) {
    Claimable(db, j) && (NextAttempt(db, j) in db.attempts || db.jobs[j].tenant !in db.sched)
  }

  /** What a worker makes of the handler's outcome. A job that returns succeeds with the result. A permanent
    * error ends it at once; any other error has it wait for a retry if fewer than three attempts went
    * before this one, and ends it otherwise.
    */
  predicate WorkerLeaves(db: Db, after: Db, j: JobId, handler: HandlerOutcome)
    requires j in db.jobs
  {
    var a := AttemptId(j, db.jobs[j].attemptCount + 1);
    && j in after.jobs && a in after.attempts && after.jobs[j].attemptCount == db.jobs[j].attemptCount + 1
    && match handler
       case Returns(result) =>
         && after.jobs[j].status == JobStatus.Succeeded && after.jobs[j].result == Some(result)
         && after.attempts[a].status == AttemptStatus.Succeeded && after.attempts[a].failureType == None
       case RaisesPermanent(m) =>
         && after.jobs[j].status == FailedFinal && after.jobs[j].lastError == Some(m)
         && after.attempts[a].status == AttemptStatus.Failed && after.attempts[a].failureType == Some(Permanent)
         && j in after.deadLetters
         && (j !in db.deadLetters ==> after.deadLetters[j].reason == PermanentFailure && after.deadLetters[j].error == m)
       case RaisesRetryable(m) =>
         && after.jobs[j].status == (if db.jobs[j].attemptCount < 3 then RetryWait else FailedFinal)
         && after.jobs[j].lastError == Some(m)
         && after.attempts[a].status == AttemptStatus.Failed && after.attempts[a].failureType == Some(Transient)
       case RaisesOther(m) =>
         && after.jobs[j].status == (if db.jobs[j].attemptCount < 3 then RetryWait else FailedFinal)
         && after.jobs[j].lastError == Some(m)
         && after.attempts[a].status == AttemptStatus.Failed && after.attempts[a].failureType == Some(Unknown)
  }

  lemma ReleasedKeeps(db: Db, j: JobId)
    requires j in db.jobs && db.jobs[j].tenant in db.sched
    ensures var after := Released(db, j);
      after.jobs == db.jobs && after.attempts == db.attempts && after.deadLetters == db.deadLetters
  {
  }

  /** The outcome of a failure that the reporting worker sees. */
  lemma FailedOutcome(db: Db, a: AttemptId, message: string, traceback: string, failure: FailureType, now: Time)
    requires Finishable(db, a)
    ensures var after := Failed(db, a, message, traceback, failure, now);
      var j, count := a.job, db.jobs[a.job].attemptCount;
      && j in after.jobs && after.jobs[j].attemptCount == count && after.jobs[j].lastError == Some(message)
      && after.jobs[j].status == (if failure != Permanent && 1 <= count <= 3 then RetryWait else FailedFinal)
      && a in after.attempts && after.attempts[a].status == AttemptStatus.Failed && after.attempts[a].failureType == Some(failure)
      && (failure == Permanent ==> j in after.deadLetters)
      && (failure == Permanent && j !in db.deadLetters ==>
           after.deadLetters[j].reason == PermanentFailure && after.deadLetters[j].error == message)
  {
    ReleasedKeeps(FailedRows(db, a, message, traceback, failure, now), a.job);
    hide Released;
  }

  lemma CompletedOutcome(db: Db, a: AttemptId, result: string, now: Time)
    requires Finishable(db, a)
    ensures var after := Completed(db, a, result, now);
      var j := a.job;
      && j in after.jobs && after.jobs[j].attemptCount == db.jobs[j].attemptCount
      && after.jobs[j].status == JobStatus.Succeeded && after.jobs[j].result == Some(result)
      && a in after.attempts && after.attempts[a].status == AttemptStatus.Succeeded
      && after.attempts[a].failureType == db.attempts[a].failureType
  {
    ReleasedKeeps(SucceededRows(db, a, result, now), a.job);
    hide Released;
  }

  lemma ExecutedLeaves(db: Db, j: JobId, handler: HandlerOutcome, traceback: string, start: Time, end: Time)
    requires Claimable(db, j) && !WorkerRaises(db, j)
    ensures WorkerLeaves(db, Executed(db, j, handler, traceback, start, end), j, handler)
  {
    hide Completed, Failed;
    var claimed, a := Claimed(db, j, start), NextAttempt(db, j);
    match handler {
      case Returns(result) => CompletedOutcome(claimed, a, result, end);
      case RaisesRetryable(m) => FailedOutcome(claimed, a, m, traceback, Transient, end);
      case RaisesPermanent(m) => FailedOutcome(claimed, a, m, traceback, Permanent, end);
      case RaisesOther(m) => FailedOutcome(claimed, a, m, traceback, Unknown, end);
    }
  }

  /** `complete_job` runs inside the try, so an error it raises is failed as UNKNOWN in turn. */
  method Execute(db: Database, j: JobId, handler: HandlerOutcome, traceback: string, start: Time, end: Time)
    returns (r: Outcome<()>)
    modifies db
    ensures db.View() == Executed(old(db.View()), j, handler, traceback, start, end)
    ensures r.Raised? <==> WorkerRaises(old(db.View()), j)
    ensures !Claimable(old(db.View()), j) ==> db.View() == old(db.View())
    ensures Claimable(old(db.View()), j) && r.Ok? ==> WorkerLeaves(old(db.View()), db.View(), j, handler)
  {
    ghost var before := db.View();
    if Claimable(before, j) && !WorkerRaises(before, j) {
      ExecutedLeaves(before, j, handler, traceback, start, end);
    }
    var claim := ClaimJob(db, j, start);
    match claim {
      case Raised(error) => return Raised(error);
      case Ok(None) => return Ok(());
      case Ok(Some(a)) =>
        match handler {
          case Returns(result) =>
            r := CompleteJob(db, a, result, end);
            if r.Raised? {
              r := FailJob(db, a, "DoesNotExist", traceback, Unknown, end);
            }
          case RaisesRetryable(m) => r := FailJob(db, a, m, traceback, Transient, end);
          case RaisesPermanent(m) => r := FailJob(db, a, m, traceback, Permanent, end);
          case RaisesOther(m) => r := FailJob(db, a, m, traceback, Unknown, end);
        }
    }
  }
}
