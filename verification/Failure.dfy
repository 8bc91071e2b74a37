/** The second copy of the retry-or-bury rule, used by the reaper (jobs/services/failure.py). */
module Failure {
  import opened Tables
  import Execution

  const RETRYABLE: set<FailureType> := {Transient, Infrastructure, Timeout, Unknown}
  const RETRY_DELAYS: map<nat, Time> := map[1 := 3 * SECOND, 2 := 5 * SECOND, 3 := 10 * SECOND]

  /** The job after a failure: due again after its delay, or failed for good. */
  function SettledJob(job: Job, failure: FailureType, message: string, now: Time): Job {
    if failure in RETRYABLE && job.attemptCount in RETRY_DELAYS then
      var at := now + RETRY_DELAYS[job.attemptCount];
      job.(status := RetryWait, availableAt := at, readySince := at, lastError := Some(message))
    else
      job.(status := FailedFinal, completedAt := Some(now), lastError := Some(message))
  }

  /** The dead letters after a failure of `j`. */
  function SettledLetters(db: Db, j: JobId, failure: FailureType, message: string, now: Time): map<JobId, DeadLetter>
    requires j in db.jobs
  {
    var job := db.jobs[j];
    if (failure in RETRYABLE && job.attemptCount in RETRY_DELAYS) || j in db.deadLetters then db.deadLetters
    else
      var reason := if failure.Permanent? then PermanentFailure else RetriesExhausted;
      db.deadLetters[j := DeadLetter(job.tenant, reason, Open, message, job.attemptCount, now, None, None)]
  }

  function Settled(db: Db, j: JobId, failure: FailureType, message: string, now: Time): Db
    requires j in db.jobs
  {
    db.(jobs := db.jobs[j := SettledJob(db.jobs[j], failure, message, now)],
        deadLetters := SettledLetters(db, j, failure, message, now))
  }

  function Finalized(db: Db, j: JobId, failure: FailureType, message: string, now: Time): Db {
    if j !in db.jobs || db.jobs[j].tenant !in db.sched then db
    else Execution.Released(Settled(db, j, failure, message, now), j)
  }

  method FinalizeFailure(db: Database, j: JobId, failure: FailureType, message: string, now: Time)
    returns (r: Outcome<()>)
    modifies db
    ensures db.View() == Finalized(old(db.View()), j, failure, message, now)
    ensures r.Ok? <==> j in old(db.jobs) && old(db.jobs[j].tenant in db.sched)
  {
    hide Execution.Released;
    var saved := db.View();
    if j !in db.jobs {
      return Raised(DoesNotExist);
    }
    var job := db.jobs[j];
    var canRetry := failure in RETRYABLE && job.attemptCount in RETRY_DELAYS;
    if canRetry {
      var delay := RETRY_DELAYS[job.attemptCount];
      job := job.(status := RetryWait, availableAt := now + delay);
      job := job.(readySince := job.availableAt);
    } else {
      job := job.(status := FailedFinal, completedAt := Some(now));
      if j !in db.deadLetters {
        var reason := if failure.Permanent? then PermanentFailure else RetriesExhausted;
        db.deadLetters := db.deadLetters[j :=
          DeadLetter(job.tenant, reason, Open, message, job.attemptCount, now, None, None)];
      }
    }
    job := job.(lastError := Some(message));
    db.jobs := db.jobs[j := job];

    var released := Execution.ReleaseCapacity(db, j);
    if !released {
      db.Restore(saved);
      return Raised(DoesNotExist);
    }
    return Ok(());
  }

  /** The attempt as `fail_attempt` leaves it: unlike `fail_job`, it records no traceback. */
  function FailedAttempt(attempt: Attempt, message: string, failure: FailureType, now: Time): Attempt {
    attempt.(status := AttemptStatus.Failed, failureType := Some(failure), error := Some(message), finishedAt := Some(now))
  }

  function AttemptFailed(db: Db, a: AttemptId, message: string, failure: FailureType, now: Time): Db {
    if !Execution.Finishable(db, a) then db
    else Finalized(db.(attempts := db.attempts[a := FailedAttempt(db.attempts[a], message, failure, now)]),
                   a.job, failure, message, now)
  }

  method FailAttempt(db: Database, a: AttemptId, message: string, failure: FailureType, now: Time)
    returns (r: Outcome<()>)
    modifies db
    ensures db.View() == AttemptFailed(old(db.View()), a, message, failure, now)
    ensures r.Ok? <==> Execution.Finishable(old(db.View()), a)
  {
    var saved := db.View();
    if a !in db.attempts {
      return Raised(DoesNotExist);
    }
    var attempt := db.attempts[a];
    attempt := attempt.(status := AttemptStatus.Failed, failureType := Some(failure));
    attempt := attempt.(error := Some(message), finishedAt := Some(now));
    db.attempts := db.attempts[a := attempt];
    r := FinalizeFailure(db, a.job, failure, message, now);
    if r.Raised? {
      db.Restore(saved);
    }
  }

  /** The rows `fail_job` writes are those of the shared rule, with a traceback on the attempt. */
  lemma FailureRowsAgree(db: Db, a: AttemptId, message: string, traceback: string, failure: FailureType, now: Time)
    requires Execution.Finishable(db, a)
    ensures var attempt := FailedAttempt(db.attempts[a], message, failure, now).(traceback := Some(traceback));
      Execution.FailedRows(db, a, message, traceback, failure, now)
        == Settled(db.(attempts := db.attempts[a := attempt]), a.job, failure, message, now)
  {
  }

  /** The two copies of the rule agree: from the same tables at the same time, `fail_job` leaves what
    * `fail_attempt` leaves, save for the traceback on the attempt.
    */
  lemma FailurePathsAgree(db: Db, a: AttemptId, message: string, traceback: string, failure: FailureType, now: Time)
    ensures var viaWorker := Execution.Failed(db, a, message, traceback, failure, now);
      var viaService := AttemptFailed(db, a, message, failure, now);
      if Execution.Finishable(db, a)
      then viaWorker == viaService.(attempts := viaService.attempts[a := viaService.attempts[a].(traceback := Some(traceback))])
      else viaWorker == viaService == db
  {
    if Execution.Finishable(db, a) {
      FailureRowsAgree(db, a, message, traceback, failure, now);
      hide Execution.FailedRows, SettledJob, SettledLetters;
      var viaService := AttemptFailed(db, a, message, failure, now);
      var attempt := FailedAttempt(db.attempts[a], message, failure, now).(traceback := Some(traceback));
      assert viaService.attempts[a := attempt] == db.attempts[a := attempt];
    }
  }
}
