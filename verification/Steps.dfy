/** What one step can do to one row, in every run. */
module Steps {
  import opened Tables
  import opened Protocol
  import opened Safety
  import Execution
  import Failure
  import Dispatcher
  import Retry
  import Reconciliation
  import Outbox
  import Heartbeat
  import Cancellation
  import Submission
  import DeadLetters

  // ---- The tables other than slots and counters after each service ---------------------------

  ghost predicate Rows(after: Db, jobs: map<JobId, Job>, attempts: map<AttemptId, Attempt>, outbox: seq<OutboxRow>,
                       letters: map<JobId, DeadLetter>) {
    after.jobs == jobs && after.attempts == attempts && after.outbox == outbox && after.deadLetters == letters
  }

  lemma CompletedRows(db: Db, a: AttemptId, result: string, now: Time)
    ensures var after := Execution.Completed(db, a, result, now);
      if Execution.Finishable(db, a)
      then Rows(after, db.jobs[a.job := Execution.SucceededJob(db.jobs[a.job], result, now)],
                db.attempts[a := db.attempts[a].(status := AttemptStatus.Succeeded, finishedAt := Some(now))],
                db.outbox, db.deadLetters)
      else after == db
  {
  }

  /** The attempt a failing worker, or the failure service, writes. */
  function FailedAttempt(attempt: Attempt, message: string, traceback: Option<string>, failure: FailureType, now: Time): Attempt {
    var failed := Failure.FailedAttempt(attempt, message, failure, now);
    if traceback.Some? then failed.(traceback := traceback) else failed
  }

  ghost predicate SettledRows(db: Db, after: Db, a: AttemptId, attempt: Attempt, failure: FailureType, message: string, now: Time)
    requires a.job in db.jobs
  {
    Rows(after, db.jobs[a.job := Failure.SettledJob(db.jobs[a.job], failure, message, now)], db.attempts[a := attempt],
         db.outbox, Failure.SettledLetters(db, a.job, failure, message, now))
  }

  lemma FinalizedRows(db: Db, a: AttemptId, attempt: Attempt, failure: FailureType, message: string, now: Time)
    requires Execution.Finishable(db, a)
    ensures SettledRows(db, Failure.Finalized(db.(attempts := db.attempts[a := attempt]), a.job, failure, message, now),
                        a, attempt, failure, message, now)
  {
    hide Failure.SettledJob;
  }

  lemma FailedRows(db: Db, a: AttemptId, message: string, traceback: string, failure: FailureType, now: Time)
    ensures var after := Execution.Failed(db, a, message, traceback, failure, now);
      if Execution.Finishable(db, a)
      then SettledRows(db, after, a, FailedAttempt(db.attempts[a], message, Some(traceback), failure, now), failure, message, now)
      else after == db
  {
    if Execution.Finishable(db, a) {
      hide Execution.FailedRows, Failure.SettledJob, Failure.SettledLetters;
      Failure.FailureRowsAgree(db, a, message, traceback, failure, now);
      FinalizedRows(db, a, FailedAttempt(db.attempts[a], message, Some(traceback), failure, now), failure, message, now);
    }
  }

  lemma AttemptFailedRows(db: Db, a: AttemptId, message: string, failure: FailureType, now: Time)
    ensures var after := Failure.AttemptFailed(db, a, message, failure, now);
      if Execution.Finishable(db, a)
      then SettledRows(db, after, a, FailedAttempt(db.attempts[a], message, None, failure, now), failure, message, now)
      else after == db
  {
    hide Failure.SettledJob, Failure.SettledLetters, SettledRows, Failure.Finalized;
    if Execution.Finishable(db, a) {
      FinalizedRows(db, a, FailedAttempt(db.attempts[a], message, None, failure, now), failure, message, now);
    }
  }

  lemma ReapedRows(db: Db, a: AttemptId, now: Time)
    ensures var after := Reconciliation.Reaped(db, a, now);
      if RunningAttempt(db, a) && Execution.Finishable(db, a)
      then SettledRows(db, after, a, Reconciliation.AbandonedAttempt(db.attempts[a], now), Infrastructure, "Worker lease expired", now)
      else after == db
  {
    hide Failure.SettledJob, Failure.SettledLetters, SettledRows, Failure.Finalized;
    if RunningAttempt(db, a) && Execution.Finishable(db, a) {
      FinalizedRows(db, a, Reconciliation.AbandonedAttempt(db.attempts[a], now), Infrastructure, "Worker lease expired", now);
    }
  }

  lemma RecoveredRows(db: Db, j: JobId, now: Time)
    ensures var after := Reconciliation.Recovered(db, j, now);
      if !Execution.NoWayOut(db, j) && db.jobs[j].status.Queued?
      then Rows(after, db.jobs[j := Reconciliation.RecoveredJob(db.jobs[j], now)], db.attempts, db.outbox, db.deadLetters)
      else after == db
  {
  }

  lemma CancelledRows(db: Db, j: JobId, now: Time)
    ensures var after := Cancellation.CancelledBy(db, j, now);
      if Execution.NoWayOut(db, j) then after == db
      else Rows(after, db.jobs[j := Cancellation.CancelledJob(db.jobs[j], now)], db.attempts, db.outbox, db.deadLetters)
  {
    hide Cancellation.CancelledJob;
  }

  lemma DispatchedRows(db: Db, t: TenantId, rows: seq<JobId>, skipped: set<JobId>, now: Time)
    requires SlotsMatch(db.jobs, db.reservations)
    requires IsPage(rows, Dispatcher.Candidates(db, t, now, skipped), Dispatcher.CANDIDATE_LIMIT)
    ensures forall j :: j in rows ==> j in db.jobs
    ensures var after := Dispatcher.Dispatched(db, t, rows, now);
      match Dispatcher.Choice(db, t, rows)
      case None => after == db
      case Some(j) =>
        Dispatchable(db, t, j) && j in Dispatcher.Candidates(db, t, now, skipped) && after == Dispatcher.Enqueued(db, t, j, now)
  {
    ChoiceIsFree(db, t, rows, skipped, now);
  }

  lemma PromotedRows(db: Db, rows: seq<JobId>, now: Time)
    ensures Rows(Retry.Promoted(db, rows, now), Retry.PromotedJobs(db.jobs, rows, now), db.attempts, db.outbox, db.deadLetters)
  {
  }

  lemma SubmittedRows(db: Db, id: JobId, req: Submission.Request, uuid: string, now: Time)
    ensures var after := Submission.Submitted(db, id, req, uuid, now);
      if Submission.KeyTaken(db, req.tenant, Submission.KeyOf(req, uuid)) then after == db
      else Rows(after, db.jobs[id := Submission.RequestedJob(req, Submission.KeyOf(req, uuid), now)], db.attempts, db.outbox, db.deadLetters)
  {
    hide Submission.KeyTaken;
  }

  lemma ReplayedRows(db: Db, j: JobId, id: JobId, key: string, now: Time)
    ensures var after := DeadLetters.Replayed(db, j, id, key, now);
      if DeadLetters.ReplayRaises(db, j, key) then after == db
      else Rows(after, db.jobs[id := DeadLetters.CopiedJob(db.jobs[j], key, now)], db.attempts, db.outbox,
                db.deadLetters[j := DeadLetters.MarkedLetter(db.deadLetters[j], id, now)])
  {
    hide Submission.KeyTaken;
  }

  /** Makes the rows after a step known, whatever the step. */
  lemma StepRows(w: World, s: Step)
    requires SlotsMatch(w.db.jobs, w.db.reservations) && Legal(w, s, false)
    ensures RowsAfter(w, s, Apply(w.db, s))
  {
    hide SlotsMatch, IsPage, Execution.Completed, Execution.Failed, Failure.AttemptFailed, Reconciliation.Reaped,
      Reconciliation.Recovered, Cancellation.CancelledBy, Dispatcher.Dispatched, Retry.Promoted, Submission.Submitted,
      DeadLetters.Replayed, SettledRows, Dispatchable;
    match s.action {
      case Submit(id, req, uuid) => SubmittedRows(w.db, id, req, uuid, s.now);
      case Dispatch(t, rows, skipped) => DispatchedRows(w.db, t, rows, skipped, s.now);
      case Complete(a, result) => CompletedRows(w.db, a, result, s.now);
      case Fail(a, message, traceback, failure) => FailedRows(w.db, a, message, traceback, failure, s.now);
      case FailService(a, message, failure) => AttemptFailedRows(w.db, a, message, failure, s.now);
      case Reap(a) => ReapedRows(w.db, a, s.now);
      case Recover(j) => RecoveredRows(w.db, j, s.now);
      case Promote(rows, _, _) => PromotedRows(w.db, rows, s.now);
      case Cancel(j) => CancelledRows(w.db, j, s.now);
      case Replay(letter, id, key) => ReplayedRows(w.db, letter, id, key, s.now);
      case Publish(_, _) =>
      case Claim(_) =>
      case Beat(_) =>
      case Refresh(_) =>
    }
  }

  /** What each step leaves in the tables of jobs, attempts, events and dead letters. */
  ghost predicate RowsAfter(w: World, s: Step, after: Db) {
    var db := w.db;
    match s.action
    case Submit(id, req, uuid) =>
      var key := Submission.KeyOf(req, uuid);
      if Submission.KeyTaken(db, req.tenant, key) then after == db
      else Rows(after, db.jobs[id := Submission.RequestedJob(req, key, s.now)], db.attempts, db.outbox, db.deadLetters)
    case Dispatch(t, rows, skipped) =>
      (forall j :: j in rows ==> j in db.jobs) &&
      (match Dispatcher.Choice(db, t, rows)
       case None => after == db
       case Some(j) =>
         Dispatchable(db, t, j) && j in Dispatcher.Candidates(db, t, s.now, skipped) && after == Dispatcher.Enqueued(db, t, j, s.now))
    case Publish(e, delivery) => after == Outbox.PublishedOne(db, e, delivery, s.now)
    case Claim(message) => message < |db.outbox| && after == Execution.Claimed(db, db.outbox[message].job, s.now)
    case Beat(a) => after == Heartbeat.Beaten(db, a, s.now)
    case Complete(a, result) =>
      if Execution.Finishable(db, a)
      then Rows(after, db.jobs[a.job := Execution.SucceededJob(db.jobs[a.job], result, s.now)],
                db.attempts[a := db.attempts[a].(status := AttemptStatus.Succeeded, finishedAt := Some(s.now))],
                db.outbox, db.deadLetters)
      else after == db
    case Fail(a, message, traceback, failure) =>
      if Execution.Finishable(db, a)
      then SettledRows(db, after, a, FailedAttempt(db.attempts[a], message, Some(traceback), failure, s.now), failure, message, s.now)
      else after == db
    case FailService(a, message, failure) =>
      if Execution.Finishable(db, a)
      then SettledRows(db, after, a, FailedAttempt(db.attempts[a], message, None, failure, s.now), failure, message, s.now)
      else after == db
    case Reap(a) =>
      if RunningAttempt(db, a) && Execution.Finishable(db, a)
      then SettledRows(db, after, a, Reconciliation.AbandonedAttempt(db.attempts[a], s.now), Infrastructure, "Worker lease expired", s.now)
      else after == db
    case Recover(j) =>
      if !Execution.NoWayOut(db, j) && db.jobs[j].status.Queued?
      then Rows(after, db.jobs[j := Reconciliation.RecoveredJob(db.jobs[j], s.now)], db.attempts, db.outbox, db.deadLetters)
      else after == db
    case Promote(rows, _, _) =>
      Rows(after, Retry.PromotedJobs(db.jobs, rows, s.now), db.attempts, db.outbox, db.deadLetters)
    case Cancel(j) =>
      if Execution.NoWayOut(db, j) then after == db
      else Rows(after, db.jobs[j := Cancellation.CancelledJob(db.jobs[j], s.now)], db.attempts, db.outbox, db.deadLetters)
    case Replay(j, id, key) =>
      if DeadLetters.ReplayRaises(db, j, key) then after == db
      else Rows(after, db.jobs[id := DeadLetters.CopiedJob(db.jobs[j], key, s.now)], db.attempts, db.outbox,
                db.deadLetters[j := DeadLetters.MarkedLetter(db.deadLetters[j], id, s.now)])
    case Refresh(_) => Rows(after, db.jobs, db.attempts, db.outbox, db.deadLetters)
  }

  // ---- One job -------------------------------------------------------------------------------

  /** How step `s` may change job `j`, besides leaving it as it is. */
  ghost predicate Changes(w: World, s: Step, j: JobId, after: Job)
    requires j in w.db.jobs
  {
    var before := w.db.jobs[j];
    match s.action
    case Dispatch(t, _, skipped) =>
      before.status.Waiting? && before.availableAt <= s.now && before.tenant == t && j !in skipped
      && after == Dispatcher.QueuedJob(before, s.now)
    case Claim(_) => before.status.Queued? && after == Execution.ClaimedJob(before, s.now)
    case Complete(a, result) => j == a.job && a in w.db.attempts && after == Execution.SucceededJob(before, result, s.now)
    case Fail(a, message, _, failure) =>
      j == a.job && a in w.db.attempts && after == Failure.SettledJob(before, failure, message, s.now)
    case FailService(a, message, failure) =>
      j == a.job && a in w.db.attempts && after == Failure.SettledJob(before, failure, message, s.now)
    case Reap(a) =>
      j == a.job && RunningAttempt(w.db, a) && after == Failure.SettledJob(before, Infrastructure, "Worker lease expired", s.now)
    case Recover(k) => j == k && before.status.Queued? && after == Reconciliation.RecoveredJob(before, s.now)
    case Promote(rows, _, _) =>
      j in rows && before.status.RetryWait? && before.availableAt <= s.now && after == Retry.PromotedJob(before, s.now)
    case Cancel(k) => j == k && after == Cancellation.CancelledJob(before, s.now)
    case Submit(_, _, _) => false
    case Publish(_, _) => false
    case Beat(_) => false
    case Replay(_, _, _) => false
    case Refresh(_) => false
  }

  /** A job after a step: still there, and as the step's service leaves it. */
  ghost predicate JobAfter(w: World, s: Step, j: JobId, after: Db)
    requires j in w.db.jobs
  {
    j in after.jobs && (after.jobs[j] == w.db.jobs[j] || Changes(w, s, j, after.jobs[j]))
  }

  lemma DispatchJob(w: World, s: Step, j: JobId, after: Db)
    requires s.action.Dispatch? && RowsAfter(w, s, after) && j in w.db.jobs
    ensures JobAfter(w, s, j, after)
  {
    hide Dispatcher.Choice;
  }

  lemma FinishJob(w: World, s: Step, j: JobId, after: Db)
    requires s.action.Complete? || s.action.Fail? || s.action.FailService? || s.action.Reap?
    requires RowsAfter(w, s, after) && j in w.db.jobs
    ensures JobAfter(w, s, j, after)
  {
    hide Failure.SettledJob, Failure.SettledLetters, Execution.SucceededJob;
  }

  lemma MoveJob(w: World, s: Step, j: JobId, after: Db)
    requires s.action.Recover? || s.action.Cancel? || s.action.Claim?
    requires RowsAfter(w, s, after) && j in w.db.jobs
    ensures JobAfter(w, s, j, after)
  {
    hide Cancellation.CancelledJob, Execution.ClaimedJob;
  }

  lemma PromoteJob(w: World, s: Step, j: JobId, after: Db)
    requires s.action.Promote? && RowsAfter(w, s, after) && j in w.db.jobs
    requires forall i :: i in s.action.rows ==> i in w.db.jobs && w.db.jobs[i].status.RetryWait? && w.db.jobs[i].availableAt <= s.now
    ensures JobAfter(w, s, j, after)
  {
  }

  lemma OtherJob(w: World, s: Step, j: JobId, after: Db)
    requires s.action.Submit? || s.action.Replay? || s.action.Publish? || s.action.Beat? || s.action.Refresh?
    requires Legal(w, s, false) && RowsAfter(w, s, after) && j in w.db.jobs
    ensures JobAfter(w, s, j, after)
  {
    hide IsPage, Submission.KeyTaken;
  }

  /** No step removes a job, and what a step does to a job is what its service says. */
  lemma JobStep(w: World, s: Step, j: JobId)
    requires SlotsMatch(w.db.jobs, w.db.reservations) && Legal(w, s, false) && j in w.db.jobs
    ensures JobAfter(w, s, j, Apply(w.db, s))
  {
    hide SlotsMatch, IsPage, RowsAfter, Apply, JobAfter;
    StepRows(w, s);
    var after := Apply(w.db, s);
    match s.action {
      case Dispatch(_, _, _) => DispatchJob(w, s, j, after);
      case Complete(_, _) => FinishJob(w, s, j, after);
      case Fail(_, _, _, _) => FinishJob(w, s, j, after);
      case FailService(_, _, _) => FinishJob(w, s, j, after);
      case Reap(_) => FinishJob(w, s, j, after);
      case Recover(_) => MoveJob(w, s, j, after);
      case Cancel(_) => MoveJob(w, s, j, after);
      case Claim(_) => MoveJob(w, s, j, after);
      case Promote(rows, skipped, limit) =>
        Retry.DueRows(w.db, rows, skipped, limit, s.now);
        PromoteJob(w, s, j, after);
      case Submit(_, _, _) => OtherJob(w, s, j, after);
      case Replay(_, _, _) => OtherJob(w, s, j, after);
      case Publish(_, _) => OtherJob(w, s, j, after);
      case Beat(_) => OtherJob(w, s, j, after);
      case Refresh(_) => OtherJob(w, s, j, after);
    }
  }

  lemma ChangesKeepIdentity(w: World, s: Step, j: JobId, after: Job)
    requires j in w.db.jobs && Changes(w, s, j, after)
    ensures SameIdentity(w.db.jobs[j], after)
  {
  }

  /** Tenant, payload, priority, type and key of a job never change. */
  lemma IdentityStep(w: World, s: Step, j: JobId)
    requires SlotsMatch(w.db.jobs, w.db.reservations) && Legal(w, s, false) && j in w.db.jobs
    ensures j in Apply(w.db, s).jobs && SameIdentity(w.db.jobs[j], Apply(w.db, s).jobs[j])
  {
    hide SlotsMatch, Legal, Apply, Changes;
    JobStep(w, s, j);
    if Apply(w.db, s).jobs[j] != w.db.jobs[j] {
      ChangesKeepIdentity(w, s, j, Apply(w.db, s).jobs[j]);
    }
  }

  /** How a step adds a job: a request or a replay with an unused key, waiting and without attempts. */
  ghost predicate Adds(w: World, s: Step, j: JobId, job: Job) {
    match s.action
    case Submit(id, req, uuid) =>
      j == id && job == Submission.RequestedJob(req, Submission.KeyOf(req, uuid), s.now)
      && !Submission.KeyTaken(w.db, job.tenant, job.key)
    case Replay(letter, id, key) =>
      j == id && letter in w.db.jobs && letter in w.db.deadLetters
      && job == DeadLetters.CopiedJob(w.db.jobs[letter], key, s.now)
      && !Submission.KeyTaken(w.db, job.tenant, job.key)
    case _ => false
  }

  lemma AddedJob(w: World, s: Step, j: JobId, after: Db)
    requires s.action.Submit? || s.action.Replay?
    requires RowsAfter(w, s, after) && j in after.jobs && j !in w.db.jobs
    ensures Adds(w, s, j, after.jobs[j])
  {
    hide Submission.KeyTaken;
  }

  lemma FinishKeepsKeys(w: World, s: Step, after: Db)
    requires s.action.Complete? || s.action.Fail? || s.action.FailService? || s.action.Reap?
    requires RowsAfter(w, s, after)
    ensures after.jobs.Keys == w.db.jobs.Keys
  {
    hide Failure.SettledJob, Failure.SettledLetters, Execution.SucceededJob;
  }

  lemma MoveKeepsKeys(w: World, s: Step, after: Db)
    requires s.action.Recover? || s.action.Cancel? || s.action.Claim?
    requires RowsAfter(w, s, after)
    ensures after.jobs.Keys == w.db.jobs.Keys
  {
    hide Cancellation.CancelledJob, Execution.ClaimedJob;
  }

  lemma DispatchKeepsKeys(w: World, s: Step, after: Db)
    requires s.action.Dispatch? && RowsAfter(w, s, after)
    ensures after.jobs.Keys == w.db.jobs.Keys
  {
    hide Dispatcher.Choice, Dispatcher.Candidates;
  }

  lemma OtherKeepsKeys(w: World, s: Step, after: Db)
    requires s.action.Promote? || s.action.Publish? || s.action.Beat? || s.action.Refresh?
    requires RowsAfter(w, s, after)
    ensures after.jobs.Keys == w.db.jobs.Keys
  {
  }

  lemma NewJobStep(w: World, s: Step, j: JobId)
    requires SlotsMatch(w.db.jobs, w.db.reservations) && Legal(w, s, false)
    requires j in Apply(w.db, s).jobs && j !in w.db.jobs
    ensures Adds(w, s, j, Apply(w.db, s).jobs[j])
  {
    hide SlotsMatch, IsPage, RowsAfter, Apply, Adds;
    StepRows(w, s);
    var after := Apply(w.db, s);
    if s.action.Submit? || s.action.Replay? {
      AddedJob(w, s, j, after);
    } else if s.action.Complete? || s.action.Fail? || s.action.FailService? || s.action.Reap? {
      FinishKeepsKeys(w, s, after);
    } else if s.action.Recover? || s.action.Cancel? || s.action.Claim? {
      MoveKeepsKeys(w, s, after);
    } else if s.action.Dispatch? {
      DispatchKeepsKeys(w, s, after);
    } else {
      OtherKeepsKeys(w, s, after);
    }
  }

  // ---- One attempt ---------------------------------------------------------------------------

  /** How step `s` may change attempt `a`, besides leaving it as it is. */
  ghost predicate AttemptChanges(w: World, s: Step, a: AttemptId, after: Attempt)
    requires a in w.db.attempts
  {
    var before := w.db.attempts[a];
    match s.action
    case Beat(b) => a == b && before.status.Running? && after == before.(heartbeatAt := s.now, leaseExpiresAt := s.now + LEASE)
    case Complete(b, _) => a == b && after == before.(status := AttemptStatus.Succeeded, finishedAt := Some(s.now))
    case Fail(b, message, traceback, failure) => a == b && after == FailedAttempt(before, message, Some(traceback), failure, s.now)
    case FailService(b, message, failure) => a == b && after == FailedAttempt(before, message, None, failure, s.now)
    case Reap(b) => a == b && before.status.Running? && after == Reconciliation.AbandonedAttempt(before, s.now)
    case _ => false
  }

  /** A new attempt is the next one of a queued job that a worker claims. */
  ghost predicate Starts(w: World, s: Step, a: AttemptId, attempt: Attempt) {
    s.action.Claim? && s.action.message < |w.db.outbox| && a.job == w.db.outbox[s.action.message].job
    && Execution.Claimable(w.db, a.job) && a == Execution.NextAttempt(w.db, a.job) && attempt == Execution.StartedAttempt(s.now)
  }

  ghost predicate AttemptsAfter(w: World, s: Step, after: Db) {
    && (forall a :: a in w.db.attempts ==>
          a in after.attempts && (after.attempts[a] == w.db.attempts[a] || AttemptChanges(w, s, a, after.attempts[a])))
    && (forall a :: a in after.attempts && a !in w.db.attempts ==> Starts(w, s, a, after.attempts[a]))
  }

  lemma FinishAttempts(w: World, s: Step, after: Db)
    requires s.action.Complete? || s.action.Fail? || s.action.FailService? || s.action.Reap?
    requires RowsAfter(w, s, after)
    ensures AttemptsAfter(w, s, after)
  {
    hide Failure.SettledJob, Failure.SettledLetters, Execution.SucceededJob, FailedAttempt;
  }

  lemma OtherAttempts(w: World, s: Step, after: Db)
    requires !(s.action.Complete? || s.action.Fail? || s.action.FailService? || s.action.Reap? || s.action.Claim? || s.action.Beat?)
    requires RowsAfter(w, s, after)
    ensures after.attempts == w.db.attempts
  {
    hide Cancellation.CancelledJob, Dispatcher.Choice, Dispatcher.Candidates, Submission.KeyTaken, Dispatchable;
  }

  lemma BeatAttempt(w: World, s: Step, after: Db)
    requires s.action.Beat? && RowsAfter(w, s, after)
    ensures AttemptsAfter(w, s, after)
  {
  }

  lemma SameAttempts(w: World, s: Step, after: Db)
    requires after.attempts == w.db.attempts
    ensures AttemptsAfter(w, s, after)
  {
  }

  lemma ClaimAttemptRows(w: World, s: Step, after: Db)
    requires s.action.Claim? && RowsAfter(w, s, after) && AttemptsMatch(w.db.jobs, w.db.attempts)
    ensures AttemptsAfter(w, s, after)
  {
    hide AttemptsMatch, AttemptsAfter, Execution.ClaimedJob;
    var j := w.db.outbox[s.action.message].job;
    if Execution.Claimable(w.db, j) {
      NextAttemptIsNew(w.db, j);
      StartedAttemptRows(w, s, j, after);
    } else {
      SameAttempts(w, s, after);
    }
  }

  lemma StartedAttemptRows(w: World, s: Step, j: JobId, after: Db)
    requires s.action.Claim? && s.action.message < |w.db.outbox| && j == w.db.outbox[s.action.message].job
    requires Execution.Claimable(w.db, j) && Execution.NextAttempt(w.db, j) !in w.db.attempts
    requires after.attempts == w.db.attempts[Execution.NextAttempt(w.db, j) := Execution.StartedAttempt(s.now)]
    ensures AttemptsAfter(w, s, after)
  {
  }

  /** No step removes an attempt; a step changes or starts attempts only as its service says. */
  lemma AttemptStep(w: World, s: Step)
    requires SlotsMatch(w.db.jobs, w.db.reservations) && AttemptsMatch(w.db.jobs, w.db.attempts) && Legal(w, s, false)
    ensures AttemptsAfter(w, s, Apply(w.db, s))
  {
    hide SlotsMatch, AttemptsMatch, IsPage, RowsAfter, Apply, AttemptsAfter;
    StepRows(w, s);
    var after := Apply(w.db, s);
    if s.action.Complete? || s.action.Fail? || s.action.FailService? || s.action.Reap? {
      FinishAttempts(w, s, after);
    } else if s.action.Claim? {
      ClaimAttemptRows(w, s, after);
    } else if s.action.Beat? {
      BeatAttempt(w, s, after);
    } else {
      OtherAttempts(w, s, after);
      SameAttempts(w, s, after);
    }
  }

  // ---- Events and dead letters ---------------------------------------------------------------

  /** The attempt that a step fails, and why. */
  function FailureOf(action: Action): Option<(AttemptId, FailureType)> {
    match action
    case Fail(a, _, _, failure) => Some((a, failure))
    case FailService(a, _, failure) => Some((a, failure))
    case Reap(a) => Some((a, Infrastructure))
    case _ => None
  }

  ghost predicate OutboxAfter(w: World, s: Step, after: Db) {
    match s.action
    case Dispatch(t, rows, skipped) =>
      || (after.outbox == w.db.outbox && after.jobs == w.db.jobs)
      || (exists j :: j in w.db.jobs && w.db.jobs[j].status.Waiting?
            && after.jobs == w.db.jobs[j := Dispatcher.QueuedJob(w.db.jobs[j], s.now)]
            && after.outbox == w.db.outbox + [OutboxRow(j, Pending, s.now, None, 0, None)])
    case Publish(e, delivery) =>
      after.jobs == w.db.jobs && after.outbox == Outbox.PublishedOne(w.db, e, delivery, s.now).outbox
    case _ => after.outbox == w.db.outbox
  }

  lemma FinishOutbox(w: World, s: Step, after: Db)
    requires s.action.Complete? || s.action.Fail? || s.action.FailService? || s.action.Reap?
    requires RowsAfter(w, s, after)
    ensures OutboxAfter(w, s, after)
  {
    hide Failure.SettledJob, Failure.SettledLetters, Execution.SucceededJob, FailedAttempt;
  }

  lemma OtherOutbox(w: World, s: Step, after: Db)
    requires !(s.action.Complete? || s.action.Fail? || s.action.FailService? || s.action.Reap?)
    requires RowsAfter(w, s, after)
    ensures OutboxAfter(w, s, after)
  {
    hide Cancellation.CancelledJob, Execution.ClaimedJob, Dispatcher.Candidates, Submission.KeyTaken;
  }

  /** Only a dispatch adds an event, for the job it queues; only a publication changes one. */
  lemma OutboxStep(w: World, s: Step)
    requires SlotsMatch(w.db.jobs, w.db.reservations) && Legal(w, s, false)
    ensures OutboxAfter(w, s, Apply(w.db, s))
  {
    hide SlotsMatch, IsPage, RowsAfter, Apply, OutboxAfter;
    StepRows(w, s);
    var after := Apply(w.db, s);
    if s.action.Complete? || s.action.Fail? || s.action.FailService? || s.action.Reap? {
      FinishOutbox(w, s, after);
    } else {
      OtherOutbox(w, s, after);
    }
  }

  /** A dead letter is written when its job fails for good, and marked when it is replayed. */
  ghost predicate LettersAfter(w: World, s: Step, after: Db) {
    && (forall j :: j in w.db.deadLetters ==>
          && j in after.deadLetters
          && (after.deadLetters[j] == w.db.deadLetters[j]
              || (s.action.Replay? && after.deadLetters[j] == DeadLetters.MarkedLetter(w.db.deadLetters[j], s.action.id, s.now))))
    && (forall j :: j in after.deadLetters && j !in w.db.deadLetters ==>
          FailureOf(s.action).Some? && j == FailureOf(s.action).value.0.job && j in w.db.jobs && j in after.jobs
          && after.jobs[j].status.FailedFinal? && after.jobs[j].attemptCount == w.db.jobs[j].attemptCount
          && after.deadLetters[j].createdAt == s.now && after.deadLetters[j].lastAttempt == w.db.jobs[j].attemptCount
          && (FailureOf(s.action).value.1.Permanent? <==> after.deadLetters[j].reason.PermanentFailure?))
  }

  lemma SettledLettersAfter(w: World, s: Step, a: AttemptId, attempt: Attempt, failure: FailureType, message: string, after: Db)
    requires FailureOf(s.action) == Some((a, failure)) && a.job in w.db.jobs
    requires SettledRows(w.db, after, a, attempt, failure, message, s.now)
    ensures LettersAfter(w, s, after)
  {
  }

  lemma FinishLetters(w: World, s: Step, after: Db)
    requires s.action.Complete? || s.action.Fail? || s.action.FailService? || s.action.Reap?
    requires RowsAfter(w, s, after)
    ensures LettersAfter(w, s, after)
  {
    hide FailedAttempt, SettledRows, LettersAfter;
    if after.deadLetters == w.db.deadLetters {
      SameLetters(w, s, after);
    } else {
      match s.action {
        case Fail(a, message, traceback, failure) =>
          SettledLettersAfter(w, s, a, FailedAttempt(w.db.attempts[a], message, Some(traceback), failure, s.now), failure, message, after);
        case FailService(a, message, failure) =>
          SettledLettersAfter(w, s, a, FailedAttempt(w.db.attempts[a], message, None, failure, s.now), failure, message, after);
        case Reap(a) =>
          SettledLettersAfter(w, s, a, Reconciliation.AbandonedAttempt(w.db.attempts[a], s.now), Infrastructure, "Worker lease expired", after);
      }
    }
  }

  lemma ReplayLetters(w: World, s: Step, after: Db)
    requires s.action.Replay? && RowsAfter(w, s, after)
    ensures LettersAfter(w, s, after)
  {
    hide Submission.KeyTaken;
  }

  lemma MoveLetters(w: World, s: Step, after: Db)
    requires s.action.Recover? || s.action.Cancel? || s.action.Claim? || s.action.Dispatch?
    requires RowsAfter(w, s, after)
    ensures after.deadLetters == w.db.deadLetters
  {
    hide Cancellation.CancelledJob, Execution.ClaimedJob, Dispatcher.Candidates, Dispatcher.Choice, Dispatchable;
  }

  lemma OtherLetters(w: World, s: Step, after: Db)
    requires s.action.Submit? || s.action.Promote? || s.action.Publish? || s.action.Beat? || s.action.Refresh?
    requires RowsAfter(w, s, after)
    ensures after.deadLetters == w.db.deadLetters
  {
    hide Submission.KeyTaken;
  }

  lemma SameLetters(w: World, s: Step, after: Db)
    requires after.deadLetters == w.db.deadLetters
    ensures LettersAfter(w, s, after)
  {
  }

  lemma LettersStep(w: World, s: Step)
    requires SlotsMatch(w.db.jobs, w.db.reservations) && Legal(w, s, false)
    ensures LettersAfter(w, s, Apply(w.db, s))
  {
    hide SlotsMatch, IsPage, RowsAfter, Apply, LettersAfter;
    StepRows(w, s);
    var after := Apply(w.db, s);
    if s.action.Complete? || s.action.Fail? || s.action.FailService? || s.action.Reap? {
      FinishLetters(w, s, after);
    } else if s.action.Replay? {
      ReplayLetters(w, s, after);
    } else {
      if s.action.Recover? || s.action.Cancel? || s.action.Claim? || s.action.Dispatch? {
        MoveLetters(w, s, after);
      } else {
        OtherLetters(w, s, after);
      }
      SameLetters(w, s, after);
    }
  }
}
