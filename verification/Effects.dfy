/** What each service writes, value by value: the rows it leaves, in terms of the columns alone. */
module Effects {
  import opened Tables
  import Cancellation
  import DeadLetters
  import Dispatcher
  import Execution
  import Failure
  import Heartbeat
  import Outbox
  import Reconciliation
  import Retry
  import SchedulerState
  import Submission

  // ---- Giving up a slot ----------------------------------------------------------------------

  /** The reservation and the locks of `j` are gone, nobody else's are, and the counter of its tenant is one
    * lower if it was above 0; no other counter moved.
    */
  ghost predicate SlotGivenUp(db: Db, after: Db, j: JobId)
    requires j in db.jobs
  {
    && after.reservations == (map i | i in db.reservations && i != j :: db.reservations[i])
    && after.locks == (map k | k in db.locks && db.locks[k] != j :: db.locks[k])
    && after.tenants == db.tenants && after.sched.Keys == db.sched.Keys
    && forall t :: t in db.sched ==>
      after.sched[t].active ==
        if t == db.jobs[j].tenant && db.sched[t].active > 0 then db.sched[t].active - 1 else db.sched[t].active
  }

  lemma ReleaseLeaves(db: Db, mid: Db, j: JobId)
    requires j in db.jobs && j in mid.jobs && mid.jobs[j].tenant == db.jobs[j].tenant && db.jobs[j].tenant in db.sched
    requires mid.tenants == db.tenants && mid.reservations == db.reservations && mid.locks == db.locks && mid.sched == db.sched
    ensures SlotGivenUp(db, Execution.Released(mid, j), j)
  {
  }

  // ---- Workers -------------------------------------------------------------------------------

  lemma ClaimLeaves(db: Db, j: JobId, now: Time)
    ensures var after := Execution.Claimed(db, j, now);
      if j in db.jobs && db.jobs[j].status == Queued && AttemptId(j, db.jobs[j].attemptCount + 1) !in db.attempts
      then
        var job := db.jobs[j];
        after == db.(
          jobs := db.jobs[j := job.(
            status := Executing, attemptCount := job.attemptCount + 1,
            startedAt := if job.startedAt == None then Some(now) else job.startedAt)],
          attempts := db.attempts[AttemptId(j, job.attemptCount + 1) :=
            Attempt(Running, None, None, None, now, None, now, now + 300 * SECOND)])
      else after == db
  {
  }

  lemma CompleteLeaves(db: Db, a: AttemptId, result: string, now: Time)
    requires a in db.attempts && a.job in db.jobs && db.jobs[a.job].tenant in db.sched
    ensures var after := Execution.Completed(db, a, result, now);
      && after.attempts == db.attempts[a := db.attempts[a].(status := AttemptStatus.Succeeded, finishedAt := Some(now))]
      && after.jobs == db.jobs[a.job := db.jobs[a.job].(
           status := JobStatus.Succeeded, result := Some(result), completedAt := Some(now))]
      && after.outbox == db.outbox && after.deadLetters == db.deadLetters && SlotGivenUp(db, after, a.job)
  {
    ReleaseLeaves(db, Execution.SucceededRows(db, a, result, now), a.job);
    hide SlotGivenUp;
  }

  /** Job `j` failed: it is retried 3, 5 or 10 seconds after its first, second or third attempt, unless the
    * failure is permanent; otherwise it failed for good, and has a dead letter from now on.
    */
  ghost predicate Fails(db: Db, after: Db, j: JobId, failure: FailureType, message: string, now: Time)
    requires j in db.jobs
  {
    var job := db.jobs[j];
    if failure != Permanent && 1 <= job.attemptCount <= 3 then
      var due := now + (if job.attemptCount == 1 then 3 * SECOND else if job.attemptCount == 2 then 5 * SECOND else 10 * SECOND);
      && after.jobs == db.jobs[j := job.(
           status := RetryWait, availableAt := due, readySince := due, lastError := Some(message))]
      && after.deadLetters == db.deadLetters
    else
      && after.jobs == db.jobs[j := job.(
           status := FailedFinal, completedAt := Some(now), lastError := Some(message))]
      && after.deadLetters == (if j in db.deadLetters then db.deadLetters else db.deadLetters[j :=
           DeadLetter(job.tenant, if failure == Permanent then PermanentFailure else RetriesExhausted, Open,
                      message, job.attemptCount, now, None, None)])
  }

  lemma FinalizeLeaves(db: Db, j: JobId, failure: FailureType, message: string, now: Time)
    requires j in db.jobs && db.jobs[j].tenant in db.sched
    ensures var after := Failure.Finalized(db, j, failure, message, now);
      && Fails(db, after, j, failure, message, now) && SlotGivenUp(db, after, j)
      && after.attempts == db.attempts && after.outbox == db.outbox
  {
    ReleaseLeaves(db, Failure.Settled(db, j, failure, message, now), j);
    hide SlotGivenUp;
  }

  lemma FailLeaves(db: Db, a: AttemptId, message: string, traceback: string, failure: FailureType, now: Time)
    requires a in db.attempts && a.job in db.jobs && db.jobs[a.job].tenant in db.sched
    ensures var after := Execution.Failed(db, a, message, traceback, failure, now);
      && Fails(db, after, a.job, failure, message, now) && SlotGivenUp(db, after, a.job)
      && after.attempts == db.attempts[a := db.attempts[a].(
           status := AttemptStatus.Failed, failureType := Some(failure), error := Some(message),
           traceback := Some(traceback), finishedAt := Some(now))]
      && after.outbox == db.outbox
  {
    hide SlotGivenUp, Fails, Execution.FailedRows;
    FailedRowsFail(db, a, message, traceback, failure, now);
    ReleaseLeaves(db, Execution.FailedRows(db, a, message, traceback, failure, now), a.job);
    SameFailure(db, Execution.FailedRows(db, a, message, traceback, failure, now),
                Execution.Failed(db, a, message, traceback, failure, now), a.job, failure, message, now);
  }

  lemma FailedRowsFail(db: Db, a: AttemptId, message: string, traceback: string, failure: FailureType, now: Time)
    requires a in db.attempts && a.job in db.jobs && db.jobs[a.job].tenant in db.sched
    ensures var after := Execution.FailedRows(db, a, message, traceback, failure, now);
      && Fails(db, after, a.job, failure, message, now) && after.outbox == db.outbox
      && after.attempts == db.attempts[a := db.attempts[a].(
           status := AttemptStatus.Failed, failureType := Some(failure), error := Some(message),
           traceback := Some(traceback), finishedAt := Some(now))]
      && a.job in after.jobs && after.jobs[a.job].tenant == db.jobs[a.job].tenant
      && after.tenants == db.tenants
      && after.reservations == db.reservations && after.locks == db.locks && after.sched == db.sched
  {
  }

  lemma SameFailure(db: Db, mid: Db, after: Db, j: JobId, failure: FailureType, message: string, now: Time)
    requires j in db.jobs && Fails(db, mid, j, failure, message, now)
    requires after.jobs == mid.jobs && after.deadLetters == mid.deadLetters
    ensures Fails(db, after, j, failure, message, now)
  {
  }

  lemma FailAttemptLeaves(db: Db, a: AttemptId, message: string, failure: FailureType, now: Time)
    requires a in db.attempts && a.job in db.jobs && db.jobs[a.job].tenant in db.sched
    ensures var after := Failure.AttemptFailed(db, a, message, failure, now);
      && Fails(db, after, a.job, failure, message, now) && SlotGivenUp(db, after, a.job)
      && after.attempts == db.attempts[a := db.attempts[a].(
           status := AttemptStatus.Failed, failureType := Some(failure), error := Some(message), finishedAt := Some(now))]
      && after.outbox == db.outbox
  {
    hide Failure.Finalized, Fails, SlotGivenUp;
    var mid := db.(attempts := db.attempts[a := Failure.FailedAttempt(db.attempts[a], message, failure, now)]);
    FinalizeLeaves(mid, a.job, failure, message, now);
    SameRows(db, mid, Failure.AttemptFailed(db, a, message, failure, now), a.job, failure, message, now);
  }

  lemma SameRows(db: Db, mid: Db, after: Db, j: JobId, failure: FailureType, message: string, now: Time)
    requires j in db.jobs && mid == db.(attempts := mid.attempts)
    requires Fails(mid, after, j, failure, message, now) && SlotGivenUp(mid, after, j)
    ensures Fails(db, after, j, failure, message, now) && SlotGivenUp(db, after, j)
  {
  }

  // ---- Reaper --------------------------------------------------------------------------------

  lemma ReapLeaves(db: Db, a: AttemptId, now: Time)
    requires a in db.attempts && db.attempts[a].status == Running && a.job in db.jobs && db.jobs[a.job].tenant in db.sched
    ensures var after := Reconciliation.Reaped(db, a, now);
      && Fails(db, after, a.job, Infrastructure, "Worker lease expired", now) && SlotGivenUp(db, after, a.job)
      && after.attempts == db.attempts[a := db.attempts[a].(
           status := Abandoned, finishedAt := Some(now), failureType := Some(Infrastructure))]
      && after.outbox == db.outbox
  {
    hide Failure.Finalized, Fails, SlotGivenUp;
    var mid := db.(attempts := db.attempts[a := Reconciliation.AbandonedAttempt(db.attempts[a], now)]);
    FinalizeLeaves(mid, a.job, Infrastructure, "Worker lease expired", now);
    SameRows(db, mid, Reconciliation.Reaped(db, a, now), a.job, Infrastructure, "Worker lease expired", now);
  }

  lemma RecoverLeaves(db: Db, j: JobId, now: Time)
    requires j in db.jobs && db.jobs[j].status == Queued && db.jobs[j].tenant in db.sched
    ensures var after := Reconciliation.Recovered(db, j, now);
      && after.jobs == db.jobs[j := db.jobs[j].(status := Waiting, readySince := now)]
      && after.attempts == db.attempts && after.outbox == db.outbox && after.deadLetters == db.deadLetters
      && SlotGivenUp(db, after, j)
  {
    hide SchedulerState.WaitingJobs, SchedulerState.ReadyJobs, SchedulerState.Priorities, SchedulerState.AvailableTimes;
  }

  // ---- Scheduler -----------------------------------------------------------------------------

  lemma DispatchLeaves(db: Db, t: TenantId, rows: seq<JobId>, now: Time)
    requires forall j :: j in rows ==> j in db.jobs
    requires Dispatcher.Choice(db, t, rows).Some? && Dispatcher.Choice(db, t, rows).value !in db.reservations
    ensures var j := Dispatcher.Choice(db, t, rows).value;
      var job, row := db.jobs[j], db.sched[t];
      Dispatcher.Dispatched(db, t, rows, now) == db.(
        jobs := db.jobs[j := job.(status := Queued, queuedAt := Some(now))],
        reservations := db.reservations[j := Reservation(t, now + 300 * SECOND)],
        locks := if job.payload.overlapKey == "" then db.locks else db.locks[LockKey(job.tenant, job.payload.overlapKey) := j],
        outbox := db.outbox + [OutboxRow(j, Pending, now, None, 0, None)],
        sched := db.sched[t := row.(active := row.active + 1, lastDispatchedAt := Some(now))])
  {
  }

  lemma PromoteLeaves(db: Db, rows: seq<JobId>, now: Time, j: JobId)
    requires j in db.jobs
    ensures var after := Retry.Promoted(db, rows, now);
      && j in after.jobs
      && after.jobs[j] == (if j in rows then db.jobs[j].(status := Waiting, readySince := now) else db.jobs[j])
      && after == db.(jobs := after.jobs, sched := after.sched) && after.jobs.Keys == db.jobs.Keys
  {
    hide SchedulerState.RefreshedRow;
  }

  /** The cached row of a tenant after a refresh, in terms of its waiting jobs. */
  lemma RefreshLeaves(db: Db, t: TenantId, now: Time)
    ensures var after := SchedulerState.RefreshAll(db, {t}, now);
      && after == db.(sched := after.sched) && t in after.sched
      && (forall u :: u in db.sched && u != t ==> u in after.sched && after.sched[u] == db.sched[u])
      && after.sched[t].active == (if t in db.sched then db.sched[t].active else 0)
      && (after.sched[t].hasReady <==>
           exists j :: j in db.jobs && db.jobs[j].tenant == t && db.jobs[j].status == Waiting && db.jobs[j].availableAt <= now)
  {
    var ready := SchedulerState.ReadyJobs(db, t, now);
    assert ready != {} ==> exists j :: j in ready;
    assert forall j :: j in ready <==>
      j in db.jobs && db.jobs[j].tenant == t && db.jobs[j].status == Waiting && db.jobs[j].availableAt <= now;
    hide SchedulerState.WaitingJobs, SchedulerState.ReadyJobs, SchedulerState.Priorities, SchedulerState.AvailableTimes;
  }

  /** The two cached columns that a query orders by: attained by a waiting job, and by none beaten. */
  lemma RefreshFindsFirst(db: Db, t: TenantId, now: Time, j: JobId)
    requires j in db.jobs && db.jobs[j].tenant == t && db.jobs[j].status == Waiting
    ensures var after := SchedulerState.RefreshAll(db, {t}, now);
      && t in after.sched
      && after.sched[t].nextReadyAt.Some? && after.sched[t].nextReadyAt.value <= db.jobs[j].availableAt
      && (exists i :: i in db.jobs && db.jobs[i].tenant == t && db.jobs[i].status == Waiting
            && db.jobs[i].availableAt == after.sched[t].nextReadyAt.value)
      && (db.jobs[j].availableAt <= now ==>
           after.sched[t].highest.Some? && after.sched[t].highest.value <= db.jobs[j].priority)
  {
    LeastTime(db, t, j);
    LeastPriority(db, t, now, j);
    hide SchedulerState.WaitingJobs, SchedulerState.ReadyJobs, SchedulerState.Priorities, SchedulerState.AvailableTimes;
  }

  lemma LeastTime(db: Db, t: TenantId, j: JobId)
    requires j in db.jobs && db.jobs[j].tenant == t && db.jobs[j].status == Waiting
    ensures var next := SchedulerState.Least(SchedulerState.AvailableTimes(db, t));
      && next.Some? && next.value <= db.jobs[j].availableAt
      && exists i :: i in db.jobs && db.jobs[i].tenant == t && db.jobs[i].status == Waiting && db.jobs[i].availableAt == next.value
  {
    assert j in SchedulerState.WaitingJobs(db, t);
    assert db.jobs[j].availableAt in SchedulerState.AvailableTimes(db, t);
    var next := SchedulerState.Least(SchedulerState.AvailableTimes(db, t)).value;
    var i :| i in SchedulerState.WaitingJobs(db, t) && db.jobs[i].availableAt == next;
  }

  lemma LeastPriority(db: Db, t: TenantId, now: Time, j: JobId)
    requires j in db.jobs && db.jobs[j].tenant == t && db.jobs[j].status == Waiting
    ensures var least := SchedulerState.Least(SchedulerState.Priorities(db, t, now));
      db.jobs[j].availableAt <= now ==> least.Some? && least.value <= db.jobs[j].priority
  {
    if db.jobs[j].availableAt <= now {
      assert j in SchedulerState.ReadyJobs(db, t, now);
      assert db.jobs[j].priority in SchedulerState.Priorities(db, t, now);
    }
  }

  /** A priority is cached exactly while a job is ready, and some ready job has it. */
  lemma RefreshedPriority(db: Db, t: TenantId, now: Time)
    ensures var after := SchedulerState.RefreshAll(db, {t}, now);
      && t in after.sched && (after.sched[t].highest.Some? <==> after.sched[t].hasReady)
      && (after.sched[t].highest.Some? ==>
           exists i :: i in db.jobs && db.jobs[i].tenant == t && db.jobs[i].status == Waiting
             && db.jobs[i].availableAt <= now && db.jobs[i].priority == after.sched[t].highest.value)
  {
    var ready := SchedulerState.ReadyJobs(db, t, now);
    var least := SchedulerState.Least(SchedulerState.Priorities(db, t, now));
    if ready != {} {
      var j :| j in ready;
      assert db.jobs[j].priority in SchedulerState.Priorities(db, t, now);
      var i :| i in ready && db.jobs[i].priority == least.value;
    } else {
      assert SchedulerState.Priorities(db, t, now) == {};
    }
  }

  // ---- Publisher -----------------------------------------------------------------------------

  /** A pending event whose send is accepted is published from then on; in every other case no row changes. */
  lemma PublishLeaves(db: Db, e: nat, delivery: Outbox.Delivery, now: Time)
    ensures var after := Outbox.PublishedOne(db, e, delivery, now);
      if e < |db.outbox| && db.outbox[e].status == Pending && delivery == Outbox.Accepted
      then after == db.(outbox := db.outbox[e := db.outbox[e].(status := Published, publishedAt := Some(now))])
      else after == db
    ensures var sent := Outbox.SentOne(db, {}, e, delivery);
      e in sent <==> e < |db.outbox| && db.outbox[e].status == Pending && delivery != Outbox.Refused
  {
  }

  // ---- Clients and operators -----------------------------------------------------------------

  /** Cancelling by status: what waits or is queued is cancelled, what runs is asked to stop, and a job that
    * is asked already or has ended stays as it is.
    */
  lemma CancelLeaves(db: Db, j: JobId, now: Time)
    requires j in db.jobs && (db.jobs[j].status == Queued ==> db.jobs[j].tenant in db.sched)
    ensures var after, job := Cancellation.CancelledBy(db, j, now), db.jobs[j];
      && (job.status == Waiting || job.status == RetryWait || job.status == Queued ==>
           after.jobs == db.jobs[j := job.(status := JobStatus.Cancelled, cancelledAt := Some(now))])
      && (job.status == Executing ==> after.jobs == db.jobs[j := job.(status := CancelRequested)])
      && (job.status in {CancelRequested, JobStatus.Succeeded, FailedFinal, JobStatus.Cancelled} ==> after.jobs == db.jobs)
      && (if job.status == Queued then SlotGivenUp(db, after, j)
          else after.reservations == db.reservations && after.locks == db.locks && after.sched == db.sched)
      && after.attempts == db.attempts && after.outbox == db.outbox && after.deadLetters == db.deadLetters
  {
    if db.jobs[j].status == Queued {
      var mid := db.(jobs := db.jobs[j := db.jobs[j].(status := JobStatus.Cancelled, cancelledAt := Some(now))]);
      ReleaseLeaves(db, mid, j);
    }
    hide SlotGivenUp;
  }

  /** A request with a key that the tenant has used adds nothing; any other adds the job it asks for. */
  lemma SubmitLeaves(db: Db, id: JobId, req: Submission.Request, uuid: string, now: Time)
    requires id !in db.jobs
    ensures var after := Submission.Submitted(db, id, req, uuid, now);
      var key := if req.key == "" then uuid else req.key;
      var at := if req.availableAt == None then now else req.availableAt.value;
      if exists j :: j in db.jobs && db.jobs[j].tenant == req.tenant && db.jobs[j].key == key then after == db
      else
        && after.jobs == db.jobs[id := Job(req.tenant, req.jobType, req.priority, req.payload, key, Waiting, at, at, 0,
                                           None, None, None, None, None, None)]
        && after == db.(jobs := after.jobs, sched := after.sched)
  {
    hide Submission.KeyTaken, SchedulerState.RefreshAll;
    var key := if req.key == "" then uuid else req.key;
    TakenMeans(db, req.tenant, key);
    RefreshKeeps(Submission.Inserted(db, id, req, key, now), {req.tenant}, now);
  }

  lemma TakenMeans(db: Db, t: TenantId, key: string)
    ensures Submission.KeyTaken(db, t, key) <==>
      exists j :: j in db.jobs && db.jobs[j].tenant == t && db.jobs[j].key == key
  {
    if j :| j in db.jobs && db.jobs[j].tenant == t && db.jobs[j].key == key {
      assert Submission.HasKey(db, j, t, key);
    }
  }

  lemma RefreshKeeps(db: Db, tenants: set<TenantId>, now: Time)
    ensures var after := SchedulerState.RefreshAll(db, tenants, now);
      after == db.(sched := after.sched)
  {
    hide SchedulerState.RefreshedRow;
  }

  /** The copy of a dead job waits from now on under its own key, and the letter names it. */
  lemma ReplayLeaves(db: Db, j: JobId, id: JobId, key: string, now: Time)
    requires j in db.deadLetters && j in db.jobs && id !in db.jobs
    requires forall i :: i in db.jobs && db.jobs[i].tenant == db.jobs[j].tenant ==> db.jobs[i].key != key
    ensures var after, source := DeadLetters.Replayed(db, j, id, key, now), db.jobs[j];
      && after.jobs == db.jobs[id := Job(source.tenant, source.jobType, source.priority, source.payload, key, Waiting, now, now, 0,
                                         None, None, None, None, None, None)]
      && after.deadLetters == db.deadLetters[j := db.deadLetters[j].(
           status := DeadLetterStatus.Replayed, replayedJob := Some(id), replayedAt := Some(now))]
      && after == db.(jobs := after.jobs, deadLetters := after.deadLetters, sched := after.sched)
  {
    assert !Submission.KeyTaken(db, db.jobs[j].tenant, key);
    hide Submission.KeyTaken, SchedulerState.RefreshedRow;
  }

  /** A heartbeat of a running attempt renews its lease and the reservation of its job, if there is one. */
  lemma BeatLeaves(db: Db, a: AttemptId, now: Time)
    ensures var after := Heartbeat.Beaten(db, a, now);
      if a in db.attempts && db.attempts[a].status == Running
      then
        && after == db.(attempts := after.attempts, reservations := after.reservations)
        && after.attempts == db.attempts[a := db.attempts[a].(heartbeatAt := now, leaseExpiresAt := now + 300 * SECOND)]
        && after.reservations == (if a.job in db.reservations
             then db.reservations[a.job := Reservation(db.reservations[a.job].tenant, now + 300 * SECOND)] else db.reservations)
      else after == db
  {
  }
}
