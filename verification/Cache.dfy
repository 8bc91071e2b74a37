/** The cached readiness of a tenant against its jobs, over every run. */
module Cache {
  import opened Tables
  import opened Protocol
  import opened Safety
  import opened Steps
  import opened SchedulerState
  import Cancellation
  import DeadLetters
  import Dispatcher
  import Execution
  import Failure
  import Reconciliation
  import Retry
  import Submission

  /** The step ends with a refresh of the scheduler row of `t`. */
  ghost predicate Refreshes(w: World, s: Step, t: TenantId) {
    match s.action
    case Submit(_, req, uuid) => t == req.tenant && !Submission.KeyTaken(w.db, req.tenant, Submission.KeyOf(req, uuid))
    case Recover(j) => !Execution.NoWayOut(w.db, j) && w.db.jobs[j].status.Queued? && t == w.db.jobs[j].tenant
    case Promote(rows, _, _) => t in Retry.TenantsOf(w.db.jobs, rows)
    case Replay(j, _, key) => !DeadLetters.ReplayRaises(w.db, j, key) && t == w.db.jobs[j].tenant
    case Refresh(u) => t == u
    case _ => false
  }

  /** The cached fields say exactly what the job table says at `time`. */
  ghost predicate CacheExact(db: Db, t: TenantId, time: Time) {
    && t in db.sched
    && (db.sched[t].hasReady <==> ReadyJobs(db, t, time) != {})
    && db.sched[t].highest == Least(Priorities(db, t, time))
    && db.sched[t].nextReadyAt == Least(AvailableTimes(db, t))
  }

  /** No waiting job is lost: the cache was refreshed at `last`, `nextReadyAt` is no later than any waiting
    * job, and a job that was due at the refresh shows as ready work of at least its priority.
    */
  ghost predicate CacheCovers(db: Db, t: TenantId, last: Option<Time>) {
    forall j :: j in WaitingJobs(db, t) ==> Covered(db, t, last, db.jobs[j])
  }

  ghost predicate Covered(db: Db, t: TenantId, last: Option<Time>, job: Job) {
    && last.Some? && t in db.sched
    && db.sched[t].nextReadyAt.Some? && db.sched[t].nextReadyAt.value <= job.availableAt
    && (job.availableAt <= last.value ==>
          db.sched[t].hasReady && db.sched[t].highest.Some? && db.sched[t].highest.value <= job.priority)
  }

  lemma ExactCovers(db: Db, t: TenantId, time: Time)
    requires CacheExact(db, t, time)
    ensures CacheCovers(db, t, Some(time))
  {
    forall j | j in WaitingJobs(db, t)
      ensures Covered(db, t, Some(time), db.jobs[j])
    {
      assert db.jobs[j].availableAt in AvailableTimes(db, t);
      if db.jobs[j].availableAt <= time {
        assert j in ReadyJobs(db, t, time) && db.jobs[j].priority in Priorities(db, t, time);
      }
    }
  }

  lemma RefreshIsExact(db: Db, tenants: set<TenantId>, t: TenantId, now: Time)
    requires t in tenants
    ensures CacheExact(RefreshAll(db, tenants, now), t, now)
  {
    var after := RefreshAll(db, tenants, now);
    assert WaitingJobs(after, t) == WaitingJobs(db, t);
    assert ReadyJobs(after, t, now) == ReadyJobs(db, t, now);
    assert Priorities(after, t, now) == Priorities(db, t, now);
    assert AvailableTimes(after, t) == AvailableTimes(db, t);
  }

  /** Right after a refresh the three cached fields are exact. */
  lemma ExactAfterRefresh(w: World, s: Step, t: TenantId)
    requires Refreshes(w, s, t)
    ensures CacheExact(Apply(w.db, s), t, s.now)
  {
    hide CacheExact, RefreshAll, Submission.KeyTaken, Execution.Released, Retry.PromotedJobs;
    match s.action {
      case Submit(id, req, uuid) =>
        RefreshIsExact(Submission.Inserted(w.db, id, req, Submission.KeyOf(req, uuid), s.now), {req.tenant}, t, s.now);
      case Recover(j) =>
        RecoveredRows(w.db, j, s.now);
        RefreshIsExact(Execution.Released(Reconciliation.RecoveredRows(w.db, j, s.now), j), {w.db.jobs[j].tenant}, t, s.now);
      case Promote(rows, _, _) =>
        RefreshIsExact(w.db.(jobs := Retry.PromotedJobs(w.db.jobs, rows, s.now)), Retry.TenantsOf(w.db.jobs, rows), t, s.now);
      case Replay(j, id, key) =>
        RefreshIsExact(DeadLetters.ReplayedRows(w.db, j, id, key, s.now), {w.db.jobs[j].tenant}, t, s.now);
      case Refresh(u) => RefreshIsExact(w.db, {u}, t, s.now);
    }
  }

  // ---- Steps that refresh another tenant, or none --------------------------------------------

  ghost predicate SameCache(before: map<TenantId, SchedRow>, after: map<TenantId, SchedRow>, t: TenantId) {
    t in before ==>
      && t in after && after[t].hasReady == before[t].hasReady
      && after[t].highest == before[t].highest && after[t].nextReadyAt == before[t].nextReadyAt
  }

  lemma CompleteKeepsCache(db: Db, a: AttemptId, result: string, now: Time, t: TenantId)
    ensures SameCache(db.sched, Execution.Completed(db, a, result, now).sched, t)
  {
    hide Execution.SucceededJob;
  }

  lemma FailKeepsCache(db: Db, a: AttemptId, message: string, traceback: string, failure: FailureType, now: Time, t: TenantId)
    ensures SameCache(db.sched, Execution.Failed(db, a, message, traceback, failure, now).sched, t)
  {
    hide Execution.Buried;
  }

  lemma FailureKeepsCache(w: World, s: Step, t: TenantId)
    requires s.action.FailService? || s.action.Reap?
    ensures SameCache(w.db.sched, Apply(w.db, s).sched, t)
  {
    hide Failure.SettledJob, Failure.SettledLetters;
  }

  lemma RecoverKeepsCache(db: Db, j: JobId, now: Time, t: TenantId)
    requires j in db.jobs ==> t != db.jobs[j].tenant || !db.jobs[j].status.Queued?
    ensures SameCache(db.sched, Reconciliation.Recovered(db, j, now).sched, t)
  {
    hide RefreshedRow;
  }

  lemma AddingKeepsCache(w: World, s: Step, t: TenantId)
    requires s.action.Submit? || s.action.Replay?
    requires !Refreshes(w, s, t)
    ensures SameCache(w.db.sched, Apply(w.db, s).sched, t)
  {
    hide RefreshedRow, Submission.KeyTaken;
  }

  lemma RefreshingKeepsCache(w: World, s: Step, t: TenantId)
    requires s.action.Promote? || s.action.Refresh?
    requires !Refreshes(w, s, t)
    ensures SameCache(w.db.sched, Apply(w.db, s).sched, t)
  {
    hide RefreshedRow, Retry.PromotedJobs;
  }

  lemma OtherKeepsCache(w: World, s: Step, t: TenantId)
    requires s.action.Cancel? || s.action.Beat? || s.action.Publish? || s.action.Claim? || s.action.Dispatch?
    ensures SameCache(w.db.sched, Apply(w.db, s).sched, t)
  {
    hide Cancellation.CancelledJob, Execution.ClaimedJob, Dispatcher.FirstFree;
  }

  lemma CacheFieldsKept(w: World, s: Step, t: TenantId)
    requires !Refreshes(w, s, t)
    ensures SameCache(w.db.sched, Apply(w.db, s).sched, t)
  {
    hide SameCache, Submission.KeyTaken;
    match s.action {
      case Complete(a, result) => CompleteKeepsCache(w.db, a, result, s.now, t);
      case Fail(a, message, traceback, failure) => FailKeepsCache(w.db, a, message, traceback, failure, s.now, t);
      case FailService(_, _, _) => FailureKeepsCache(w, s, t);
      case Reap(_) => FailureKeepsCache(w, s, t);
      case Recover(j) =>
        if Execution.NoWayOut(w.db, j) {
          SameAsItself(w.db.sched, t);
        } else {
          RecoverKeepsCache(w.db, j, s.now, t);
        }
      case Submit(_, _, _) => AddingKeepsCache(w, s, t);
      case Replay(_, _, _) => AddingKeepsCache(w, s, t);
      case Promote(_, _, _) => RefreshingKeepsCache(w, s, t);
      case Refresh(_) => RefreshingKeepsCache(w, s, t);
      case Cancel(_) => OtherKeepsCache(w, s, t);
      case Beat(_) => OtherKeepsCache(w, s, t);
      case Publish(_, _) => OtherKeepsCache(w, s, t);
      case Claim(_) => OtherKeepsCache(w, s, t);
      case Dispatch(_, _, _) => OtherKeepsCache(w, s, t);
    }
  }

  lemma SameAsItself(sched: map<TenantId, SchedRow>, t: TenantId)
    ensures SameCache(sched, sched, t)
  {
  }

  /** Without a refresh of `t`, none of its jobs starts waiting, and those that wait keep their time. */
  lemma WaitingBefore(w: World, s: Step, t: TenantId, j: JobId)
    requires SlotsMatch(w.db.jobs, w.db.reservations) && Legal(w, s, false) && !Refreshes(w, s, t)
    requires j in WaitingJobs(Apply(w.db, s), t)
    ensures j in WaitingJobs(w.db, t)
    ensures Apply(w.db, s).jobs[j].availableAt == w.db.jobs[j].availableAt && Apply(w.db, s).jobs[j].priority == w.db.jobs[j].priority
  {
    hide SlotsMatch, Legal, Apply, Submission.KeyTaken;
    var job := Apply(w.db, s).jobs[j];
    if j in w.db.jobs {
      JobStep(w, s, j);
      if job != w.db.jobs[j] {
        StartsWaiting(w, s, j, job);
        RecoverChanges(w, s, j);
      }
    } else {
      NewJobStep(w, s, j);
    }
  }

  lemma StartsWaiting(w: World, s: Step, j: JobId, job: Job)
    requires j in w.db.jobs && Changes(w, s, j, job) && job.status.Waiting? && job != w.db.jobs[j]
    ensures (s.action == Recover(j) && w.db.jobs[j].status.Queued?) || (s.action.Promote? && j in s.action.rows)
    ensures job.tenant == w.db.jobs[j].tenant
  {
  }

  /** A recovery that does not raise refreshes the tenant; one that raises changes nothing. */
  lemma RecoverChanges(w: World, s: Step, j: JobId)
    requires s.action == Recover(j) ==> j in Apply(w.db, s).jobs && j in w.db.jobs && Apply(w.db, s).jobs[j] != w.db.jobs[j]
    ensures s.action == Recover(j) ==> Refreshes(w, s, w.db.jobs[j].tenant)
  {
    if s.action == Recover(j) {
      RecoveredRows(w.db, j, s.now);
    }
  }

  /** Every step keeps the cache covering all waiting jobs, `last` being the time of the last refresh. */
  lemma CacheStep(w: World, s: Step, t: TenantId, last: Option<Time>)
    requires SlotsMatch(w.db.jobs, w.db.reservations) && Legal(w, s, false) && CacheCovers(w.db, t, last)
    ensures CacheCovers(Apply(w.db, s), t, if Refreshes(w, s, t) then Some(s.now) else last)
  {
    hide SlotsMatch, Legal, Apply, Refreshes;
    var after := Apply(w.db, s);
    if Refreshes(w, s, t) {
      ExactAfterRefresh(w, s, t);
      ExactCovers(after, t, s.now);
    } else {
      CacheFieldsKept(w, s, t);
      forall j | j in WaitingJobs(after, t)
        ensures Covered(after, t, last, after.jobs[j])
      {
        WaitingBefore(w, s, t, j);
        assert Covered(w.db, t, last, w.db.jobs[j]);
      }
    }
  }

  /** The row was refreshed at `last`; if it says that nothing is ready, what waited then was not yet due. */
  ghost predicate CacheAsOf(sched: map<TenantId, SchedRow>, t: TenantId, last: Option<Time>) {
    last.Some? ==>
      && t in sched
      && (!sched[t].hasReady && sched[t].nextReadyAt.Some? ==> last.value < sched[t].nextReadyAt.value)
  }

  lemma ExactAsOf(db: Db, t: TenantId, time: Time)
    requires CacheExact(db, t, time)
    ensures CacheAsOf(db.sched, t, Some(time))
  {
    var first := Least(AvailableTimes(db, t));
    if first.Some? {
      var j :| j in WaitingJobs(db, t) && db.jobs[j].availableAt == first.value;
      assert first.value <= time ==> j in ReadyJobs(db, t, time);
    }
  }

  lemma AsOfStep(w: World, s: Step, t: TenantId, last: Option<Time>)
    requires Legal(w, s, false) && CacheAsOf(w.db.sched, t, last)
    ensures CacheAsOf(Apply(w.db, s).sched, t, if Refreshes(w, s, t) then Some(s.now) else last)
  {
    hide Legal, Apply, Refreshes, CacheExact;
    if Refreshes(w, s, t) {
      ExactAfterRefresh(w, s, t);
      ExactAsOf(Apply(w.db, s), t, s.now);
    } else {
      CacheFieldsKept(w, s, t);
    }
  }

  /** The fields stay exact as of the last refresh while no job of the tenant stops waiting. */
  lemma ExactStep(w: World, s: Step, t: TenantId, last: Time)
    requires SlotsMatch(w.db.jobs, w.db.reservations) && Legal(w, s, false) && !Refreshes(w, s, t)
    requires CacheExact(w.db, t, last) && WaitingJobs(w.db, t) <= WaitingJobs(Apply(w.db, s), t)
    ensures CacheExact(Apply(w.db, s), t, last)
  {
    var after := Apply(w.db, s);
    hide SlotsMatch, Legal, Apply, Refreshes;
    CacheFieldsKept(w, s, t);
    forall j | j in WaitingJobs(after, t)
      ensures j in WaitingJobs(w.db, t)
      ensures after.jobs[j].availableAt == w.db.jobs[j].availableAt && after.jobs[j].priority == w.db.jobs[j].priority
    {
      WaitingBefore(w, s, t, j);
    }
    SameWaiting(w.db, after, t, last);
  }

  lemma SameWaiting(db: Db, after: Db, t: TenantId, time: Time)
    requires WaitingJobs(db, t) == WaitingJobs(after, t)
    requires forall j :: j in WaitingJobs(db, t) ==>
      after.jobs[j].availableAt == db.jobs[j].availableAt && after.jobs[j].priority == db.jobs[j].priority
    ensures ReadyJobs(db, t, time) == ReadyJobs(after, t, time)
    ensures Priorities(db, t, time) == Priorities(after, t, time) && AvailableTimes(db, t) == AvailableTimes(after, t)
  {
    assert ReadyJobs(db, t, time) == ReadyJobs(after, t, time);
    assert Priorities(db, t, time) == Priorities(after, t, time);
    assert AvailableTimes(db, t) == AvailableTimes(after, t);
  }

  /** What the cache can miss. With fields exact at `last`, work that is due at `now` shows as none exactly
    * when none of it was due at `last`: nothing refreshes the row when a later `availableAt` arrives.
    */
  lemma DueWorkHiddenIff(db: Db, t: TenantId, last: Time, now: Time)
    requires CacheExact(db, t, last) && last <= now
    ensures !db.sched[t].hasReady && ReadyJobs(db, t, now) != {} <==>
      (db.sched[t].nextReadyAt.Some? && last < db.sched[t].nextReadyAt.value <= now)
  {
    var first := Least(AvailableTimes(db, t));
    if ReadyJobs(db, t, now) != {} {
      var j :| j in ReadyJobs(db, t, now);
      assert db.jobs[j].availableAt in AvailableTimes(db, t);
    }
    if first.Some? {
      var j :| j in WaitingJobs(db, t) && db.jobs[j].availableAt == first.value;
      assert first.value <= now ==> j in ReadyJobs(db, t, now);
      assert first.value <= last ==> j in ReadyJobs(db, t, last);
      if ReadyJobs(db, t, last) != {} {
        var i :| i in ReadyJobs(db, t, last);
        assert db.jobs[i].availableAt in AvailableTimes(db, t);
      }
    }
  }
}
