/** How far the slot counter of a tenant can fall behind its reservation rows. */
module Capacity {
  import opened Tables
  import opened Protocol
  import opened Safety
  import Steps
  import Execution
  import Failure
  import Dispatcher
  import Retry
  import Reconciliation
  import Heartbeat
  import Cancellation
  import Submission
  import DeadLetters
  import SchedulerState

  function Counter(sched: map<TenantId, SchedRow>, t: TenantId): nat {
    if t in sched then sched[t].active else 0
  }

  /** Reservation rows that the counter of `t` does not count. */
  ghost function Gap(db: Db, t: TenantId): int {
    |Held(db.reservations, t)| - Counter(db.sched, t)
  }

  /** The job whose slot a step gives back. */
  ghost function ReleasedJob(db: Db, action: Action): Option<JobId> {
    match action
    case Complete(a, _) => if Execution.Finishable(db, a) then Some(a.job) else None
    case Fail(a, _, _, _) => if Execution.Finishable(db, a) then Some(a.job) else None
    case FailService(a, _, _) => if Execution.Finishable(db, a) then Some(a.job) else None
    case Reap(a) => if RunningAttempt(db, a) && Execution.Finishable(db, a) then Some(a.job) else None
    case Recover(j) => if !Execution.NoWayOut(db, j) && db.jobs[j].status.Queued? then Some(j) else None
    case Cancel(j) => if !Execution.NoWayOut(db, j) && db.jobs[j].status.Queued? then Some(j) else None
    case _ => None
  }

  /** The step releases a slot of `t` for a job that holds none. */
  ghost predicate EmptyRelease(db: Db, action: Action, t: TenantId) {
    var j := ReleasedJob(db, action);
    j.Some? && j.value in db.jobs && db.jobs[j.value].tenant == t && j.value !in db.reservations
  }

  /** What releasing the slot of `j` does to the gap of `t`: without a reservation it widens by the one that
    * the counter loses; with one it narrows if the counter was 0 already.
    */
  ghost function ReleaseChange(db: Db, j: JobId, t: TenantId): int
    requires j in db.jobs
  {
    if db.jobs[j].tenant != t then 0
    else if j !in db.reservations then if Counter(db.sched, t) > 0 then 1 else 0
    else if Counter(db.sched, t) > 0 then 0 else -1
  }

  ghost function GapChange(db: Db, action: Action, t: TenantId): int {
    var j := ReleasedJob(db, action);
    if j.Some? && j.value in db.jobs then ReleaseChange(db, j.value, t) else 0
  }

  lemma ReleaseGap(db: Db, mid: Db, j: JobId, t: TenantId)
    requires j in db.jobs && j in mid.jobs && mid.jobs[j].tenant == db.jobs[j].tenant && db.jobs[j].tenant in db.sched
    requires mid.reservations == db.reservations && mid.sched == db.sched
    requires j in db.reservations ==> db.reservations[j].tenant == db.jobs[j].tenant
    ensures Gap(Execution.Released(mid, j), t) == Gap(db, t) + ReleaseChange(db, j, t)
  {
    var after := Execution.Released(mid, j);
    assert Held(after.reservations, t) == if j in db.reservations && db.jobs[j].tenant == t
      then Held(db.reservations, t) - {j} else Held(db.reservations, t);
    assert j in db.reservations && db.jobs[j].tenant == t ==> j in Held(db.reservations, t);
  }

  lemma FinalizedGap(db: Db, attempts: map<AttemptId, Attempt>, j: JobId, failure: FailureType, message: string, now: Time, t: TenantId)
    requires SlotsMatch(db.jobs, db.reservations) && j in db.jobs && db.jobs[j].tenant in db.sched
    ensures Gap(Failure.Finalized(db.(attempts := attempts), j, failure, message, now), t) == Gap(db, t) + ReleaseChange(db, j, t)
  {
    hide Gap, Failure.SettledLetters, Execution.Released, ReleaseChange;
    ReleaseGap(db, Failure.Settled(db.(attempts := attempts), j, failure, message, now), j, t);
  }

  lemma FinishGap(w: World, s: Step, t: TenantId)
    requires s.action.Complete? || s.action.Fail? || s.action.FailService? || s.action.Reap?
    requires SlotsMatch(w.db.jobs, w.db.reservations)
    ensures Gap(Apply(w.db, s), t) == Gap(w.db, t) + GapChange(w.db, s.action, t)
  {
    hide Gap, ReleaseChange, SlotsMatch, Execution.FailedRows, Failure.Finalized, Failure.SettledJob, Failure.SettledLetters;
    var db := w.db;
    match s.action {
      case Complete(a, result) =>
        if Execution.Finishable(db, a) {
          SlotTenant(db, a.job);
          ReleaseGap(db, Execution.SucceededRows(db, a, result, s.now), a.job, t);
        }
      case Fail(a, message, traceback, failure) =>
        if Execution.Finishable(db, a) {
          SlotTenant(db, a.job);
          FailedKeepsSlots(db, a, message, traceback, failure, s.now);
          ReleaseGap(db, Execution.FailedRows(db, a, message, traceback, failure, s.now), a.job, t);
        }
      case FailService(a, message, failure) =>
        if Execution.Finishable(db, a) {
          FinalizedGap(db, db.attempts[a := Failure.FailedAttempt(db.attempts[a], message, failure, s.now)], a.job, failure, message, s.now, t);
        }
      case Reap(a) =>
        if RunningAttempt(db, a) && Execution.Finishable(db, a) {
          FinalizedGap(db, db.attempts[a := Reconciliation.AbandonedAttempt(db.attempts[a], s.now)], a.job, Infrastructure,
                       "Worker lease expired", s.now, t);
        }
    }
  }

  lemma SlotTenant(db: Db, j: JobId)
    requires SlotsMatch(db.jobs, db.reservations) && j in db.jobs
    ensures j in db.reservations ==> db.reservations[j].tenant == db.jobs[j].tenant
    ensures j in db.reservations <==> Active(db.jobs[j].status)
  {
  }

  lemma FailedKeepsSlots(db: Db, a: AttemptId, message: string, traceback: string, failure: FailureType, now: Time)
    requires Execution.Finishable(db, a)
    ensures var mid := Execution.FailedRows(db, a, message, traceback, failure, now);
      a.job in mid.jobs && mid.jobs[a.job].tenant == db.jobs[a.job].tenant && mid.reservations == db.reservations && mid.sched == db.sched
  {
  }

  lemma RefreshGap(db: Db, tenants: set<TenantId>, now: Time, t: TenantId)
    ensures Gap(SchedulerState.RefreshAll(db, tenants, now), t) == Gap(db, t)
  {
    hide Held;
  }

  lemma MoveGap(w: World, s: Step, t: TenantId)
    requires s.action.Recover? || s.action.Cancel?
    requires SlotsMatch(w.db.jobs, w.db.reservations)
    ensures Gap(Apply(w.db, s), t) == Gap(w.db, t) + GapChange(w.db, s.action, t)
  {
    hide Gap, ReleaseChange, SlotsMatch, Cancellation.CancelledJob;
    var db := w.db;
    match s.action {
      case Recover(j) =>
        if !Execution.NoWayOut(db, j) && db.jobs[j].status.Queued? {
          SlotTenant(db, j);
          var mid := Reconciliation.RecoveredRows(db, j, s.now);
          ReleaseGap(db, mid, j, t);
          RefreshGap(Execution.Released(mid, j), {db.jobs[j].tenant}, s.now, t);
        }
      case Cancel(j) =>
        if !Execution.NoWayOut(db, j) {
          SlotTenant(db, j);
          var mid := db.(jobs := db.jobs[j := Cancellation.CancelledJob(db.jobs[j], s.now)]);
          CancelKeepsTenant(db.jobs[j], s.now);
          SameGap(db, mid, t);
          if db.jobs[j].status.Queued? {
            ReleaseGap(db, mid, j, t);
          }
        }
    }
  }

  lemma CancelKeepsTenant(job: Job, now: Time)
    ensures Cancellation.CancelledJob(job, now).tenant == job.tenant
  {
  }

  lemma SameGap(db: Db, after: Db, t: TenantId)
    requires after.reservations == db.reservations && after.sched == db.sched
    ensures Gap(after, t) == Gap(db, t)
  {
  }

  lemma EnqueueGap(db: Db, u: TenantId, j: JobId, now: Time, t: TenantId)
    requires SlotsMatch(db.jobs, db.reservations) && Dispatchable(db, u, j)
    ensures Gap(Dispatcher.Enqueued(db, u, j, now), t) == Gap(db, t)
  {
    EnqueueSlots(db, u, j, now);
    assert j !in Held(db.reservations, u);
    hide Held, SlotsMatch;
    var after := Dispatcher.Enqueued(db, u, j, now);
    assert Held(after.reservations, t) == if t == u then Held(db.reservations, t) + {j} else Held(db.reservations, t);
  }

  lemma BeatGap(db: Db, a: AttemptId, now: Time, t: TenantId)
    ensures Gap(Heartbeat.Beaten(db, a, now), t) == Gap(db, t)
  {
    assert Held(Heartbeat.Beaten(db, a, now).reservations, t) == Held(db.reservations, t);
  }

  /** Steps that end with a refresh and leave every slot as it is. */
  lemma RefreshingGap(w: World, s: Step, t: TenantId)
    requires s.action.Submit? || s.action.Replay? || s.action.Promote? || s.action.Refresh?
    ensures Gap(Apply(w.db, s), t) == Gap(w.db, t)
  {
    hide Gap, Submission.KeyTaken, SchedulerState.RefreshAll, Retry.PromotedJobs;
    var db := w.db;
    match s.action {
      case Submit(id, req, uuid) =>
        var mid := Submission.Inserted(db, id, req, Submission.KeyOf(req, uuid), s.now);
        SameGap(db, mid, t);
        RefreshGap(mid, {req.tenant}, s.now, t);
      case Replay(j, id, key) =>
        if !DeadLetters.ReplayRaises(db, j, key) {
          var mid := DeadLetters.ReplayedRows(db, j, id, key, s.now);
          SameGap(db, mid, t);
          RefreshGap(mid, {db.jobs[j].tenant}, s.now, t);
        }
      case Promote(rows, _, _) =>
        var mid := db.(jobs := Retry.PromotedJobs(db.jobs, rows, s.now));
        SameGap(db, mid, t);
        RefreshGap(mid, Retry.TenantsOf(db.jobs, rows), s.now, t);
      case Refresh(u) => RefreshGap(db, {u}, s.now, t);
    }
  }

  lemma DispatchGap(w: World, s: Step, t: TenantId)
    requires s.action.Dispatch? && SlotsMatch(w.db.jobs, w.db.reservations) && Legal(w, s, false)
    ensures Gap(Apply(w.db, s), t) == Gap(w.db, t)
  {
    hide Gap, SlotsMatch, IsPage, Dispatchable;
    Steps.DispatchedRows(w.db, s.action.tenant, s.action.rows, s.action.skipped, s.now);
    var r := Dispatcher.Choice(w.db, s.action.tenant, s.action.rows);
    if r.Some? {
      EnqueueGap(w.db, s.action.tenant, r.value, s.now, t);
    }
  }

  lemma OtherGap(w: World, s: Step, t: TenantId)
    requires s.action.Beat? || s.action.Publish? || s.action.Claim?
    ensures Gap(Apply(w.db, s), t) == Gap(w.db, t)
  {
    hide Gap;
    match s.action {
      case Beat(a) => BeatGap(w.db, a, s.now, t);
      case Publish(e, delivery) => SameGap(w.db, Apply(w.db, s), t);
      case Claim(message) => SameGap(w.db, Apply(w.db, s), t);
    }
  }

  /** In every run, exactly what a step does to the gap of a tenant. */
  lemma GapStep(w: World, s: Step, t: TenantId)
    requires SlotsMatch(w.db.jobs, w.db.reservations) && Legal(w, s, false)
    ensures Gap(Apply(w.db, s), t) == Gap(w.db, t) + GapChange(w.db, s.action, t)
    ensures GapChange(w.db, s.action, t) <= if EmptyRelease(w.db, s.action, t) then 1 else 0
  {
    hide Gap, Apply, SlotsMatch, Legal;
    if s.action.Complete? || s.action.Fail? || s.action.FailService? || s.action.Reap? {
      FinishGap(w, s, t);
    } else if s.action.Recover? || s.action.Cancel? {
      MoveGap(w, s, t);
    } else if s.action.Dispatch? {
      DispatchGap(w, s, t);
    } else if s.action.Submit? || s.action.Replay? || s.action.Promote? || s.action.Refresh? {
      RefreshingGap(w, s, t);
    } else {
      OtherGap(w, s, t);
    }
  }

  /** When the counter stays right: a step from an exact count keeps it exact unless it releases a slot of
    * the tenant for a job without a reservation while the counter is above 0, and then it does not.
    */
  lemma ExactIff(w: World, s: Step, t: TenantId)
    requires SlotsMatch(w.db.jobs, w.db.reservations) && Legal(w, s, false) && Gap(w.db, t) == 0
    ensures Gap(Apply(w.db, s), t) == 0 <==> !(EmptyRelease(w.db, s.action, t) && Counter(w.db.sched, t) > 0)
  {
    hide Apply, Legal;
    GapStep(w, s, t);
    var j := ReleasedJob(w.db, s.action);
    if j.Some? && j.value in w.db.jobs {
      SlotTenant(w.db, j.value);
      assert j.value in w.db.reservations ==> j.value in Held(w.db.reservations, w.db.jobs[j.value].tenant);
    }
  }
}
