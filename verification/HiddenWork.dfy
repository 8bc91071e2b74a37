/** Due work that a tenant's cached readiness does not show, over whole runs. */
module HiddenWork {
  import opened Tables
  import opened Protocol
  import opened Safety
  import opened SchedulerState
  import opened Runs
  import Cache
  import Processes
  import Retry
  import Scenarios
  import Submission

  lemma {:induction false} CacheIsAsOf(tenants: map<TenantId, nat>, clock: Time, steps: seq<Step>, t: TenantId)
    requires IsRun(Initial(tenants, clock), steps, false)
    ensures Cache.CacheAsOf(After(Initial(tenants, clock), steps).db.sched, t, LastRefresh(Initial(tenants, clock), steps, t))
  {
    if steps != [] {
      var before := steps[..|steps| - 1];
      CacheIsAsOf(tenants, clock, before, t);
      hide Apply, Legal, Cache.CacheAsOf, Cache.Refreshes;
      Cache.AsOfStep(After(Initial(tenants, clock), before), steps[|steps| - 1], t, LastRefresh(Initial(tenants, clock), before, t));
    }
  }

  /** The scheduler would pass `t` over at `now`, although it has due work. */
  ghost predicate Hidden(db: Db, t: TenantId, now: Time) {
    t in db.sched && !db.sched[t].hasReady && ReadyJobs(db, t, now) != {}
  }

  /** Only work that became available after the last refresh is ever hidden: in every run, if due work of a
    * tenant does not show, the row was refreshed before `nextReadyAt`, that time has come, and every due job
    * became available after the refresh.
    */
  lemma HiddenWorkCameLater(tenants: map<TenantId, nat>, clock: Time, steps: seq<Step>, t: TenantId, now: Time, j: JobId)
    requires IsRun(Initial(tenants, clock), steps, false)
    requires var db := After(Initial(tenants, clock), steps).db;
      Hidden(db, t, now) && j in ReadyJobs(db, t, now)
    ensures var row := After(Initial(tenants, clock), steps).db.sched[t];
      var last := LastRefresh(Initial(tenants, clock), steps, t);
      && last.Some? && row.nextReadyAt.Some? && last.value < row.nextReadyAt.value <= now
      && last.value < After(Initial(tenants, clock), steps).db.jobs[j].availableAt
  {
    CacheCoversWaitingJobs(tenants, clock, steps, t);
    CacheIsAsOf(tenants, clock, steps, t);
    var db := After(Initial(tenants, clock), steps).db;
    hide After, LastRefresh, IsRun;
    assert Cache.Covered(db, t, LastRefresh(Initial(tenants, clock), steps, t), db.jobs[j]);
  }

  /** The tables right after the last refresh of `t`. */
  ghost function AtRefresh(w: World, steps: seq<Step>, t: TenantId): Db {
    if steps == [] then w.db
    else
      var before := steps[..|steps| - 1];
      if Cache.Refreshes(After(w, before), steps[|steps| - 1], t) then After(w, steps).db else AtRefresh(w, before, t)
  }

  lemma {:induction false} FlagIsOfRefresh(tenants: map<TenantId, nat>, clock: Time, steps: seq<Step>, t: TenantId)
    requires IsRun(Initial(tenants, clock), steps, false)
    ensures var start := Initial(tenants, clock);
      var last, sched := LastRefresh(start, steps, t), After(start, steps).db.sched;
      last.Some? ==> t in sched && (sched[t].hasReady <==> ReadyJobs(AtRefresh(start, steps, t), t, last.value) != {})
  {
    if steps != [] {
      var start, before, s := Initial(tenants, clock), steps[..|steps| - 1], steps[|steps| - 1];
      FlagIsOfRefresh(tenants, clock, before, t);
      var w := After(start, before);
      hide Apply, Legal, Cache.Refreshes, ReadyJobs;
      if Cache.Refreshes(w, s, t) {
        Cache.ExactAfterRefresh(w, s, t);
      } else {
        Cache.CacheFieldsKept(w, s, t);
      }
    }
  }

  /** When work is hidden, in every run: due work of a tenant does not show exactly when no job of it was due
    * at its last refresh, whatever happened since.
    */
  lemma HiddenIffNoneWasDue(tenants: map<TenantId, nat>, clock: Time, steps: seq<Step>, t: TenantId, now: Time)
    requires IsRun(Initial(tenants, clock), steps, false)
    requires ReadyJobs(After(Initial(tenants, clock), steps).db, t, now) != {}
    ensures var start := Initial(tenants, clock);
      var last := LastRefresh(start, steps, t);
      && last.Some?
      && (Hidden(After(start, steps).db, t, now) <==> ReadyJobs(AtRefresh(start, steps, t), t, last.value) == {})
  {
    CacheCoversWaitingJobs(tenants, clock, steps, t);
    FlagIsOfRefresh(tenants, clock, steps, t);
    var db := After(Initial(tenants, clock), steps).db;
    hide After, LastRefresh, IsRun, AtRefresh;
    var j :| j in ReadyJobs(db, t, now);
    assert Cache.Covered(db, t, LastRefresh(Initial(tenants, clock), steps, t), db.jobs[j]);
  }

  /** Since the last refresh of `t`, no step took one of its jobs out of the waiting ones. */
  ghost predicate NoneLeft(w: World, steps: seq<Step>, t: TenantId) {
    steps == [] ||
    (var before := steps[..|steps| - 1];
     || Cache.Refreshes(After(w, before), steps[|steps| - 1], t)
     || (NoneLeft(w, before, t) && WaitingJobs(After(w, before).db, t) <= WaitingJobs(After(w, steps).db, t)))
  }

  /** Until a job is dispatched or otherwise stops waiting, the fields are those of the last refresh exactly. */
  lemma {:induction false} ExactUntilOneLeaves(tenants: map<TenantId, nat>, clock: Time, steps: seq<Step>, t: TenantId)
    requires var start := Initial(tenants, clock);
      IsRun(start, steps, false) && LastRefresh(start, steps, t).Some? && NoneLeft(start, steps, t)
    ensures var start := Initial(tenants, clock);
      Cache.CacheExact(After(start, steps).db, t, LastRefresh(start, steps, t).value)
  {
    var start := Initial(tenants, clock);
    var before, s := steps[..|steps| - 1], steps[|steps| - 1];
    var w := After(start, before);
    EveryRunIsSafe(tenants, clock, before);
    hide Apply, Legal, DbSafe, Cache.CacheExact, Cache.Refreshes, WaitingJobs;
    if Cache.Refreshes(w, s, t) {
      Cache.ExactAfterRefresh(w, s, t);
    } else {
      ExactUntilOneLeaves(tenants, clock, before, t);
      Slots(w.db);
      Cache.ExactStep(w, s, t, LastRefresh(start, before, t).value);
    }
  }

  /** The same by the row alone: in every run in which no job of the tenant stopped waiting since its last refresh,
    * due work does not show at `now` exactly when `nextReadyAt` came after that refresh.
    */
  lemma HiddenIff(tenants: map<TenantId, nat>, clock: Time, steps: seq<Step>, t: TenantId, now: Time)
    requires var start := Initial(tenants, clock);
      IsRun(start, steps, false) && LastRefresh(start, steps, t).Some? && NoneLeft(start, steps, t)
    requires LastRefresh(Initial(tenants, clock), steps, t).value <= now
    ensures var start := Initial(tenants, clock);
      var db := After(start, steps).db;
      && t in db.sched
      && (Hidden(db, t, now) <==>
          db.sched[t].nextReadyAt.Some? && LastRefresh(start, steps, t).value < db.sched[t].nextReadyAt.value <= now)
  {
    ExactUntilOneLeaves(tenants, clock, steps, t);
    hide After, IsRun, LastRefresh, NoneLeft;
    var start := Initial(tenants, clock);
    Cache.DueWorkHiddenIff(After(start, steps).db, t, LastRefresh(start, steps, t).value, now);
  }

  // ---- A run in which it happens -------------------------------------------------------------

  const HOUR: Time := 3600 * SECOND
  const LATER: Step := Step(Submit(0, Submission.Request(0, "REPORTS", Payload("", ""), 3, "", Some(HOUR)), "k"), 0)
  const IDLE: Step := Step(Promote([], {}, 100), HOUR)

  lemma SubmittedForLater()
    ensures var w := Exec(Scenarios.Start(), LATER);
      && Legal(Scenarios.Start(), LATER, true) && w.clock == 0
      && w.db.jobs.Keys == {0} && w.db.jobs[0].status.Waiting? && w.db.jobs[0].availableAt == HOUR && w.db.jobs[0].tenant == 0
      && 0 in w.db.sched && !w.db.sched[0].hasReady
  {
    var start := Scenarios.Start();
    Cache.ExactAfterRefresh(start, LATER, 0);
    var db := Exec(start, LATER).db;
    assert ReadyJobs(db, 0, 0) == {};
  }

  lemma NothingDue(db: Db)
    requires db.jobs.Keys == {0} && db.jobs[0].status.Waiting?
    ensures IsPage([], Retry.DueRetries(db, HOUR, {}), 100)
  {
    assert Retry.DueRetries(db, HOUR, {}) == map[];
  }

  lemma EmptyBatch(db: Db)
    ensures Retry.Promoted(db, [], HOUR) == db
  {
    hide RefreshedRow;
    assert Retry.TenantsOf(db.jobs, []) == {};
    assert Retry.PromotedJobs(db.jobs, [], HOUR) == db.jobs;
    assert RefreshAll(db, {}, HOUR).sched == db.sched;
  }

  lemma NothingPromoted(w: World)
    requires w.clock == 0 && w.db.jobs.Keys == {0} && w.db.jobs[0].status.Waiting?
    ensures Legal(w, IDLE, true) && Exec(w, IDLE).db == w.db && Exec(w, IDLE).clock == HOUR
  {
    hide IsPage, Retry.Promoted;
    NothingDue(w.db);
    EmptyBatch(w.db);
  }

  /** A tenant submits its only job for an hour later. When the hour is over the job is due and the limit is
    * free, and the scheduler still passes the tenant over.
    */
  lemma DueJobIsHidden()
    ensures var start, steps := Scenarios.Start(), [LATER, IDLE];
      var w := After(start, steps);
      && IsRun(start, steps, true) && w.clock == HOUR && Hidden(w.db, 0, w.clock) && 0 in ReadyJobs(w.db, 0, w.clock)
  {
    hide *;
    var start := Scenarios.Start();
    SubmittedForLater();
    NothingPromoted(Exec(start, LATER));
    Processes.TwoSteps(start, LATER, IDLE);
    DueAtHour(Exec(Exec(start, LATER), IDLE).db);
  }

  lemma DueAtHour(db: Db)
    requires db.jobs.Keys == {0} && db.jobs[0].status.Waiting? && db.jobs[0].availableAt == HOUR && db.jobs[0].tenant == 0
    requires 0 in db.sched && !db.sched[0].hasReady
    ensures Hidden(db, 0, HOUR) && 0 in ReadyJobs(db, 0, HOUR)
  {
    assert 0 in ReadyJobs(db, 0, HOUR);
  }
}
