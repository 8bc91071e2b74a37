/** The cached readiness of a tenant (jobs/services/scheduler_state.py). */
module SchedulerState {
  import opened Tables

  ghost function WaitingJobs(db: Db, t: TenantId): set<JobId> {
    set j | j in db.jobs && db.jobs[j].tenant == t && db.jobs[j].status.Waiting?
  }

  ghost function ReadyJobs(db: Db, t: TenantId, now: Time): set<JobId> {
    set j | j in WaitingJobs(db, t) && db.jobs[j].availableAt <= now
  }

  ghost function Priorities(db: Db, t: TenantId, now: Time): set<int> {
    set j | j in ReadyJobs(db, t, now) :: db.jobs[j].priority
  }

  ghost function AvailableTimes(db: Db, t: TenantId): set<Time> {
    set j | j in WaitingJobs(db, t) :: db.jobs[j].availableAt
  }

  lemma LeastInt(s: set<int>)
    requires s != {}
    ensures exists m :: m in s && forall x :: x in s ==> m <= x
  {
    var order := map x | x in s :: Rank(x, 0);
    assert order.Keys == s;
    var m := LeastExists(order, s);
    assert forall x :: x in s ==> m <= x by {
      forall x | x in s ensures m <= x {
        assert !Before(order[x], order[m]);
      }
    }
  }

  ghost function Least(s: set<int>): (m: Option<int>)
    ensures m.None? <==> s == {}
    ensures m.Some? ==> m.value in s && forall x :: x in s ==> m.value <= x
  {
    if s == {} then None
    else
      LeastInt(s);
      var m :| m in s && forall x :: x in s ==> m <= x;
      Some(m)
  }

  lemma LeastIs(m: int, s: set<int>)
    requires m in s && forall x :: x in s ==> m <= x
    ensures Least(s) == Some(m)
  {
    assert m in s;
  }

  /** The scheduler row of `t` with exact cached fields: whether any job is ready, the smallest priority
    * number among the ready jobs, and the earliest `availableAt` among all waiting ones.
    */
  ghost function RefreshedRow(db: Db, t: TenantId, now: Time): SchedRow {
    var row := if t in db.sched then db.sched[t] else FRESH_ROW;
    row.(hasReady := ReadyJobs(db, t, now) != {},
         highest := Least(Priorities(db, t, now)),
         nextReadyAt := Least(AvailableTimes(db, t)))
  }

  ghost function RefreshAll(db: Db, tenants: set<TenantId>, now: Time): Db {
    db.(sched := map t | t in db.sched.Keys + tenants ::
      if t in tenants then RefreshedRow(db, t, now) else db.sched[t])
  }

  /** ORDER BY priority, ready_since. */
  function ReadyRank(job: Job): Rank {
    Rank(job.priority, job.readySince)
  }

  predicate IsFirst(rows: map<JobId, Job>, ready: set<JobId>, first: JobId)
    requires ready <= rows.Keys
  {
    first in ready && forall j :: j in ready ==> !Before(ReadyRank(rows[j]), ReadyRank(rows[first]))
  }

  lemma FirstHasLeastPriority(db: Db, t: TenantId, now: Time, first: JobId)
    requires IsFirst(db.jobs, ReadyJobs(db, t, now), first)
    ensures Least(Priorities(db, t, now)) == Some(db.jobs[first].priority)
  {
    LeastIs(db.jobs[first].priority, Priorities(db, t, now));
  }

  lemma FirstExists(db: Db, t: TenantId, now: Time)
    requires ReadyJobs(db, t, now) != {}
    ensures exists first :: IsFirst(db.jobs, ReadyJobs(db, t, now), first)
  {
    var order := map j | j in ReadyJobs(db, t, now) :: ReadyRank(db.jobs[j]);
    var first := LeastExists(order, ReadyJobs(db, t, now));
    assert forall j :: j in ReadyJobs(db, t, now) ==> !Before(order[j], order[first]);
    assert IsFirst(db.jobs, ReadyJobs(db, t, now), first);
  }

  lemma RefreshOne(db: Db, t: TenantId, now: Time)
    ensures RefreshAll(db, {t}, now) == db.(sched := db.sched[t := RefreshedRow(db, t, now)])
  {
  }

  method RefreshSchedulerState(db: Database, t: TenantId, now: Time)
    modifies db`sched
    ensures db.View() == RefreshAll(old(db.View()), {t}, now)
  {
    ghost var before := db.View();
    var rows := db.jobs;
    var waiting := set j | j in rows && rows[j].tenant == t && rows[j].status.Waiting?;
    var jobs := set j | j in waiting && rows[j].availableAt <= now;
    assert waiting == WaitingJobs(before, t) && jobs == ReadyJobs(before, t, now);
    var state := if t in db.sched then db.sched[t] else FRESH_ROW;

    var highest := None;
    if jobs != {} {
      FirstExists(before, t, now);
      var first :| first in jobs && IsFirst(rows, jobs, first);
      FirstHasLeastPriority(before, t, now, first);
      highest := Some(rows[first].priority);
    } else {
      assert Priorities(before, t, now) == {};
    }

    var nextReadyAt := None;
    var times := set j | j in waiting :: rows[j].availableAt;
    assert times == AvailableTimes(before, t);
    if times != {} {
      LeastInt(times);
      var next :| next in times && forall x :: x in times ==> next <= x;
      LeastIs(next, times);
      nextReadyAt := Some(next);
    }

    state := state.(hasReady := jobs != {}, highest := highest, nextReadyAt := nextReadyAt);
    RefreshOne(before, t, now);
    db.sched := db.sched[t := state];
  }

  /** A refreshed row depends on the jobs and on the tenant's own row alone. */
  lemma RefreshedRowDependsOn(db: Db, other: Db, t: TenantId, now: Time)
    requires db.jobs == other.jobs
    requires (t in db.sched) == (t in other.sched) && (t in db.sched ==> db.sched[t] == other.sched[t])
    ensures RefreshedRow(db, t, now) == RefreshedRow(other, t, now)
  {
    assert WaitingJobs(db, t) == WaitingJobs(other, t);
    assert ReadyJobs(db, t, now) == ReadyJobs(other, t, now);
    assert Priorities(db, t, now) == Priorities(other, t, now);
    assert AvailableTimes(db, t) == AvailableTimes(other, t);
  }

  /** Refreshing tenant after tenant refreshes them all. */
  lemma RefreshOneMore(db: Db, done: set<TenantId>, t: TenantId, now: Time)
    requires t !in done
    ensures RefreshAll(RefreshAll(db, done, now), {t}, now) == RefreshAll(db, done + {t}, now)
  {
    hide RefreshedRow;
    var mid := RefreshAll(db, done, now);
    RefreshedRowDependsOn(mid, db, t, now);
    var a, b := RefreshAll(mid, {t}, now).sched, RefreshAll(db, done + {t}, now).sched;
    assert a.Keys == b.Keys;
    assert forall u :: u in a ==> a[u] == b[u];
    assert a == b;
  }
}
