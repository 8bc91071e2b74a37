/** Promoting retries whose delay is over (jobs/services/retry.py). */
module Retry {
  import opened Tables
  import opened SchedulerState

  /** The retries that are due and not locked by another transaction, in order of `availableAt`. */
  function DueRetries(db: Db, now: Time, skipped: set<JobId>): map<JobId, Rank> {
    map j | j in db.jobs && db.jobs[j].status.RetryWait? && db.jobs[j].availableAt <= now && j !in skipped
      :: Rank(db.jobs[j].availableAt, 0)
  }

  function PromotedJob(job: Job, now: Time): Job {
    job.(status := Waiting, readySince := now)
  }

  function PromotedJobs(jobs: map<JobId, Job>, rows: seq<JobId>, now: Time): map<JobId, Job> {
    map j | j in jobs :: if j in rows then PromotedJob(jobs[j], now) else jobs[j]
  }

  function TenantsOf(jobs: map<JobId, Job>, rows: seq<JobId>): set<TenantId> {
    set j | j in rows && j in jobs :: jobs[j].tenant
  }

  ghost function Promoted(db: Db, rows: seq<JobId>, now: Time): Db {
    RefreshAll(db.(jobs := PromotedJobs(db.jobs, rows, now)), TenantsOf(db.jobs, rows), now)
  }

  lemma DueRows(db: Db, rows: seq<JobId>, skipped: set<JobId>, limit: nat, now: Time)
    requires IsPage(rows, DueRetries(db, now, skipped), limit)
    ensures forall j :: j in rows ==> j in db.jobs && db.jobs[j].status.RetryWait? && db.jobs[j].availableAt <= now
    ensures forall i, k :: 0 <= i < k < |rows| ==> rows[i] != rows[k]
    ensures |rows| == Min(limit, |DueRetries(db, now, skipped)|)
  {
  }

  lemma PromoteOneMore(jobs: map<JobId, Job>, rows: seq<JobId>, j: JobId, now: Time)
    requires j in jobs && j !in rows
    ensures PromotedJobs(jobs, rows + [j], now) == PromotedJobs(jobs, rows, now)[j := PromotedJob(jobs[j], now)]
    ensures TenantsOf(jobs, rows + [j]) == TenantsOf(jobs, rows) + {jobs[j].tenant}
  {
  }

  method RefreshTenants(db: Database, tenantIds: set<TenantId>, now: Time)
    modifies db`sched
    ensures db.View() == RefreshAll(old(db.View()), tenantIds, now)
  {
    ghost var before := db.View();
    ghost var done: set<TenantId> := {};
    assert RefreshAll(before, {}, now).sched == before.sched;
    var left := tenantIds;
    while left != {}
      invariant done + left == tenantIds && done !! left
      invariant db.View() == RefreshAll(before, done, now)
      decreases left
    {
      var t :| t in left;
      RefreshOneMore(before, done, t, now);
      RefreshSchedulerState(db, t, now);
      left := left - {t};
      done := done + {t};
    }
    assert done == tenantIds;
  }

  method PromoteReadyRetries(db: Database, rows: seq<JobId>, ghost skipped: set<JobId>, limit: nat, now: Time)
    returns (count: nat)
    requires IsPage(rows, DueRetries(db.View(), now, skipped), limit)
    modifies db`jobs, db`sched
    ensures db.View() == Promoted(old(db.View()), rows, now)
    ensures count == Min(limit, |DueRetries(old(db.View()), now, skipped)|)
  {
    ghost var before := db.View();
    DueRows(before, rows, skipped, limit, now);
    hide IsPage, DueRetries;
    count := 0;
    var tenantIds: set<TenantId> := {};
    assert PromotedJobs(before.jobs, rows[..0], now) == before.jobs;
    for i := 0 to |rows|
      invariant db.View() == before.(jobs := PromotedJobs(before.jobs, rows[..i], now))
      invariant tenantIds == TenantsOf(before.jobs, rows[..i])
      invariant count == i
    {
      var j := rows[i];
      assert j in rows && j !in rows[..i];
      assert rows[..i + 1] == rows[..i] + [j];
      PromoteOneMore(before.jobs, rows[..i], j, now);
      var job := db.jobs[j];
      db.jobs := db.jobs[j := job.(status := Waiting, readySince := now)];
      tenantIds := tenantIds + {job.tenant};
      count := count + 1;
    }
    assert rows[..|rows|] == rows;
    RefreshTenants(db, tenantIds, now);
  }
}
