/** Recovering from dead workers and lost messages (jobs/services/reconciliation.py). */
module Reconciliation {
  import opened Tables
  import opened SchedulerState
  import Execution
  import Failure

  // ---- One expired attempt -------------------------------------------------------------------

  function AbandonedAttempt(attempt: Attempt, now: Time): Attempt {
    attempt.(status := Abandoned, finishedAt := Some(now), failureType := Some(Infrastructure))
  }

  predicate ReapRaises(db: Db, a: AttemptId) {
    a !in db.attempts || (db.attempts[a].status.Running? && !Execution.Finishable(db, a))
  }

  function Reaped(db: Db, a: AttemptId, now: Time): Db {
    if a !in db.attempts || !db.attempts[a].status.Running? || !Execution.Finishable(db, a) then db
    else Failure.Finalized(db.(attempts := db.attempts[a := AbandonedAttempt(db.attempts[a], now)]),
                           a.job, Infrastructure, "Worker lease expired", now)
  }

  method ReconcileAttempt(db: Database, a: AttemptId, now: Time) returns (r: Outcome<()>)
    modifies db
    ensures db.View() == Reaped(old(db.View()), a, now)
    ensures r.Raised? <==> ReapRaises(old(db.View()), a)
  {
    var saved := db.View();
    if a !in db.attempts {
      return Raised(DoesNotExist);
    }
    if !db.attempts[a].status.Running? {
      return Ok(());
    }
    var attempt := db.attempts[a];
    attempt := attempt.(status := Abandoned, finishedAt := Some(now), failureType := Some(Infrastructure));
    db.attempts := db.attempts[a := attempt];
    r := Failure.FinalizeFailure(db, a.job, Infrastructure, "Worker lease expired", now);
    if r.Raised? {
      db.Restore(saved);
    }
  }

  // ---- One stuck queued job ------------------------------------------------------------------

  function RecoveredJob(job: Job, now: Time): Job {
    job.(status := Waiting, readySince := now)
  }

  /** The tables with `j` back among the waiting jobs, its slot still taken. */
  function RecoveredRows(db: Db, j: JobId, now: Time): Db
    requires j in db.jobs
  {
    db.(jobs := db.jobs[j := RecoveredJob(db.jobs[j], now)])
  }

  ghost function Recovered(db: Db, j: JobId, now: Time): Db {
    if Execution.NoWayOut(db, j) || !db.jobs[j].status.Queued? then db
    else RefreshAll(Execution.Released(RecoveredRows(db, j, now), j), {db.jobs[j].tenant}, now)
  }

  method RecoverQueued(db: Database, j: JobId, now: Time) returns (r: Outcome<()>)
    modifies db
    ensures db.View() == Recovered(old(db.View()), j, now)
    ensures r.Raised? <==> Execution.NoWayOut(old(db.View()), j)
  {
    var saved := db.View();
    if j !in db.jobs {
      return Raised(DoesNotExist);
    }
    var job := db.jobs[j];
    if !job.status.Queued? {
      return Ok(());
    }
    job := job.(status := Waiting, readySince := now);
    db.jobs := db.jobs[j := job];
    var released := Execution.ReleaseCapacity(db, j);
    if !released {
      db.Restore(saved);
      return Raised(DoesNotExist);
    }
    RefreshSchedulerState(db, job.tenant, now);
    return Ok(());
  }

  // ---- One pass of the reaper ----------------------------------------------------------------

  function ExpiredAttempts(db: Db, now: Time): map<AttemptId, Rank> {
    map a | a in db.attempts && db.attempts[a].status.Running? && db.attempts[a].leaseExpiresAt < now :: UNORDERED
  }

  function ExpiredQueued(db: Db, now: Time): map<JobId, Rank> {
    map j | j in db.reservations && db.reservations[j].expiresAt < now && j in db.jobs && db.jobs[j].status.Queued?
      :: UNORDERED
  }

  /** How far a loop of transactions got: an exception ends it, and what is committed stays. */
  datatype Progress = Progress(db: Db, ok: bool)

  function ReapedAll(db: Db, rows: seq<AttemptId>, now: Time): Progress {
    if rows == [] then Progress(db, true)
    else
      var n := |rows| - 1;
      var p := ReapedAll(db, rows[..n], now);
      if !p.ok || ReapRaises(p.db, rows[n]) then Progress(p.db, false)
      else Progress(Reaped(p.db, rows[n], now), true)
  }

  ghost function RecoveredAll(db: Db, rows: seq<JobId>, now: Time): Progress {
    if rows == [] then Progress(db, true)
    else
      var n := |rows| - 1;
      var p := RecoveredAll(db, rows[..n], now);
      if !p.ok || Execution.NoWayOut(p.db, rows[n]) then Progress(p.db, false)
      else Progress(Recovered(p.db, rows[n], now), true)
  }

  ghost function Reconciled(db: Db, attempts: seq<AttemptId>, queued: seq<JobId>, now: Time): Progress {
    var p := ReapedAll(db, attempts, now);
    if p.ok then RecoveredAll(p.db, queued, now) else p
  }

  /** The second query runs after the first loop, so it sees what the loop left. */
  ghost predicate PassRows(db: Db, attempts: seq<AttemptId>, queued: seq<JobId>, limit: nat, now: Time) {
    && IsPage(attempts, ExpiredAttempts(db, now), limit)
    && IsPage(queued, ExpiredQueued(ReapedAll(db, attempts, now).db, now), limit)
  }

  lemma {:induction false} ReapStopped(db: Db, rows: seq<AttemptId>, i: nat, now: Time)
    requires i <= |rows| && !ReapedAll(db, rows[..i], now).ok
    ensures ReapedAll(db, rows, now) == ReapedAll(db, rows[..i], now)
  {
    if i == |rows| {
      assert rows[..i] == rows;
    } else {
      var n := |rows| - 1;
      assert rows[..n][..i] == rows[..i];
      ReapStopped(db, rows[..n], i, now);
    }
  }

  lemma {:induction false} RecoverStopped(db: Db, rows: seq<JobId>, i: nat, now: Time)
    requires i <= |rows| && !RecoveredAll(db, rows[..i], now).ok
    ensures RecoveredAll(db, rows, now) == RecoveredAll(db, rows[..i], now)
  {
    if i == |rows| {
      assert rows[..i] == rows;
    } else {
      var n := |rows| - 1;
      assert rows[..n][..i] == rows[..i];
      RecoverStopped(db, rows[..n], i, now);
    }
  }

  method ReconcileQueued(db: Database, rows: seq<JobId>, ghost limit: nat, now: Time) returns (r: Outcome<()>)
    requires IsPage(rows, ExpiredQueued(db.View(), now), limit)
    modifies db
    ensures Progress(db.View(), r.Ok?) == RecoveredAll(old(db.View()), rows, now)
  {
    hide IsPage, ExpiredQueued, RefreshAll, Execution.Released;
    ghost var before := db.View();
    for i := 0 to |rows|
      invariant RecoveredAll(before, rows[..i], now) == Progress(db.View(), true)
    {
      assert rows[..i + 1][..i] == rows[..i];
      r := RecoverQueued(db, rows[i], now);
      if r.Raised? {
        RecoverStopped(before, rows, i + 1, now);
        return;
      }
    }
    assert rows[..|rows|] == rows;
    return Ok(());
  }

  method ReconcileExpired(db: Database, attempts: seq<AttemptId>, queued: seq<JobId>, ghost limit: nat, now: Time)
    returns (r: Outcome<()>)
    requires PassRows(db.View(), attempts, queued, limit, now)
    modifies db
    ensures Progress(db.View(), r.Ok?) == Reconciled(old(db.View()), attempts, queued, now)
  {
    hide IsPage, ExpiredAttempts, ExpiredQueued, Failure.Finalized, Recovered, Execution.NoWayOut;
    ghost var before := db.View();
    for i := 0 to |attempts|
      invariant ReapedAll(before, attempts[..i], now) == Progress(db.View(), true)
    {
      assert attempts[..i + 1][..i] == attempts[..i];
      r := ReconcileAttempt(db, attempts[i], now);
      if r.Raised? {
        ReapStopped(before, attempts, i + 1, now);
        return;
      }
    }
    assert attempts[..|attempts|] == attempts;
    r := ReconcileQueued(db, queued, limit, now);
  }
}
