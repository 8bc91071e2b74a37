/** Choosing the next job of a tenant and giving it a slot (jobs/services/dispatcher.py). */
module Dispatcher {
  import opened Tables
  import opened Overlap
  import opened SchedulerState

  const CANDIDATE_LIMIT: nat := 10

  /** The due waiting jobs of `t` that no other transaction has locked, with their dispatch order. */
  function Candidates(db: Db, t: TenantId, now: Time, skipped: set<JobId>): map<JobId, Rank> {
    map j | j in db.jobs && db.jobs[j].tenant == t && db.jobs[j].status.Waiting?
            && db.jobs[j].availableAt <= now && j !in skipped :: ReadyRank(db.jobs[j])
  }

  /** Nothing keeps `j` from being dispatched: it needs no resource, or nobody holds it. */
  predicate Free(db: Db, j: JobId)
    requires j in db.jobs
  {
    db.jobs[j].payload.overlapKey == "" || LockOf(db.jobs[j]) !in db.locks
  }

  predicate IsFirstFree(db: Db, rows: seq<JobId>, i: nat)
    requires forall j :: j in rows ==> j in db.jobs
  {
    i < |rows| && Free(db, rows[i]) && forall k :: 0 <= k < i ==> !Free(db, rows[k])
  }

  function FirstFree(db: Db, rows: seq<JobId>): (r: Option<JobId>)
    requires forall j :: j in rows ==> j in db.jobs
    ensures r.None? <==> forall j :: j in rows ==> !Free(db, j)
    ensures r.Some? ==> exists i: nat :: IsFirstFree(db, rows, i) && rows[i] == r.value
  {
    if rows == [] then None
    else if Free(db, rows[0]) then
      assert IsFirstFree(db, rows, 0);
      Some(rows[0])
    else
      var r := FirstFree(db, rows[1..]);
      assert r.Some? ==> exists i: nat :: IsFirstFree(db, rows, i) && rows[i] == r.value by {
        if r.Some? {
          var i: nat :| IsFirstFree(db, rows[1..], i) && rows[1..][i] == r.value;
          forall k | 0 <= k < i + 1 ensures !Free(db, rows[k]) {
            assert k > 0 ==> rows[k] == rows[1..][k - 1];
          }
          assert IsFirstFree(db, rows, i + 1);
        }
      }
      r
  }

  predicate HasCapacity(db: Db, t: TenantId) {
    t in db.sched && t in db.tenants && db.sched[t].active < db.tenants[t]
  }

  /** The job `dispatch_next` returns, given what the candidate query answered. */
  function Choice(db: Db, t: TenantId, rows: seq<JobId>): Option<JobId>
    requires forall j :: j in rows ==> j in db.jobs
  {
    if !HasCapacity(db, t) then None else FirstFree(db, rows)
  }

  /** The chosen job already has a reservation row, so that inserting one fails. */
  predicate CollidesOnReservation(db: Db, t: TenantId, rows: seq<JobId>)
    requires forall j :: j in rows ==> j in db.jobs
  {
    Choice(db, t, rows).Some? && Choice(db, t, rows).value in db.reservations
  }

  function QueuedJob(job: Job, now: Time): Job {
    job.(status := Queued, queuedAt := Some(now))
  }

  /** The locks once `j` holds the one it needs. */
  function LocksWith(db: Db, j: JobId): map<LockKey, JobId>
    requires j in db.jobs
  {
    if db.jobs[j].payload.overlapKey == "" then db.locks else db.locks[LockOf(db.jobs[j]) := j]
  }

  /** The tables once `j` holds a slot of `t`, its overlap lock if it needs one, and an outbox row. */
  function Enqueued(db: Db, t: TenantId, j: JobId, now: Time): Db
    requires j in db.jobs && t in db.sched
  {
    var job := db.jobs[j];
    var row := db.sched[t];
    db.(jobs := db.jobs[j := QueuedJob(job, now)],
        reservations := db.reservations[j := Reservation(t, now + LEASE)],
        locks := LocksWith(db, j),
        outbox := db.outbox + [OutboxRow(j, Pending, now, None, 0, None)],
        sched := db.sched[t := row.(active := row.active + 1, lastDispatchedAt := Some(now))])
  }

  function Dispatched(db: Db, t: TenantId, rows: seq<JobId>, now: Time): Db
    requires forall j :: j in rows ==> j in db.jobs
  {
    var choice := Choice(db, t, rows);
    if choice.None? || CollidesOnReservation(db, t, rows) then db
    else Enqueued(db, t, choice.value, now)
  }

  method ReserveJob(db: Database, t: TenantId, j: JobId, now: Time) returns (ok: bool)
    requires j in db.jobs && t in db.sched
    modifies db`jobs, db`reservations, db`outbox, db`sched
    ensures ok <==> j !in old(db.reservations)
    ensures ok ==> db.View() == Enqueued(old(db.View()), t, j, now).(locks := old(db.locks))
  {
    if j in db.reservations {
      return false;
    }
    db.reservations := db.reservations[j := Reservation(t, now + LEASE)];
    var job := db.jobs[j];
    db.jobs := db.jobs[j := job.(status := Queued, queuedAt := Some(now))];
    var state := db.sched[t];
    db.sched := db.sched[t := state.(active := state.active + 1, lastDispatchedAt := Some(now))];
    db.outbox := db.outbox + [OutboxRow(j, Pending, now, None, 0, None)];
    return true;
  }

  /** The guard of the loop: the lock that `j` needs is taken, or it needs none. */
  method AcquireFor(db: Database, j: JobId) returns (acquired: bool)
    requires j in db.jobs
    modifies db`locks
    ensures acquired <==> Free(old(db.View()), j)
    ensures db.locks == if acquired then LocksWith(old(db.View()), j) else old(db.locks)
  {
    var job := db.jobs[j];
    if job.payload.overlapKey == "" {
      return true;
    }
    acquired := AcquireOverlap(db, j, LockOf(job));
  }

  /** `rows` is the answer to the candidate query, which passes over the rows in `skipped`. */
  method DispatchNext(db: Database, t: TenantId, rows: seq<JobId>, ghost skipped: set<JobId>, now: Time)
    returns (r: Outcome<Option<JobId>>)
    requires t in db.sched ==> t in db.tenants
    requires IsPage(rows, Candidates(db.View(), t, now, skipped), CANDIDATE_LIMIT)
    modifies db
    ensures db.View() == Dispatched(old(db.View()), t, rows, now)
    ensures r.Ok? ==> r.value == Choice(old(db.View()), t, rows)
    ensures r.Ok? <==> t in old(db.sched) && !CollidesOnReservation(old(db.View()), t, rows)
  {
    var saved := db.View();
    if t !in db.sched {
      return Raised(DoesNotExist);
    }
    if db.sched[t].active >= db.tenants[t] {
      return Ok(None);
    }
    CandidateRows(saved, t, rows, skipped, now);
    hide IsPage, Candidates, FirstFree, Enqueued, LocksWith;
    for i := 0 to |rows|
      invariant db.View() == saved
      invariant forall k :: 0 <= k < i ==> !Free(saved, rows[k])
    {
      assert rows[i] in rows;
      var acquired := AcquireFor(db, rows[i]);
      if !acquired {
        continue;
      }
      assert IsFirstFree(saved, rows, i);
      ChosenFirst(saved, rows, i);
      LockedThenEnqueued(saved, t, rows[i], now);
      var reserved := ReserveJob(db, t, rows[i], now);
      if !reserved {
        db.Restore(saved);
        return Raised(IntegrityError);
      }
      return Ok(Some(rows[i]));
    }
    NoneChosen(saved, rows);
    return Ok(None);
  }

  /** Taking the lock first and the slot second makes the same tables. */
  lemma LockedThenEnqueued(db: Db, t: TenantId, j: JobId, now: Time)
    requires j in db.jobs && t in db.sched
    ensures Enqueued(db.(locks := LocksWith(db, j)), t, j, now).(locks := LocksWith(db, j)) == Enqueued(db, t, j, now)
  {
  }

  lemma CandidateRows(db: Db, t: TenantId, rows: seq<JobId>, skipped: set<JobId>, now: Time)
    requires IsPage(rows, Candidates(db, t, now, skipped), CANDIDATE_LIMIT)
    ensures forall j :: j in rows ==> j in db.jobs && db.jobs[j].tenant == t
  {
  }

  lemma NoneChosen(db: Db, rows: seq<JobId>)
    requires forall j :: j in rows ==> j in db.jobs
    requires forall k :: 0 <= k < |rows| ==> !Free(db, rows[k])
    ensures FirstFree(db, rows) == None
  {
  }

  lemma ChosenFirst(db: Db, rows: seq<JobId>, i: nat)
    requires forall j :: j in rows ==> j in db.jobs
    requires IsFirstFree(db, rows, i)
    ensures FirstFree(db, rows) == Some(rows[i])
  {
    assert rows[i] in rows;
    var k: nat :| IsFirstFree(db, rows, k) && rows[k] == FirstFree(db, rows).value;
    assert IsFirstFree(db, rows, k) && k == i;
  }
}
