/** Which job `dispatch_next` picks. */
module DispatchChoice {
  import opened Tables
  import opened Safety
  import opened Dispatcher

  /** Another job that takes a slot holds the resource that `j` needs. */
  ghost predicate Blocked(db: Db, j: JobId) {
    j in db.jobs && exists holder :: HoldsResourceOf(db, holder, j)
  }

  ghost predicate HoldsResourceOf(db: Db, holder: JobId, j: JobId)
    requires j in db.jobs
  {
    && holder in db.jobs && Active(db.jobs[holder].status)
    && db.jobs[j].payload.overlapKey != ""
    && db.jobs[holder].tenant == db.jobs[j].tenant && db.jobs[holder].payload.overlapKey == db.jobs[j].payload.overlapKey
  }

  /** A lock stands for an active holder, and every active holder has its lock. */
  lemma BlockedIffNotFree(db: Db, j: JobId)
    requires LocksMatch(db.jobs, db.locks) && j in db.jobs
    ensures Blocked(db, j) <==> !Free(db, j)
  {
    if !Free(db, j) {
      assert HoldsResourceOf(db, db.locks[LockOf(db.jobs[j])], j);
    }
    if Blocked(db, j) {
      var holder :| HoldsResourceOf(db, holder, j);
      assert HoldsResourceOf(db, holder, j);
      assert NeedsLock(db.jobs[holder]);
    }
  }

  lemma RowsAreCandidates(db: Db, t: TenantId, rows: seq<JobId>, skipped: set<JobId>, now: Time)
    requires IsPage(rows, Candidates(db, t, now, skipped), CANDIDATE_LIMIT)
    ensures forall j :: j in rows ==> j in db.jobs && j in Candidates(db, t, now, skipped)
  {
  }

  /** A chosen job is due and free, and every candidate strictly before it in (priority, readySince)
    * waits for a resource that an active job holds.
    */
  lemma ChosenIsFirstUnblocked(db: Db, t: TenantId, rows: seq<JobId>, skipped: set<JobId>, now: Time)
    requires DbSafe(db) && IsPage(rows, Candidates(db, t, now, skipped), CANDIDATE_LIMIT)
    ensures forall j :: j in rows ==> j in db.jobs
    ensures Choice(db, t, rows).Some? ==>
      var pool := Candidates(db, t, now, skipped);
      var chosen := Choice(db, t, rows).value;
      && chosen in pool && !Blocked(db, chosen) && HasCapacity(db, t)
      && forall j :: j in pool && Before(pool[j], pool[chosen]) ==> Blocked(db, j)
  {
    RowsAreCandidates(db, t, rows, skipped, now);
    var pool := Candidates(db, t, now, skipped);
    if Choice(db, t, rows).Some? {
      var i: nat :| IsFirstFree(db, rows, i) && rows[i] == Choice(db, t, rows).value;
      assert IsFirstFree(db, rows, i) && rows[i] in rows;
      assert LocksMatch(db.jobs, db.locks);
      hide DbSafe, Candidates, Blocked, Free;
      BlockedIffNotFree(db, rows[i]);
      forall j | j in pool && Before(pool[j], pool[rows[i]])
        ensures Blocked(db, j)
      {
        EarlierIsEarlier(rows, pool, i, j);
        var k :| 0 <= k < i && rows[k] == j;
        PoolMember(db, t, skipped, now, j);
        BlockedIffNotFree(db, j);
      }
    }
  }

  lemma PoolMember(db: Db, t: TenantId, skipped: set<JobId>, now: Time, j: JobId)
    requires j in Candidates(db, t, now, skipped)
    ensures j in db.jobs
  {
  }

  /** A candidate strictly before a row of the page is an earlier row of it. */
  lemma EarlierIsEarlier(rows: seq<JobId>, pool: map<JobId, Rank>, i: nat, j: JobId)
    requires IsPage(rows, pool, CANDIDATE_LIMIT) && i < |rows| && j in pool && Before(pool[j], pool[rows[i]])
    ensures exists k :: 0 <= k < i && rows[k] == j
  {
    assert rows[i] in rows;
    assert j in rows;
    var k :| 0 <= k < |rows| && rows[k] == j;
    assert !(i < k);
  }

  /** With capacity to spare, nothing is dispatched exactly when each of the first ten candidates is blocked. */
  lemma NoneIffPageBlocked(db: Db, t: TenantId, rows: seq<JobId>, skipped: set<JobId>, now: Time)
    requires DbSafe(db) && HasCapacity(db, t) && IsPage(rows, Candidates(db, t, now, skipped), CANDIDATE_LIMIT)
    ensures forall j :: j in rows ==> j in db.jobs
    ensures Choice(db, t, rows).None? <==> forall j :: j in rows ==> Blocked(db, j)
    ensures |rows| == Min(CANDIDATE_LIMIT, |Candidates(db, t, now, skipped)|)
  {
    RowsAreCandidates(db, t, rows, skipped, now);
    assert LocksMatch(db.jobs, db.locks);
    hide DbSafe, Candidates, Blocked, Free;
    forall j | j in rows
      ensures Blocked(db, j) <==> !Free(db, j)
    {
      BlockedIffNotFree(db, j);
    }
  }

  /** The order of dispatch: the smaller priority number first, and of equal ones the job ready for longer. */
  predicate Ahead(a: Job, b: Job) {
    a.priority < b.priority || (a.priority == b.priority && a.readySince < b.readySince)
  }

  /** A due waiting job of the tenant that no other transaction has locked. */
  predicate Eligible(db: Db, t: TenantId, j: JobId, skipped: set<JobId>, now: Time) {
    j in db.jobs && db.jobs[j].tenant == t && db.jobs[j].status == Waiting && db.jobs[j].availableAt <= now && j !in skipped
  }

  lemma CandidatesAreEligible(db: Db, t: TenantId, skipped: set<JobId>, now: Time)
    ensures forall j :: j in Candidates(db, t, now, skipped) <==> Eligible(db, t, j, skipped, now)
    ensures forall i, j :: i in Candidates(db, t, now, skipped) && j in Candidates(db, t, now, skipped) ==>
      (Before(Candidates(db, t, now, skipped)[i], Candidates(db, t, now, skipped)[j]) <==> Ahead(db.jobs[i], db.jobs[j]))
  {
  }

  /** First by priority, then first in, first out: a dispatched job `j` is a due waiting job of the tenant, below
    * its limit, and any such job `i` that has a smaller priority number, or the same and waits for longer,
    * is blocked.
    */
  lemma DispatchOrder(db: Db, t: TenantId, rows: seq<JobId>, skipped: set<JobId>, now: Time, i: JobId)
    requires DbSafe(db) && IsPage(rows, Candidates(db, t, now, skipped), CANDIDATE_LIMIT)
    ensures forall j :: j in rows ==> j in db.jobs
    ensures Choice(db, t, rows).Some? ==>
      var j := Choice(db, t, rows).value;
      && t in db.sched && t in db.tenants && db.sched[t].active < db.tenants[t]
      && j in db.jobs && db.jobs[j].tenant == t && db.jobs[j].status == Waiting && db.jobs[j].availableAt <= now && j !in skipped
      && !Blocked(db, j)
      && (i in db.jobs && db.jobs[i].tenant == t && db.jobs[i].status == Waiting && db.jobs[i].availableAt <= now && i !in skipped
          && (db.jobs[i].priority < db.jobs[j].priority
              || (db.jobs[i].priority == db.jobs[j].priority && db.jobs[i].readySince < db.jobs[j].readySince))
          ==> Blocked(db, i))
  {
    ChosenIsFirstUnblocked(db, t, rows, skipped, now);
    CandidatesAreEligible(db, t, skipped, now);
    hide DbSafe, IsPage, Candidates, Blocked, FirstFree;
    if Choice(db, t, rows).Some? {
      assert Eligible(db, t, Choice(db, t, rows).value, skipped, now);
      if Eligible(db, t, i, skipped, now) && Ahead(db.jobs[i], db.jobs[Choice(db, t, rows).value]) {
        assert Blocked(db, i);
      }
    }
  }

  /** The blocked jobs that `free` does not come strictly before. */
  ghost function BlockedAhead(db: Db, t: TenantId, skipped: set<JobId>, now: Time, free: JobId): set<JobId>
    requires free in db.jobs
  {
    set j | j in db.jobs && Eligible(db, t, j, skipped, now) && Blocked(db, j) && !Ahead(db.jobs[free], db.jobs[j])
  }

  /** Fewer than ten blocked jobs ahead never hide a free one. */
  lemma FreeJobIsNotHidden(db: Db, t: TenantId, rows: seq<JobId>, skipped: set<JobId>, now: Time, free: JobId)
    requires DbSafe(db) && IsPage(rows, Candidates(db, t, now, skipped), CANDIDATE_LIMIT)
    requires t in db.sched && t in db.tenants && db.sched[t].active < db.tenants[t]
    requires Eligible(db, t, free, skipped, now) && !Blocked(db, free)
    requires |BlockedAhead(db, t, skipped, now, free)| < 10
    ensures forall j :: j in rows ==> j in db.jobs
    ensures Choice(db, t, rows).Some?
  {
    hide DbSafe, Candidates, Blocked, IsPage, FirstFree;
    NoneIffPageBlocked(db, t, rows, skipped, now);
    if Choice(db, t, rows).None? {
      CandidatesAreEligible(db, t, skipped, now);
      assert free !in rows;
      FullPageAhead(db, t, rows, skipped, now, free);
      assert false;
    }
  }

  lemma FullPageAhead(db: Db, t: TenantId, rows: seq<JobId>, skipped: set<JobId>, now: Time, free: JobId)
    requires IsPage(rows, Candidates(db, t, now, skipped), CANDIDATE_LIMIT)
    requires free in Candidates(db, t, now, skipped) && free !in rows && free in db.jobs
    requires forall j :: j in rows ==> Blocked(db, j)
    ensures |BlockedAhead(db, t, skipped, now, free)| >= 10
  {
    var pool := Candidates(db, t, now, skipped);
    CandidatesAreEligible(db, t, skipped, now);
    hide Blocked, Candidates;
    DistinctCount(rows);
    forall j | j in rows
      ensures j in BlockedAhead(db, t, skipped, now, free)
    {
      assert Eligible(db, t, j, skipped, now) && !Before(pool[free], pool[j]);
    }
    SubsetCount(Elements(rows), BlockedAhead(db, t, skipped, now, free));
    if |rows| < CANDIDATE_LIMIT {
      FewerRowsThanPool(rows, pool, free);
    }
  }

  lemma FewerRowsThanPool(rows: seq<JobId>, pool: map<JobId, Rank>, other: JobId)
    requires forall i, k :: 0 <= i < k < |rows| ==> rows[i] != rows[k]
    requires forall j :: j in rows ==> j in pool
    requires other in pool && other !in rows
    ensures |rows| < |pool|
  {
    DistinctCount(rows);
    SubsetCount(Elements(rows) + {other}, pool.Keys);
    assert |Elements(rows) + {other}| == |rows| + 1;
    assert |pool.Keys| == |pool|;
  }
}
