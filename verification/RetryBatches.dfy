/** What one batch of promotions does, and how batches drain the retries that are due. */
module RetryBatches {
  import opened Tables
  import opened Retry
  import SchedulerState

  lemma BatchRows(db: Db, rows: seq<JobId>, skipped: set<JobId>, limit: nat, now: Time)
    requires IsPage(rows, DueRetries(db, now, skipped), limit)
    ensures Promoted(db, rows, now).jobs == PromotedJobs(db.jobs, rows, now)
    ensures DueRetries(Promoted(db, rows, now), now, skipped).Keys == DueRetries(db, now, skipped).Keys - Elements(rows)
  {
    DueRows(db, rows, skipped, limit, now);
    hide IsPage, SchedulerState.RefreshedRow;
  }

  /** A batch promotes the `limit` due retries of least `availableAt`, or all of them if there are fewer,
    * and leaves every other job as it is.
    */
  lemma BatchTakesEarliest(db: Db, rows: seq<JobId>, skipped: set<JobId>, limit: nat, now: Time, j: JobId, other: JobId)
    requires IsPage(rows, DueRetries(db, now, skipped), limit) && j in db.jobs
    ensures var due := DueRetries(db, now, skipped);
      var after := Promoted(db, rows, now).jobs;
      && |Elements(rows)| == Min(limit, |due|) && Elements(rows) <= due.Keys
      && j in after && after[j] == (if j in rows then db.jobs[j].(status := Waiting, readySince := now) else db.jobs[j])
      && (j in rows ==> db.jobs[j].status == RetryWait && db.jobs[j].availableAt <= now && j !in skipped)
      && (other in db.jobs && db.jobs[other].status == RetryWait && db.jobs[other].availableAt <= now
          && other !in skipped && other !in rows ==>
            |rows| == limit && (j in rows ==> db.jobs[j].availableAt <= db.jobs[other].availableAt))
  {
    BatchRows(db, rows, skipped, limit, now);
    DueRows(db, rows, skipped, limit, now);
    DistinctCount(rows);
    var due := DueRetries(db, now, skipped);
    if other in due && other !in rows {
      assert j in rows ==> !Before(due[other], due[j]);
      SubsetCount(Elements(rows) + {other}, due.Keys);
      assert |Elements(rows) + {other}| == |rows| + 1 && |due.Keys| == |due|;
    }
  }

  ghost function AfterBatches(db: Db, batches: seq<seq<JobId>>, now: Time): Db {
    if batches == [] then db
    else Promoted(AfterBatches(db, batches[..|batches| - 1], now), batches[|batches| - 1], now)
  }

  ghost predicate AreBatches(db: Db, batches: seq<seq<JobId>>, limit: nat, now: Time) {
    batches == [] ||
    (AreBatches(db, batches[..|batches| - 1], limit, now)
     && IsPage(batches[|batches| - 1], DueRetries(AfterBatches(db, batches[..|batches| - 1], now), now, {}), limit))
  }

  /** Batches drain the due retries at the rate of `limit` each, exactly. */
  lemma {:induction false} BatchesDrain(db: Db, batches: seq<seq<JobId>>, limit: nat, now: Time)
    requires AreBatches(db, batches, limit, now)
    ensures |DueRetries(AfterBatches(db, batches, now), now, {}).Keys| == Less(|DueRetries(db, now, {}).Keys|, |batches| * limit)
  {
    hide DueRetries, Promoted, IsPage;
    if batches != [] {
      var n := |batches| - 1;
      BatchesDrain(db, batches[..n], limit, now);
      var before := AfterBatches(db, batches[..n], now);
      var due := DueRetries(before, now, {});
      PageOf(batches[n], due, limit);
      BatchRows(before, batches[n], {}, limit, now);
      assert |due| == |due.Keys|;
      LessWithout(due.Keys, Elements(batches[n]), limit);
      LessTwice(|DueRetries(db, now, {}).Keys|, limit, n + 1);
    }
  }

  /** No due retry is left exactly when the batches were enough for all of them. */
  lemma DrainedIffEnough(db: Db, batches: seq<seq<JobId>>, limit: nat, now: Time)
    requires AreBatches(db, batches, limit, now)
    ensures DueRetries(AfterBatches(db, batches, now), now, {}) == map[] <==> |DueRetries(db, now, {})| <= |batches| * limit
  {
    hide DueRetries, AfterBatches, AreBatches;
    BatchesDrain(db, batches, limit, now);
    var left, due := DueRetries(AfterBatches(db, batches, now), now, {}), DueRetries(db, now, {});
    assert |left| == |left.Keys| && |due| == |due.Keys|;
    assert |left| == 0 <==> left == map[];
  }
}
