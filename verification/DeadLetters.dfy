/** Replaying a dead letter as a new job (jobs/services/dead_letter.py). */
module DeadLetters {
  import opened Tables
  import opened SchedulerState
  import Submission

  predicate ReplayRaises(db: Db, j: JobId, key: string) {
    j !in db.deadLetters || j !in db.jobs || Submission.KeyTaken(db, db.jobs[j].tenant, key)
  }

  /** The copy takes the source's configuration, not its idempotency key, history or schedule. */
  function CopiedJob(source: Job, key: string, now: Time): Job {
    Submission.NewJob(source.tenant, source.jobType, source.payload, source.priority, key, now)
  }

  function MarkedLetter(letter: DeadLetter, id: JobId, now: Time): DeadLetter {
    letter.(status := DeadLetterStatus.Replayed, replayedJob := Some(id), replayedAt := Some(now))
  }

  /** The tables with the copy inserted and the dead letter marked. */
  function ReplayedRows(db: Db, j: JobId, id: JobId, key: string, now: Time): Db
    requires j in db.jobs && j in db.deadLetters
  {
    db.(jobs := db.jobs[id := CopiedJob(db.jobs[j], key, now)],
        deadLetters := db.deadLetters[j := MarkedLetter(db.deadLetters[j], id, now)])
  }

  ghost function Replayed(db: Db, j: JobId, id: JobId, key: string, now: Time): Db {
    if ReplayRaises(db, j, key) then db
    else RefreshAll(ReplayedRows(db, j, id, key, now), {db.jobs[j].tenant}, now)
  }

  /** `id` and `key` are the random values of the new row. */
  method ReplayDeadLetter(db: Database, j: JobId, id: JobId, key: string, now: Time) returns (r: Outcome<JobId>)
    requires id !in db.jobs
    modifies db
    ensures db.View() == Replayed(old(db.View()), j, id, key, now)
    ensures r.Raised? <==> ReplayRaises(old(db.View()), j, key)
    ensures r.Ok? ==> r.value == id
  {
    if j !in db.deadLetters || j !in db.jobs {
      return Raised(DoesNotExist);
    }
    var letter, source := db.deadLetters[j], db.jobs[j];
    var existing := Submission.FindExisting(db, source.tenant, key);
    if existing.Some? {
      return Raised(IntegrityError);
    }
    db.jobs := db.jobs[id := CopiedJob(source, key, now)];
    letter := letter.(status := DeadLetterStatus.Replayed, replayedJob := Some(id), replayedAt := Some(now));
    db.deadLetters := db.deadLetters[j := letter];
    RefreshSchedulerState(db, source.tenant, now);
    return Ok(id);
  }
}
