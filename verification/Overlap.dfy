/** Mutual exclusion on resource keys by a uniqueness constraint (jobs/services/overlap.py). */
module Overlap {
  import opened Tables

  /** The locks left once `j` holds none. */
  function Unlocked(locks: map<LockKey, JobId>, j: JobId): map<LockKey, JobId> {
    map k | k in locks && locks[k] != j :: locks[k]
  }

  /** Inserting a second lock on a key violates the constraint, and only the insert is undone. */
  method AcquireOverlap(db: Database, j: JobId, k: LockKey) returns (acquired: bool)
    modifies db`locks
    ensures acquired <==> k !in old(db.locks)
    ensures db.locks == if acquired then old(db.locks)[k := j] else old(db.locks)
  {
    if k in db.locks {
      return false;
    }
    db.locks := db.locks[k := j];
    return true;
  }

  method ReleaseOverlaps(db: Database, j: JobId)
    modifies db`locks
    ensures db.locks == Unlocked(old(db.locks), j)
  {
    db.locks := map k | k in db.locks && db.locks[k] != j :: db.locks[k];
  }
}
