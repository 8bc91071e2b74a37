/** Renewing the lease of a running attempt (jobs/services/heartbeat.py). */
module Heartbeat {
  import opened Tables

  function Beaten(db: Db, a: AttemptId, now: Time): Db {
    if !RunningAttempt(db, a) then db
    else db.(attempts := db.attempts[a := db.attempts[a].(heartbeatAt := now, leaseExpiresAt := now + LEASE)],
             reservations := if a.job !in db.reservations then db.reservations
                             else db.reservations[a.job := db.reservations[a.job].(expiresAt := now + LEASE)])
  }

  method RecordHeartbeat(db: Database, a: AttemptId, now: Time) returns (renewed: bool)
    modifies db`attempts, db`reservations
    ensures db.View() == Beaten(old(db.View()), a, now)
    ensures renewed <==> RunningAttempt(old(db.View()), a)
  {
    var expiresAt := now + LEASE;
    if a !in db.attempts || !db.attempts[a].status.Running? {
      return false;
    }
    db.attempts := db.attempts[a := db.attempts[a].(heartbeatAt := now, leaseExpiresAt := expiresAt)];
    if a.job in db.reservations {
      db.reservations := db.reservations[a.job := db.reservations[a.job].(expiresAt := expiresAt)];
    }
    return true;
  }
}
