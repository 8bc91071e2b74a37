/** A run in which a late worker makes a tenant with a limit of two hold three slots. */
module Overcommit {
  import opened Tables
  import opened Protocol
  import opened Scenarios
  import Safety

  /** The worker whose attempt was given up completes it; its job gives up a slot it no longer has. */
  lemma LateStage(w: World, n: nat, held: set<JobId>, active: nat, time: Time, now: Time)
    requires Stage(w, n, {}, held, active, time) && time <= now
    requires active > 0 && n > 0 && 0 !in held && FIRST_ATTEMPT in w.db.attempts
    ensures var s := Step(Complete(FIRST_ATTEMPT, ""), now);
      && Legal(w, s, false) && Listed(w.db, s) && Stage(Exec(w, s), n, {}, held, active - 1, now)
  {
    assert PlainJob(0, w.db.jobs[0], {});
    assert w.db.reservations.Keys - {0} == w.db.reservations.Keys;
  }

  lemma HeldByAll(db: Db, n: nat, held: set<JobId>, active: nat)
    requires RowsAre(db, n, {}, held, active) && n > 0
    ensures Safety.Held(db.reservations, 0) == held && 0 in db.sched && db.sched[0].active == active
    ensures 0 in db.tenants && db.tenants[0] == 2
  {
  }

  /** The limit of a tenant is not kept in every run: here three jobs hold a slot of a tenant that allows
    * two, while its counter says two. The first worker falls silent, its lease runs out, the reaper gives
    * it up, two more jobs are dispatched, and then the first worker completes after all.
    */
  lemma LimitCanBeExceeded() returns (steps: seq<Step>)
    ensures IsScenario(steps, false)
    ensures var db := After(Start(), steps).db;
      && 0 in db.tenants && 0 in db.sched
      && db.tenants[0] == 2 && db.sched[0].active == 2 && |Safety.Held(db.reservations, 0)| == 3
  {
    hide *;
    steps := FirstJobGivenUp();
    LiveIsScenario(steps);
    var one: set<JobId> := {1};
    assert {} + {1} == one;
    steps := NextJob(steps, false, 1, {}, 0, LATE, LATE);
    steps := NextJob(steps, false, 2, one, 1, LATE, LATE);
    var held := one + {2};
    LateStage(After(Start(), steps), 3, held, 2, LATE, LATE + 1);
    Extend(steps, Step(Complete(FIRST_ATTEMPT, ""), LATE + 1), false);
    steps := steps + [Step(Complete(FIRST_ATTEMPT, ""), LATE + 1)];
    steps := NextJob(steps, false, 3, held, 1, LATE + 1, LATE + 1);
    RowsAt(After(Start(), steps), 4, {}, held + {3}, 2, LATE + 1);
    HeldByAll(After(Start(), steps).db, 4, held + {3}, 2);
    assert |held + {3}| == 3;
  }
}
