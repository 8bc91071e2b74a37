/** Any number of clients submitting at once: other transactions may commit between a client's look-up
  * (step 1 of `submit_job`) and its insert (steps 2 and 3).
  */
module Clients {
  import opened Tables
  import opened Submission
  import Protocol
  import Runs
  import Safety
  import Steps

  datatype Phase =
    | Asked
    | Missed
    | Answered(job: JobId, created: bool)

  /** A client, its request, and the random key it would use for want of one. */
  datatype Client = Client(req: Request, uuid: string, phase: Phase)

  datatype System = System(db: Db, clients: seq<Client>)

  datatype Event =
    | Look(client: nat, found: Option<JobId>)
    | Insert(client: nat, id: JobId, found: Option<JobId>, now: Time)
    | Elsewhere(db: Db)

  ghost predicate Wants(c: Client, t: TenantId, key: string) {
    c.req.tenant == t && KeyOf(c.req, c.uuid) == key
  }

  /** An answer to a look-up by key: some job that has it, if there is one. */
  ghost predicate Finds(db: Db, found: Option<JobId>, t: TenantId, key: string) {
    if found.None? then !KeyTaken(db, t, key) else HasKey(db, found.value, t, key)
  }

  /** What every other transaction keeps: jobs with their tenants and keys, the uniqueness of keys, and the
    * keys that clients want are left to the clients.
    */
  ghost predicate OthersCommit(s: System, db: Db) {
    && UniqueKeys(db)
    && (forall j :: j in s.db.jobs ==> j in db.jobs && db.jobs[j].tenant == s.db.jobs[j].tenant && db.jobs[j].key == s.db.jobs[j].key)
    && (forall j, c :: j in db.jobs && j !in s.db.jobs && c in s.clients ==> !Wants(c, db.jobs[j].tenant, db.jobs[j].key))
  }

  ghost function Settle(s: System, c: nat, phase: Phase): seq<Client>
    requires c < |s.clients|
  {
    s.clients[c := s.clients[c].(phase := phase)]
  }

  ghost predicate Acts(s: System, e: Event, after: System) {
    match e
    case Look(c, found) =>
      && c < |s.clients| && s.clients[c].phase.Asked?
      && Finds(s.db, found, s.clients[c].req.tenant, KeyOf(s.clients[c].req, s.clients[c].uuid))
      && after == System(s.db, Settle(s, c, if found.Some? then Answered(found.value, false) else Missed))
    case Insert(c, id, found, now) =>
      && c < |s.clients| && s.clients[c].phase.Missed? && id !in s.db.jobs
      && var req, key := s.clients[c].req, KeyOf(s.clients[c].req, s.clients[c].uuid);
      && Finds(s.db, found, req.tenant, key)
      && after == System(Inserted(s.db, id, req, key, now),
                         Settle(s, c, if found.Some? then Answered(found.value, false) else Answered(id, true)))
    case Elsewhere(db) => OthersCommit(s, db) && after == System(db, s.clients)
  }

  /** A history of the system: consecutive states are related by one event. */
  ghost predicate IsHistory(states: seq<System>, events: seq<Event>) {
    |states| == |events| + 1 && forall i :: 0 <= i < |events| ==> Acts(states[i], events[i], states[i + 1])
  }

  ghost predicate Starts(s: System) {
    UniqueKeys(s.db) && forall c :: c in s.clients ==> c.phase.Asked?
  }

  ghost predicate CreatorOf(s: System, c: nat, t: TenantId, key: string) {
    c < |s.clients| && Wants(s.clients[c], t, key) && s.clients[c].phase.Answered? && s.clients[c].phase.created
  }

  ghost predicate HasCreator(s: System, t: TenantId, key: string) {
    exists c :: CreatorOf(s, c, t, key)
  }

  /** What holds between the start and any later state. */
  ghost predicate Consistent(start: System, s: System) {
    && UniqueKeys(s.db)
    && |s.clients| == |start.clients|
    && (forall c :: 0 <= c < |s.clients| ==> s.clients[c].req == start.clients[c].req && s.clients[c].uuid == start.clients[c].uuid)
    && (forall j :: j in start.db.jobs ==> HasKey(s.db, j, start.db.jobs[j].tenant, start.db.jobs[j].key))
    && (forall c :: 0 <= c < |s.clients| ==> AnswerHolds(start, s, c))
    && (forall c, t, key :: 0 <= c < |s.clients| && Wants(s.clients[c], t, key) && KeyTaken(s.db, t, key) ==>
          KeyTaken(start.db, t, key) || HasCreator(s, t, key))
    && (forall c, d, t, key :: CreatorOf(s, c, t, key) && CreatorOf(s, d, t, key) ==> c == d)
  }

  ghost predicate AnswerHolds(start: System, s: System, c: nat)
    requires c < |s.clients|
  {
    var client := s.clients[c];
    var t, key := client.req.tenant, KeyOf(client.req, client.uuid);
    client.phase.Answered? ==>
      HasKey(s.db, client.phase.job, t, key) && (client.phase.created ==> !KeyTaken(start.db, t, key))
  }

  lemma StartConsistent(s: System)
    requires Starts(s)
    ensures Consistent(s, s)
  {
    forall c | 0 <= c < |s.clients| ensures s.clients[c].phase.Asked? {
      assert s.clients[c] in s.clients;
    }
  }

  lemma TakenBy(db: Db, j: JobId, t: TenantId, key: string)
    requires HasKey(db, j, t, key)
    ensures KeyTaken(db, t, key)
  {
  }

  lemma LookConsistent(start: System, s: System, e: Event, after: System)
    requires Consistent(start, s) && e.Look? && Acts(s, e, after)
    ensures Consistent(start, after)
  {
    forall c, t, key
      ensures CreatorOf(after, c, t, key) <==> CreatorOf(s, c, t, key)
    {
    }
    forall c, t, key | 0 <= c < |after.clients| && Wants(after.clients[c], t, key) && KeyTaken(after.db, t, key)
      ensures KeyTaken(start.db, t, key) || HasCreator(after, t, key)
    {
      assert Wants(s.clients[c], t, key);
      if HasCreator(s, t, key) {
        var d :| CreatorOf(s, d, t, key);
        assert CreatorOf(after, d, t, key);
      }
    }
    forall c | 0 <= c < |after.clients|
      ensures AnswerHolds(start, after, c)
    {
      assert AnswerHolds(start, s, c);
    }
  }

  lemma InsertedJobs(db: Db, id: JobId, req: Request, key: string, now: Time)
    requires UniqueKeys(db) && id !in db.jobs
    ensures var after := Inserted(db, id, req, key, now);
      && UniqueKeys(after)
      && (forall j, t, k :: HasKey(db, j, t, k) ==> HasKey(after, j, t, k))
      && (forall t, k :: KeyTaken(after, t, k) ==> KeyTaken(db, t, k) || (t == req.tenant && k == key))
      && (!KeyTaken(db, req.tenant, key) ==> HasKey(after, id, req.tenant, key))
  {
    var after := Inserted(db, id, req, key, now);
    if !KeyTaken(db, req.tenant, key) {
      forall i | i in db.jobs
        ensures !(db.jobs[i].tenant == req.tenant && db.jobs[i].key == key)
      {
        assert !HasKey(db, i, req.tenant, key);
      }
      forall t, k | KeyTaken(after, t, k)
        ensures KeyTaken(db, t, k) || (t == req.tenant && k == key)
      {
        var j :| j in after.jobs && HasKey(after, j, t, k);
        assert j != id ==> HasKey(db, j, t, k);
      }
    }
  }

  lemma InsertConsistent(start: System, s: System, e: Event, after: System)
    requires Consistent(start, s) && e.Insert? && Acts(s, e, after)
    ensures Consistent(start, after)
  {
    var me := s.clients[e.client];
    var key := KeyOf(me.req, me.uuid);
    InsertedJobs(s.db, e.id, me.req, key, e.now);
    forall c | 0 <= c < |after.clients|
      ensures AnswerHolds(start, after, c)
    {
      assert AnswerHolds(start, s, c);
      InsertedAnswer(start, s, e, after);
    }
    hide UniqueKeys, KeyTaken, HasKey, AnswerHolds;
    forall c, t, k
      ensures CreatorOf(after, c, t, k) <==> CreatorOf(s, c, t, k) || (c == e.client && e.found.None? && Wants(me, t, k))
    {
    }
    forall c, t, k | 0 <= c < |after.clients| && Wants(after.clients[c], t, k) && KeyTaken(after.db, t, k)
      ensures KeyTaken(start.db, t, k) || HasCreator(after, t, k)
    {
      assert Wants(s.clients[c], t, k);
      if HasCreator(s, t, k) {
        var d :| CreatorOf(s, d, t, k);
        assert CreatorOf(after, d, t, k);
      } else if !KeyTaken(s.db, t, k) {
        assert CreatorOf(after, e.client, t, k);
      }
    }
    forall c, d, t, k | CreatorOf(after, c, t, k) && CreatorOf(after, d, t, k)
      ensures c == d
    {
      if CreatorOf(s, c, t, k) {
        CreatorTook(start, s, c, t, k);
      }
      if CreatorOf(s, d, t, k) {
        CreatorTook(start, s, d, t, k);
      }
    }
  }

  /** The inserting client is answered rightly, and created a job only if the start had none with its key. */
  lemma InsertedAnswer(start: System, s: System, e: Event, after: System)
    requires Consistent(start, s) && e.Insert? && Acts(s, e, after)
    ensures AnswerHolds(start, after, e.client)
  {
    var me := s.clients[e.client];
    var key := KeyOf(me.req, me.uuid);
    InsertedJobs(s.db, e.id, me.req, key, e.now);
    if KeyTaken(start.db, me.req.tenant, key) {
      var j :| j in start.db.jobs && HasKey(start.db, j, me.req.tenant, key);
      TakenBy(s.db, j, me.req.tenant, key);
    }
  }

  lemma CreatorTook(start: System, s: System, c: nat, t: TenantId, key: string)
    requires Consistent(start, s) && CreatorOf(s, c, t, key)
    ensures KeyTaken(s.db, t, key)
  {
    assert AnswerHolds(start, s, c);
    TakenBy(s.db, s.clients[c].phase.job, t, key);
  }

  lemma ElsewhereConsistent(start: System, s: System, e: Event, after: System)
    requires Consistent(start, s) && e.Elsewhere? && Acts(s, e, after)
    ensures Consistent(start, after)
  {
    assert forall j, t, k :: HasKey(s.db, j, t, k) ==> HasKey(after.db, j, t, k);
    forall c, t, k | 0 <= c < |after.clients| && Wants(after.clients[c], t, k) && KeyTaken(after.db, t, k)
      ensures KeyTaken(start.db, t, k) || HasCreator(after, t, k)
    {
      var j :| j in after.db.jobs && HasKey(after.db, j, t, k);
      assert s.clients[c] in s.clients;
      assert j in s.db.jobs;
      TakenBy(s.db, j, t, k);
      if HasCreator(s, t, k) {
        var d :| CreatorOf(s, d, t, k);
        assert CreatorOf(after, d, t, k);
      }
    }
    forall c, t, k
      ensures CreatorOf(after, c, t, k) <==> CreatorOf(s, c, t, k)
    {
    }
    forall c | 0 <= c < |after.clients|
      ensures AnswerHolds(start, after, c)
    {
      assert AnswerHolds(start, s, c);
    }
  }

  lemma {:induction false} HistoryConsistent(states: seq<System>, events: seq<Event>, i: nat)
    requires IsHistory(states, events) && Starts(states[0]) && i < |states|
    ensures Consistent(states[0], states[i])
  {
    hide Consistent, Acts;
    if i == 0 {
      StartConsistent(states[0]);
    } else {
      HistoryConsistent(states, events, i - 1);
      match events[i - 1] {
        case Look(_, _) => LookConsistent(states[0], states[i - 1], events[i - 1], states[i]);
        case Insert(_, _, _, _) => InsertConsistent(states[0], states[i - 1], events[i - 1], states[i]);
        case Elsewhere(_) => ElsewhereConsistent(states[0], states[i - 1], events[i - 1], states[i]);
      }
    }
  }

  /** Idempotent submission: in every history, all clients that are answered for the same tenant and key get
    * the same job, and exactly one of them created it, unless it was there before they asked: then none did.
    */
  lemma OneJobOneCreator(states: seq<System>, events: seq<Event>, c: nat, d: nat, t: TenantId, key: string)
    requires IsHistory(states, events) && Starts(states[0])
    requires var s := states[|events|];
      && c < |s.clients| && Wants(s.clients[c], t, key) && s.clients[c].phase.Answered?
      && d < |s.clients| && Wants(s.clients[d], t, key) && s.clients[d].phase.Answered?
    ensures var s := states[|events|];
      && s.clients[c].phase.job == s.clients[d].phase.job
      && (c != d ==> !(s.clients[c].phase.created && s.clients[d].phase.created))
      && (KeyTaken(states[0].db, t, key) <==> !HasCreator(s, t, key))
  {
    HistoryConsistent(states, events, |events|);
    var s := states[|events|];
    assert AnswerHolds(states[0], s, c) && AnswerHolds(states[0], s, d);
    TakenBy(s.db, s.clients[c].phase.job, t, key);
    if c != d {
      assert !(CreatorOf(s, c, t, key) && CreatorOf(s, d, t, key));
    }
    if HasCreator(s, t, key) {
      var e :| CreatorOf(s, e, t, key);
      assert AnswerHolds(states[0], s, e);
    }
  }

  /** Seen by the clients: two that send the same key for the same tenant get the same job, and it carries that
    * key; for different tenants they get different jobs, each of its own tenant, whatever the keys.
    */
  lemma SameKeySameJob(states: seq<System>, events: seq<Event>, c: nat, d: nat)
    requires IsHistory(states, events) && Starts(states[0])
    requires var s := states[|events|];
      && c < |s.clients| && s.clients[c].phase.Answered? && s.clients[c].req.key != ""
      && d < |s.clients| && s.clients[d].phase.Answered? && s.clients[d].req.key != ""
    ensures var s := states[|events|];
      var mine, theirs := s.clients[c], s.clients[d];
      && mine.phase.job in s.db.jobs
      && s.db.jobs[mine.phase.job].tenant == mine.req.tenant && s.db.jobs[mine.phase.job].key == mine.req.key
      && (mine.phase.job == theirs.phase.job <==> mine.req.tenant == theirs.req.tenant && mine.req.key == theirs.req.key)
  {
    HistoryConsistent(states, events, |events|);
    var s := states[|events|];
    assert AnswerHolds(states[0], s, c) && AnswerHolds(states[0], s, d);
  }

  lemma ReplayedKey(w: Protocol.World, step: Protocol.Step, j: JobId)
    requires Safety.DbSafe(w.db) && Protocol.Legal(w, step, false) && !step.action.Submit?
    requires j in Protocol.Apply(w.db, step).jobs && j !in w.db.jobs
    ensures step.action.Replay? && Protocol.Apply(w.db, step).jobs[j].key == step.action.key
  {
    hide Safety.DbSafe, Protocol.Legal, Protocol.Apply, KeyTaken;
    Safety.Slots(w.db);
    Steps.NewJobStep(w, step, j);
  }

  /** The services other than submission are such other transactions, provided the random key of a replayed
    * job is none that a client wants.
    */
  lemma ServicesActElsewhere(s: System, w: Protocol.World, step: Protocol.Step)
    requires s.db == w.db && Safety.DbSafe(w.db) && UniqueKeys(w.db) && Protocol.Legal(w, step, false)
    requires !step.action.Submit?
    requires step.action.Replay? ==> forall c :: c in s.clients ==> KeyOf(c.req, c.uuid) != step.action.key
    ensures Acts(s, Elsewhere(Protocol.Apply(w.db, step)), System(Protocol.Apply(w.db, step), s.clients))
  {
    hide Safety.DbSafe, Protocol.Legal, Protocol.Apply, UniqueKeys, KeyTaken;
    Runs.UniqueKeysStep(w, step);
    Safety.Slots(w.db);
    var db := Protocol.Apply(w.db, step);
    forall j | j in s.db.jobs
      ensures j in db.jobs && db.jobs[j].tenant == s.db.jobs[j].tenant && db.jobs[j].key == s.db.jobs[j].key
    {
      Steps.IdentityStep(w, step, j);
    }
    forall j, c | j in db.jobs && j !in s.db.jobs && c in s.clients
      ensures !Wants(c, db.jobs[j].tenant, db.jobs[j].key)
    {
      ReplayedKey(w, step, j);
    }
  }
}
