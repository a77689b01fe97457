/** The whole delivery protocol as a state machine: any number of API processes and workers share
    the database, and every transaction is one atomic step. */
module Protocol {
  import opened Schema
  import opened Retry
  import opened Transport
  import opened Transactions
  import opened Invariants
  import opened WorkerProofs
  import opened ServiceProofs

  /** A claimed webhook in the memory of the worker that claimed it. */
  datatype Holding = Holding(workerId: string, webhook: Webhook)

  /** One HTTP request. The answer is absent when the worker died before it saw one. */
  datatype SendEntry = SendEntry(webhook: Webhook, answer: Option<AttemptResult>)

  /** - `used`: every UUID ever minted
      - `calls`: replays between their unlocked read and their decision
      - `issued`: every snapshot a claim ever returned, stale ones included
      - `ready`: claimed and not yet sent
      - `answered`: sent and answered; kept for ever, so a result may arrive late or repeatedly
      - `log`: every request ever sent
      - `chosen`: every set of events that a retention run has selected, to delete at any time after */
  datatype System = System(
    db: DB, used: set<Id>, calls: set<ReplayCall>, issued: set<Webhook>,
    ready: set<Holding>, answered: set<(Holding, AttemptResult)>, log: seq<SendEntry>,
    chosen: set<set<Id>>)

  const START := System(EMPTY_DB, {}, {}, {}, {}, {}, [], {})

  datatype Action =
    | AddEndpoint(endpointId: Id, row: Endpoint)
    | SetEnabled(target: Id, enabled: bool)
    | Publish(q: PublishRequest, key: string, m: Minted)
    | BeginReplay(sourceId: Id, replayKey: string)
    | DecideReplay(call: ReplayCall, newId: Id, now: Time, databaseNow: Time)
    | Claim(d: Id, r: Reservation, queryTime: Time, locked: set<Id>)
    | Send(h: Holding, answer: Option<AttemptResult>)
    | Finalize(holder: Holding, result: AttemptResult, finalizedAt: Time, jitter: real)
    | Crash(lost: set<Holding>)
    | SelectExpired(expired: set<Id>)
    | Purge(gone: set<Id>)

  ghost predicate Enabled(s: Settings, sys: System, a: Action) {
    match a
    case AddEndpoint(id, row) => id !in sys.used
    case SetEnabled(id, enabled) => id in sys.db.endpoints
    case Publish(q, key, m) =>
      |q.eventType| > 0 && m.eventId !in sys.used && m.deliveryId !in sys.used
      && m.eventId != m.deliveryId
    case BeginReplay(source, key) => ReplayBegin(sys.db, source, key).Began?
    case DecideReplay(call, newId, now, databaseNow) => call in sys.calls && newId !in sys.used
    case Claim(d, r, t, locked) =>
      Selected(sys.db, t, locked, d) && r.now <= t
      && r.token !in sys.used && r.attemptId !in sys.used && r.token != r.attemptId
    case Send(h, answer) => h in sys.ready && (answer.Some? ==> WellFormed(s, answer.value))
    case Finalize(h, result, now, jitter) =>
      (h, result) in sys.answered && 0.0 <= jitter <= 1.0
      && h.webhook.attemptNumber >= 1
    case Crash(lost) => true
    case SelectExpired(expired) =>
      expired <= sys.db.events.Keys && forall e | e in expired :: AllTerminal(sys.db, e)
    case Purge(gone) => gone in sys.chosen
  }

  ghost function Next(s: Settings, sys: System, a: Action): System
    requires Enabled(s, sys, a)
  {
    match a
    case AddEndpoint(id, row) =>
      sys.(db := sys.db.(endpoints := sys.db.endpoints[id := row]), used := sys.used + {id})
    case SetEnabled(id, enabled) =>
      sys.(db := sys.db.(endpoints :=
             sys.db.endpoints[id := sys.db.endpoints[id].(enabled := enabled)]))
    case Publish(q, key, m) =>
      sys.(db := PublishTx(sys.db, q, key, m).0, used := sys.used + {m.eventId, m.deliveryId})
    case BeginReplay(source, key) =>
      sys.(calls := sys.calls + {ReplayBegin(sys.db, source, key).call})
    case DecideReplay(call, newId, now, databaseNow) =>
      sys.(db := ReplayTx(sys.db, call, newId, now, databaseNow).0, used := sys.used + {newId})
    case Claim(d, r, t, locked) =>
      var (db', outcome) := ClaimTx(s, sys.db, d, r);
      var sys' := sys.(db := db', used := sys.used + {r.token, r.attemptId});
      if outcome.Claimed? then
        sys'.(issued := sys.issued + {outcome.webhook},
              ready := sys.ready + {Holding(r.workerId, outcome.webhook)})
      else sys'
    case Send(h, answer) =>
      sys.(ready := sys.ready - {h}, log := sys.log + [SendEntry(h.webhook, answer)],
           answered := if answer.Some? then sys.answered + {(h, answer.value)} else sys.answered)
    case Finalize(h, result, now, jitter) =>
      sys.(db := FinalizeTx(s, sys.db, h.workerId, h.webhook, result, now, jitter).0)
    case Crash(lost) => sys.(ready := sys.ready - lost)
    case SelectExpired(expired) => sys.(chosen := sys.chosen + {expired})
    case Purge(gone) => sys.(db := RemoveEvents(sys.db, gone))
  }

  // ----- the invariant of the whole system -----

  predicate UsedCovers(sys: System) {
    && sys.db.endpoints.Keys <= sys.used && sys.db.events.Keys <= sys.used
    && sys.db.deliveries.Keys <= sys.used && sys.db.attempts.Keys <= sys.used
    && (forall a | a in sys.db.attempts :: sys.db.attempts[a].leaseToken in sys.used)
    && (forall w | w in sys.issued ::
          w.attemptId in sys.used && w.leaseToken in sys.used && w.deliveryId in sys.used)
    && (forall c | c in sys.calls :: c.sourceId in sys.used && c.seen.eventId in sys.used)
  }

  /** Two snapshots of one attempt, one lease or one attempt number are the same snapshot. */
  predicate SameClaim(w1: Webhook, w2: Webhook) {
    || w1.attemptId == w2.attemptId || w1.leaseToken == w2.leaseToken
    || (w1.deliveryId == w2.deliveryId && w1.attemptNumber == w2.attemptNumber)
  }

  predicate SnapshotFits(s: Settings, db: DB, w: Webhook) {
    && NamesItsAttempt(db, w) && w.attemptNumber <= s.policy.maxAttempts
    && (w.deliveryId in db.deliveries ==> SnapshotAgrees(db, w))
  }

  predicate WasIssued(issued: set<Webhook>, a: Id) {
    exists w :: w in issued && w.attemptId == a
  }

  ghost predicate SnapshotsFit(s: Settings, db: DB, issued: set<Webhook>) {
    && (forall w | w in issued :: SnapshotFits(s, db, w))
    && (forall w1, w2 | w1 in issued && w2 in issued && SameClaim(w1, w2) :: w1 == w2)
    && (forall a | a in db.attempts :: WasIssued(issued, a))
  }

  ghost predicate Sent(log: seq<SendEntry>, w: Webhook) {
    exists i :: 0 <= i < |log| && log[i].webhook == w
  }

  ghost predicate HoldingsFit(sys: System) {
    && (forall h | h in sys.ready :: h.webhook in sys.issued && !Sent(sys.log, h.webhook))
    && (forall h1, h2 | h1 in sys.ready && h2 in sys.ready && h1.webhook == h2.webhook :: h1 == h2)
    && (forall p | p in sys.answered :: SendEntry(p.0.webhook, Some(p.1)) in sys.log)
  }

  predicate LogFits(s: Settings, issued: set<Webhook>, log: seq<SendEntry>) {
    && (forall i | 0 <= i < |log| ::
          log[i].webhook in issued
          && (log[i].answer.Some? ==> WellFormed(s, log[i].answer.value)))
    && (forall i, j | 0 <= i < j < |log| :: log[i].webhook != log[j].webhook)
  }

  /** The completed attempt is a faithful record of this answer. */
  predicate Records(a: Attempt, answer: AttemptResult) {
    && a.disposition == Some(answer.disposition) && a.httpStatus == answer.httpStatus
    && a.excerpt == answer.excerpt
  }

  ghost predicate RecordedFromLog(log: seq<SendEntry>, id: Id, a: Attempt) {
    exists i :: 0 <= i < |log| && log[i].webhook.attemptId == id
                && log[i].answer.Some? && Records(a, log[i].answer.value)
  }

  ghost predicate RecordsFit(db: DB, log: seq<SendEntry>) {
    forall a | a in db.attempts && db.attempts[a].status == Completed ::
      RecordedFromLog(log, a, db.attempts[a])
  }

  predicate CallsFit(sys: System) {
    forall c | c in sys.calls :: CallFits(sys.db, c)
  }

  ghost predicate SysInv(s: Settings, sys: System) {
    && Inv(s, sys.db) && UsedCovers(sys) && SnapshotsFit(s, sys.db, sys.issued)
    && HoldingsFit(sys) && LogFits(s, sys.issued, sys.log) && RecordsFit(sys.db, sys.log)
    && CallsFit(sys)
  }

  // ----- what no step undoes -----

  predicate DeliveryEvolves(row: Delivery, row': Delivery) {
    && SamePlace(row, row') && row.attemptCount <= row'.attemptCount
    && (!Active(row.status) ==> row' == row)
  }

  predicate AttemptEvolves(a: Attempt, a': Attempt) {
    SameAttemptKey(a, a') && (a.status != Reserved ==> a' == a)
  }

  /** From db to db', where `used` were the identifiers known at db: nothing removed comes back,
      events and identities never change, terminal deliveries and resolved attempts are frozen,
      and rows disappear only together with their event. */
  ghost predicate Evolves(used: set<Id>, db: DB, db': DB) {
    && (forall p | p in db.endpoints :: p in db'.endpoints)
    && (forall e | e in used && e in db'.events :: e in db.events && db'.events[e] == db.events[e])
    && (forall d | d in used && d in db'.deliveries ::
          d in db.deliveries && DeliveryEvolves(db.deliveries[d], db'.deliveries[d]))
    && (forall a | a in used && a in db'.attempts ::
          a in db.attempts && AttemptEvolves(db.attempts[a], db'.attempts[a]))
    && (forall d | d in db.deliveries && db.deliveries[d].eventId in db'.events ::
          d in db'.deliveries)
    && (forall a | a in db.attempts && db.attempts[a].deliveryId in db'.deliveries ::
          a in db'.attempts)
  }

  lemma EvolvesReflexively(used: set<Id>, db: DB)
    ensures Evolves(used, db, db)
  {
  }

  lemma EvolvesTransitively(sys: System, used': set<Id>, db1: DB, db2: DB)
    requires UsedCovers(sys) && sys.used <= used' && ForeignKeys(sys.db)
    requires Evolves(sys.used, sys.db, db1) && Evolves(used', db1, db2)
    ensures Evolves(sys.used, sys.db, db2)
  {
    hide UsedCovers, ForeignKeys;
    forall d | d in sys.db.deliveries && sys.db.deliveries[d].eventId in db2.events
      ensures d in db2.deliveries
    {
      DeliveryRetained(sys, used', db1, db2, d);
    }
    forall a | a in sys.db.attempts && sys.db.attempts[a].deliveryId in db2.deliveries
      ensures a in db2.attempts
    {
      AttemptRetained(sys, used', db1, db2, a);
    }
  }

  lemma DeliveryRetained(sys: System, used': set<Id>, db1: DB, db2: DB, d: Id)
    requires UsedCovers(sys) && sys.used <= used' && ForeignKeys(sys.db)
    requires Evolves(sys.used, sys.db, db1) && Evolves(used', db1, db2)
    requires d in sys.db.deliveries && sys.db.deliveries[d].eventId in db2.events
    ensures d in db2.deliveries
  {
    assert sys.db.deliveries[d].eventId in db1.events;
    assert d in db1.deliveries;
    assert db1.deliveries[d].eventId == sys.db.deliveries[d].eventId;
  }

  lemma AttemptRetained(sys: System, used': set<Id>, db1: DB, db2: DB, a: Id)
    requires UsedCovers(sys) && sys.used <= used' && ForeignKeys(sys.db)
    requires Evolves(sys.used, sys.db, db1) && Evolves(used', db1, db2)
    requires a in sys.db.attempts && sys.db.attempts[a].deliveryId in db2.deliveries
    ensures a in db2.attempts
  {
    assert sys.db.attempts[a].deliveryId in db1.deliveries;
    assert a in db1.attempts;
  }

  lemma RowEvolved(sys: System, db': DB, d: Id)
    requires UsedCovers(sys) && Evolves(sys.used, sys.db, db')
    requires d in sys.db.deliveries && d in db'.deliveries
    ensures DeliveryEvolves(sys.db.deliveries[d], db'.deliveries[d])
  {
  }

  lemma AttemptEvolved(sys: System, db': DB, a: Id)
    requires UsedCovers(sys) && Evolves(sys.used, sys.db, db')
    requires a in sys.db.attempts && a in db'.attempts
    ensures AttemptEvolves(sys.db.attempts[a], db'.attempts[a])
  {
  }

  lemma RewriteEvolves(db: DB, db': DB, used: set<Id>, d: Id)
    requires RewritesDelivery(db, db', d) && ResolvesOnly(db, db')
    requires db.deliveries[d].attemptCount <= db'.deliveries[d].attemptCount
    requires forall a | a in db'.attempts && a !in db.attempts :: a !in used
    ensures Evolves(used, db, db')
  {
  }

  lemma AddingEvolves(db: DB, db': DB, used: set<Id>, d: Id)
    requires AddsDelivery(db, db', d) && d !in used
    requires forall e | e in db'.events && e !in db.events :: e !in used
    ensures Evolves(used, db, db')
  {
  }

  lemma RemovalEvolves(db: DB, used: set<Id>, gone: set<Id>)
    ensures Evolves(used, db, RemoveEvents(db, gone))
  {
  }

  // ----- each part of the invariant, from Evolves -----

  lemma SnapshotKept(s: Settings, sys: System, db': DB, w: Webhook)
    requires UsedCovers(sys) && w in sys.issued && SnapshotFits(s, sys.db, w)
    requires Evolves(sys.used, sys.db, db') && ForeignKeys(db') && ForeignKeys(sys.db)
    ensures SnapshotFits(s, db', w)
  {
    var d, a := w.deliveryId, w.attemptId;
    if d in db'.deliveries {
      assert d in sys.db.deliveries;
      assert DeliveryEvolves(sys.db.deliveries[d], db'.deliveries[d]);
      assert w.eventId in db'.events && w.eventId in sys.used;
    }
  }

  lemma CallsKept(s: Settings, sys: System, db': DB)
    requires UsedCovers(sys) && CallsFit(sys) && Evolves(sys.used, sys.db, db')
    ensures CallsFit(sys.(db := db'))
  {
    forall c | c in sys.calls ensures CallFits(db', c) {
      assert CallFits(sys.db, c);
    }
  }

  // ----- every step, one part at a time -----

  lemma FreshIds(s: Settings, sys: System, r: Reservation)
    requires UsedCovers(sys) && r.token !in sys.used && r.attemptId !in sys.used
    ensures FreshReservation(sys.db, r)
  {
  }

  /** Claim: the database part. */
  lemma ClaimStep(s: Settings, sys: System, d: Id, r: Reservation, t: Time, locked: set<Id>)
    requires s.Valid() && SysInv(s, sys) && Enabled(s, sys, Claim(d, r, t, locked))
    ensures var (db', outcome) := ClaimTx(s, sys.db, d, r);
            && Inv(s, db') && Evolves(sys.used, sys.db, db')
            && ClaimChanges(sys.db, db', d, r, outcome)
  {
    hide Inv, HoldingsFit, LogFits, RecordsFit, CallsFit, SnapshotsFit, Evolves,
         ClaimChanges, ClaimTx;
    FreshIds(s, sys, r);
    ClaimKeepsInv(s, sys.db, d, r, t, locked);
    ClaimEffect(s, sys.db, d, r, t, locked);
    ClaimEvolves(sys.db, ClaimTx(s, sys.db, d, r).0, sys.used, d, r, ClaimTx(s, sys.db, d, r).1);
  }

  lemma ClaimEvolves(
    db: DB, db': DB, used: set<Id>, d: Id, r: Reservation, outcome: ClaimOutcome)
    requires ClaimChanges(db, db', d, r, outcome) && r.attemptId !in used
    ensures Evolves(used, db, db')
  {
    hide RewritesDelivery, ResolvesOnly, NamesItsAttempt, SnapshotAgrees, Evolves;
    RewriteEvolves(db, db', used, d);
  }

  /** Finalize: the database part. */
  lemma FinalizeStep(s: Settings, sys: System, h: Holding, result: AttemptResult, now: Time,
                     jitter: real)
    requires s.Valid() && SysInv(s, sys) && Enabled(s, sys, Finalize(h, result, now, jitter))
    ensures h.webhook in sys.issued && NamesItsAttempt(sys.db, h.webhook) && WellFormed(s, result)
    ensures SendEntry(h.webhook, Some(result)) in sys.log
    ensures var (db', outcome) := FinalizeTx(s, sys.db, h.workerId, h.webhook, result, now, jitter);
            && Inv(s, db') && Evolves(sys.used, sys.db, db')
            && !outcome.FinalizeRaised?
            && (outcome == Stale ==> db' == sys.db)
  {
    AnsweredFacts(s, sys, h, result);
    hide SysInv, Inv, FinalizeTx, Evolves, WellFormed, NamesItsAttempt;
    InvOfSys(s, sys);
    var db, w := sys.db, h.webhook;
    FinalizeKeepsInv(s, db, h.workerId, w, result, now, jitter);
    var (db', outcome) := FinalizeTx(s, db, h.workerId, w, result, now, jitter);
    if outcome == Finalized {
      FinalizeEffect(s, db, h.workerId, w, result, now, jitter);
      hide RewritesDelivery, ResolvesOnly;
      RewriteEvolves(db, db', sys.used, w.deliveryId);
    } else {
      EvolvesReflexively(sys.used, db);
    }
  }

  lemma AnsweredFacts(s: Settings, sys: System, h: Holding, result: AttemptResult)
    requires SysInv(s, sys) && (h, result) in sys.answered
    ensures h.webhook in sys.issued && SnapshotFits(s, sys.db, h.webhook)
    ensures NamesItsAttempt(sys.db, h.webhook) && WellFormed(s, result)
    ensures SendEntry(h.webhook, Some(result)) in sys.log
  {
    hide Inv, UsedCovers, RecordsFit, CallsFit, NamesItsAttempt, SnapshotAgrees, WellFormed;
    var p := (h, result);
    assert SendEntry(p.0.webhook, Some(p.1)) in sys.log;
    assert SnapshotFits(s, sys.db, h.webhook);
  }

  lemma InvOfSys(s: Settings, sys: System)
    requires SysInv(s, sys)
    ensures Inv(s, sys.db) && UsedCovers(sys) && ForeignKeys(sys.db)
  {
    hide Ledger, Lineage, RowChecks, UniqueEvents, UniqueDeliveries, UniqueAttempts, ForeignKeys,
         UsedCovers, SnapshotsFit, HoldingsFit, LogFits, RecordsFit, CallsFit;
  }

  /** The database part of every step: the invariant holds again, and nothing is undone. */
  lemma DatabaseStep(s: Settings, sys: System, a: Action)
    requires s.Valid() && SysInv(s, sys) && Enabled(s, sys, a)
    ensures Inv(s, Next(s, sys, a).db) && Evolves(sys.used, sys.db, Next(s, sys, a).db)
  {
    hide Inv, Evolves, PublishTx, ReplayTx, ClaimTx, FinalizeTx, RemoveEvents, AddsDelivery,
         UsedCovers, SnapshotsFit, HoldingsFit, LogFits, RecordsFit;
    var db := sys.db;
    EvolvesReflexively(sys.used, db);
    match a
    case AddEndpoint(id, row) =>
      EndpointChangeKeepsInv(s, db, id, row);
      EndpointChangeEvolves(sys.used, db, id, row);
    case SetEnabled(id, enabled) =>
      EndpointChangeKeepsInv(s, db, id, db.endpoints[id].(enabled := enabled));
      EndpointChangeEvolves(sys.used, db, id, db.endpoints[id].(enabled := enabled));
    case Publish(q, key, m) => PublishStep(s, sys, q, key, m);
    case BeginReplay(source, key) =>
    case DecideReplay(call, newId, now, databaseNow) =>
      ReplayStep(s, sys, call, newId, now, databaseNow);
    case Claim(d, r, t, locked) => ClaimStep(s, sys, d, r, t, locked);
    case Send(h, answer) =>
    case Finalize(h, result, now, jitter) => FinalizeStep(s, sys, h, result, now, jitter);
    case Crash(lost) =>
    case SelectExpired(expired) =>
    case Purge(gone) =>
      RemovalKeepsInv(s, db, gone);
      RemovalEvolves(db, sys.used, gone);
  }

  lemma EndpointChangeEvolves(used: set<Id>, db: DB, id: Id, row: Endpoint)
    ensures Evolves(used, db, db.(endpoints := db.endpoints[id := row]))
  {
  }

  lemma PublishStep(s: Settings, sys: System, q: PublishRequest, key: string, m: Minted)
    requires s.Valid() && SysInv(s, sys) && Enabled(s, sys, Publish(q, key, m))
    ensures var (db', outcome) := PublishTx(sys.db, q, key, m);
            && Inv(s, db') && Evolves(sys.used, sys.db, db') && !outcome.PublishRaised?
            && (db' == sys.db
                || (q.data.Some? && db' == Accept(sys.db, q, key, m)
                    && db'.attempts == sys.db.attempts))
  {
    hide Inv, PublishTx, Evolves, SnapshotsFit, HoldingsFit, LogFits, RecordsFit, CallsFit;
    PublishKeepsInv(s, sys.db, q, key, m);
    EvolvesReflexively(sys.used, sys.db);
    if PublishTx(sys.db, q, key, m).0 != sys.db {
      AddingEvolves(sys.db, Accept(sys.db, q, key, m), sys.used, m.deliveryId);
    }
  }

  lemma ReplayStep(s: Settings, sys: System, call: ReplayCall, newId: Id, now: Time,
                   databaseNow: Time)
    requires s.Valid() && SysInv(s, sys)
    requires Enabled(s, sys, DecideReplay(call, newId, now, databaseNow))
    ensures CallFits(sys.db, call) && newId !in sys.db.deliveries
    ensures var db' := ReplayTx(sys.db, call, newId, now, databaseNow).0;
            && Inv(s, db') && Evolves(sys.used, sys.db, db')
            && (db' == sys.db
                || db' == sys.db.(deliveries :=
                     sys.db.deliveries[newId := ReplayRow(call, now, databaseNow)]))
  {
    hide Inv, ReplayTx, Evolves, CallFits, SnapshotsFit, HoldingsFit, LogFits, RecordsFit, ReplayRow;
    ReplayKeepsInv(s, sys.db, call, newId, now, databaseNow);
    EvolvesReflexively(sys.used, sys.db);
    var db' := ReplayTx(sys.db, call, newId, now, databaseNow).0;
    if db' != sys.db {
      AddingEvolves(sys.db, db', sys.used, newId);
    }
  }

  /** Only claims and finalizations write attempt rows. */
  lemma QuietStep(s: Settings, sys: System, a: Action)
    requires s.Valid() && SysInv(s, sys) && Enabled(s, sys, a) && !a.Claim? && !a.Finalize?
    ensures forall x | x in Next(s, sys, a).db.attempts ::
              x in sys.db.attempts && Next(s, sys, a).db.attempts[x] == sys.db.attempts[x]
  {
    hide Inv, PublishTx, ReplayTx, ClaimTx, FinalizeTx, ReplayRow, Evolves, CallFits,
         SnapshotsFit, HoldingsFit, LogFits, RecordsFit;
    match a
    case Publish(q, key, m) => PublishStep(s, sys, q, key, m);
    case DecideReplay(call, newId, now, databaseNow) =>
      ReplayStep(s, sys, call, newId, now, databaseNow);
    case _ =>
  }

  lemma UsedKept(used: set<Id>, sys: System, sys': System, minted: set<Id>)
    requires UsedCovers(sys) && Evolves(sys.used, sys.db, sys'.db)
    requires sys'.used == sys.used + minted
    requires sys'.db.endpoints.Keys <= sys'.used && sys'.db.events.Keys <= sys'.used
    requires sys'.db.deliveries.Keys <= sys'.used && sys'.db.attempts.Keys <= sys'.used
    requires forall a | a in sys'.db.attempts && a !in sys.db.attempts ::
               sys'.db.attempts[a].leaseToken in sys'.used
    requires sys'.issued == sys.issued && sys'.calls == sys.calls
    ensures UsedCovers(sys')
  {
    forall a | a in sys'.db.attempts ensures sys'.db.attempts[a].leaseToken in sys'.used {
      if a in sys.db.attempts {
        assert AttemptEvolves(sys.db.attempts[a], sys'.db.attempts[a]);
      }
    }
  }

  /** Fresh identifiers are recorded as used. */
  lemma UsedStep(s: Settings, sys: System, a: Action)
    requires s.Valid() && SysInv(s, sys) && Enabled(s, sys, a)
    ensures UsedCovers(Next(s, sys, a)) && sys.used <= Next(s, sys, a).used
  {
    hide Inv, PublishTx, ReplayTx, ClaimTx, FinalizeTx, ReplayRow, Evolves, CallFits,
         SnapshotsFit, HoldingsFit, LogFits, RecordsFit, ClaimChanges;
    InvOfSys(s, sys);
    match a
    case AddEndpoint(id, row) =>
    case SetEnabled(id, enabled) =>
    case Publish(q, key, m) => PublishStep(s, sys, q, key, m);
    case BeginReplay(source, key) => BeginCovered(s, sys, source, key);
    case DecideReplay(call, newId, now, databaseNow) =>
      ReplayStep(s, sys, call, newId, now, databaseNow);
    case Claim(d, r, t, locked) => ClaimUsed(s, sys, d, r, t, locked);
    case Send(h, answer) =>
    case Finalize(h, result, now, jitter) => FinalizeUsed(s, sys, h, result, now, jitter);
    case Crash(lost) =>
    case SelectExpired(expired) =>
    case Purge(gone) =>
  }

  lemma BeginCovered(s: Settings, sys: System, source: Id, key: string)
    requires SysInv(s, sys) && ReplayBegin(sys.db, source, key).Began?
    ensures var call := ReplayBegin(sys.db, source, key).call;
            && call.sourceId in sys.used && call.seen.eventId in sys.used && CallFits(sys.db, call)
  {
    hide Inv, SnapshotsFit, HoldingsFit, LogFits, RecordsFit, IsSpace;
    InvOfSys(s, sys);
  }

  lemma ClaimUsed(s: Settings, sys: System, d: Id, r: Reservation, t: Time, locked: set<Id>)
    requires s.Valid() && SysInv(s, sys) && Enabled(s, sys, Claim(d, r, t, locked))
    ensures UsedCovers(Next(s, sys, Claim(d, r, t, locked)))
  {
    hide Inv, ClaimTx, Evolves, SnapshotsFit, HoldingsFit, LogFits, RecordsFit, CallsFit,
         NamesItsAttempt, SnapshotAgrees, ResolvesOnly;
    ClaimStep(s, sys, d, r, t, locked);
    var sys' := Next(s, sys, Claim(d, r, t, locked));
    UsedKept(sys.used, sys, sys'.(issued := sys.issued), {r.token, r.attemptId});
  }

  lemma FinalizeUsed(s: Settings, sys: System, h: Holding, result: AttemptResult, now: Time,
                     jitter: real)
    requires s.Valid() && SysInv(s, sys) && Enabled(s, sys, Finalize(h, result, now, jitter))
    ensures UsedCovers(Next(s, sys, Finalize(h, result, now, jitter)))
  {
    hide SysInv, Inv, FinalizeTx, Evolves, WellFormed, NamesItsAttempt;
    InvOfSys(s, sys);
    FinalizeStep(s, sys, h, result, now, jitter);
    var sys' := Next(s, sys, Finalize(h, result, now, jitter));
    if FinalizeTx(s, sys.db, h.workerId, h.webhook, result, now, jitter).1 == Finalized {
      FinalizeEffect(s, sys.db, h.workerId, h.webhook, result, now, jitter);
      UsedKept(sys.used, sys, sys', {});
    }
  }

  // ----- snapshots -----

  lemma SnapshotsKept(s: Settings, sys: System, db': DB)
    requires UsedCovers(sys) && SnapshotsFit(s, sys.db, sys.issued)
    requires Evolves(sys.used, sys.db, db') && ForeignKeys(sys.db) && ForeignKeys(db')
    requires forall a | a in db'.attempts :: a in sys.db.attempts
    ensures SnapshotsFit(s, db', sys.issued)
  {
    hide ForeignKeys, Evolves, UsedCovers, SnapshotFits, SameClaim, WasIssued;
    forall w | w in sys.issued ensures SnapshotFits(s, db', w) {
      SnapshotKept(s, sys, db', w);
    }
  }

  /** A claim issues one snapshot, unlike every earlier one. */
  lemma ClaimSnapshots(s: Settings, sys: System, d: Id, r: Reservation, t: Time, locked: set<Id>)
    requires s.Valid() && SysInv(s, sys) && Enabled(s, sys, Claim(d, r, t, locked))
    ensures SnapshotsFit(s, Next(s, sys, Claim(d, r, t, locked)).db,
                         Next(s, sys, Claim(d, r, t, locked)).issued)
  {
    hide ClaimTx, HoldingsFit, LogFits, RecordsFit, CallsFit, Inv, Evolves, SnapshotsFit,
         ResolvesOnly, UsedCovers, RewritesDelivery, NamesItsAttempt, SnapshotAgrees;
    var (db', outcome) := ClaimTx(s, sys.db, d, r);
    ClaimStep(s, sys, d, r, t, locked);
    InvOfSys(s, sys);
    InvHasForeignKeys(s, db');
    if outcome.Claimed? {
      NewSnapshotIsNew(s, sys, db', d, r, outcome.webhook);
      SnapshotsGrow(s, sys, db', outcome.webhook);
    } else {
      SnapshotsKept(s, sys, db');
    }
  }

  lemma SnapshotsGrow(s: Settings, sys: System, db': DB, w: Webhook)
    requires UsedCovers(sys) && SnapshotsFit(s, sys.db, sys.issued)
    requires Evolves(sys.used, sys.db, db') && ForeignKeys(sys.db) && ForeignKeys(db')
    requires forall a | a in db'.attempts :: a in sys.db.attempts || a == w.attemptId
    requires SnapshotFits(s, db', w) && forall w1 | w1 in sys.issued :: !SameClaim(w1, w)
    ensures SnapshotsFit(s, db', sys.issued + {w})
  {
    hide UsedCovers, SnapshotFits, Evolves, ForeignKeys;
    forall x | x in sys.issued ensures SnapshotFits(s, db', x) {
      SnapshotKept(s, sys, db', x);
    }
    forall a | a in db'.attempts ensures WasIssued(sys.issued + {w}, a) {
      if a in sys.db.attempts {
        assert WasIssued(sys.issued, a);
      }
    }
  }

  lemma InvHasForeignKeys(s: Settings, db: DB)
    requires Inv(s, db)
    ensures ForeignKeys(db)
  {
    hide RowChecks, UniqueEvents, UniqueDeliveries, UniqueAttempts, ForeignKeys, Ledger, Lineage;
  }

  lemma NewSnapshotIsNew(s: Settings, sys: System, db': DB, d: Id, r: Reservation, w: Webhook)
    requires Inv(s, sys.db) && Inv(s, db') && UsedCovers(sys)
    requires SnapshotsFit(s, sys.db, sys.issued)
    requires ClaimChanges(sys.db, db', d, r, Claimed(w))
    requires r.token !in sys.used && r.attemptId !in sys.used
    ensures SnapshotFits(s, db', w)
    ensures forall w1 | w1 in sys.issued :: !SameClaim(w1, w)
  {
    hide SnapshotAgrees, Constraints, Lineage, AttemptFits, SamePlace, Active;
    assert LedgerOf(s, sys.db, d) && LedgerOf(s, db', d);
    forall w1 | w1 in sys.issued ensures !SameClaim(w1, w) {
      assert SnapshotFits(s, sys.db, w1);
      if w1.deliveryId == d {
        var a := w1.attemptId;
        assert a in sys.db.attempts && a in db'.attempts;
        if w1.attemptNumber == w.attemptNumber {
          InvGivesUniqueAttempts(s, db');
          NumberIsUnique(db', a, r.attemptId);
        }
      }
    }
  }

  lemma SnapshotsStep(s: Settings, sys: System, a: Action)
    requires s.Valid() && SysInv(s, sys) && Enabled(s, sys, a)
    ensures SnapshotsFit(s, Next(s, sys, a).db, Next(s, sys, a).issued)
  {
    if a.Claim? {
      hide SysInv, SnapshotsFit, ClaimTx;
      ClaimSnapshots(s, sys, a.d, a.r, a.queryTime, a.locked);
    } else {
      DatabaseStep(s, sys, a);
      hide Inv, HoldingsFit, LogFits, RecordsFit, CallsFit, SnapshotsFit, PublishTx, ReplayTx,
           FinalizeTx, RemoveEvents, Evolves, UsedCovers, ForeignKeys;
      var sys' := Next(s, sys, a);
      InvOfSys(s, sys);
      InvHasForeignKeys(s, sys'.db);
      if a.Finalize? {
        FinalizeAttempts(s, sys, a.holder, a.result, a.finalizedAt, a.jitter);
      } else {
        QuietStep(s, sys, a);
      }
      SnapshotsKept(s, sys, sys'.db);
    }
  }

  /** Finalizing writes at most the attempt of its own snapshot, and records the answer there. */
  lemma FinalizeAttempts(s: Settings, sys: System, h: Holding, result: AttemptResult, now: Time,
                         jitter: real)
    requires s.Valid() && SysInv(s, sys) && Enabled(s, sys, Finalize(h, result, now, jitter))
    ensures var db' := Next(s, sys, Finalize(h, result, now, jitter)).db;
            && db'.attempts.Keys == sys.db.attempts.Keys
            && (forall a | a in db'.attempts && db'.attempts[a] != sys.db.attempts[a] ::
                  a == h.webhook.attemptId && Records(db'.attempts[a], result))
  {
    hide SysInv, Inv, FinalizeTx, Evolves, WellFormed, NamesItsAttempt;
    InvOfSys(s, sys);
    FinalizeStep(s, sys, h, result, now, jitter);
    if FinalizeTx(s, sys.db, h.workerId, h.webhook, result, now, jitter).1 == Finalized {
      FinalizeEffect(s, sys.db, h.workerId, h.webhook, result, now, jitter);
    }
  }

  // ----- holdings, log, records, calls -----

  lemma HoldingsStep(s: Settings, sys: System, a: Action)
    requires s.Valid() && SysInv(s, sys) && Enabled(s, sys, a)
    ensures HoldingsFit(Next(s, sys, a))
    ensures LogFits(s, Next(s, sys, a).issued, Next(s, sys, a).log)
  {
    hide Inv, UsedCovers, RecordsFit, CallsFit, PublishTx, ReplayTx, ClaimTx, FinalizeTx,
         RemoveEvents, ReplayBegin, WellFormed, SnapshotFits, WasIssued, SameClaim;
    match a
    case Claim(d, r, t, locked) => ClaimHoldings(s, sys, d, r, t, locked);
    case Send(h, answer) => SendHoldings(s, sys, h, answer);
    case _ =>
  }

  lemma ClaimHoldings(s: Settings, sys: System, d: Id, r: Reservation, t: Time, locked: set<Id>)
    requires s.Valid() && SysInv(s, sys) && Enabled(s, sys, Claim(d, r, t, locked))
    ensures HoldingsFit(Next(s, sys, Claim(d, r, t, locked)))
    ensures LogFits(s, Next(s, sys, Claim(d, r, t, locked)).issued,
                    Next(s, sys, Claim(d, r, t, locked)).log)
  {
    hide Inv, RecordsFit, CallsFit, ClaimTx, WellFormed, SnapshotsFit, Evolves, RewritesDelivery,
         ResolvesOnly, NamesItsAttempt, SnapshotAgrees;
    ClaimStep(s, sys, d, r, t, locked);
    var sys' := Next(s, sys, Claim(d, r, t, locked));
    var outcome := ClaimTx(s, sys.db, d, r).1;
    if outcome.Claimed? {
      assert forall w | w in sys.issued :: w != outcome.webhook;
    }
  }

  lemma SendHoldings(s: Settings, sys: System, h: Holding, answer: Option<AttemptResult>)
    requires s.Valid() && SysInv(s, sys) && Enabled(s, sys, Send(h, answer))
    ensures HoldingsFit(Next(s, sys, Send(h, answer)))
    ensures LogFits(s, sys.issued, Next(s, sys, Send(h, answer)).log)
  {
    hide Inv, UsedCovers, RecordsFit, CallsFit, WellFormed, SnapshotsFit;
    var sys' := Next(s, sys, Send(h, answer));
    assert sys'.log[..|sys.log|] == sys.log;
    forall x | x in sys'.ready ensures !Sent(sys'.log, x.webhook) {
      assert !Sent(sys.log, x.webhook);
    }
    assert !Sent(sys.log, h.webhook);
    forall p | p in sys'.answered ensures SendEntry(p.0.webhook, Some(p.1)) in sys'.log {
      if p !in sys.answered {
        assert sys'.log[|sys.log|] == SendEntry(p.0.webhook, Some(p.1));
      }
    }
  }

  lemma RecordsStep(s: Settings, sys: System, a: Action)
    requires s.Valid() && SysInv(s, sys) && Enabled(s, sys, a)
    ensures RecordsFit(Next(s, sys, a).db, Next(s, sys, a).log)
  {
    hide Inv, UsedCovers, HoldingsFit, LogFits, CallsFit, SnapshotsFit, PublishTx, ReplayTx, ClaimTx,
         FinalizeTx, RemoveEvents, ReplayBegin, WellFormed, Evolves, RewritesDelivery,
         ResolvesOnly, NamesItsAttempt, SnapshotAgrees, Records;
    var sys' := Next(s, sys, a);
    if a.Claim? {
      ClaimStep(s, sys, a.d, a.r, a.queryTime, a.locked);
    } else if a.Finalize? {
      FinalizeAttempts(s, sys, a.holder, a.result, a.finalizedAt, a.jitter);
      AnsweredFacts(s, sys, a.holder, a.result);
    } else {
      QuietStep(s, sys, a);
    }
    forall x | x in sys'.db.attempts && sys'.db.attempts[x].status == Completed
      ensures RecordedFromLog(sys'.log, x, sys'.db.attempts[x])
    {
      if x in sys.db.attempts && sys'.db.attempts[x] == sys.db.attempts[x] {
        assert RecordedFromLog(sys.log, x, sys.db.attempts[x]);
        var i :| 0 <= i < |sys.log| && sys.log[i].webhook.attemptId == x
                 && sys.log[i].answer.Some? && Records(sys.db.attempts[x], sys.log[i].answer.value);
        assert sys'.log[i] == sys.log[i];
      } else {
        var entry := SendEntry(a.holder.webhook, Some(a.result));
        var i :| 0 <= i < |sys.log| && sys.log[i] == entry;
        assert sys'.log[i] == entry;
      }
    }
  }

  lemma CallsStep(s: Settings, sys: System, a: Action)
    requires s.Valid() && SysInv(s, sys) && Enabled(s, sys, a)
    ensures CallsFit(Next(s, sys, a))
  {
    hide Inv, HoldingsFit, LogFits, RecordsFit, SnapshotsFit, Evolves, UsedCovers, ReplayBegin,
         Next, Enabled, CallFits;
    DatabaseStep(s, sys, a);
    CallsKept(s, sys, Next(s, sys, a).db);
    CallsOfNext(s, sys, a);
    if a.BeginReplay? {
      BeginCovered(s, sys, a.sourceId, a.replayKey);
    }
  }

  lemma CallsOfNext(s: Settings, sys: System, a: Action)
    requires Enabled(s, sys, a)
    ensures Next(s, sys, a).calls
            == if a.BeginReplay? then sys.calls + {ReplayBegin(sys.db, a.sourceId, a.replayKey).call}
               else sys.calls
    ensures a.BeginReplay? ==> Next(s, sys, a).db == sys.db
    ensures a.BeginReplay? ==> ReplayBegin(sys.db, a.sourceId, a.replayKey).Began?
  {
    hide PublishTx, ReplayTx, ClaimTx, FinalizeTx, RemoveEvents, ReplayBegin;
  }

  /** Every step of the protocol keeps the whole invariant. */
  lemma StepKeepsSysInv(s: Settings, sys: System, a: Action)
    requires s.Valid() && SysInv(s, sys) && Enabled(s, sys, a)
    ensures SysInv(s, Next(s, sys, a))
    ensures Evolves(sys.used, sys.db, Next(s, sys, a).db) && sys.used <= Next(s, sys, a).used
  {
    DatabaseStep(s, sys, a);
    UsedStep(s, sys, a);
    SnapshotsStep(s, sys, a);
    HoldingsStep(s, sys, a);
    RecordsStep(s, sys, a);
    CallsStep(s, sys, a);
    hide Inv, UsedCovers, SnapshotsFit, HoldingsFit, LogFits, RecordsFit, CallsFit, Evolves, Next;
  }
}