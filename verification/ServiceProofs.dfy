/** Publish, replay, endpoint changes and purge keep the invariant; what publish and replay can
    and cannot answer (backend/src/eventharbor/services.py). */
module ServiceProofs {
  import opened Schema
  import opened Retry
  import opened Transport
  import opened Transactions
  import opened Invariants
  import opened WorkerProofs

  // ----- adding one delivery -----

  /** db' is db with one new delivery row d, and possibly new events. */
  ghost predicate AddsDelivery(db: DB, db': DB, d: Id) {
    && d !in db.deliveries && d in db'.deliveries
    && db'.endpoints == db.endpoints && db'.attempts == db.attempts
    && db'.deliveries == db.deliveries[d := db'.deliveries[d]]
    && (forall e | e in db.events :: e in db'.events && db'.events[e] == db.events[e])
  }

  predicate StartsPending(row: Delivery) {
    && row.status == Pending && row.attemptCount == 0 && row.nextAttemptAt.Some?
    && row.deliveredAt.None? && row.leaseOwner.None? && row.leaseToken.None?
    && row.leaseExpiresAt.None?
  }

  lemma UniqueAfterAdding(db: DB, db': DB, d: Id)
    requires UniqueDeliveries(db.deliveries) && AddsDelivery(db, db', d)
    requires forall x | x in db.deliveries ::
               !DeliveriesClash(db'.deliveries[d], db.deliveries[x])
    ensures UniqueDeliveries(db'.deliveries)
  {
    forall d1, d2 | d1 in db'.deliveries && d2 in db'.deliveries && d1 != d2
      ensures !DeliveriesClash(db'.deliveries[d1], db'.deliveries[d2])
    {
      if d1 == d {
        assert !DeliveriesClash(db'.deliveries[d], db.deliveries[d2]);
      } else if d2 == d {
        assert !DeliveriesClash(db'.deliveries[d], db.deliveries[d1]);
      } else {
        assert !DeliveriesClash(db.deliveries[d1], db.deliveries[d2]);
      }
    }
  }

  lemma LedgerAfterAdding(s: Settings, db: DB, db': DB, d: Id)
    requires s.Valid() && Ledger(s, db) && ForeignKeys(db) && AddsDelivery(db, db', d)
    requires StartsPending(db'.deliveries[d])
    ensures Ledger(s, db')
  {
    hide AttemptFits, HasNumber;
    forall x | x in db'.deliveries ensures LedgerOf(s, db', x) {
      if x != d { assert LedgerOf(s, db, x); }
    }
  }

  lemma LineageAfterAdding(db: DB, db': DB, d: Id)
    requires Lineage(db) && AddsDelivery(db, db', d) && LineageOf(db', d)
    requires forall e | e in db'.events && e !in db.events :: HasInitial(db', e)
    ensures Lineage(db')
  {
    forall x | x in db'.deliveries ensures LineageOf(db', x) {
      if x != d { assert LineageOf(db, x); }
    }
    forall e | e in db'.events ensures HasInitial(db', e) {
      if e in db.events {
        assert HasInitial(db, e);
        var x :| IsInitial(db, e, db.events[e].fingerprint.endpointId, x);
        assert IsInitial(db', e, db'.events[e].fingerprint.endpointId, x);
      }
    }
  }

  lemma RowChecksAfterAdding(db: DB, db': DB, d: Id)
    requires RowChecks(db) && ForeignKeys(db) && AddsDelivery(db, db', d)
    requires DeliveryChecks(db'.deliveries[d])
    requires forall e | e in db'.events && e !in db.events :: EventChecks(db'.events[e])
    requires db'.deliveries[d].eventId in db'.events
    requires db'.deliveries[d].endpointId in db'.endpoints
    requires db'.deliveries[d].replayedFrom.Some? ==>
               db'.deliveries[d].replayedFrom.value in db.deliveries
    ensures RowChecks(db') && ForeignKeys(db')
  {
    hide DeliveryChecks, AttemptChecks;
  }

  lemma InvAfterAdding(s: Settings, db: DB, db': DB, d: Id)
    requires s.Valid() && Inv(s, db) && AddsDelivery(db, db', d)
    requires StartsPending(db'.deliveries[d]) && DeliveryChecks(db'.deliveries[d])
    requires LineageOf(db', d) && db'.deliveries[d].endpointId in db'.endpoints
    requires UniqueEvents(db'.events)
    requires forall e | e in db'.events && e !in db.events ::
               EventChecks(db'.events[e]) && HasInitial(db', e)
    requires forall x | x in db.deliveries ::
               !DeliveriesClash(db'.deliveries[d], db.deliveries[x])
    ensures Inv(s, db')
  {
    hide RowChecks, DeliveryChecks, EventChecks, HasInitial, UniqueEvents, UniqueDeliveries,
         UniqueAttempts, ForeignKeys, Ledger, DeliveriesClash, StartsPending, Lineage;
    UniqueAfterAdding(db, db', d);
    LedgerAfterAdding(s, db, db', d);
    LineageAfterAdding(db, db', d);
    NewRowHasKeys(db, db', d);
    RowChecksAfterAdding(db, db', d);
  }

  lemma NewRowHasKeys(db: DB, db': DB, d: Id)
    requires AddsDelivery(db, db', d) && LineageOf(db', d)
    ensures db'.deliveries[d].replayedFrom.Some? ==>
              db'.deliveries[d].replayedFrom.value in db.deliveries
  {
  }

  // ----- publish -----

  /** The UUIDs a publish mints are used nowhere in the database. */
  predicate FreshMint(db: DB, m: Minted) {
    m.eventId !in db.events && m.deliveryId !in db.deliveries
  }

  lemma AcceptKeepsInv(s: Settings, db: DB, q: PublishRequest, key: string, m: Minted)
    requires s.Valid() && Inv(s, db) && FreshMint(db, m)
    requires q.data.Some? && |q.eventType| > 0 && |key| > 0 && q.endpointId in db.endpoints
    requires forall e :: !HoldsKey(db, key, e)
    ensures Inv(s, Accept(db, q, key, m))
  {
    AcceptedRowsFit(db, q, key, m);
    hide RowChecks, UniqueDeliveries, UniqueAttempts, ForeignKeys, Ledger, Lineage, UniqueEvents,
         DeliveriesClash, HasInitial, LineageOf, EventChecks, DeliveryChecks, StartsPending, Accept,
         AddsDelivery;
    AcceptedRowsAreNew(db, q, key, m);
    InvAfterAdding(s, db, Accept(db, q, key, m), m.deliveryId);
  }

  /** The two rows a publish inserts, each for itself. */
  lemma AcceptedRowsFit(db: DB, q: PublishRequest, key: string, m: Minted)
    requires FreshMint(db, m) && q.endpointId in db.endpoints
    requires q.data.Some? && |q.eventType| > 0 && |key| > 0
    ensures var db', d := Accept(db, q, key, m), m.deliveryId;
            && AddsDelivery(db, db', d) && StartsPending(db'.deliveries[d])
            && DeliveryChecks(db'.deliveries[d]) && LineageOf(db', d)
            && db'.deliveries[d].endpointId in db'.endpoints
            && (forall e | e in db'.events && e !in db.events ::
                  EventChecks(db'.events[e]) && HasInitial(db', e))
  {
    assert IsInitial(Accept(db, q, key, m), m.eventId, q.endpointId, m.deliveryId);
  }

  lemma AcceptedRowsAreNew(db: DB, q: PublishRequest, key: string, m: Minted)
    requires UniqueEvents(db.events) && ForeignKeys(db) && FreshMint(db, m) && q.data.Some?
    requires forall e :: !HoldsKey(db, key, e)
    ensures UniqueEvents(Accept(db, q, key, m).events)
    ensures forall x | x in db.deliveries ::
              !DeliveriesClash(Accept(db, q, key, m).deliveries[m.deliveryId], db.deliveries[x])
  {
    forall x | x in db.events ensures db.events[x].key != key {
      assert !HoldsKey(db, key, x);
    }
  }

  /** The event alone, before its delivery is inserted, already satisfies every constraint. */
  lemma EventInsertIsClean(db: DB, q: PublishRequest, key: string, m: Minted)
    requires Constraints(db) && FreshMint(db, m)
    requires q.data.Some? && |q.eventType| > 0 && |key| > 0
    requires forall e :: !HoldsKey(db, key, e)
    ensures Constraints(InsertEvent(db, q, key, m))
  {
    hide DeliveryChecks, AttemptChecks, UniqueDeliveries, UniqueAttempts;
    forall x | x in db.events ensures db.events[x].key != key {
      assert !HoldsKey(db, key, x);
    }
  }

  /** The initial delivery of an accepted event is unique and present. */
  lemma InitialExists(s: Settings, db: DB, e: Id) returns (d: Id)
    requires Inv(s, db) && e in db.events
    ensures IsInitial(db, e, db.events[e].fingerprint.endpointId, d)
    ensures forall x :: IsInitial(db, e, db.events[e].fingerprint.endpointId, x) ==> x == d
  {
    hide RowChecks, UniqueEvents, UniqueAttempts, ForeignKeys, Ledger, LineageOf;
    assert HasInitial(db, e);
    d :| IsInitial(db, e, db.events[e].fingerprint.endpointId, d);
    forall x | IsInitial(db, e, db.events[e].fingerprint.endpointId, x) ensures x == d {
      var rowX, rowD := db.deliveries[x], db.deliveries[d];
      assert x != d ==> !DeliveriesClash(rowX, rowD);
    }
  }

  lemma KeyHolderIsUnique(db: DB, key: string, e1: Id, e2: Id)
    requires UniqueEvents(db.events) && HoldsKey(db, key, e1) && HoldsKey(db, key, e2)
    ensures e1 == e2
  {
  }

  /** Publishing under a key that event e already holds. */
  lemma PublishAgain(s: Settings, db: DB, q: PublishRequest, key: string, m: Minted, e: Id)
    requires Inv(s, db) && HoldsKey(db, key, e) && !Blank(key)
    requires q.endpointId in db.endpoints && q.data.Some?
    ensures PublishTx(db, q, key, m).0 == db
    ensures db.events[e].fingerprint != FingerprintOf(q) ==>
              PublishTx(db, q, key, m).1 == PublishRefused(IdempotencyKeyReused)
    ensures db.events[e].fingerprint == FingerprintOf(q) ==>
              var outcome := PublishTx(db, q, key, m).1;
              && outcome.Published? && outcome.idempotentReplay && outcome.eventId == e
              && IsInitial(db, e, q.endpointId, outcome.deliveryId)
  {
    hide Inv, UniqueEvents, IsInitial, IsSpace, Accept, Constraints;
    var initial := InitialExists(s, db, e);
    InvGivesUniqueEvents(s, db);
    forall x | HoldsKey(db, key, x) ensures x == e {
      KeyHolderIsUnique(db, key, x, e);
    }
  }

  /** Publish keeps the invariant and never raises: the missing initial delivery and every
      constraint error are unreachable. It changes the database exactly when it accepts a new
      event, and it does so exactly when the request is valid, its key is unused and its endpoint
      is enabled. */
  lemma PublishKeepsInv(s: Settings, db: DB, q: PublishRequest, key: string, m: Minted)
    requires s.Valid() && Inv(s, db) && FreshMint(db, m) && |q.eventType| > 0
    ensures var (db', outcome) := PublishTx(db, q, key, m);
            && Inv(s, db') && !outcome.PublishRaised?
            && (db' != db <==> outcome.Published? && !outcome.idempotentReplay)
            && (db' != db <==>
                  && !Blank(key) && q.data.Some?
                  && q.endpointId in db.endpoints && db.endpoints[q.endpointId].enabled
                  && (forall e :: !HoldsKey(db, key, e)))
            && (db' != db ==> db' == Accept(db, q, key, m)
                              && outcome == Published(m.eventId, m.deliveryId, false))
  {
    hide Inv, Constraints, Accept, InsertEvent, IsSpace, ResolveIdempotentReplay;
    if Blank(key) || q.endpointId !in db.endpoints || q.data.None? {
    } else if exists e :: HoldsKey(db, key, e) {
      var e :| HoldsKey(db, key, e);
      PublishAgain(s, db, q, key, m, e);
    } else {
      assert |key| > 0;
      InvGivesConstraints(s, db);
      EventInsertIsClean(db, q, key, m);
      AcceptKeepsInv(s, db, q, key, m);
      InvGivesConstraints(s, Accept(db, q, key, m));
      AcceptGrows(db, q, key, m);
    }
  }

  lemma AcceptGrows(db: DB, q: PublishRequest, key: string, m: Minted)
    requires FreshMint(db, m) && q.data.Some?
    ensures Accept(db, q, key, m) != db
  {
    assert m.eventId in Accept(db, q, key, m).events;
  }

  lemma InvGivesConstraints(s: Settings, db: DB)
    requires Inv(s, db)
    ensures Constraints(db)
  {
    hide Constraints, Ledger, Lineage;
  }

  // ----- replay -----

  lemma OneLastAttempt(db: DB, d: Id, a: Id, b: Id)
    requires UniqueAttempts(db.attempts) && IsLastAttempt(db, d, a) && IsLastAttempt(db, d, b)
    ensures a == b
  {
    NumberIsUnique(db, a, b);
  }

  /** What stays true of a replay between its unlocked read and its decision. Identity columns
      never change and a dead letter stays one, so the status seen at the first read is still
      good when it says `dead_lettered`. */
  predicate CallFits(db: DB, call: ReplayCall) {
    && !Blank(call.key)
    && (call.seen.eventId in db.events ==> call.sourceId in db.deliveries)
    && (call.sourceId in db.deliveries ==>
          && SamePlace(call.seen, db.deliveries[call.sourceId])
          && (call.seen.status == DeadLettered ==>
                db.deliveries[call.sourceId].status == DeadLettered))
  }

  predicate IsSuccessor(db: DB, source: Id, c: Id) {
    c in db.deliveries && db.deliveries[c].replayedFrom == Some(source)
  }

  /** A delivery is the latest of its chain exactly when nothing replays it. */
  lemma LatestIffNotReplayed(s: Settings, db: DB, d: Id)
    requires Inv(s, db) && d in db.deliveries
    ensures IsLatest(db, db.deliveries[d].eventId, db.deliveries[d].endpointId, d)
            <==> !(exists c :: IsSuccessor(db, d, c))
  {
    hide RowChecks, UniqueEvents, UniqueAttempts, ForeignKeys, Ledger, HasInitial;
    var row := db.deliveries[d];
    if c :| IsSuccessor(db, d, c) {
      assert LineageOf(db, c);
      assert InChain(db, row.eventId, row.endpointId, c);
    }
    if !IsLatest(db, row.eventId, row.endpointId, d) {
      assert InChain(db, row.eventId, row.endpointId, d);
      var other :| InChain(db, row.eventId, row.endpointId, other)
                   && db.deliveries[other].generation > row.generation;
      var next := NextGenerationReplays(s, db, d, other);
    }
  }

  /** If a later generation exists, the next one replays d. */
  lemma NextGenerationReplays(s: Settings, db: DB, d: Id, later: Id) returns (c: Id)
    requires Inv(s, db) && d in db.deliveries && later in db.deliveries
    requires SameChain(db.deliveries[d], db.deliveries[later])
    requires db.deliveries[d].generation < db.deliveries[later].generation
    ensures IsSuccessor(db, d, c)
  {
    hide UniqueEvents, UniqueAttempts, ForeignKeys, Ledger, HasInitial, AttemptChecks;
    assert DeliveryChecks(db.deliveries[d]);
    c := GenerationsAreContiguous(db, later, db.deliveries[d].generation + 1);
    assert LineageOf(db, c);
    var p := db.deliveries[c].replayedFrom.value;
    var rowP, rowD := db.deliveries[p], db.deliveries[d];
    assert p != d ==> !DeliveriesClash(rowP, rowD);
  }

  /** A chain whose latest generation is dead-lettered has no active delivery. */
  lemma NoActiveInDeadChain(s: Settings, db: DB, d: Id, x: Id)
    requires Inv(s, db) && d in db.deliveries
    requires IsLatest(db, db.deliveries[d].eventId, db.deliveries[d].endpointId, d)
    requires db.deliveries[d].status == DeadLettered
    requires InChain(db, db.deliveries[d].eventId, db.deliveries[d].endpointId, x)
    ensures db.deliveries[x].status == DeadLettered
  {
    hide RowChecks, UniqueEvents, UniqueAttempts, ForeignKeys, Ledger, Lineage;
    var rowX, rowD := db.deliveries[x], db.deliveries[d];
    if rowX.generation < rowD.generation {
      EarlierGenerationIsDead(db, x, d);
    } else {
      assert x != d ==> !DeliveriesClash(rowX, rowD);
    }
  }

  lemma ReplayRowIsNew(s: Settings, db: DB, call: ReplayCall, now: Time, databaseNow: Time, x: Id)
    requires Inv(s, db) && CallFits(db, call) && call.sourceId in db.deliveries
    requires IsLatest(db, call.seen.eventId, call.seen.endpointId, call.sourceId)
    requires call.seen.status == DeadLettered && x in db.deliveries
    ensures !DeliveriesClash(ReplayRow(call, now, databaseNow), db.deliveries[x])
  {
    var row := ReplayRow(call, now, databaseNow);
    LatestIffNotReplayed(s, db, call.sourceId);
    assert !IsSuccessor(db, call.sourceId, x);
    if SameChain(row, db.deliveries[x]) {
      assert InChain(db, call.seen.eventId, call.seen.endpointId, x);
      NoActiveInDeadChain(s, db, call.sourceId, x);
    }
  }

  lemma ReplayInsertKeepsInv(
    s: Settings, db: DB, call: ReplayCall, newId: Id, now: Time, databaseNow: Time)
    requires s.Valid() && Inv(s, db) && CallFits(db, call) && newId !in db.deliveries
    requires call.sourceId in db.deliveries
    requires IsLatest(db, call.seen.eventId, call.seen.endpointId, call.sourceId)
    requires call.seen.status == DeadLettered
    ensures Inv(s, db.(deliveries := db.deliveries[newId := ReplayRow(call, now, databaseNow)]))
  {
    var db' := db.(deliveries := db.deliveries[newId := ReplayRow(call, now, databaseNow)]);
    hide Constraints, Ledger, HasInitial, IsLatest, DeliveriesClash, UniqueEvents, IsSpace;
    forall x | x in db.deliveries
      ensures !DeliveriesClash(db'.deliveries[newId], db.deliveries[x])
    {
      ReplayRowIsNew(s, db, call, now, databaseNow, x);
    }
    RowFacts(s, db, call.sourceId);
    assert LineageOf(db, call.sourceId);
    assert LineageOf(db', newId);
    InvGivesUniqueEvents(s, db);
    hide Lineage;
    InvAfterAdding(s, db, db', newId);
  }

  lemma InvGivesUniqueAttempts(s: Settings, db: DB)
    requires Inv(s, db)
    ensures UniqueAttempts(db.attempts)
  {
    hide RowChecks, UniqueEvents, UniqueDeliveries, UniqueAttempts, ForeignKeys, Ledger, Lineage;
  }

  lemma InvGivesUniqueEvents(s: Settings, db: DB)
    requires Inv(s, db)
    ensures UniqueEvents(db.events)
  {
    hide UniqueEvents, UniqueDeliveries, UniqueAttempts, RowChecks, ForeignKeys, Ledger, Lineage;
  }

  /** The replay of one source, decided in one place: what the service answers and what it does
      to the database, for every interleaving between the read and the decision.
      - It raises exactly when the event was purged in between.
      - An existing successor with the same key is returned; with another key the request is
        superseded; so a source never gets a second successor.
      - `active_delivery_exists` is never answered, and no unique index is ever tripped. */
  lemma ReplayKeepsInv(
    s: Settings, db: DB, call: ReplayCall, newId: Id, now: Time, databaseNow: Time)
    requires s.Valid() && Inv(s, db) && CallFits(db, call) && newId !in db.deliveries
    ensures var (db', outcome) := ReplayTx(db, call, newId, now, databaseNow);
            && Inv(s, db')
            && (outcome.ReplayRaised? <==> call.seen.eventId !in db.events)
            && (outcome.ReplayRaised? ==> outcome.fault == EventVanished)
            && outcome != ReplayRefused(ActiveDeliveryExists)
            && (call.seen.eventId in db.events ==>
                  && (forall c | IsSuccessor(db, call.sourceId, c) ::
                        outcome == if db.deliveries[c].replayKey == Some(call.key)
                                   then Replayed(call.sourceId, c, true)
                                   else ReplayRefused(ReplaySourceSuperseded))
                  && (outcome == ReplayRefused(ReplaySourceSuperseded) ==>
                        exists c :: IsSuccessor(db, call.sourceId, c)))
            && (outcome == Replayed(call.sourceId, newId, false) <==>
                  && call.seen.eventId in db.events
                  && !(exists c :: IsSuccessor(db, call.sourceId, c))
                  && call.seen.status == DeadLettered
                  && BlockOf(db, call.sourceId).None?
                  && db.endpoints[db.deliveries[call.sourceId].endpointId].enabled)
            && (outcome != Replayed(call.sourceId, newId, false) ==> db' == db)
            && (outcome == Replayed(call.sourceId, newId, false) ==>
                  db' == db.(deliveries := db.deliveries[newId := ReplayRow(call, now, databaseNow)]))
  {
    hide Inv, Constraints, BlockOf, IsLatest, ReplayRow, IsSpace;
    if call.seen.eventId in db.events {
      var d := call.sourceId;
      RowFacts(s, db, d);
      LatestIffNotReplayed(s, db, d);
      forall c1, c2 | IsSuccessor(db, d, c1) && IsSuccessor(db, d, c2) ensures c1 == c2 {
        OneSuccessor(s, db, c1, c2);
      }
      forall x ensures IsReplayOf(db, d, call.key, x)
                       <==> IsSuccessor(db, d, x) && db.deliveries[x].replayKey == Some(call.key)
      {
      }
      if IsLatest(db, call.seen.eventId, call.seen.endpointId, d) && call.seen.status == DeadLettered {
        forall x | InChain(db, call.seen.eventId, call.seen.endpointId, x)
          ensures db.deliveries[x].status == DeadLettered
        {
          NoActiveInDeadChain(s, db, d, x);
        }
        ReplayInsertKeepsInv(s, db, call, newId, now, databaseNow);
        InvGivesConstraints(s,
          db.(deliveries := db.deliveries[newId := ReplayRow(call, now, databaseNow)]));
      }
      assert exists x :: IsLatest(db, call.seen.eventId, call.seen.endpointId, x) by {
        var top := LatestExists(s, db, d);
      }
    }
  }

  lemma OneSuccessor(s: Settings, db: DB, c1: Id, c2: Id)
    requires Inv(s, db) && c1 in db.deliveries && c2 in db.deliveries
    requires db.deliveries[c1].replayedFrom.Some?
    requires db.deliveries[c1].replayedFrom == db.deliveries[c2].replayedFrom
    ensures c1 == c2
  {
    hide Constraints, Ledger, Lineage;
    SuccessorIsUnique(db, c1, c2);
  }

  /** Every chain has a latest generation: climb from any member. */
  lemma {:induction false} LatestExists(s: Settings, db: DB, d: Id) returns (top: Id)
    requires Inv(s, db) && d in db.deliveries
    ensures IsLatest(db, db.deliveries[d].eventId, db.deliveries[d].endpointId, top)
  {
    var row := db.deliveries[d];
    var chain := set x | x in db.deliveries && InChain(db, row.eventId, row.endpointId, x);
    assert d in chain;
    top := HighestGeneration(db, chain);
    forall other | InChain(db, row.eventId, row.endpointId, other)
      ensures db.deliveries[other].generation <= db.deliveries[top].generation
    {
      assert other in chain;
    }
  }

  lemma {:induction false} HighestGeneration(db: DB, members: set<Id>) returns (top: Id)
    requires members != {} && forall x | x in members :: x in db.deliveries
    ensures top in members
    ensures forall x | x in members ::
              db.deliveries[x].generation <= db.deliveries[top].generation
    decreases |members|
  {
    top :| top in members;
    var rest := members - {top};
    if rest != {} {
      var best := HighestGeneration(db, rest);
      if db.deliveries[best].generation > db.deliveries[top].generation {
        top := best;
      }
    }
    forall x | x in members ensures db.deliveries[x].generation <= db.deliveries[top].generation {
      assert x in rest || members == rest + {x};
    }
  }

  // ----- endpoints and purge -----

  /** Adding an endpoint, or changing one in place, keeps the invariant: endpoint rows are only
      read by later decisions. */
  lemma EndpointChangeKeepsInv(s: Settings, db: DB, id: Id, row: Endpoint)
    requires Inv(s, db)
    ensures Inv(s, db.(endpoints := db.endpoints[id := row]))
  {
    hide RowChecks, UniqueEvents, UniqueDeliveries, UniqueAttempts, ForeignKeys, Ledger, Lineage;
    var db' := db.(endpoints := db.endpoints[id := row]);
    EndpointChangeKeepsRows(db, id, row);
    EndpointChangeKeepsLedger(s, db, id, row);
    EndpointChangeKeepsLineage(db, id, row);
  }

  lemma EndpointChangeKeepsRows(db: DB, id: Id, row: Endpoint)
    requires RowChecks(db) && ForeignKeys(db)
    ensures RowChecks(db.(endpoints := db.endpoints[id := row]))
    ensures ForeignKeys(db.(endpoints := db.endpoints[id := row]))
  {
    hide EventChecks, DeliveryChecks, AttemptChecks;
  }

  lemma EndpointChangeKeepsLedger(s: Settings, db: DB, id: Id, row: Endpoint)
    requires Ledger(s, db)
    ensures Ledger(s, db.(endpoints := db.endpoints[id := row]))
  {
    hide AttemptFits, RowFits, HasNumber;
    var db' := db.(endpoints := db.endpoints[id := row]);
    forall d | d in db'.deliveries ensures LedgerOf(s, db', d) {
      assert LedgerOf(s, db, d);
    }
  }

  lemma EndpointChangeKeepsLineage(db: DB, id: Id, row: Endpoint)
    requires Lineage(db)
    ensures Lineage(db.(endpoints := db.endpoints[id := row]))
  {
    var db' := db.(endpoints := db.endpoints[id := row]);
    forall d | d in db'.deliveries ensures LineageOf(db', d) {
      assert LineageOf(db, d);
    }
    forall e | e in db'.events ensures HasInitial(db', e) {
      assert HasInitial(db, e);
      var x :| IsInitial(db, e, db.events[e].fingerprint.endpointId, x);
      assert IsInitial(db', e, db'.events[e].fingerprint.endpointId, x);
    }
  }

  lemma RemovalKeepsConstraints(db: DB, gone: set<Id>)
    requires Constraints(db) && Lineage(db)
    ensures Constraints(RemoveEvents(db, gone))
  {
    hide EventChecks, DeliveryChecks, AttemptChecks, DeliveriesClash, AttemptsClash, HasInitial;
    var db' := RemoveEvents(db, gone);
    forall d | d in db'.deliveries && db'.deliveries[d].replayedFrom.Some?
      ensures db'.deliveries[d].replayedFrom.value in db'.deliveries
    {
      assert LineageOf(db, d);
    }
  }

  lemma RemovalKeepsLedger(s: Settings, db: DB, gone: set<Id>)
    requires Ledger(s, db)
    ensures Ledger(s, RemoveEvents(db, gone))
  {
    hide RowFits, AttemptFits;
    var db' := RemoveEvents(db, gone);
    forall d | d in db'.deliveries ensures LedgerOf(s, db', d) {
      assert LedgerOf(s, db, d);
      forall n | 1 <= n <= db'.deliveries[d].attemptCount
        ensures HasNumber(db'.attempts, d, n)
      {
        assert HasNumber(db.attempts, d, n);
        var a :| a in db.attempts && db.attempts[a].deliveryId == d && db.attempts[a].number == n;
        assert a in db'.attempts;
      }
    }
  }

  lemma RemovalKeepsLineage(db: DB, gone: set<Id>)
    requires Lineage(db)
    ensures Lineage(RemoveEvents(db, gone))
  {
    var db' := RemoveEvents(db, gone);
    forall d | d in db'.deliveries ensures LineageOf(db', d) {
      assert LineageOf(db, d);
    }
    forall e | e in db'.events ensures HasInitial(db', e) {
      assert HasInitial(db, e);
      var x :| IsInitial(db, e, db.events[e].fingerprint.endpointId, x);
      assert IsInitial(db', e, db'.events[e].fingerprint.endpointId, x);
    }
  }

  /** Removing whole events keeps every constraint, foreign key, ledger and lineage. */
  lemma RemovalKeepsInv(s: Settings, db: DB, gone: set<Id>)
    requires Inv(s, db)
    ensures Inv(s, RemoveEvents(db, gone))
  {
    hide Constraints, Ledger, Lineage;
    RemovalKeepsConstraints(db, gone);
    RemovalKeepsLedger(s, db, gone);
    RemovalKeepsLineage(db, gone);
  }

  // ----- blank keys -----

  /** The code points Python counts as white space. */
  predicate IsWhite(code: int) {
    || 9 <= code <= 13 || 28 <= code <= 32 || code == 0x85 || code == 0xA0 || code == 0x1680
    || 0x2000 <= code <= 0x200A || code == 0x2028 || code == 0x2029 || code == 0x202F
    || code == 0x205F || code == 0x3000
  }

  lemma SpacesAreWhite(c: char)
    ensures IsSpace(c) <==> IsWhite(c as int)
  {
  }

  // ----- a source that was never replayed -----

  lemma NoExistingReplay(db: DB, d: Id, key: string)
    requires !(exists c :: IsSuccessor(db, d, c))
    ensures GetByReplayRequest(db, d, key).None?
  {
    assert forall c :: IsReplayOf(db, d, key, c) ==> IsSuccessor(db, d, c);
  }
}
