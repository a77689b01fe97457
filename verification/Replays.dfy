/** How a replay is decided and what it creates, said on the columns
    (backend/src/eventharbor/services.py, deliveries/retry.py). */
module Replays {
  import opened Schema
  import opened Retry
  import opened Transport
  import opened Transactions
  import opened Invariants
  import opened WorkerProofs
  import opened ServiceProofs
  import opened Protocol
  import opened Contract
  import opened Claims
  import opened Envelopes

  /** The receiver's answer proves that the body itself has to be corrected. */
  predicate AsksForCorrection(x: Attempt) {
    && x.httpStatus == Some(400) && x.excerpt.Some? && x.excerpt.value.Coded?
    && var code := x.excerpt.value.code;
       (|| (|code| >= 8 && code[..8] == "missing_")
        || code == "invalid_json" || code == "invalid_payload" || code == "invalid_data"
        || code == "unsupported_event_type" || code == "invalid_currency"
        || code == "invalid_quantity_remaining" || code == "invalid_reorder_threshold")
  }

  lemma BlockOnColumns(x: Attempt)
    ensures ReplayBlockCode(x.httpStatus, x.excerpt)
            == if AsksForCorrection(x) then Some(PayloadCorrectionRequired) else None
  {
  }

  /** The last attempt of the delivery asks for a corrected body. */
  predicate LastAsksForCorrection(db: DB, d: Id)
    requires d in db.deliveries
  {
    exists a :: a in db.attempts && db.attempts[a].deliveryId == d
                && db.attempts[a].number == db.deliveries[d].attemptCount
                && AsksForCorrection(db.attempts[a])
  }

  lemma BlockOfOnColumns(s: Settings, db: DB, d: Id)
    requires Inv(s, db) && d in db.deliveries
    ensures BlockOf(db, d)
            == if LastAsksForCorrection(db, d) then Some(PayloadCorrectionRequired) else None
  {
    hide Inv, LedgerOf, RowChecks, UniqueAttempts, ReplayBlockCode, AsksForCorrection;
    RowFacts(s, db, d);
    InvGivesUniqueAttempts(s, db);
    forall a | a in db.attempts && db.attempts[a].deliveryId == d
      ensures 1 <= db.attempts[a].number <= db.deliveries[d].attemptCount
    {
      AttemptFacts(s, db, a);
    }
    forall a | a in db.attempts { BlockOnColumns(db.attempts[a]); }
    if db.deliveries[d].attemptCount >= 1 {
      var last := NumberedAttempt(s, db, d, db.deliveries[d].attemptCount);
      assert IsLastAttempt(db, d, last);
      forall a | IsLastAttempt(db, d, a) ensures a == last {
        OneLastAttempt(db, d, a, last);
      }
      forall a | a in db.attempts && db.attempts[a].deliveryId == d
                 && db.attempts[a].number == db.deliveries[d].attemptCount
        ensures a == last
      {
        NumberIsUnique(db, a, last);
      }
    }
  }

  /** What decides a replay whose event is still there, in the order it is decided: a replay of the
      source that exists already, a source that was not read as a dead letter, a last answer that asks
      for a corrected body, a disabled endpoint. Only an accepted one adds a row: the next generation
      of the same event for the same endpoint, due at once. */
  lemma ReplayIsDecided(
    s: Settings, sys: System, call: ReplayCall, newId: Id, now: Time, databaseNow: Time)
    requires s.Valid() && Reachable(s, sys)
    requires Enabled(s, sys, DecideReplay(call, newId, now, databaseNow))
    requires call.seen.eventId in sys.db.events
    ensures call.sourceId in sys.db.deliveries
    ensures sys.db.deliveries[call.sourceId].endpointId in sys.db.endpoints
    ensures var (db', outcome) := ReplayTx(sys.db, call, newId, now, databaseNow);
            var db, source := sys.db, sys.db.deliveries[call.sourceId];
            && (outcome != Replayed(call.sourceId, newId, false) ==> db' == db)
            && (forall c | c in db.deliveries
                           && db.deliveries[c].replayedFrom == Some(call.sourceId) ::
                  outcome == if db.deliveries[c].replayKey == Some(call.key)
                             then Replayed(call.sourceId, c, true)
                             else ReplayRefused(ReplaySourceSuperseded))
            && ((forall c | c in db.deliveries ::
                   db.deliveries[c].replayedFrom != Some(call.sourceId)) ==>
                  if call.seen.status != DeadLettered then
                    outcome == ReplayRefused(DeliveryNotReplayable)
                  else if LastAsksForCorrection(db, call.sourceId) then
                    outcome == ReplayRefused(PayloadCorrection)
                  else if !db.endpoints[source.endpointId].enabled then
                    outcome == ReplayRefused(DisabledEndpoint)
                  else
                    && outcome == Replayed(call.sourceId, newId, false)
                    && newId in db'.deliveries && newId !in db.deliveries
                    && db' == db.(deliveries := db.deliveries[newId := db'.deliveries[newId]])
                    && IsNextGeneration(db'.deliveries[newId], source, call.sourceId, call.key)
                    && StartsAt(db'.deliveries[newId], databaseNow, now))
  {
    hide Reachable, SysInv, Inv, ReplayTx, Evolves, CallFits, LastAsksForCorrection, IsSuccessor,
         BlockOf, StartsAt;
    ReachableFits(s, sys);
    InvOfSys(s, sys);
    ReplayStep(s, sys, call, newId, now, databaseNow);
    SourceOfCall(s, sys.db, call);
    BlockOfOnColumns(s, sys.db, call.sourceId);
    ReplayKeepsInv(s, sys.db, call, newId, now, databaseNow);
    NextGenerationRow(sys.db, call, now, databaseNow);
    forall c ensures IsSuccessor(sys.db, call.sourceId, c)
                     <==> c in sys.db.deliveries
                          && sys.db.deliveries[c].replayedFrom == Some(call.sourceId)
    {
      SuccessorOnColumns(sys.db, call.sourceId, c);
    }
    if !(exists c :: IsSuccessor(sys.db, call.sourceId, c)) {
      RefusalOfLatest(s, sys.db, call, newId, now, databaseNow);
    }
  }

  /** The replay's row is the next generation of its source. */
  predicate IsNextGeneration(row: Delivery, source: Delivery, sourceId: Id, key: string) {
    && row.eventId == source.eventId && row.endpointId == source.endpointId
    && row.generation == source.generation + 1
    && row.replayedFrom == Some(sourceId) && row.replayKey == Some(key)
  }

  lemma NextGenerationRow(db: DB, call: ReplayCall, now: Time, databaseNow: Time)
    requires call.sourceId in db.deliveries && SamePlace(call.seen, db.deliveries[call.sourceId])
    ensures IsNextGeneration(ReplayRow(call, now, databaseNow), db.deliveries[call.sourceId],
                             call.sourceId, call.key)
    ensures StartsAt(ReplayRow(call, now, databaseNow), databaseNow, now)
  {
  }

  lemma SuccessorOnColumns(db: DB, source: Id, c: Id)
    ensures IsSuccessor(db, source, c)
            <==> c in db.deliveries && db.deliveries[c].replayedFrom == Some(source)
  {
  }

  lemma SourceOfCall(s: Settings, db: DB, call: ReplayCall)
    requires Inv(s, db) && CallFits(db, call) && call.seen.eventId in db.events
    ensures call.sourceId in db.deliveries
    ensures SamePlace(call.seen, db.deliveries[call.sourceId])
    ensures db.deliveries[call.sourceId].endpointId in db.endpoints
    ensures call.seen.status == DeadLettered ==>
              db.deliveries[call.sourceId].status == DeadLettered
  {
    hide Inv, LedgerOf, RowChecks, UniqueAttempts, IsSpace;
    RowFacts(s, db, call.sourceId);
  }

  /** The refusals of a source that was never replayed. */
  lemma RefusalOfLatest(
    s: Settings, db: DB, call: ReplayCall, newId: Id, now: Time, databaseNow: Time)
    requires s.Valid() && Inv(s, db) && CallFits(db, call) && call.seen.eventId in db.events
    requires !(exists c :: IsSuccessor(db, call.sourceId, c))
    ensures var outcome := ReplayTx(db, call, newId, now, databaseNow).1;
            && (call.seen.status != DeadLettered ==>
                  outcome == ReplayRefused(DeliveryNotReplayable))
            && (call.seen.status == DeadLettered && BlockOf(db, call.sourceId).Some? ==>
                  outcome == ReplayRefused(PayloadCorrection))
            && (call.seen.status == DeadLettered && BlockOf(db, call.sourceId).None?
                && !db.endpoints[db.deliveries[call.sourceId].endpointId].enabled ==>
                  outcome == ReplayRefused(DisabledEndpoint))
  {
    hide Inv, Constraints, BlockOf, IsLatest, IsSpace, ReplayRow, IsSuccessor, CallFits;
    SourceOfCall(s, db, call);
    LatestIffNotReplayed(s, db, call.sourceId);
    NoExistingReplay(db, call.sourceId, call.key);
    if call.seen.status == DeadLettered {
      forall x | InChain(db, call.seen.eventId, call.seen.endpointId, x)
        ensures !Active(db.deliveries[x].status)
      {
        NoActiveInDeadChain(s, db, call.sourceId, x);
      }
    }
  }
}
