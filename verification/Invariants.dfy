/** The inductive invariant of the database: what the schema checks, plus the attempt ledger of
    every delivery and the generation lineage of every event. */
module Invariants {
  import opened Schema
  import opened Retry
  import opened Transport
  import opened Transactions

  // ----- attempt ledger -----

  ghost predicate HasNumber(attempts: map<Id, Attempt>, d: Id, n: int) {
    exists a :: a in attempts && attempts[a].deliveryId == d && attempts[a].number == n
  }

  /** The scheduled retry of a completed attempt lies inside its backoff window. */
  predicate ScheduleFits(s: Settings, a: Attempt) {
    && a.retryScheduledFor.Some? == (a.disposition == Some(Disposition.Retry)
                                     && a.number < s.policy.maxAttempts)
    && (a.retryScheduledFor.Some? && a.resolvedAt.Some? && a.number >= 1 ==>
          a.resolvedAt.value <= a.retryScheduledFor.value
            <= a.resolvedAt.value + Max(Ceiling(s.policy, a.number), s.retryAfterCap))
  }

  /** An attempt that is not the last of its delivery: it ended in a retry or an expired lease. */
  predicate Superseded(a: Attempt) {
    || a.status == Indeterminate
    || (a.status == Completed && a.disposition == Some(Disposition.Retry))
  }

  /** The last attempt of a delivery agrees with the delivery row. */
  predicate LastFits(row: Delivery, a: Attempt) {
    match row.status
    case Pending => false
    case InProgress => a.status == Reserved && row.leaseToken == Some(a.leaseToken)
    case RetryWait =>
      && a.status == Completed && a.disposition == Some(Disposition.Retry)
      && a.retryScheduledFor == row.nextAttemptAt
    case Delivered => a.status == Completed && a.disposition == Some(Succeeded)
    case DeadLettered =>
      || a.status == Indeterminate
      || (a.status == Completed && a.disposition != Some(Succeeded))
  }

  predicate AttemptFits(s: Settings, row: Delivery, a: Attempt) {
    && 1 <= a.number <= row.attemptCount
    && (a.status == Completed ==> ScheduleFits(s, a))
    && (a.number < row.attemptCount ==> Superseded(a))
    && (a.number == row.attemptCount ==> LastFits(row, a))
  }

  predicate RowFits(s: Settings, row: Delivery) {
    && row.attemptCount <= s.policy.maxAttempts
    && row.nextAttemptAt.Some? == (row.status == Pending || row.status == RetryWait)
    && row.deliveredAt.Some? == (row.status == Delivered)
    && (row.status == Pending ==> row.attemptCount == 0)
    && (row.status == RetryWait ==> 1 <= row.attemptCount < s.policy.maxAttempts)
    && (row.status == InProgress || row.status == Delivered ==> row.attemptCount >= 1)
  }

  ghost predicate LedgerOf(s: Settings, db: DB, d: Id)
    requires d in db.deliveries
  {
    var row := db.deliveries[d];
    && RowFits(s, row)
    && (forall n | 1 <= n <= row.attemptCount :: HasNumber(db.attempts, d, n))
    && (forall a | a in db.attempts && db.attempts[a].deliveryId == d ::
          AttemptFits(s, row, db.attempts[a]))
  }

  ghost predicate Ledger(s: Settings, db: DB) {
    forall d | d in db.deliveries :: LedgerOf(s, db, d)
  }

  // ----- generation lineage -----

  predicate SuccessorOf(row: Delivery, source: Delivery) {
    && SameChain(row, source)
    && row.generation == source.generation + 1
    && source.status == DeadLettered
  }

  predicate LineageOf(db: DB, d: Id)
    requires d in db.deliveries
  {
    var row := db.deliveries[d];
    && row.eventId in db.events
    && row.endpointId == db.events[row.eventId].fingerprint.endpointId
    && (row.replayedFrom.None? <==> row.generation == 0)
    && (row.replayedFrom.Some? ==>
          && row.replayedFrom.value in db.deliveries
          && SuccessorOf(row, db.deliveries[row.replayedFrom.value]))
  }

  ghost predicate HasInitial(db: DB, e: Id)
    requires e in db.events
  {
    exists d :: IsInitial(db, e, db.events[e].fingerprint.endpointId, d)
  }

  ghost predicate Lineage(db: DB) {
    && (forall d | d in db.deliveries :: LineageOf(db, d))
    && (forall e | e in db.events :: HasInitial(db, e))
  }

  ghost predicate Inv(s: Settings, db: DB) {
    Constraints(db) && Ledger(s, db) && Lineage(db)
  }

  // ----- what the invariant says about a chain of generations -----

  /** Two deliveries of one event always go to the same endpoint. */
  lemma OneEndpointPerEvent(db: DB, d1: Id, d2: Id)
    requires Lineage(db) && d1 in db.deliveries && d2 in db.deliveries
    requires db.deliveries[d1].eventId == db.deliveries[d2].eventId
    ensures SameChain(db.deliveries[d1], db.deliveries[d2])
  {
    assert LineageOf(db, d1) && LineageOf(db, d2);
  }

  /** Every generation but the last of a chain is dead-lettered. */
  lemma {:induction false} EarlierGenerationIsDead(db: DB, d1: Id, d2: Id)
    requires Constraints(db) && Lineage(db) && d1 in db.deliveries && d2 in db.deliveries
    requires db.deliveries[d1].eventId == db.deliveries[d2].eventId
    requires db.deliveries[d1].generation < db.deliveries[d2].generation
    ensures db.deliveries[d1].status == DeadLettered
    decreases db.deliveries[d2].generation
  {
    hide UniqueEvents, UniqueAttempts, ForeignKeys, EventChecks, AttemptChecks, HasInitial;
    assert LineageOf(db, d1) && LineageOf(db, d2);
    assert DeliveryChecks(db.deliveries[d1]) && DeliveryChecks(db.deliveries[d2]);
    var p := db.deliveries[d2].replayedFrom.value;
    if p != d1 {
      assert LineageOf(db, p) && DeliveryChecks(db.deliveries[p]);
      assert !DeliveriesClash(db.deliveries[d1], db.deliveries[p]);
      EarlierGenerationIsDead(db, d1, p);
    }
  }

  /** Below any generation of a chain, every smaller generation number is present. */
  lemma {:induction false} GenerationsAreContiguous(db: DB, d: Id, g: int) returns (found: Id)
    requires Constraints(db) && Lineage(db) && d in db.deliveries
    requires 0 <= g <= db.deliveries[d].generation
    ensures found in db.deliveries && SameChain(db.deliveries[found], db.deliveries[d])
    ensures db.deliveries[found].generation == g
    decreases db.deliveries[d].generation
  {
    assert LineageOf(db, d) && DeliveryChecks(db.deliveries[d]);
    if g == db.deliveries[d].generation {
      found := d;
    } else {
      found := GenerationsAreContiguous(db, db.deliveries[d].replayedFrom.value, g);
    }
  }

  /** A delivery has at most one direct successor. */
  lemma SuccessorIsUnique(db: DB, c1: Id, c2: Id)
    requires Constraints(db) && Lineage(db) && c1 in db.deliveries && c2 in db.deliveries
    requires db.deliveries[c1].replayedFrom.Some?
    requires db.deliveries[c1].replayedFrom == db.deliveries[c2].replayedFrom
    ensures c1 == c2
  {
    var row1, row2 := db.deliveries[c1], db.deliveries[c2];
    assert c1 != c2 ==> !DeliveriesClash(row1, row2);
    assert LineageOf(db, c1) && LineageOf(db, c2);
  }

  /** At most one attempt carries a given number of a given delivery. */
  lemma NumberIsUnique(db: DB, a1: Id, a2: Id)
    requires UniqueAttempts(db.attempts) && a1 in db.attempts && a2 in db.attempts
    requires db.attempts[a1].deliveryId == db.attempts[a2].deliveryId
    requires db.attempts[a1].number == db.attempts[a2].number
    ensures a1 == a2
  {
    assert a1 != a2 ==> !AttemptsClash(db.attempts[a1], db.attempts[a2]);
  }

  /** An in-progress delivery has its evidence, and exactly one attempt is that evidence; an
      attempt is reserved exactly when it is the evidence of its delivery. */
  lemma EvidenceExists(s: Settings, db: DB, d: Id) returns (a: Id)
    requires Inv(s, db) && d in db.deliveries && db.deliveries[d].status == InProgress
    ensures IsEvidence(db, d, a)
    ensures forall b :: IsEvidence(db, d, b) ==> b == a
  {
    assert LedgerOf(s, db, d);
    assert HasNumber(db.attempts, d, db.deliveries[d].attemptCount);
    a :| a in db.attempts && db.attempts[a].deliveryId == d
         && db.attempts[a].number == db.deliveries[d].attemptCount;
    assert AttemptFits(s, db.deliveries[d], db.attempts[a]);
    forall b | IsEvidence(db, d, b) ensures b == a {
      NumberIsUnique(db, a, b);
    }
  }
}
