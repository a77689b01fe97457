/** Every transaction of the worker keeps the invariant and never raises. */
module WorkerProofs {
  import opened Schema
  import opened Retry
  import opened Transport
  import opened Transactions
  import opened Invariants

  /** The columns that place a delivery in its chain. */
  predicate SamePlace(row: Delivery, row': Delivery) {
    && row.eventId == row'.eventId && row.endpointId == row'.endpointId
    && row.generation == row'.generation
    && row.replayedFrom == row'.replayedFrom && row.replayKey == row'.replayKey
  }

  /** What all worker transactions have in common: they rewrite one active delivery row in place
      and touch only its own attempts. */
  ghost predicate RewritesDelivery(db: DB, db': DB, d: Id) {
    && d in db.deliveries && d in db'.deliveries
    && db'.endpoints == db.endpoints && db'.events == db.events
    && db'.deliveries == db.deliveries[d := db'.deliveries[d]]
    && SamePlace(db.deliveries[d], db'.deliveries[d])
    && Active(db.deliveries[d].status)
    && (forall a | a in db.attempts :: a in db'.attempts)
    && (forall a | a in db'.attempts && (a !in db.attempts || db'.attempts[a] != db.attempts[a]) ::
          && db'.attempts[a].deliveryId == d
          && (a in db.attempts ==> db.attempts[a].deliveryId == d))
  }

  lemma UniqueDeliveriesKept(db: DB, db': DB, d: Id)
    requires UniqueDeliveries(db.deliveries) && RewritesDelivery(db, db', d)
    ensures UniqueDeliveries(db'.deliveries)
  {
    forall d1, d2 | d1 in db'.deliveries && d2 in db'.deliveries && d1 != d2
      ensures !DeliveriesClash(db'.deliveries[d1], db'.deliveries[d2])
    {
      assert !DeliveriesClash(db.deliveries[d1], db.deliveries[d2]);
    }
  }

  lemma ForeignKeysKept(db: DB, db': DB, d: Id)
    requires ForeignKeys(db) && RewritesDelivery(db, db', d)
    ensures ForeignKeys(db')
  {
  }

  lemma LineageKept(db: DB, db': DB, d: Id)
    requires Lineage(db) && RewritesDelivery(db, db', d)
    ensures Lineage(db')
  {
    forall x | x in db'.deliveries ensures LineageOf(db', x) {
      assert LineageOf(db, x);
    }
    forall e | e in db'.events ensures HasInitial(db', e) {
      assert HasInitial(db, e);
      var x :| IsInitial(db, e, db.events[e].fingerprint.endpointId, x);
      assert IsInitial(db', e, db'.events[e].fingerprint.endpointId, x);
    }
  }

  lemma LedgerOfOthersKept(s: Settings, db: DB, db': DB, d: Id, x: Id)
    requires RewritesDelivery(db, db', d) && x in db.deliveries && x != d
    requires LedgerOf(s, db, x)
    ensures LedgerOf(s, db', x)
  {
    forall n | 1 <= n <= db'.deliveries[x].attemptCount ensures HasNumber(db'.attempts, x, n) {
      assert HasNumber(db.attempts, x, n);
      var a :| a in db.attempts && db.attempts[a].deliveryId == x && db.attempts[a].number == n;
      assert a in db'.attempts && db'.attempts[a].deliveryId == x && db'.attempts[a].number == n;
    }
  }

  lemma RowChecksKept(db: DB, db': DB, d: Id)
    requires RowChecks(db) && RewritesDelivery(db, db', d)
    requires DeliveryChecks(db'.deliveries[d])
    requires forall a | a in db'.attempts && (a in db.attempts ==> db'.attempts[a] != db.attempts[a])
               :: AttemptChecks(db'.attempts[a])
    ensures RowChecks(db')
  {
    hide EventChecks, DeliveryChecks, AttemptChecks, SamePlace, Active;
    forall a | a in db'.attempts ensures AttemptChecks(db'.attempts[a]) {
      if a in db.attempts { assert AttemptChecks(db.attempts[a]); }
    }
  }

  lemma LedgerKept(s: Settings, db: DB, db': DB, d: Id)
    requires Ledger(s, db) && RewritesDelivery(db, db', d) && LedgerOf(s, db', d)
    ensures Ledger(s, db')
  {
    hide LedgerOf, SamePlace, Active;
    forall x | x in db'.deliveries ensures LedgerOf(s, db', x) {
      if x != d { LedgerOfOthersKept(s, db, db', d, x); }
    }
  }

  lemma ConstraintsKept(db: DB, db': DB, d: Id)
    requires Constraints(db) && RewritesDelivery(db, db', d)
    requires DeliveryChecks(db'.deliveries[d])
    requires forall a | a in db'.attempts && (a in db.attempts ==> db'.attempts[a] != db.attempts[a])
               :: AttemptChecks(db'.attempts[a])
    requires UniqueAttempts(db'.attempts)
    ensures Constraints(db')
  {
    hide DeliveryChecks, AttemptChecks, RowChecks, UniqueEvents, UniqueDeliveries, UniqueAttempts,
         ForeignKeys, SamePlace, Active;
    UniqueDeliveriesKept(db, db', d);
    ForeignKeysKept(db, db', d);
    RowChecksKept(db, db', d);
  }

  /** The invariant after a worker transaction, from the parts that concern its own delivery. */
  lemma InvAfterRewrite(s: Settings, db: DB, db': DB, d: Id)
    requires Inv(s, db) && RewritesDelivery(db, db', d)
    requires DeliveryChecks(db'.deliveries[d])
    requires forall a | a in db'.attempts && (a in db.attempts ==> db'.attempts[a] != db.attempts[a])
               :: AttemptChecks(db'.attempts[a])
    requires UniqueAttempts(db'.attempts)
    requires LedgerOf(s, db', d)
    ensures Inv(s, db')
  {
    hide DeliveryChecks, AttemptChecks, Constraints, UniqueAttempts, Ledger, LedgerOf, Lineage,
         RewritesDelivery;
    ConstraintsKept(db, db', d);
    LineageKept(db, db', d);
    LedgerKept(s, db, db', d);
  }

  /** What the invariant says about one delivery row. */
  lemma RowFacts(s: Settings, db: DB, d: Id)
    requires Inv(s, db) && d in db.deliveries
    ensures UniqueAttempts(db.attempts) && RowChecks(db)
    ensures DeliveryChecks(db.deliveries[d]) && RowFits(s, db.deliveries[d]) && LedgerOf(s, db, d)
    ensures db.deliveries[d].eventId in db.events && db.deliveries[d].endpointId in db.endpoints
  {
    hide DeliveryChecks, AttemptChecks, EventChecks, UniqueDeliveries, UniqueAttempts, Lineage,
         AttemptFits, RowFits, HasNumber;
    assert LedgerOf(s, db, d);
  }

  /** What the invariant says about one attempt row. */
  lemma AttemptFacts(s: Settings, db: DB, a: Id)
    requires Inv(s, db) && a in db.attempts
    ensures AttemptChecks(db.attempts[a]) && db.attempts[a].deliveryId in db.deliveries
    ensures AttemptFits(s, db.deliveries[db.attempts[a].deliveryId], db.attempts[a])
  {
    hide DeliveryChecks, AttemptChecks, EventChecks, UniqueDeliveries, UniqueAttempts, Lineage,
         AttemptFits, RowFits, HasNumber;
    assert LedgerOf(s, db, db.attempts[a].deliveryId);
  }

  /** The attempt with a given number. */
  lemma NumberedAttempt(s: Settings, db: DB, d: Id, n: int) returns (a: Id)
    requires Inv(s, db) && d in db.deliveries && 1 <= n <= db.deliveries[d].attemptCount
    ensures a in db.attempts && db.attempts[a].deliveryId == d && db.attempts[a].number == n
    ensures AttemptFits(s, db.deliveries[d], db.attempts[a])
  {
    hide Inv, AttemptFits, RowFits;
    RowFacts(s, db, d);
    assert HasNumber(db.attempts, d, n);
    a :| a in db.attempts && db.attempts[a].deliveryId == d && db.attempts[a].number == n;
  }

  // ----- resolving one attempt -----

  /** Resolving attempt a keeps every unique index. */
  lemma UniqueAfterResolution(db: DB, db': DB, a: Id)
    requires UniqueAttempts(db.attempts) && a in db.attempts && a in db'.attempts
    requires db'.attempts == db.attempts[a := db'.attempts[a]]
    requires db'.attempts[a].deliveryId == db.attempts[a].deliveryId
    requires db'.attempts[a].number == db.attempts[a].number
    requires db'.attempts[a].leaseToken == db.attempts[a].leaseToken
    requires db'.attempts[a].status != Reserved
    ensures UniqueAttempts(db'.attempts)
  {
    forall a1, a2 | a1 in db'.attempts && a2 in db'.attempts && a1 != a2
      ensures !AttemptsClash(db'.attempts[a1], db'.attempts[a2])
    {
      assert !AttemptsClash(db.attempts[a1], db.attempts[a2]);
    }
  }

  /** Numbers survive when rows keep their delivery and number. */
  lemma NumbersKept(db: DB, db': DB, d: Id, n: int)
    requires HasNumber(db.attempts, d, n)
    requires forall a | a in db.attempts ::
               && a in db'.attempts && db'.attempts[a].deliveryId == db.attempts[a].deliveryId
               && db'.attempts[a].number == db.attempts[a].number
    ensures HasNumber(db'.attempts, d, n)
  {
    var a :| a in db.attempts && db.attempts[a].deliveryId == d && db.attempts[a].number == n;
    assert a in db'.attempts && db'.attempts[a].deliveryId == d && db'.attempts[a].number == n;
  }

  /** The current attempt resolves and the delivery row moves on with it: the ledger holds again
      when the resolved attempt fits the new row. */
  lemma LedgerAfterResolution(s: Settings, db: DB, db': DB, d: Id, a: Id)
    requires LedgerOfBefore(s, db, d, a)
    requires UniqueAttempts(db.attempts)
    requires d in db'.deliveries && a in db'.attempts
    requires db'.attempts == db.attempts[a := db'.attempts[a]]
    requires db'.attempts[a].deliveryId == d
    requires db'.attempts[a].number == db.attempts[a].number
    requires db'.deliveries[d].attemptCount == db.deliveries[d].attemptCount
    requires RowFits(s, db'.deliveries[d])
    requires AttemptFits(s, db'.deliveries[d], db'.attempts[a])
    ensures LedgerOf(s, db', d)
  {
    var row, row' := db.deliveries[d], db'.deliveries[d];
    forall n | 1 <= n <= row'.attemptCount ensures HasNumber(db'.attempts, d, n) {
      NumbersKept(db, db', d, n);
    }
    forall b | b in db'.attempts && db'.attempts[b].deliveryId == d
      ensures AttemptFits(s, row', db'.attempts[b])
    {
      if b != a {
        assert AttemptFits(s, row, db.attempts[b]);
        OnlyOneEvidence(db, a, b);
      }
    }
  }

  ghost predicate LedgerOfBefore(s: Settings, db: DB, d: Id, a: Id) {
    d in db.deliveries && LedgerOf(s, db, d) && IsEvidence(db, d, a)
  }

  // ----- expiry without redelivery -----

  lemma ExpireAndDeadLetterKeepsInv(s: Settings, db: DB, d: Id, a: Id, reason: string, now: Time)
    requires Inv(s, db) && d in db.deliveries && IsEvidence(db, d, a)
    requires db.deliveries[d].status == InProgress
    ensures Inv(s, DeadLetter(ExpireLease(db, d, a, reason, now), d, now))
  {
    hide Inv, UniqueAttempts, LedgerOf, RowChecks, Truncate;
    var db' := DeadLetter(ExpireLease(db, d, a, reason, now), d, now);
    RowFacts(s, db, d);
    AttemptFacts(s, db, a);
    UniqueAfterResolution(db, db', a);
    LedgerAfterResolution(s, db, db', d, a);
    InvAfterRewrite(s, db, db', d);
  }

  // ----- finalize -----

  lemma DelayBounds(s: Settings, w: Webhook, result: AttemptResult, jitter: real)
    requires s.Valid() && WellFormed(s, result) && w.attemptNumber >= 1 && 0.0 <= jitter <= 1.0
    ensures RetryDelay(s, w, result, jitter).Some?
            <==> result.disposition == Disposition.Retry
                 && w.attemptNumber < s.policy.maxAttempts
    ensures RetryDelay(s, w, result, jitter).Some? ==>
              var delay := RetryDelay(s, w, result, jitter).value;
              && 0.0 <= delay <= Max(Ceiling(s.policy, w.attemptNumber), s.retryAfterCap)
              && (result.retryAfter.Some? ==> delay >= result.retryAfter.value)
  {
    DelayWithinCeiling(s.policy, w.attemptNumber, jitter);
  }

  lemma SettleKeepsInv(
    s: Settings, db: DB, w: Webhook, result: AttemptResult, jitter: real, now: Time)
    requires s.Valid() && Inv(s, db) && WellFormed(s, result) && 0.0 <= jitter <= 1.0
    requires w.attemptNumber >= 1 && HasMatchingAttempt(db, w)
    requires w.deliveryId in db.deliveries && IsEvidence(db, w.deliveryId, w.attemptId)
    requires db.deliveries[w.deliveryId].status == InProgress
    ensures Inv(s, Settle(db, w, result, RetryDelay(s, w, result, jitter), now))
  {
    hide Inv, UniqueAttempts, LedgerOf, RowChecks, RetryDelay, LastError;
    var d, a, delay := w.deliveryId, w.attemptId, RetryDelay(s, w, result, jitter);
    var db' := Settle(db, w, result, delay, now);
    DelayBounds(s, w, result, jitter);
    RowFacts(s, db, d);
    AttemptFacts(s, db, a);
    UniqueAfterResolution(db, db', a);
    assert ScheduleFits(s, db'.attempts[a]);
    LedgerAfterResolution(s, db, db', d, a);
    InvAfterRewrite(s, db, db', d);
  }

  // ----- dead letter without an attempt -----

  lemma DeadLetterUnclaimedKeepsInv(s: Settings, db: DB, d: Id, reason: string, now: Time)
    requires Inv(s, db) && d in db.deliveries
    requires db.deliveries[d].status == Pending || db.deliveries[d].status == RetryWait
    ensures Inv(s, DeadLetterUnclaimed(db, d, reason, now))
  {
    hide Inv, UniqueAttempts, RowChecks, HasNumber, Truncate;
    var db' := DeadLetterUnclaimed(db, d, reason, now);
    var row, row' := db.deliveries[d], db'.deliveries[d];
    RowFacts(s, db, d);
    forall n | 1 <= n <= row'.attemptCount ensures HasNumber(db'.attempts, d, n) {
      NumbersKept(db, db', d, n);
    }
    forall b | b in db'.attempts && db'.attempts[b].deliveryId == d
      ensures AttemptFits(s, row', db'.attempts[b])
    {
      assert AttemptFits(s, row, db.attempts[b]);
    }
    InvAfterRewrite(s, db, db', d);
  }

  // ----- reserving the next attempt -----

  /** The two UUIDs of a reservation are used nowhere in the database. */
  predicate FreshReservation(db: DB, r: Reservation) {
    && r.attemptId !in db.attempts
    && forall a | a in db.attempts :: db.attempts[a].leaseToken != r.token
  }

  lemma UniqueAfterReservation(db: DB, db': DB, d: Id, r: Reservation, number: int)
    requires UniqueAttempts(db.attempts) && FreshReservation(db, r)
    requires db'.attempts == db.attempts[r.attemptId := ReservedAttempt(d, number, r)]
    requires forall a | a in db.attempts && db.attempts[a].deliveryId == d ::
               db.attempts[a].number < number && db.attempts[a].status != Reserved
    ensures UniqueAttempts(db'.attempts)
  {
    forall a1, a2 | a1 in db'.attempts && a2 in db'.attempts && a1 != a2
      ensures !AttemptsClash(db'.attempts[a1], db'.attempts[a2])
    {
      if a1 != r.attemptId && a2 != r.attemptId {
        assert !AttemptsClash(db.attempts[a1], db.attempts[a2]);
      }
    }
  }

  /** Attempt 1..n are superseded, attempt n+1 is reserved. */
  lemma LedgerAfterReservation(s: Settings, db: DB, db': DB, d: Id, r: Reservation)
    requires FreshReservation(db, r)
    requires d in db.deliveries && d in db'.deliveries
    requires 0 <= db.deliveries[d].attemptCount < s.policy.maxAttempts
    requires forall n | 1 <= n <= db.deliveries[d].attemptCount :: HasNumber(db.attempts, d, n)
    requires forall a | a in db.attempts && db.attempts[a].deliveryId == d ::
               && 1 <= db.attempts[a].number <= db.deliveries[d].attemptCount
               && Superseded(db.attempts[a])
               && (db.attempts[a].status == Completed ==> ScheduleFits(s, db.attempts[a]))
    requires db.deliveries[d].deliveredAt.None?
    requires db'.deliveries[d] == LeasedRow(db.deliveries[d], s, r)
    requires db'.attempts
             == db.attempts[r.attemptId :=
                  ReservedAttempt(d, db.deliveries[d].attemptCount + 1, r)]
    ensures LedgerOf(s, db', d)
  {
    var row' := db'.deliveries[d];
    forall n | 1 <= n <= row'.attemptCount ensures HasNumber(db'.attempts, d, n) {
      if n < row'.attemptCount {
        NumbersKept(db, db', d, n);
      } else {
        assert db'.attempts[r.attemptId].number == n;
      }
    }
  }

  lemma ReserveFreshKeepsInv(s: Settings, db: DB, d: Id, r: Reservation)
    requires Inv(s, db) && d in db.deliveries && FreshReservation(db, r)
    requires db.deliveries[d].status == Pending || db.deliveries[d].status == RetryWait
    requires HasAttemptRemaining(s.policy, db.deliveries[d].attemptCount)
    ensures Inv(s, Reserve(s, db, d, r))
  {
    hide Inv, UniqueAttempts, RowChecks, HasNumber, Truncate;
    var db' := Reserve(s, db, d, r);
    var row := db.deliveries[d];
    RowFacts(s, db, d);
    forall a | a in db.attempts && db.attempts[a].deliveryId == d
      ensures 1 <= db.attempts[a].number <= row.attemptCount && Superseded(db.attempts[a])
      ensures db.attempts[a].status == Completed ==> ScheduleFits(s, db.attempts[a])
    {
      assert AttemptFits(s, row, db.attempts[a]);
    }
    FinishReservation(s, db, db, d, r);
  }

  /** From `mid`, where every attempt of delivery d is superseded, reserving the next attempt
      restores the invariant of `db`. */
  lemma FinishReservation(s: Settings, db: DB, mid: DB, d: Id, r: Reservation)
    requires Inv(s, db) && d in db.deliveries && d in mid.deliveries
    requires UniqueAttempts(mid.attempts) && FreshReservation(mid, r)
    requires RewritesDelivery(db, Reserve(s, mid, d, r), d)
    requires forall a | a in mid.attempts && (a in db.attempts ==> mid.attempts[a] != db.attempts[a])
               :: AttemptChecks(mid.attempts[a])
    requires DeliveryChecks(mid.deliveries[d]) && mid.deliveries[d].deliveredAt.None?
    requires mid.deliveries[d].attemptCount < s.policy.maxAttempts
    requires forall n | 1 <= n <= mid.deliveries[d].attemptCount :: HasNumber(mid.attempts, d, n)
    requires forall a | a in mid.attempts && mid.attempts[a].deliveryId == d ::
               && 1 <= mid.attempts[a].number <= mid.deliveries[d].attemptCount
               && Superseded(mid.attempts[a])
               && (mid.attempts[a].status == Completed ==> ScheduleFits(s, mid.attempts[a]))
    ensures Inv(s, Reserve(s, mid, d, r))
  {
    hide Inv, UniqueAttempts, LedgerOf, HasNumber, FreshReservation, RewritesDelivery, ScheduleFits,
         Truncate;
    var db' := Reserve(s, mid, d, r);
    UniqueAfterReservation(mid, db', d, r, mid.deliveries[d].attemptCount + 1);
    LedgerAfterReservation(s, mid, db', d, r);
    InvAfterRewrite(s, db, db', d);
  }

  /** The flush between resolving the expired attempt and reserving its replacement satisfies
      every constraint, although the ledger is open at that point. */
  lemma MidClaimFlushIsClean(s: Settings, db: DB, d: Id, a: Id, reason: string, now: Time)
    requires Inv(s, db) && d in db.deliveries && IsEvidence(db, d, a)
    requires db.deliveries[d].status == InProgress
    ensures Constraints(ExpireLease(db, d, a, reason, now))
  {
    hide Constraints, Ledger, Lineage, RowChecks, UniqueAttempts, LedgerOf, Truncate;
    var db' := ExpireLease(db, d, a, reason, now);
    RowFacts(s, db, d);
    AttemptFacts(s, db, a);
    UniqueAfterResolution(db, db', a);
    ConstraintsKept(db, db', d);
  }

  /** That flush is necessary: while the expired attempt is still reserved, inserting the new one
      trips the partial unique index, whatever the new identifiers are. */
  lemma ReservingBeforeResolvingClashes(s: Settings, db: DB, d: Id, a: Id, r: Reservation)
    requires Inv(s, db) && d in db.deliveries && IsEvidence(db, d, a)
    requires r.attemptId !in db.attempts
    ensures !Constraints(Reserve(s, db, d, r))
  {
    var db' := Reserve(s, db, d, r);
    assert AttemptsClash(db'.attempts[a], db'.attempts[r.attemptId]);
  }

  lemma ReserveAfterExpiryKeepsInv(
    s: Settings, db: DB, d: Id, a: Id, reason: string, r: Reservation)
    requires Inv(s, db) && d in db.deliveries && IsEvidence(db, d, a) && FreshReservation(db, r)
    requires db.deliveries[d].status == InProgress
    requires HasAttemptRemaining(s.policy, db.deliveries[d].attemptCount)
    ensures Inv(s, Reserve(s, ExpireLease(db, d, a, reason, r.now), d, r))
  {
    hide Inv, RowChecks, UniqueAttempts, HasNumber, Truncate;
    var mid := ExpireLease(db, d, a, reason, r.now);
    var row := db.deliveries[d];
    RowFacts(s, db, d);
    AttemptFacts(s, db, a);
    UniqueAfterResolution(db, mid, a);
    forall b | b in mid.attempts && mid.attempts[b].deliveryId == d
      ensures 1 <= mid.attempts[b].number <= row.attemptCount && Superseded(mid.attempts[b])
      ensures mid.attempts[b].status == Completed ==> ScheduleFits(s, mid.attempts[b])
    {
      assert AttemptFits(s, row, db.attempts[b]);
      if b != a { OnlyOneEvidence(db, a, b); }
    }
    forall n | 1 <= n <= row.attemptCount ensures HasNumber(mid.attempts, d, n) {
      NumbersKept(db, mid, d, n);
    }
    FinishReservation(s, db, mid, d, r);
  }

  /** Two distinct attempts of a delivery differ in number and are not both reserved. */
  lemma OnlyOneEvidence(db: DB, a: Id, b: Id)
    requires UniqueAttempts(db.attempts) && a in db.attempts && b in db.attempts && a != b
    ensures !AttemptsClash(db.attempts[a], db.attempts[b])
  {
  }

  // ----- the two worker transactions -----

  /** A claim keeps the invariant and never raises: the missing-evidence error, the missing rows,
      the forbidden transitions and both flushes' constraint errors are all unreachable. */
  lemma ClaimKeepsInv(s: Settings, db: DB, d: Id, r: Reservation, t: Time, locked: set<Id>)
    requires s.Valid() && Inv(s, db) && Selected(db, t, locked, d) && FreshReservation(db, r)
    ensures Inv(s, ClaimTx(s, db, d, r).0)
    ensures ClaimTx(s, db, d, r).1.Resolved? || ClaimTx(s, db, d, r).1.Claimed?
  {
    hide Constraints, Ledger, Lineage, LedgerOf, DeliveryChecks, RowChecks, UniqueAttempts, RowFits,
         FreshReservation, DeadLetteredRow, ExpiredAttempt, ReservedAttempt;
    RowFacts(s, db, d);
    var row := db.deliveries[d];
    var enabled := db.endpoints[row.endpointId].enabled;
    var exhausted := !HasAttemptRemaining(s.policy, row.attemptCount);
    if row.status == InProgress {
      var a := EvidenceExists(s, db, d);
      var reason := ExpiryReason(enabled, exhausted);
      if enabled && !exhausted {
        MidClaimFlushIsClean(s, db, d, a, reason, r.now);
        ReserveAfterExpiryKeepsInv(s, db, d, a, reason, r);
      } else {
        ExpireAndDeadLetterKeepsInv(s, db, d, a, reason, r.now);
      }
      assert ReclaimTx(s, db, d, r) == ReclaimWith(s, db, d, a, r);
    } else {
      var reason := UnclaimableDueReason(enabled, exhausted);
      if reason.Some? {
        DeadLetterUnclaimedKeepsInv(s, db, d, reason.value, r.now);
      } else {
        ReserveFreshKeepsInv(s, db, d, r);
      }
    }
  }

  /** A webhook snapshot names an attempt of its delivery. */
  predicate NamesItsAttempt(db: DB, w: Webhook) {
    && w.attemptNumber >= 1
    && (w.deliveryId in db.deliveries ==> w.attemptId in db.attempts)
    && (w.attemptId in db.attempts ==>
          && db.attempts[w.attemptId].deliveryId == w.deliveryId
          && db.attempts[w.attemptId].number == w.attemptNumber
          && db.attempts[w.attemptId].leaseToken == w.leaseToken)
  }

  /** Finalizing keeps the invariant and never raises. It is accepted exactly when the snapshot's
      attempt is still the reserved one and the row is leased to this worker; every other result
      is reported stale and leaves the whole database as it was. */
  lemma FinalizeKeepsInv(
    s: Settings, db: DB, workerId: string, w: Webhook, result: AttemptResult, now: Time,
    jitter: real)
    requires s.Valid() && Inv(s, db) && WellFormed(s, result) && 0.0 <= jitter <= 1.0
    requires NamesItsAttempt(db, w)
    ensures var (db', outcome) := FinalizeTx(s, db, workerId, w, result, now, jitter);
            && Inv(s, db')
            && !outcome.FinalizeRaised?
            && (outcome == Stale ==> db' == db)
            && (outcome == Finalized <==>
                  && w.deliveryId in db.deliveries
                  && db.attempts[w.attemptId].status == Reserved
                  && db.deliveries[w.deliveryId].leaseOwner == Some(Truncate(workerId, 160)))
  {
    hide Constraints, Ledger, Lineage, LedgerOf, RowChecks, UniqueAttempts, RowFits, WellFormed,
         AttemptChecks, ScheduleFits, LastError, SettledRow, CompletedAttempt, RetryDelay, Truncate;
    if w.deliveryId in db.deliveries {
      var d, a := w.deliveryId, w.attemptId;
      RowFacts(s, db, d);
      AttemptFacts(s, db, a);
      if db.attempts[a].status == Reserved {
        assert IsEvidence(db, d, a);
      }
      if OwnsLease(db, workerId, w) {
        assert LastFits(db.deliveries[d], db.attempts[a]);
        SettleKeepsInv(s, db, w, result, jitter, now);
      }
    }
  }

  // ----- what the worker transactions change -----

  predicate SameAttemptKey(a: Attempt, a': Attempt) {
    a.deliveryId == a'.deliveryId && a.number == a'.number && a.leaseToken == a'.leaseToken
  }

  /** Attempts are never dropped, keep their keys, and change only while reserved. */
  ghost predicate ResolvesOnly(db: DB, db': DB) {
    forall a | a in db.attempts ::
      && a in db'.attempts && SameAttemptKey(db.attempts[a], db'.attempts[a])
      && (db.attempts[a].status != Reserved ==> db'.attempts[a] == db.attempts[a])
  }

  /** The snapshot a claim returns agrees with the rows it committed. */
  predicate SnapshotAgrees(db: DB, w: Webhook) {
    && w.deliveryId in db.deliveries && db.deliveries[w.deliveryId].eventId == w.eventId
    && w.eventId in db.events && w.body == db.events[w.eventId].body
    && w.eventType == db.events[w.eventId].eventType
  }

  /** What a claim of delivery d changes, and how its snapshot agrees with it. */
  ghost predicate ClaimChanges(db: DB, db': DB, d: Id, r: Reservation, outcome: ClaimOutcome) {
    && RewritesDelivery(db, db', d) && ResolvesOnly(db, db')
    && (forall a | a in db'.attempts && (a in db.attempts ==> db'.attempts[a] != db.attempts[a])
          :: db'.attempts[a].status != Completed)
    && (forall a | a in db'.attempts && a !in db.attempts ::
          a == r.attemptId && db'.attempts[a].leaseToken == r.token)
    && (r.attemptId in db'.attempts <==> outcome.Claimed?)
    && (outcome.Claimed? ==>
          && outcome.webhook.attemptId == r.attemptId && outcome.webhook.leaseToken == r.token
          && NamesItsAttempt(db', outcome.webhook)
          && outcome.webhook.attemptNumber == db'.deliveries[d].attemptCount
          && db'.deliveries[d].attemptCount == db.deliveries[d].attemptCount + 1
          && db'.deliveries[d].status == InProgress
          && outcome.webhook.deliveryId == d && SnapshotAgrees(db', outcome.webhook))
    && (!outcome.Claimed? ==>
          && db'.deliveries[d].status == DeadLettered
          && db'.deliveries[d].attemptCount == db.deliveries[d].attemptCount)
  }

  lemma ReservationChanges(s: Settings, db: DB, mid: DB, d: Id, r: Reservation)
    requires d in db.deliveries && Active(db.deliveries[d].status) && r.attemptId !in db.attempts
    requires 0 <= db.deliveries[d].attemptCount
    requires mid.endpoints == db.endpoints && mid.events == db.events
    requires db.deliveries[d].eventId in db.events && db.deliveries[d].endpointId in db.endpoints
    requires d in mid.deliveries && mid.deliveries == db.deliveries[d := mid.deliveries[d]]
    requires SamePlace(db.deliveries[d], mid.deliveries[d])
    requires mid.deliveries[d].attemptCount == db.deliveries[d].attemptCount
    requires mid.attempts.Keys == db.attempts.Keys && ResolvesOnly(db, mid)
    requires forall a | a in mid.attempts && mid.attempts[a] != db.attempts[a] ::
               mid.attempts[a].deliveryId == d && mid.attempts[a].status != Completed
    ensures var db' := Reserve(s, mid, d, r);
            ClaimChanges(db, db', d, r, Claimed(WebhookFor(db', d, r)))
  {
    hide Truncate;
  }

  lemma ReclaimChanges(s: Settings, db: DB, d: Id, a: Id, r: Reservation)
    requires Inv(s, db) && d in db.deliveries && IsEvidence(db, d, a)
    requires db.deliveries[d].status == InProgress && r.attemptId !in db.attempts
    requires db.deliveries[d].endpointId in db.endpoints
    requires !ReclaimWith(s, db, d, a, r).1.ClaimRaised?
    ensures var (db', outcome) := ReclaimWith(s, db, d, a, r);
            ClaimChanges(db, db', d, r, outcome)
  {
    hide Inv, Constraints, DeliveryChecks, RowChecks, UniqueAttempts, RowFits, LedgerOf, Truncate;
    RowFacts(s, db, d);
    var reason := ExpiryReason(db.endpoints[db.deliveries[d].endpointId].enabled,
                               !HasAttemptRemaining(s.policy, db.deliveries[d].attemptCount));
    RowFactsCount(s, db, d);
    ReservationChanges(s, db, ExpireLease(db, d, a, reason, r.now), d, r);
  }

  lemma FreshClaimChanges(s: Settings, db: DB, d: Id, r: Reservation)
    requires Inv(s, db) && d in db.deliveries && r.attemptId !in db.attempts
    requires db.deliveries[d].status == Pending || db.deliveries[d].status == RetryWait
    requires db.deliveries[d].endpointId in db.endpoints
    requires !FreshClaimTx(s, db, d, r).1.ClaimRaised?
    ensures var (db', outcome) := FreshClaimTx(s, db, d, r);
            ClaimChanges(db, db', d, r, outcome)
  {
    hide Inv, Constraints, DeliveryChecks, RowChecks, UniqueAttempts, RowFits, LedgerOf, Truncate;
    RowFacts(s, db, d);
    RowFactsCount(s, db, d);
    ReservationChanges(s, db, db, d, r);
  }

  lemma RowFactsCount(s: Settings, db: DB, d: Id)
    requires Inv(s, db) && d in db.deliveries
    ensures 0 <= db.deliveries[d].attemptCount
  {
    hide Inv, LedgerOf, RowFits, RowChecks, UniqueAttempts;
    RowFacts(s, db, d);
  }

  lemma ClaimEffect(s: Settings, db: DB, d: Id, r: Reservation, t: Time, locked: set<Id>)
    requires s.Valid() && Inv(s, db) && Selected(db, t, locked, d) && FreshReservation(db, r)
    ensures var (db', outcome) := ClaimTx(s, db, d, r);
            ClaimChanges(db, db', d, r, outcome)
  {
    ClaimKeepsInv(s, db, d, r, t, locked);
    hide Inv, Constraints, DeliveryChecks, RowChecks, UniqueAttempts, RowFits, LedgerOf, Truncate,
         ReclaimWith, FreshClaimTx, ClaimChanges;
    if db.deliveries[d].status == InProgress {
      var a := EvidenceExists(s, db, d);
      assert ReclaimTx(s, db, d, r) == ReclaimWith(s, db, d, a, r);
      ReclaimChanges(s, db, d, a, r);
    } else {
      FreshClaimChanges(s, db, d, r);
    }
  }

  lemma FinalizeEffect(
    s: Settings, db: DB, workerId: string, w: Webhook, result: AttemptResult, now: Time,
    jitter: real)
    requires s.Valid() && Inv(s, db) && WellFormed(s, result) && 0.0 <= jitter <= 1.0
    requires NamesItsAttempt(db, w)
    requires FinalizeTx(s, db, workerId, w, result, now, jitter).1 == Finalized
    ensures var db' := FinalizeTx(s, db, workerId, w, result, now, jitter).0;
            && w.deliveryId in db.deliveries && w.attemptId in db.attempts
            && RewritesDelivery(db, db', w.deliveryId) && ResolvesOnly(db, db')
            && w.attemptId in db'.attempts
            && db'.attempts == db.attempts[w.attemptId := db'.attempts[w.attemptId]]
            && db'.attempts[w.attemptId].status == Completed
            && db'.attempts[w.attemptId].disposition == Some(result.disposition)
            && db'.attempts[w.attemptId].httpStatus == result.httpStatus
            && db'.attempts[w.attemptId].excerpt == result.excerpt
            && !Active(db'.deliveries[w.deliveryId].status)
               == (db'.deliveries[w.deliveryId].status != RetryWait)
            && db'.deliveries[w.deliveryId].status != InProgress
            && db'.deliveries[w.deliveryId].attemptCount == db.deliveries[w.deliveryId].attemptCount
  {
    hide Constraints, Ledger, Lineage, Truncate, LastError, RetryDelay, WellFormed;
  }
}
