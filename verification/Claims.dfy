/** What a claim does, said on the columns of the rows it reads and writes
    (backend/src/eventharbor/deliveries/worker.py). */
module Claims {
  import opened Schema
  import opened Retry
  import opened Transport
  import opened Transactions
  import opened Invariants
  import opened WorkerProofs

  // ----- which delivery is taken -----

  /** The row may be taken from this instant on: its lease expires then, or its next attempt is
      scheduled then. */
  predicate DueSince(row: Delivery, since: Time) {
    || (row.status == InProgress && row.leaseExpiresAt == Some(since))
    || ((row.status == Pending || row.status == RetryWait) && row.nextAttemptAt == Some(since))
  }

  ghost predicate MayBeTaken(db: DB, t: Time, locked: set<Id>, d: Id) {
    && d in db.deliveries && d !in locked
    && exists since :: DueSince(db.deliveries[d], since) && since <= t
  }

  ghost predicate NothingMayBeTaken(db: DB, t: Time, locked: set<Id>) {
    forall d :: !MayBeTaken(db, t, locked, d)
  }

  /** Of all rows that may be taken at t, d has been due longest; ties go to the smaller id. */
  ghost predicate DueLongest(db: DB, t: Time, locked: set<Id>, d: Id) {
    && MayBeTaken(db, t, locked, d)
    && forall x, since, other | x in db.deliveries && x !in locked && other <= t
                                && DueSince(db.deliveries[d], since)
                                && DueSince(db.deliveries[x], other) ::
         since < other || (since == other && d <= x)
  }

  lemma ClaimableOnColumns(db: DB, t: Time, locked: set<Id>, d: Id)
    requires Constraints(db)
    ensures d in Claimable(db, t, locked) <==> MayBeTaken(db, t, locked, d)
    ensures d in Claimable(db, t, locked) ==> DueSince(db.deliveries[d], DueAt(db.deliveries[d]))
    ensures d in db.deliveries ==>
              forall since :: DueSince(db.deliveries[d], since) ==> since == DueAt(db.deliveries[d])
  {
    hide UniqueEvents, UniqueDeliveries, UniqueAttempts, EventChecks, AttemptChecks;
    if d in db.deliveries {
      assert DeliveryChecks(db.deliveries[d]);
      if d in Claimable(db, t, locked) {
        assert DueSince(db.deliveries[d], DueAt(db.deliveries[d]));
      }
    }
  }

  /** The claim query selects exactly the row that has been due longest. */
  lemma SelectedIsDueLongest(db: DB, t: Time, locked: set<Id>, d: Id)
    requires Constraints(db)
    ensures Selected(db, t, locked, d) <==> DueLongest(db, t, locked, d)
    ensures Claimable(db, t, locked) == {} <==> NothingMayBeTaken(db, t, locked)
  {
    hide Constraints, Claimable, DueSince, DueAt, MayBeTaken;
    forall x
      ensures x in Claimable(db, t, locked) <==> MayBeTaken(db, t, locked, x)
      ensures x in Claimable(db, t, locked) ==>
                x in db.deliveries && DueSince(db.deliveries[x], DueAt(db.deliveries[x]))
      ensures x in db.deliveries ==>
                forall since :: DueSince(db.deliveries[x], since) ==> since == DueAt(db.deliveries[x])
    {
      ClaimableIsRow(db, t, locked, x);
      ClaimableOnColumns(db, t, locked, x);
    }
    DueInTime(db, t, locked);
  }

  lemma ClaimableIsRow(db: DB, t: Time, locked: set<Id>, d: Id)
    ensures d in Claimable(db, t, locked) ==> d in db.deliveries
  {
  }

  lemma DueInTime(db: DB, t: Time, locked: set<Id>)
    requires Constraints(db)
    ensures forall x | x in Claimable(db, t, locked) ::
              x in db.deliveries && x !in locked && DueAt(db.deliveries[x]) <= t
    ensures forall x, since | x in db.deliveries && x !in locked && since <= t
                              && DueSince(db.deliveries[x], since) :: MayBeTaken(db, t, locked, x)
  {
    hide UniqueEvents, UniqueDeliveries, UniqueAttempts, EventChecks, AttemptChecks, ForeignKeys;
    assert forall x | x in db.deliveries :: DeliveryChecks(db.deliveries[x]);
  }

  // ----- what becomes of it -----

  /** The text that tells why a claim resolved the delivery instead of reserving an attempt, or why it
      expired the attempt before. */
  function ReasonText(leased: bool, enabled: bool, spent: bool): string {
    match (leased, enabled, spent)
    case (true, false, _) => "endpoint disabled while the worker lease was outstanding"
    case (true, true, true) => "worker lease expired and the maximum attempt count was exhausted"
    case (true, true, false) =>
      "worker lease expired before its outcome was committed; redelivery reserved"
    case (false, false, true) =>
      "endpoint is disabled and the maximum attempt count is already exhausted"
    case (false, false, false) => "endpoint is disabled before the delivery can be claimed"
    case (false, true, _) => "maximum attempt count is already exhausted before claim"
  }

  /** The column holds the first n characters of the text, or all of a shorter one. */
  predicate IsStart(column: Option<string>, text: string, n: nat) {
    && column.Some? && column.value <= text
    && |column.value| == if |text| < n then |text| else n
  }

  /** The delivery after a claim: leased from the claim's clock reading for the lease time, or dead. */
  predicate RowClaimed(s: Settings, row: Delivery, row': Delivery, enabled: bool, r: Reservation) {
    var leased, spent := row.status == InProgress, row.attemptCount >= s.policy.maxAttempts;
    && SamePlace(row, row') && row'.createdAt == row.createdAt
    && row'.deliveredAt == row.deliveredAt && row'.updatedAt == r.now && row'.nextAttemptAt.None?
    && if enabled && !spent then
         && row'.status == InProgress && row'.attemptCount == row.attemptCount + 1
         && row'.leaseToken == Some(r.token) && row'.leaseExpiresAt == Some(r.now + s.leaseSeconds)
         && IsStart(row'.leaseOwner, r.workerId, 160)
         && (if leased then IsStart(row'.lastError, "lease_expired: " + ReasonText(true, true, false),
                                    2048)
             else row'.lastError == row.lastError)
       else
         && row'.status == DeadLettered && row'.attemptCount == row.attemptCount
         && row'.leaseToken.None? && row'.leaseExpiresAt.None? && row'.leaseOwner.None?
         && IsStart(row'.lastError,
                    if leased then "lease_expired: " + ReasonText(true, enabled, spent)
                    else ReasonText(false, enabled, spent), 2048)
  }

  /** The attempt whose lease expired. */
  predicate AttemptExpired(x: Attempt, x': Attempt, reason: string, now: Time) {
    && x'.status == Indeterminate && x'.errorType == Some("lease_expired")
    && IsStart(x'.errorMessage, reason + "; the endpoint may have received the request", 2048)
    && x'.resolvedAt == Some(now)
    && x'.(status := x.status, errorType := x.errorType, errorMessage := x.errorMessage,
           resolvedAt := x.resolvedAt) == x
  }

  lemma SameTexts(enabled: bool, spent: bool)
    ensures ExpiryReason(enabled, spent) == ReasonText(true, enabled, spent)
    ensures UnclaimableDueReason(enabled, spent)
            == if enabled && !spent then None else Some(ReasonText(false, enabled, spent))
  {
  }

  lemma TruncateIsStart(text: string, n: nat)
    ensures IsStart(Some(Truncate(text, n)), text, n)
  {
  }

  /** A claim writes the delivery's row and the evidence of its last lease, if it had one, exactly as
      the columns say, and reserves an attempt exactly when it leases the row again. Every other row
      stays. The claimed row may be taken again from the end of the new lease on, not before. */
  lemma ClaimWritesTheRow(s: Settings, db: DB, d: Id, r: Reservation, t: Time, locked: set<Id>)
    requires s.Valid() && Inv(s, db) && Selected(db, t, locked, d) && FreshReservation(db, r)
    ensures var (db', outcome) := ClaimTx(s, db, d, r);
            var row, enabled := db.deliveries[d], db.endpoints[db.deliveries[d].endpointId].enabled;
            var leased, spent := row.status == InProgress, row.attemptCount >= s.policy.maxAttempts;
            && db'.endpoints == db.endpoints && db'.events == db.events
            && d in db'.deliveries && db'.deliveries == db.deliveries[d := db'.deliveries[d]]
            && RowClaimed(s, row, db'.deliveries[d], enabled, r)
            && (outcome.Claimed? <==> enabled && !spent)
            && (!outcome.Claimed? ==> outcome == Resolved(d, ReasonText(leased, enabled, spent)))
            && (outcome.Claimed? ==>
                  forall since :: DueSince(db'.deliveries[d], since)
                                  <==> since == r.now + s.leaseSeconds)
            && (forall a | a in db.attempts ::
                  && a in db'.attempts
                  && if db.attempts[a].deliveryId == d && db.attempts[a].status == Reserved
                     then AttemptExpired(db.attempts[a], db'.attempts[a],
                                         ReasonText(true, enabled, spent), r.now)
                     else db'.attempts[a] == db.attempts[a])
            && (forall a | a in db'.attempts && a !in db.attempts ::
                  outcome.Claimed? && a == r.attemptId
                  && NewlyReserved(db'.attempts[a], d, row.attemptCount + 1, r))
            && (outcome.Claimed? ==> r.attemptId in db'.attempts && r.attemptId !in db.attempts)
  {
    hide Inv, Constraints, LedgerOf, RowChecks, UniqueAttempts, Truncate, FreshReservation,
         ReasonText, ExpiryReason, UnclaimableDueReason, ReclaimWith, FreshClaimTx, RowClaimed;
    RowFacts(s, db, d);
    if db.deliveries[d].status == InProgress {
      ReservedIsEvidence(s, db, d);
      var e := EvidenceExists(s, db, d);
      assert ReclaimTx(s, db, d, r) == ReclaimWith(s, db, d, e, r);
      ReclaimWrites(s, db, d, e, r, t, locked);
    } else {
      FreshClaimWrites(s, db, d, r, t, locked);
      NoneReserved(s, db, d);
    }
    LeasedUntil(s, db.deliveries[d], ClaimTx(s, db, d, r).0.deliveries[d],
                db.endpoints[db.deliveries[d].endpointId].enabled, r);
  }

  lemma LeasedUntil(s: Settings, row: Delivery, row': Delivery, enabled: bool, r: Reservation)
    requires RowClaimed(s, row, row', enabled, r)
    ensures row'.status == InProgress ==>
              forall since :: DueSince(row', since) <==> since == r.now + s.leaseSeconds
    ensures row'.status == InProgress <==> enabled && row.attemptCount < s.policy.maxAttempts
  {
    hide ReasonText;
  }

  lemma FreshClaimWrites(
    s: Settings, db: DB, d: Id, r: Reservation, t: Time, locked: set<Id>)
    requires s.Valid() && Inv(s, db) && Selected(db, t, locked, d) && FreshReservation(db, r)
    requires db.deliveries[d].status != InProgress
    ensures db.deliveries[d].eventId in db.events
    ensures var (db', outcome) := ClaimTx(s, db, d, r);
            var row, enabled := db.deliveries[d], db.endpoints[db.deliveries[d].endpointId].enabled;
            var spent := row.attemptCount >= s.policy.maxAttempts;
            && db'.endpoints == db.endpoints && db'.events == db.events
            && d in db'.deliveries && db'.deliveries == db.deliveries[d := db'.deliveries[d]]
            && RowClaimed(s, row, db'.deliveries[d], enabled, r)
            && (outcome.Claimed? <==> enabled && !spent)
            && (!outcome.Claimed? ==> outcome == Resolved(d, ReasonText(false, enabled, spent)))
            && (outcome.Claimed? <==> r.attemptId in db'.attempts)
            && db'.attempts == (if outcome.Claimed?
                                then db.attempts[r.attemptId := db'.attempts[r.attemptId]]
                                else db.attempts)
            && (outcome.Claimed? ==>
                  r.attemptId !in db.attempts
                  && NewlyReserved(db'.attempts[r.attemptId], d, row.attemptCount + 1, r))
  {
    hide Inv, Constraints, LedgerOf, RowChecks, UniqueAttempts, Truncate, FreshReservation,
         ReasonText, UnclaimableDueReason, IsStart;
    ClaimKeepsInv(s, db, d, r, t, locked);
    RowFacts(s, db, d);
    TruncateIsStart(r.workerId, 160);
    IsFresh(db, r);
    var enabled, spent := db.endpoints[db.deliveries[d].endpointId].enabled,
                          db.deliveries[d].attemptCount >= s.policy.maxAttempts;
    SameTexts(enabled, spent);
    TruncateIsStart(ReasonText(false, enabled, spent), 2048);
  }

  lemma ReclaimWrites(
    s: Settings, db: DB, d: Id, e: Id, r: Reservation, t: Time, locked: set<Id>)
    requires s.Valid() && Inv(s, db) && Selected(db, t, locked, d) && FreshReservation(db, r)
    requires db.deliveries[d].status == InProgress && e in db.attempts
    requires ClaimTx(s, db, d, r) == ReclaimWith(s, db, d, e, r)
    ensures var (db', outcome) := ClaimTx(s, db, d, r);
            var row, enabled := db.deliveries[d], db.endpoints[db.deliveries[d].endpointId].enabled;
            var spent := row.attemptCount >= s.policy.maxAttempts;
            && db'.endpoints == db.endpoints && db'.events == db.events
            && d in db'.deliveries && db'.deliveries == db.deliveries[d := db'.deliveries[d]]
            && RowClaimed(s, row, db'.deliveries[d], enabled, r)
            && (outcome.Claimed? <==> enabled && !spent)
            && (!outcome.Claimed? ==> outcome == Resolved(d, ReasonText(true, enabled, spent)))
            && e in db'.attempts
            && AttemptExpired(db.attempts[e], db'.attempts[e], ReasonText(true, enabled, spent), r.now)
            && (outcome.Claimed? <==> r.attemptId in db'.attempts)
            && db'.attempts == (if outcome.Claimed?
                                then db.attempts[e := db'.attempts[e]]
                                                [r.attemptId := db'.attempts[r.attemptId]]
                                else db.attempts[e := db'.attempts[e]])
            && (outcome.Claimed? ==>
                  r.attemptId !in db.attempts
                  && NewlyReserved(db'.attempts[r.attemptId], d, row.attemptCount + 1, r))
  {
    hide Inv, Constraints, LedgerOf, RowChecks, UniqueAttempts, Truncate, FreshReservation,
         ReasonText, ExpiryReason, IsStart;
    ClaimKeepsInv(s, db, d, r, t, locked);
    RowFacts(s, db, d);
    TruncateIsStart(r.workerId, 160);
    IsFresh(db, r);
    var enabled, spent := db.endpoints[db.deliveries[d].endpointId].enabled,
                          db.deliveries[d].attemptCount >= s.policy.maxAttempts;
    SameTexts(enabled, spent);
    var reason := ReasonText(true, enabled, spent);
    TruncateIsStart("lease_expired: " + reason, 2048);
    TruncateIsStart(reason + "; the endpoint may have received the request", 2048);
  }

  predicate NewlyReserved(x: Attempt, d: Id, number: int, r: Reservation) {
    && x.deliveryId == d && x.number == number && x.status == Reserved && x.leaseToken == r.token
    && x.createdAt == r.now && NoEvidence(x) && x.errorType.None? && x.errorMessage.None?
    && x.resolvedAt.None?
  }

  lemma IsFresh(db: DB, r: Reservation)
    requires FreshReservation(db, r)
    ensures r.attemptId !in db.attempts
  {
  }

  lemma ReservedIsEvidence(s: Settings, db: DB, d: Id)
    requires Inv(s, db) && d in db.deliveries && db.deliveries[d].status == InProgress
    ensures forall a | a in db.attempts && db.attempts[a].deliveryId == d ::
              db.attempts[a].status == Reserved <==> IsEvidence(db, d, a)
  {
    hide Inv, LedgerOf, RowChecks, UniqueAttempts;
    forall a | a in db.attempts && db.attempts[a].deliveryId == d
      ensures db.attempts[a].status == Reserved <==> IsEvidence(db, d, a)
    {
      AttemptFacts(s, db, a);
    }
  }

  lemma NoneReserved(s: Settings, db: DB, d: Id)
    requires Inv(s, db) && d in db.deliveries && db.deliveries[d].status != InProgress
    ensures forall a | a in db.attempts && db.attempts[a].deliveryId == d ::
              db.attempts[a].status != Reserved
  {
    hide Inv, LedgerOf, RowChecks, UniqueAttempts;
    forall a | a in db.attempts && db.attempts[a].deliveryId == d
      ensures db.attempts[a].status != Reserved
    {
      AttemptFacts(s, db, a);
    }
  }
}
