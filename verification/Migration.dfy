/** Revision 20260823_0003, which turns completed-only attempt rows into the claim ledger
    (backend/alembic/versions/20260823_0003_durable_attempt_ledger.py). */
module Migration {
  import opened Schema
  import opened Transactions
  import opened Invariants

  /** A row of delivery_attempts while its columns are nullable. Before the revision the columns
      `status`, `leaseToken` and `resolvedAt` do not exist. */
  datatype Row = Row(
    deliveryId: Id, number: int, status: Option<AttemptStatus>, leaseToken: Option<Id>,
    disposition: Option<Disposition>, httpStatus: Option<int>,
    errorType: Option<string>, errorMessage: Option<string>, excerpt: Option<Excerpt>,
    durationMs: Option<int>, requestTimestamp: Option<int>, retryScheduledFor: Option<Time>,
    startedAt: Option<Time>, finishedAt: Option<Time>, resolvedAt: Option<Time>, createdAt: Time)

  // ----- the schema before -----

  predicate OldDelivery(d: Delivery) {
    && d.attemptCount >= 0
    && d.leaseOwner.None? == d.leaseExpiresAt.None? && d.leaseOwner.None? == d.leaseToken.None?
    && (d.status == Delivered ==> d.deliveredAt.Some?)
  }

  predicate OldRow(x: Row) {
    && x.status.None? && x.leaseToken.None? && x.resolvedAt.None?
    && x.number >= 1 && x.disposition.Some?
    && x.durationMs.Some? && x.durationMs.value >= 0
    && x.requestTimestamp.Some? && x.requestTimestamp.value >= 0
    && x.startedAt.Some? && x.finishedAt.Some? && x.startedAt.value <= x.finishedAt.value
    && (x.httpStatus.Some? ==> 100 <= x.httpStatus.value <= 599)
  }

  predicate UniqueNumbers(rows: map<Id, Row>) {
    forall a, b | a in rows && b in rows && a != b ::
      !(rows[a].deliveryId == rows[b].deliveryId && rows[a].number == rows[b].number)
  }

  predicate OldSchema(deliveries: map<Id, Delivery>, rows: map<Id, Row>) {
    && (forall d | d in deliveries :: OldDelivery(deliveries[d]))
    && (forall a | a in rows :: OldRow(rows[a]) && rows[a].deliveryId in deliveries)
    && UniqueNumbers(rows)
  }

  // ----- the schema after -----

  predicate NotNull(rows: map<Id, Row>) {
    forall a | a in rows :: rows[a].status.Some? && rows[a].leaseToken.Some?
  }

  function ToAttempt(x: Row): Attempt
    requires x.status.Some? && x.leaseToken.Some?
  {
    Attempt(x.deliveryId, x.number, x.status.value, x.leaseToken.value, x.disposition,
            x.httpStatus, x.errorType, x.errorMessage, x.excerpt, x.durationMs, x.requestTimestamp,
            x.retryScheduledFor, x.startedAt, x.finishedAt, x.resolvedAt, x.createdAt)
  }

  function AttemptsOf(rows: map<Id, Row>): map<Id, Attempt>
    requires NotNull(rows)
  {
    map a | a in rows :: ToAttempt(rows[a])
  }

  /** `ck_deliveries_lease_matches_status`, which no earlier revision checked. */
  predicate LeasesMatch(deliveries: map<Id, Delivery>) {
    forall d | d in deliveries ::
      (deliveries[d].status == InProgress) == deliveries[d].leaseOwner.Some?
  }

  /** All constraints of the revised schema on these two tables. */
  predicate NewSchema(deliveries: map<Id, Delivery>, rows: map<Id, Row>) {
    && NotNull(rows) && UniqueAttempts(AttemptsOf(rows)) && LeasesMatch(deliveries)
    && (forall a | a in rows :: AttemptChecks(ToAttempt(rows[a])))
    && (forall a | a in rows :: rows[a].deliveryId in deliveries)
  }

  // ----- the revision -----

  /** A row written before the revision: it was completed, its own id stands for the lease token that
      was not kept, and it was resolved when it was created. */
  function Historical(id: Id, x: Row): Row {
    x.(status := Some(Completed), leaseToken := Some(id), resolvedAt := Some(x.createdAt))
  }

  predicate HasRow(rows: map<Id, Row>, d: Id, n: int) {
    exists a :: a in rows && rows[a].deliveryId == d && rows[a].number == n
  }

  /** A lease outstanding during deployment whose attempt has no row yet. */
  predicate LacksEvidence(deliveries: map<Id, Delivery>, rows: map<Id, Row>, d: Id) {
    && d in deliveries && deliveries[d].status == InProgress && deliveries[d].leaseToken.Some?
    && !HasRow(rows, d, deliveries[d].attemptCount)
  }

  function Lacking(deliveries: map<Id, Delivery>, rows: map<Id, Row>): (r: set<Id>)
    ensures forall d :: d in r <==> LacksEvidence(deliveries, rows, d)
  {
    set d | d in deliveries && LacksEvidence(deliveries, rows, d)
  }

  function ReservedRow(d: Id, row: Delivery): Row {
    Row(d, row.attemptCount, Some(Reserved), row.leaseToken, None, None, None, None, None, None,
        None, None, None, None, None, row.updatedAt)
  }

  /** The rows the INSERT may add: their ids are lease tokens, so those must be new and distinct,
      and their attempt numbers positive. */
  predicate CanInsert(deliveries: map<Id, Delivery>, rows: map<Id, Row>) {
    var lacking := Lacking(deliveries, rows);
    && (forall d | d in lacking ::
          deliveries[d].attemptCount >= 1 && deliveries[d].leaseToken.value !in rows)
    && (forall d1, d2 | d1 in lacking && d2 in lacking && d1 != d2 ::
          deliveries[d1].leaseToken != deliveries[d2].leaseToken)
  }

  function Inserted(deliveries: map<Id, Delivery>, rows: map<Id, Row>): map<Id, Row>
    requires CanInsert(deliveries, rows)
  {
    map d | d in Lacking(deliveries, rows) ::
      deliveries[d].leaseToken.value := ReservedRow(d, deliveries[d])
  }

  function AllHistorical(rows: map<Id, Row>): map<Id, Row> {
    map a | a in rows :: Historical(a, rows[a])
  }

  function Upgraded(deliveries: map<Id, Delivery>, rows: map<Id, Row>): map<Id, Row>
    requires CanInsert(deliveries, AllHistorical(rows))
  {
    AllHistorical(rows) + Inserted(deliveries, AllHistorical(rows))
  }

  /** The completed rows, without the three columns. */
  function Downgraded(rows: map<Id, Row>): map<Id, Row> {
    map a | a in rows && rows[a].status == Some(Completed) ::
      rows[a].(status := None, leaseToken := None, resolvedAt := None)
  }

  /** The two tables; each revision is one transaction that updates them in place. */
  class AttemptTables {
    var deliveries: map<Id, Delivery>
    var rows: map<Id, Row>

    /** The UPDATE and the INSERT change the rows step by step; a violated constraint rolls back.
        Only the check on deliveries and the inserted keys can be violated. */
    method Upgrade() returns (ok: bool)
      requires OldSchema(deliveries, rows)
      modifies this`rows
      ensures ok <==> CanInsert(deliveries, old(rows)) && LeasesMatch(deliveries)
      ensures ok ==> NewSchema(deliveries, rows) && CanInsert(deliveries, AllHistorical(old(rows)))
                     && rows == Upgraded(deliveries, old(rows))
      ensures !ok ==> rows == old(rows)
    {
      hide AttemptChecks, UniqueAttempts, OldSchema, CanInsert, Inserted, Historical, ToAttempt;
      ghost var before := rows;
      var saved := rows;
      SameKeysInsertAlike(deliveries, rows);
      hide LacksEvidence;
      rows := map a | a in rows :: Historical(a, rows[a]);
      if !CanInsert(deliveries, rows) {
        rows := saved;
        return false;
      }
      rows := rows + Inserted(deliveries, rows);
      UpgradeFits(deliveries, before);
      ok := NotNull(rows) && UniqueAttempts(AttemptsOf(rows)) && LeasesMatch(deliveries)
            && forall a | a in rows :: AttemptChecks(ToAttempt(rows[a]));
      if !ok {
        rows := saved;
      }
    }

    method Downgrade() returns (ok: bool)
      requires NewSchema(deliveries, rows)
      requires forall d | d in deliveries :: OldDelivery(deliveries[d])
      modifies this`rows
      ensures ok && OldSchema(deliveries, rows) && rows == Downgraded(old(rows))
    {
      DowngradeFits(deliveries, rows);
      rows := map a | a in rows && rows[a].status == Some(Completed) :: rows[a];
      rows := map a | a in rows :: rows[a].(status := None, leaseToken := None, resolvedAt := None);
      ok := forall a | a in rows ::
              rows[a].disposition.Some? && rows[a].durationMs.Some?
              && rows[a].requestTimestamp.Some? && rows[a].startedAt.Some?
              && rows[a].finishedAt.Some?;
    }
  }

  // ----- what the revision keeps -----

  lemma SameRows(rows: map<Id, Row>, d: Id, n: int)
    ensures HasRow(AllHistorical(rows), d, n) <==> HasRow(rows, d, n)
  {
    var after := AllHistorical(rows);
    if HasRow(rows, d, n) {
      var a :| a in rows && rows[a].deliveryId == d && rows[a].number == n;
      assert a in after && after[a].deliveryId == d && after[a].number == n;
    }
  }

  lemma SameKeysInsertAlike(deliveries: map<Id, Delivery>, rows: map<Id, Row>)
    ensures forall d :: LacksEvidence(deliveries, AllHistorical(rows), d)
                        <==> LacksEvidence(deliveries, rows, d)
    ensures CanInsert(deliveries, AllHistorical(rows)) <==> CanInsert(deliveries, rows)
  {
    hide HasRow;
    forall d ensures LacksEvidence(deliveries, AllHistorical(rows), d)
                     <==> LacksEvidence(deliveries, rows, d) {
      if d in deliveries { SameRows(rows, d, deliveries[d].attemptCount); }
    }
    assert Lacking(deliveries, AllHistorical(rows)) == Lacking(deliveries, rows);
  }

  lemma InsertedRow(deliveries: map<Id, Delivery>, rows: map<Id, Row>, a: Id) returns (d: Id)
    requires CanInsert(deliveries, rows) && a in Inserted(deliveries, rows)
    ensures LacksEvidence(deliveries, rows, d) && deliveries[d].attemptCount >= 1
    ensures deliveries[d].leaseToken == Some(a) && a !in rows
    ensures Inserted(deliveries, rows)[a] == ReservedRow(d, deliveries[d])
  {
    hide HasRow;
    d :| d in Lacking(deliveries, rows) && deliveries[d].leaseToken.value == a;
  }

  /** A row after the upgrade is an old one made historical, or the reserved row of one lease that
      lacked its evidence. */
  lemma NewRow(deliveries: map<Id, Delivery>, rows: map<Id, Row>, a: Id) returns (d: Id)
    requires CanInsert(deliveries, AllHistorical(rows)) && a in Upgraded(deliveries, rows)
    ensures a in rows ==> Upgraded(deliveries, rows)[a] == Historical(a, rows[a])
    ensures a !in rows ==>
              && LacksEvidence(deliveries, rows, d) && deliveries[d].attemptCount >= 1
              && deliveries[d].leaseToken == Some(a)
              && Upgraded(deliveries, rows)[a] == ReservedRow(d, deliveries[d])
  {
    hide LacksEvidence, Inserted, CanInsert, Historical;
    SameKeysInsertAlike(deliveries, rows);
    d := 0;
    if a in Inserted(deliveries, AllHistorical(rows)) {
      d := InsertedRow(deliveries, AllHistorical(rows), a);
    }
  }

  lemma LackingFacts(deliveries: map<Id, Delivery>, rows: map<Id, Row>, d: Id)
    requires LacksEvidence(deliveries, rows, d)
    ensures d in deliveries && deliveries[d].status == InProgress && deliveries[d].leaseToken.Some?
    ensures forall a | a in rows && rows[a].deliveryId == d ::
              rows[a].number != deliveries[d].attemptCount
  {
  }

  lemma NewRowsDoNotClash(
    deliveries: map<Id, Delivery>, rows: map<Id, Row>, a: Id, b: Id)
    requires OldSchema(deliveries, rows) && CanInsert(deliveries, AllHistorical(rows))
    requires a in Upgraded(deliveries, rows) && b in Upgraded(deliveries, rows) && a != b
    requires NotNull(Upgraded(deliveries, rows))
    ensures !AttemptsClash(ToAttempt(Upgraded(deliveries, rows)[a]),
                           ToAttempt(Upgraded(deliveries, rows)[b]))
  {
    hide Upgraded, LacksEvidence, OldRow, OldDelivery, CanInsert;
    var d1 := NewRow(deliveries, rows, a);
    var d2 := NewRow(deliveries, rows, b);
    if a !in rows { LackingFacts(deliveries, rows, d1); }
    if b !in rows { LackingFacts(deliveries, rows, d2); }
  }

  /** The upgraded rows satisfy every constraint of the revised schema: the lifecycle check, both
      unique constraints and the partial unique index. */
  lemma UpgradeFits(deliveries: map<Id, Delivery>, rows: map<Id, Row>)
    requires OldSchema(deliveries, rows) && CanInsert(deliveries, AllHistorical(rows))
    ensures var after := Upgraded(deliveries, rows);
            && NotNull(after) && UniqueAttempts(AttemptsOf(after))
            && (forall a | a in after :: AttemptChecks(ToAttempt(after[a])))
            && (forall a | a in after :: after[a].deliveryId in deliveries)
  {
    hide Upgraded, LacksEvidence, OldDelivery, CanInsert, AttemptsClash, UniqueNumbers;
    var after := Upgraded(deliveries, rows);
    forall a | a in after
      ensures after[a].status.Some? && after[a].leaseToken.Some?
              && AttemptChecks(ToAttempt(after[a])) && after[a].deliveryId in deliveries
    {
      var d := NewRow(deliveries, rows, a);
      if a !in rows { LackingFacts(deliveries, rows, d); }
    }
    forall a, b | a in after && b in after && a != b
      ensures !AttemptsClash(AttemptsOf(after)[a], AttemptsOf(after)[b])
    {
      NewRowsDoNotClash(deliveries, rows, a, b);
    }
  }

  lemma DowngradeFits(deliveries: map<Id, Delivery>, rows: map<Id, Row>)
    requires NewSchema(deliveries, rows) && forall d | d in deliveries :: OldDelivery(deliveries[d])
    ensures OldSchema(deliveries, Downgraded(rows))
  {
    hide OldDelivery;
    var after := Downgraded(rows);
    forall a, b | a in after && b in after && a != b
      ensures !(after[a].deliveryId == after[b].deliveryId && after[a].number == after[b].number)
    {
      assert !AttemptsClash(AttemptsOf(rows)[a], AttemptsOf(rows)[b]);
    }
    forall a | a in after ensures OldRow(after[a]) && after[a].deliveryId in deliveries {
      assert AttemptChecks(ToAttempt(rows[a]));
    }
  }

  /** The upgraded rows, column by column: a historical row keeps everything, counts as completed, was
      resolved when it was created, and has its own id for a token. Besides there is one reserved row
      for each live lease whose attempt number had none, and it carries that lease. */
  lemma UpgradedColumns(deliveries: map<Id, Delivery>, rows: map<Id, Row>)
    requires OldSchema(deliveries, rows) && CanInsert(deliveries, AllHistorical(rows))
    ensures var after := Upgraded(deliveries, rows);
            && (forall a | a in rows ::
                  && a in after && after[a].status == Some(Completed)
                  && after[a].leaseToken == Some(a) && after[a].resolvedAt == Some(rows[a].createdAt)
                  && after[a].(status := None, leaseToken := None, resolvedAt := None) == rows[a])
            && (forall a | a in after && a !in rows ::
                  exists d :: d in deliveries && IsReservedFor(after[a], a, d, deliveries[d])
                              && deliveries[d].status == InProgress
                              && forall b | b in rows && rows[b].deliveryId == d ::
                                   rows[b].number != deliveries[d].attemptCount)
  {
    hide Upgraded, LacksEvidence, CanInsert, Historical, ReservedRow, IsReservedFor;
    var after := Upgraded(deliveries, rows);
    OldRowsRemain(deliveries, rows);
    forall a | a in rows
      ensures a in after && after[a] == Historical(a, rows[a]) && OldRow(rows[a])
    {
      var d := NewRow(deliveries, rows, a);
    }
    forall a | a in rows { HistoricalColumns(a, rows[a]); }
    forall a | a in after && a !in rows
      ensures exists d :: d in deliveries && IsReservedFor(after[a], a, d, deliveries[d])
                          && deliveries[d].status == InProgress
                          && forall b | b in rows && rows[b].deliveryId == d ::
                               rows[b].number != deliveries[d].attemptCount
    {
      var d := NewRow(deliveries, rows, a);
      LackingFacts(deliveries, rows, d);
      ReservedColumns(a, d, deliveries[d]);
    }
  }

  lemma HistoricalColumns(a: Id, x: Row)
    ensures var y := Historical(a, x);
            && y.status == Some(Completed) && y.leaseToken == Some(a)
            && y.resolvedAt == Some(x.createdAt)
            && (x.status.None? && x.leaseToken.None? && x.resolvedAt.None? ==>
                  y.(status := None, leaseToken := None, resolvedAt := None) == x)
  {
  }

  predicate IsReservedFor(x: Row, a: Id, d: Id, row: Delivery) {
    && x.deliveryId == d && x.number == row.attemptCount && x.status == Some(Reserved)
    && x.leaseToken == row.leaseToken == Some(a) && x.createdAt == row.updatedAt
    && x.disposition.None? && x.httpStatus.None? && x.errorType.None? && x.errorMessage.None?
    && x.excerpt.None? && x.durationMs.None? && x.requestTimestamp.None?
    && x.retryScheduledFor.None? && x.startedAt.None? && x.finishedAt.None? && x.resolvedAt.None?
  }

  lemma ReservedColumns(a: Id, d: Id, row: Delivery)
    requires row.leaseToken == Some(a)
    ensures IsReservedFor(ReservedRow(d, row), a, d, row)
  {
  }

  /** Downgrading after an upgrade restores the attempt table exactly; no delivery is written. */
  lemma DowngradeRestores(deliveries: map<Id, Delivery>, rows: map<Id, Row>)
    requires OldSchema(deliveries, rows) && CanInsert(deliveries, AllHistorical(rows))
    ensures Downgraded(Upgraded(deliveries, rows)) == rows
  {
    hide Upgraded, LacksEvidence, OldDelivery, CanInsert, UniqueNumbers;
    var after := Upgraded(deliveries, rows);
    forall a | a in after
      ensures a in rows <==> after[a].status == Some(Completed)
      ensures a in rows ==> after[a] == Historical(a, rows[a])
    {
      var d := NewRow(deliveries, rows, a);
    }
    OldRowsRemain(deliveries, rows);
    assert forall a | a in rows :: OldRow(rows[a]);
  }

  lemma OldRowsRemain(deliveries: map<Id, Delivery>, rows: map<Id, Row>)
    requires CanInsert(deliveries, AllHistorical(rows))
    ensures forall a | a in rows :: a in Upgraded(deliveries, rows)
    ensures forall d | LacksEvidence(deliveries, rows, d) ::
              deliveries[d].leaseToken.value in Upgraded(deliveries, rows)
              && deliveries[d].leaseToken.value !in rows
  {
    SameKeysInsertAlike(deliveries, rows);
    hide HasRow;
    forall d | LacksEvidence(deliveries, rows, d)
      ensures deliveries[d].leaseToken.value in Upgraded(deliveries, rows)
      ensures deliveries[d].leaseToken.value !in rows
    {
      assert LacksEvidence(deliveries, AllHistorical(rows), d);
      assert d in Lacking(deliveries, AllHistorical(rows));
      assert deliveries[d].leaseToken.value in Inserted(deliveries, AllHistorical(rows));
    }
  }

  /** The database with the upgraded tables. */
  function UpgradedDB(db: DB, rows: map<Id, Row>): DB
    requires OldSchema(db.deliveries, rows) && CanInsert(db.deliveries, AllHistorical(rows))
  {
    UpgradeFits(db.deliveries, rows);
    db.(attempts := AttemptsOf(Upgraded(db.deliveries, rows)))
  }

  /** A lease that is live during the deployment ends up with exactly one matching reserved attempt
      if and only if its current attempt number had no row yet. */
  lemma LiveLeaseIsCovered(db: DB, rows: map<Id, Row>, d: Id)
    requires OldSchema(db.deliveries, rows) && CanInsert(db.deliveries, AllHistorical(rows))
    requires LeasesMatch(db.deliveries)
    requires d in db.deliveries && db.deliveries[d].status == InProgress
    ensures (exists a :: IsEvidence(UpgradedDB(db, rows), d, a))
            <==> !HasRow(rows, d, db.deliveries[d].attemptCount)
    ensures forall a, b | IsEvidence(UpgradedDB(db, rows), d, a)
                          && IsEvidence(UpgradedDB(db, rows), d, b) :: a == b
  {
    hide Upgraded, CanInsert, AttemptChecks, OldRow, UniqueNumbers, HasRow;
    var deliveries, after := db.deliveries, UpgradedDB(db, rows);
    assert OldDelivery(deliveries[d]) && deliveries[d].leaseToken.Some?;
    UpgradeFits(deliveries, rows);
    OldRowsRemain(deliveries, rows);
    forall a: Id | IsEvidence(after, d, a)
      ensures !HasRow(rows, d, deliveries[d].attemptCount)
      ensures deliveries[d].leaseToken == Some(a)
    {
      var x := NewRow(deliveries, rows, a);
    }
    if !HasRow(rows, d, deliveries[d].attemptCount) {
      assert LacksEvidence(deliveries, rows, d);
      var a := deliveries[d].leaseToken.value;
      var x := NewRow(deliveries, rows, a);
      assert AttemptsOf(Upgraded(deliveries, rows))[a].leaseToken == a;
      assert AttemptsOf(Upgraded(deliveries, rows))[a].status == Reserved;
      SameToken(deliveries, rows, d, x);
      assert IsEvidence(after, d, a);
    }
  }

  /** Leases without evidence never share a token. */
  lemma SameToken(deliveries: map<Id, Delivery>, rows: map<Id, Row>, d1: Id, d2: Id)
    requires CanInsert(deliveries, AllHistorical(rows))
    requires LacksEvidence(deliveries, rows, d1) && LacksEvidence(deliveries, rows, d2)
    requires deliveries[d1].leaseToken == deliveries[d2].leaseToken
    ensures d1 == d2
  {
    SameKeysInsertAlike(deliveries, rows);
    hide HasRow, LacksEvidence;
    assert d1 in Lacking(deliveries, AllHistorical(rows));
    assert d2 in Lacking(deliveries, AllHistorical(rows));
  }

  /** Which attempt numbers the new ledger has: the old ones, and the current number of a live lease.
      Numbers lost to a crash before the deployment stay missing. */
  lemma LedgerNumbersAfterUpgrade(db: DB, rows: map<Id, Row>, d: Id, n: int)
    requires OldSchema(db.deliveries, rows) && CanInsert(db.deliveries, AllHistorical(rows))
    requires LeasesMatch(db.deliveries) && d in db.deliveries
    ensures HasNumber(UpgradedDB(db, rows).attempts, d, n)
            <==> HasRow(rows, d, n)
                 || (db.deliveries[d].status == InProgress && n == db.deliveries[d].attemptCount)
  {
    hide Upgraded, CanInsert, AttemptChecks, OldRow, UniqueNumbers;
    var deliveries, after := db.deliveries, UpgradedDB(db, rows).attempts;
    OldRowsRemain(deliveries, rows);
    if HasNumber(after, d, n) {
      var a :| a in after && after[a].deliveryId == d && after[a].number == n;
      var x := NewRow(deliveries, rows, a);
      if a !in rows { LackingFacts(deliveries, rows, x); }
    }
    if a :| a in rows && rows[a].deliveryId == d && rows[a].number == n {
      var x := NewRow(deliveries, rows, a);
      assert after[a].deliveryId == d && after[a].number == n;
    } else if deliveries[d].status == InProgress && n == deliveries[d].attemptCount {
      assert OldDelivery(deliveries[d]) && deliveries[d].leaseToken.Some?;
      assert LacksEvidence(deliveries, rows, d);
      var a := deliveries[d].leaseToken.value;
      var x := NewRow(deliveries, rows, a);
      SameToken(deliveries, rows, d, x);
      assert after[a].deliveryId == d && after[a].number == n;
    }
  }

  /** The attempts of delivery d are numbered exactly 1..attempt_count. */
  ghost predicate CompleteLedger(db: DB, d: Id)
    requires d in db.deliveries
  {
    forall n :: HasNumber(db.attempts, d, n) <==> 1 <= n <= db.deliveries[d].attemptCount
  }

  /** A number the ledger should have is missing before the upgrade. */
  predicate Missing(db: DB, rows: map<Id, Row>, d: Id, n: int)
    requires d in db.deliveries
  {
    1 <= n <= db.deliveries[d].attemptCount && !HasRow(rows, d, n)
  }

  /** No row is numbered beyond the delivery's count. */
  predicate WithinCount(db: DB, rows: map<Id, Row>, d: Id)
    requires d in db.deliveries
  {
    forall a | a in rows && rows[a].deliveryId == d :: rows[a].number <= db.deliveries[d].attemptCount
  }

  /** A delivery's ledger is complete after the upgrade exactly when every number missing before was
      the current number of a live lease (and no row was numbered beyond the count). */
  lemma LedgerIsCompleteIff(db: DB, rows: map<Id, Row>, d: Id)
    requires OldSchema(db.deliveries, rows) && CanInsert(db.deliveries, AllHistorical(rows))
    requires LeasesMatch(db.deliveries) && d in db.deliveries
    ensures CompleteLedger(UpgradedDB(db, rows), d)
            <==> && WithinCount(db, rows, d)
                 && forall n | Missing(db, rows, d, n) ::
                      db.deliveries[d].status == InProgress && n == db.deliveries[d].attemptCount
  {
    hide Upgraded, CanInsert, OldSchema, LeasesMatch, HasNumber;
    var after := UpgradedDB(db, rows);
    forall n ensures HasNumber(after.attempts, d, n)
                     <==> HasRow(rows, d, n)
                          || (db.deliveries[d].status == InProgress
                              && n == db.deliveries[d].attemptCount)
    {
      LedgerNumbersAfterUpgrade(db, rows, d, n);
    }
    hide UpgradedDB;
    RowsArePositive(db.deliveries, rows);
    var count := db.deliveries[d].attemptCount;
    if db.deliveries[d].status == InProgress { LiveLeaseCounts(db, rows, d); }
    if CompleteLedger(after, d) {
      forall a | a in rows && rows[a].deliveryId == d ensures rows[a].number <= count {
        assert HasRow(rows, d, rows[a].number);
        assert HasNumber(after.attempts, d, rows[a].number);
      }
      forall n | Missing(db, rows, d, n)
        ensures db.deliveries[d].status == InProgress && n == count
      {
        assert HasNumber(after.attempts, d, n);
      }
    } else {
      var n :| HasNumber(after.attempts, d, n) != (1 <= n <= count);
      if HasRow(rows, d, n) {
        var a :| a in rows && rows[a].deliveryId == d && rows[a].number == n;
        assert n > count;
      } else if 1 <= n <= count {
        assert Missing(db, rows, d, n);
      }
    }
  }

  lemma RowsArePositive(deliveries: map<Id, Delivery>, rows: map<Id, Row>)
    requires OldSchema(deliveries, rows)
    ensures forall a | a in rows :: rows[a].number >= 1
  {
    assert forall a | a in rows :: OldRow(rows[a]);
  }

  /** A live lease has been counted. */
  lemma LiveLeaseCounts(db: DB, rows: map<Id, Row>, d: Id)
    requires OldSchema(db.deliveries, rows) && CanInsert(db.deliveries, AllHistorical(rows))
    requires LeasesMatch(db.deliveries) && d in db.deliveries
    requires db.deliveries[d].status == InProgress
    ensures db.deliveries[d].attemptCount >= 1
  {
    SameKeysInsertAlike(db.deliveries, rows);
    RowsArePositive(db.deliveries, rows);
    assert OldDelivery(db.deliveries[d]);
    hide OldSchema;
    if !HasRow(rows, d, db.deliveries[d].attemptCount) {
      assert LacksEvidence(db.deliveries, rows, d);
      assert d in Lacking(db.deliveries, AllHistorical(rows));
    }
  }

  /** A delivery in its second attempt, whose first one left no row. */
  function GapTables(): DB {
    var data := Data("{}", None);
    DB(map[3 := Endpoint("https://receiver.example", "secret", true, 0.0)],
       map[2 := Event("order.paid", "key", data, Body(2, "order.paid", 0.0, data),
                      Fingerprint(3, "order.paid", data), 0.0)],
       map[1 := Delivery(2, 3, 0, None, None, InProgress, 2, None, Some("worker"), Some(60.0),
                         Some(4), None, None, 0.0, 0.0)],
       map[])
  }

  lemma GapTablesFit()
    ensures Constraints(GapTables())
  {
    hide AttemptsClash, AttemptChecks;
  }

  lemma GapTablesCanUpgrade()
    ensures OldSchema(GapTables().deliveries, map[]) && LeasesMatch(GapTables().deliveries)
    ensures CanInsert(GapTables().deliveries, AllHistorical(map[]))
  {
    hide LacksEvidence;
  }

  /** Such a gap is possible in a database that satisfies every constraint, foreign keys included. */
  lemma GapMayRemain() returns (db: DB, rows: map<Id, Row>, d: Id)
    ensures Constraints(db) && OldSchema(db.deliveries, rows)
    ensures LeasesMatch(db.deliveries) && CanInsert(db.deliveries, AllHistorical(rows))
    ensures d in db.deliveries && db.deliveries[d].attemptCount == 2 && Missing(db, rows, d, 1)
    ensures !CompleteLedger(UpgradedDB(db, rows), d) && ForeignKeys(UpgradedDB(db, rows))
  {
    hide Constraints, OldSchema, CanInsert, LeasesMatch, CompleteLedger, ForeignKeys;
    db, rows, d := GapTables(), map[], 1;
    GapTablesFit();
    GapTablesCanUpgrade();
    LedgerIsCompleteIff(db, rows, d);
    assert Missing(db, rows, d, 1);
    UpgradeKeepsForeignKeys(db, rows);
  }

  lemma UpgradeKeepsForeignKeys(db: DB, rows: map<Id, Row>)
    requires Constraints(db) && OldSchema(db.deliveries, rows)
    requires CanInsert(db.deliveries, AllHistorical(rows))
    ensures ForeignKeys(UpgradedDB(db, rows))
  {
    UpgradeFits(db.deliveries, rows);
    hide OldSchema, CanInsert, Upgraded, AttemptChecks, RowChecks, UniqueEvents, UniqueDeliveries,
         UniqueAttempts;
  }
}
