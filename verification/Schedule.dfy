/** When retries happen (backend/src/eventharbor/deliveries/retry.py, transport.py, worker.py), in
    real arithmetic. */
module Schedule {
  import opened Schema
  import opened Retry
  import opened Transport
  import opened Transactions
  import opened Invariants
  import opened WorkerProofs
  import opened ServiceProofs
  import opened Protocol
  import opened Contract
  import opened Claims

  /** The longest a retry may be put off after the n-th failure. */
  function LongestWait(s: Settings, n: int): real
    requires n >= 1
  {
    Max(Ceiling(s.policy, n), s.retryAfterCap)
  }

  /** In every reachable state: a retry is scheduled for exactly those answered attempts that may
      be repeated and are not the last in the budget, and its time lies in the backoff window. A
      waiting delivery is due exactly when its last attempt says. */
  lemma RetriesAreScheduledInTheWindow(s: Settings, sys: System, a: Id)
    requires s.Valid() && Reachable(s, sys) && a in sys.db.attempts
    requires sys.db.attempts[a].status == Completed
    ensures var x := sys.db.attempts[a];
            && x.number >= 1 && x.resolvedAt.Some?
            && (x.retryScheduledFor.Some? <==>
                  x.disposition == Some(Disposition.Retry) && x.number < s.policy.maxAttempts)
            && (x.retryScheduledFor.Some? ==>
                  0.0 <= x.retryScheduledFor.value - x.resolvedAt.value
                      <= LongestWait(s, x.number))
    ensures sys.db.attempts[a].deliveryId in sys.db.deliveries
    ensures var x, row := sys.db.attempts[a], sys.db.deliveries[sys.db.attempts[a].deliveryId];
            x.number == row.attemptCount && row.status == RetryWait ==>
              x.retryScheduledFor == row.nextAttemptAt
  {
    hide Reachable, SysInv, Inv;
    ReachableFits(s, sys);
    InvOfSys(s, sys);
    AttemptFacts(s, sys.db, a);
  }

  /** The delay a receiver asked for, clamped: section 10.2.3 of RFC 9110. */
  function Requested(field: RetryAfterField, cap: real, reference: Time): real {
    match field
    case DeltaSeconds(seconds) => Min(Max(seconds, 0.0), cap)
    case HttpDate(at) => Min(Max(at - reference, 0.0), cap)
    case _ => 0.0
  }

  /** The retry that an accepted result schedules is due neither before the receiver's own
      Retry-After, clamped to the cap, nor after the backoff window. */
  lemma RetryAfterIsHonoured(
    s: Settings, db: DB, workerId: string, w: Webhook, status: int, field: RetryAfterField,
    excerpt: Excerpt, t: Timing, now: Time, jitter: real)
    requires s.Valid() && w.attemptNumber >= 1 && 0.0 <= jitter <= 1.0
    requires t.startedAt <= t.finishedAt && t.requestTimestamp >= 0
    requires SendWebhook(Responded(status, field, excerpt), s.retryAfterCap, t).Some?
    ensures var result := SendWebhook(Responded(status, field, excerpt), s.retryAfterCap, t).value;
            var (db', outcome) := FinalizeTx(s, db, workerId, w, result, now, jitter);
            outcome == Finalized ==>
              && w.deliveryId in db'.deliveries
              && var row := db'.deliveries[w.deliveryId];
                 row.nextAttemptAt.Some? == (result.disposition == Disposition.Retry
                                             && w.attemptNumber < s.policy.maxAttempts)
                 && (row.nextAttemptAt.Some? ==>
                       now + Requested(field, s.retryAfterCap, t.finishedAt)
                         <= row.nextAttemptAt.value <= now + LongestWait(s, w.attemptNumber))
  {
    hide Constraints, Truncate, LastError, RetryDelay, Ceiling, WellFormed;
    SendWebhookWellFormed(s, Responded(status, field, excerpt), t);
    var result := SendWebhook(Responded(status, field, excerpt), s.retryAfterCap, t).value;
    DelayBounds(s, w, result, jitter);
  }

  /** No claim is selected before its delivery is due: a waiting delivery not before the time its
      last attempt was rescheduled to, a leased one not before its lease expired. */
  lemma ClaimsAreNeverEarly(s: Settings, sys: System, d: Id, r: Reservation, t: Time,
                            locked: set<Id>)
    requires s.Valid() && Reachable(s, sys) && Enabled(s, sys, Claim(d, r, t, locked))
    ensures var row := sys.db.deliveries[d];
            && DueAt(row) <= t
            && (row.status == InProgress ==> row.leaseExpiresAt == Some(DueAt(row)))
            && (row.status == RetryWait ==>
                  forall a | a in sys.db.attempts && sys.db.attempts[a].deliveryId == d
                             && sys.db.attempts[a].number == row.attemptCount ::
                    sys.db.attempts[a].retryScheduledFor == Some(DueAt(row)))
  {
    hide Reachable, SysInv, Inv, LedgerOf, RowChecks, UniqueAttempts;
    ReachableFits(s, sys);
    InvOfSys(s, sys);
    RowFacts(s, sys.db, d);
    forall a | a in sys.db.attempts && sys.db.attempts[a].deliveryId == d
      ensures AttemptFits(s, sys.db.deliveries[d], sys.db.attempts[a])
    {
      AttemptFacts(s, sys.db, a);
    }
  }

  /** In every reachable state the claim query leases the delivery that has been due longest: counted
      from the end of its lease if it is in progress, and from its scheduled attempt otherwise. */
  lemma ClaimsTakeTheLongestDue(s: Settings, sys: System, d: Id, r: Reservation, t: Time,
                                locked: set<Id>)
    requires s.Valid() && Reachable(s, sys) && Enabled(s, sys, Claim(d, r, t, locked))
    ensures DueLongest(sys.db, t, locked, d)
    ensures d in ClaimTx(s, sys.db, d, r).0.deliveries
    ensures RowClaimed(s, sys.db.deliveries[d], ClaimTx(s, sys.db, d, r).0.deliveries[d],
                       sys.db.endpoints[sys.db.deliveries[d].endpointId].enabled, r)
    ensures ClaimTx(s, sys.db, d, r).1.Claimed? ==>
              forall since :: DueSince(ClaimTx(s, sys.db, d, r).0.deliveries[d], since)
                              <==> since == r.now + s.leaseSeconds
  {
    hide Reachable, SysInv, Inv, ClaimTx, RowClaimed, DueLongest, FreshReservation, AttemptExpired,
         NewlyReserved, DueSince;
    ReachableFits(s, sys);
    InvOfSys(s, sys);
    FreshIds(s, sys, r);
    InvGivesConstraints(s, sys.db);
    SelectedIsDueLongest(sys.db, t, locked, d);
    ClaimWritesTheRow(s, sys.db, d, r, t, locked);
  }

  // ----- the total wait of a delivery -----

  predicate IsNumbered(db: DB, d: Id, n: int, a: Id) {
    a in db.attempts && db.attempts[a].deliveryId == d && db.attempts[a].number == n
  }

  /** How long the n-th attempt of a delivery put the next one off. */
  ghost function WaitAfter(db: DB, d: Id, n: int): real {
    if exists a :: IsNumbered(db, d, n, a) then
      var a :| IsNumbered(db, d, n, a);
      if db.attempts[a].retryScheduledFor.Some? && db.attempts[a].resolvedAt.Some? then
        db.attempts[a].retryScheduledFor.value - db.attempts[a].resolvedAt.value
      else 0.0
    else 0.0
  }

  ghost function TotalWait(db: DB, d: Id, n: nat): real {
    if n == 0 then 0.0 else TotalWait(db, d, n - 1) + WaitAfter(db, d, n)
  }

  function LongestTotalWait(s: Settings, n: nat): real {
    if n == 0 then 0.0 else LongestTotalWait(s, n - 1) + LongestWait(s, n)
  }

  lemma WaitIsBounded(s: Settings, sys: System, d: Id, n: int)
    requires s.Valid() && Reachable(s, sys) && n >= 1
    ensures 0.0 <= WaitAfter(sys.db, d, n) <= LongestWait(s, n)
    ensures n >= s.policy.maxAttempts ==> WaitAfter(sys.db, d, n) == 0.0
  {
    hide Reachable, Ceiling, Inv, SysInv;
    ReachableFits(s, sys);
    InvOfSys(s, sys);
    assert Ceiling(s.policy, n) >= 0.0 by { DelayWithinCeiling(s.policy, n, 0.0); }
    if exists a :: IsNumbered(sys.db, d, n, a) {
      var a :| IsNumbered(sys.db, d, n, a) && WaitAfter(sys.db, d, n)
               == if sys.db.attempts[a].retryScheduledFor.Some?
                     && sys.db.attempts[a].resolvedAt.Some?
                  then sys.db.attempts[a].retryScheduledFor.value
                       - sys.db.attempts[a].resolvedAt.value
                  else 0.0;
      AttemptFacts(s, sys.db, a);
    }
  }

  /** All the waiting that a delivery's retries can ever be scheduled to do, over any number of
      attempts, is at most the sum of the windows after failures 1 to M - 1. */
  lemma {:induction false} TotalWaitIsBounded(s: Settings, sys: System, d: Id, n: nat)
    requires s.Valid() && Reachable(s, sys)
    ensures 0.0 <= TotalWait(sys.db, d, n)
                <= LongestTotalWait(s, if n < s.policy.maxAttempts then n
                                       else s.policy.maxAttempts - 1)
  {
    hide Reachable, WaitAfter, LongestWait;
    if n > 0 {
      TotalWaitIsBounded(s, sys, d, n - 1);
      WaitIsBounded(s, sys, d, n);
    }
  }
}
