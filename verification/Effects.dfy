/** What one worker transaction leaves in the rows it writes
    (backend/src/eventharbor/deliveries/worker.py). */
module Effects {
  import opened Schema
  import opened Retry
  import opened Transport
  import opened Transactions
  import opened Invariants
  import opened WorkerProofs

  /** A claim reserves an attempt exactly when the endpoint is enabled and an attempt remains;
      otherwise it dead-letters the delivery. Either way the evidence of an expired lease becomes
      indeterminate, resolved now, and every resolved attempt of the delivery is untouched. */
  lemma ClaimDecidesExactly(s: Settings, db: DB, d: Id, r: Reservation, t: Time, locked: set<Id>)
    requires s.Valid() && Inv(s, db) && Selected(db, t, locked, d) && FreshReservation(db, r)
    ensures var (db', outcome) := ClaimTx(s, db, d, r);
            && (outcome.Claimed? <==>
                  && db.endpoints[db.deliveries[d].endpointId].enabled
                  && db.deliveries[d].attemptCount < s.policy.maxAttempts)
            && (!outcome.Claimed? ==>
                  d in db'.deliveries && db'.deliveries[d].status == DeadLettered
                  && db'.deliveries[d].lastError.Some? && db'.deliveries[d].nextAttemptAt.None?)
            && (forall a | a in db.attempts && db.attempts[a].deliveryId == d ::
                  && a in db'.attempts
                  && (db.attempts[a].status == Reserved ==>
                        && db'.attempts[a].status == Indeterminate
                        && db'.attempts[a].errorType == Some("lease_expired")
                        && db'.attempts[a].resolvedAt == Some(r.now))
                  && (db.attempts[a].status != Reserved ==> db'.attempts[a] == db.attempts[a]))
  {
    hide Inv, Constraints, LedgerOf, RowChecks, UniqueAttempts, Truncate, FreshReservation;
    ClaimKeepsInv(s, db, d, r, t, locked);
    assert r.attemptId !in db.attempts by { FreshAttempt(db, r); }
    RowFacts(s, db, d);
    var row := db.deliveries[d];
    forall a | a in db.attempts && db.attempts[a].deliveryId == d
      ensures AttemptFits(s, row, db.attempts[a])
    {
      AttemptFacts(s, db, a);
    }
    if row.status == InProgress {
      var e := EvidenceExists(s, db, d);
      assert ReclaimTx(s, db, d, r) == ReclaimWith(s, db, d, e, r);
      forall a | a in db.attempts && db.attempts[a].deliveryId == d
                 && db.attempts[a].status == Reserved
        ensures a == e
      {
        assert IsEvidence(db, d, a);
      }
    }
  }

  lemma FreshAttempt(db: DB, r: Reservation)
    requires FreshReservation(db, r)
    ensures r.attemptId !in db.attempts
  {
  }

  /** The snapshot a claim hands to the sender carries the endpoint's address and secret and the
      event's body as committed, and until the lease expires no claim can select the delivery. */
  lemma LeaseIsExclusive(
    s: Settings, db: DB, d: Id, r: Reservation, t: Time, locked: set<Id>, later: Time,
    others: set<Id>)
    requires s.Valid() && Inv(s, db) && Selected(db, t, locked, d) && FreshReservation(db, r)
    requires ClaimTx(s, db, d, r).1.Claimed?
    ensures var (db', outcome) := ClaimTx(s, db, d, r);
            var w, endpoint := outcome.webhook, db.endpoints[db.deliveries[d].endpointId];
            && db.deliveries[d].eventId in db.events
            && w.url == endpoint.targetUrl && w.secret == endpoint.secret
            && w.body == db.events[db.deliveries[d].eventId].body
            && w.runId == db.events[db.deliveries[d].eventId].data.runId
            && d in db'.deliveries && db'.deliveries[d].leaseToken == Some(w.leaseToken)
            && (d in Claimable(db', later, others) ==> later >= r.now + s.leaseSeconds)
  {
    hide Inv, Constraints, LedgerOf, RowChecks, UniqueAttempts, Truncate, FreshReservation;
    RowFacts(s, db, d);
    if db.deliveries[d].status == InProgress {
      var e := EvidenceExists(s, db, d);
      assert ReclaimTx(s, db, d, r) == ReclaimWith(s, db, d, e, r);
    }
  }

  /** An accepted result: the delivery is delivered, now, exactly for a 2xx answer, and then shows
      no error; otherwise it shows one. The lease is released, and the attempt keeps the whole
      evidence of the exchange. */
  lemma FinalizeRecordsTheResult(
    s: Settings, db: DB, workerId: string, w: Webhook, result: AttemptResult, now: Time,
    jitter: real)
    requires s.Valid() && WellFormed(s, result) && 0.0 <= jitter <= 1.0 && w.attemptNumber >= 1
    requires FinalizeTx(s, db, workerId, w, result, now, jitter).1 == Finalized
    ensures var db' := FinalizeTx(s, db, workerId, w, result, now, jitter).0;
            && w.deliveryId in db'.deliveries && w.attemptId in db'.attempts
            && var row, a := db'.deliveries[w.deliveryId], db'.attempts[w.attemptId];
               ((row.status == Delivered <==> Accepted(result))
                && row.deliveredAt == (if Accepted(result) then Some(now) else None)
                && row.lastError.None? == Accepted(result)
                && row.leaseOwner.None? && row.leaseToken.None? && row.leaseExpiresAt.None?
                && row.nextAttemptAt == a.retryScheduledFor && a.resolvedAt == Some(now)
                && a.httpStatus == result.httpStatus && a.errorType == result.errorType
                && a.errorMessage == result.errorMessage && a.excerpt == result.excerpt
                && a.durationMs == Some(result.durationMs)
                && a.requestTimestamp == Some(result.requestTimestamp)
                && a.startedAt == Some(result.startedAt)
                && a.finishedAt == Some(result.finishedAt))
  {
    hide Constraints, Truncate, RetryDelay, DigitsOf;
    DelayBounds(s, w, result, jitter);
  }
}
