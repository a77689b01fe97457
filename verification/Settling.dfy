/** Every delivery settles: bounded worker steps, bounded sends, and no delivery is ever stranded
    outside the claim filter. */
module Settling {
  import opened Schema
  import opened Retry
  import opened Transport
  import opened Transactions
  import opened Invariants
  import opened WorkerProofs
  import opened ServiceProofs
  import opened Protocol
  import opened Contract

  /** How many more worker steps a delivery row can take. */
  function Remaining(s: Settings, row: Delivery): int {
    match row.status
    case Pending => 2 * (s.policy.maxAttempts - row.attemptCount)
    case RetryWait => 2 * (s.policy.maxAttempts - row.attemptCount)
    case InProgress => 2 * (s.policy.maxAttempts - row.attemptCount) + 1
    case Delivered => 0
    case DeadLettered => 0
  }

  /** The same for a delivery that may not exist yet, or no longer. */
  function Budget(s: Settings, sys: System, d: Id): int {
    if d in sys.db.deliveries then Remaining(s, sys.db.deliveries[d])
    else if d in sys.used then 0
    else 2 * s.policy.maxAttempts
  }

  /** The step is an accepted claim, reclaim, resolution or finalization of delivery d. */
  predicate WorksOn(s: Settings, sys: System, a: Action, d: Id) {
    match a
    case Claim(x, r, t, locked) => x == d
    case Finalize(h, result, now, jitter) =>
      && h.webhook.deliveryId == d && h.webhook.attemptNumber >= 1
      && FinalizeTx(s, sys.db, h.workerId, h.webhook, result, now, jitter).1 == Finalized
    case _ => false
  }

  lemma ActiveHasWork(s: Settings, db: DB, d: Id)
    requires Inv(s, db) && d in db.deliveries
    ensures Remaining(s, db.deliveries[d]) >= 0
    ensures Active(db.deliveries[d].status) && s.policy.maxAttempts >= 1 ==>
              Remaining(s, db.deliveries[d]) >= 1
  {
    hide Inv, LedgerOf, RowChecks, UniqueAttempts;
    RowFacts(s, db, d);
  }

  lemma ClaimSpends(s: Settings, db: DB, db': DB, d: Id, r: Reservation, outcome: ClaimOutcome)
    requires s.Valid() && Inv(s, db) && ClaimChanges(db, db', d, r, outcome)
    ensures Remaining(s, db'.deliveries[d]) < Remaining(s, db.deliveries[d])
    ensures forall x | x in db.deliveries && x != d :: db'.deliveries[x] == db.deliveries[x]
    ensures db'.deliveries.Keys == db.deliveries.Keys
  {
    hide Inv, ResolvesOnly, NamesItsAttempt, SnapshotAgrees;
    ActiveHasWork(s, db, d);
  }

  lemma FinalizeSpends(
    s: Settings, db: DB, workerId: string, w: Webhook, result: AttemptResult, now: Time,
    jitter: real)
    requires s.Valid() && Inv(s, db) && WellFormed(s, result) && 0.0 <= jitter <= 1.0
    requires NamesItsAttempt(db, w)
    requires FinalizeTx(s, db, workerId, w, result, now, jitter).1 == Finalized
    ensures var db' := FinalizeTx(s, db, workerId, w, result, now, jitter).0;
            var d := w.deliveryId;
            && d in db.deliveries && db'.deliveries.Keys == db.deliveries.Keys
            && Remaining(s, db'.deliveries[d]) < Remaining(s, db.deliveries[d])
            && (forall x | x in db.deliveries && x != d :: db'.deliveries[x] == db.deliveries[x])
  {
    hide Inv, FinalizeTx, WellFormed, NamesItsAttempt, ResolvesOnly;
    FinalizeEffect(s, db, workerId, w, result, now, jitter);
    NamesPositive(db, w);
    FinalizeNeedsLease(s, db, workerId, w, result, now, jitter);
    ActiveHasWork(s, db, w.deliveryId);
  }

  lemma FinalizeNeedsLease(
    s: Settings, db: DB, workerId: string, w: Webhook, result: AttemptResult, now: Time,
    jitter: real)
    requires w.attemptNumber >= 1
    requires FinalizeTx(s, db, workerId, w, result, now, jitter).1 == Finalized
    ensures w.deliveryId in db.deliveries && db.deliveries[w.deliveryId].status == InProgress
  {
    hide Constraints, RetryDelay, Settle;
  }

  /** Each accepted worker step on a delivery spends at least one unit of its budget, and no other
      step of the system ever gives any back. */
  lemma StepSpends(s: Settings, sys: System, a: Action, d: Id)
    requires s.Valid() && SysInv(s, sys) && Enabled(s, sys, a)
    ensures 0 <= Budget(s, Next(s, sys, a), d)
    ensures Budget(s, Next(s, sys, a), d)
            <= Budget(s, sys, d) - (if WorksOn(s, sys, a, d) then 1 else 0)
  {
    hide SysInv, Evolves, Budget, Next, FinalizeTx, Enabled;
    StepKeepsSysInv(s, sys, a);
    BudgetIsNat(s, Next(s, sys, a), d);
    match a
    case Claim(x, r, t, locked) => ClaimStepSpends(s, sys, x, r, t, locked, d);
    case Finalize(h, result, now, jitter) => FinalizeStepSpends(s, sys, h, result, now, jitter, d);
    case _ => QuietStepSpends(s, sys, a, d);
  }

  lemma ClaimStepSpends(
    s: Settings, sys: System, x: Id, r: Reservation, t: Time, locked: set<Id>, d: Id)
    requires s.Valid() && SysInv(s, sys) && Enabled(s, sys, Claim(x, r, t, locked))
    ensures var a := Claim(x, r, t, locked);
            Budget(s, Next(s, sys, a), d)
              <= Budget(s, sys, d) - (if WorksOn(s, sys, a, d) then 1 else 0)
  {
    hide SysInv, Inv, ClaimTx, Evolves, ClaimChanges, Remaining;
    InvOfSys(s, sys);
    ClaimStep(s, sys, x, r, t, locked);
    var (db', outcome) := ClaimTx(s, sys.db, x, r);
    ClaimSpends(s, sys.db, db', x, r, outcome);
  }

  lemma FinalizeStepSpends(s: Settings, sys: System, h: Holding, result: AttemptResult, now: Time,
                           jitter: real, d: Id)
    requires s.Valid() && SysInv(s, sys) && Enabled(s, sys, Finalize(h, result, now, jitter))
    ensures var a := Finalize(h, result, now, jitter);
            Budget(s, Next(s, sys, a), d)
              <= Budget(s, sys, d) - (if WorksOn(s, sys, a, d) then 1 else 0)
  {
    hide SysInv, Inv, FinalizeTx, Evolves, Remaining, NamesItsAttempt, WellFormed;
    InvOfSys(s, sys);
    FinalizeStep(s, sys, h, result, now, jitter);
    if FinalizeTx(s, sys.db, h.workerId, h.webhook, result, now, jitter).1 == Finalized {
      FinalizeSpends(s, sys.db, h.workerId, h.webhook, result, now, jitter);
    }
  }

  lemma QuietStepSpends(s: Settings, sys: System, a: Action, d: Id)
    requires s.Valid() && SysInv(s, sys) && Enabled(s, sys, a) && !a.Claim? && !a.Finalize?
    ensures Budget(s, Next(s, sys, a), d) <= Budget(s, sys, d)
  {
    hide SysInv, Next, Enabled, Evolves;
    BudgetIsNat(s, sys, d);
    StepKeepsSysInv(s, sys, a);
    QuietRows(s, sys, a);
  }

  /** A step that is not a worker transaction rewrites no delivery row; what it adds is pending,
      unattempted and new. */
  lemma QuietRows(s: Settings, sys: System, a: Action)
    requires s.Valid() && SysInv(s, sys) && Enabled(s, sys, a) && !a.Claim? && !a.Finalize?
    ensures var db' := Next(s, sys, a).db;
            forall d | d in db'.deliveries ::
              || (d in sys.db.deliveries && db'.deliveries[d] == sys.db.deliveries[d])
              || (d !in sys.used && db'.deliveries[d].status == Pending
                  && db'.deliveries[d].attemptCount == 0)
    ensures Next(s, sys, a).used >= sys.used && UsedCovers(sys)
  {
    hide SysInv, Inv, PublishTx, ReplayTx, Evolves, CallFits, UsedCovers;
    InvOfSys(s, sys);
    match a
    case Publish(q, key, m) => PublishStep(s, sys, q, key, m);
    case DecideReplay(call, newId, now, databaseNow) =>
      ReplayStep(s, sys, call, newId, now, databaseNow);
    case _ =>
  }

  lemma BudgetIsNat(s: Settings, sys: System, d: Id)
    requires s.Valid() && SysInv(s, sys)
    ensures 0 <= Budget(s, sys, d)
  {
    hide SysInv, Inv, UsedCovers;
    InvOfSys(s, sys);
    if d in sys.db.deliveries {
      ActiveHasWork(s, sys.db, d);
    }
  }

  /** The number of accepted worker steps on delivery d in a run. */
  ghost function Work(s: Settings, sys: System, actions: seq<Action>, d: Id): nat
    requires Runs(s, sys, actions)
    decreases |actions|
  {
    if actions == [] then 0
    else (if WorksOn(s, sys, actions[0], d) then 1 else 0)
         + Work(s, Next(s, sys, actions[0]), actions[1..], d)
  }

  lemma {:induction false} WorkFitsBudget(s: Settings, sys: System, actions: seq<Action>, d: Id)
    requires s.Valid() && SysInv(s, sys) && Runs(s, sys, actions)
    ensures Work(s, sys, actions, d) <= Budget(s, sys, d)
    decreases |actions|
  {
    hide SysInv, Enabled, Next, WorksOn, Budget, Evolves;
    if actions == [] {
      BudgetIsNat(s, sys, d);
    } else {
      StepSpends(s, sys, actions[0], d);
      StepKeepsSysInv(s, sys, actions[0]);
      WorkFitsBudget(s, Next(s, sys, actions[0]), actions[1..], d);
    }
  }

  /** In any run from the empty database, a delivery sees at most 2M accepted worker steps. */
  lemma DeliverySettles(s: Settings, actions: seq<Action>, d: Id)
    requires s.Valid() && Runs(s, START, actions)
    ensures Work(s, START, actions, d) <= 2 * s.policy.maxAttempts
  {
    hide SysInv, Runs, Work;
    StartFits(s);
    WorkFitsBudget(s, START, actions, d);
  }

  // ----- at most M requests -----

  function SendsOf(log: seq<SendEntry>, d: Id): set<int> {
    set i | 0 <= i < |log| && log[i].webhook.deliveryId == d
  }

  /** A set of indices with distinct numbers in 1..m has at most m members. */
  lemma {:induction false} Pigeonhole<T>(indices: set<T>, number: map<T, int>, m: nat)
    requires forall i | i in indices :: i in number && 1 <= number[i] <= m
    requires forall i, j | i in indices && j in indices && i != j :: number[i] != number[j]
    ensures |indices| <= m
    decreases m
  {
    if |indices| > 0 {
      var k :| k in indices;
      assert 1 <= number[k] <= m;
      if i :| i in indices && number[i] == m {
        Pigeonhole(indices - {i}, number, m - 1);
      } else {
        Pigeonhole(indices, number, m - 1);
      }
    }
  }

  /** At most M requests of one delivery are ever sent, also once the delivery is purged. */
  lemma SendsAreBounded(s: Settings, sys: System, d: Id)
    requires s.Valid() && Reachable(s, sys)
    ensures |SendsOf(sys.log, d)| <= s.policy.maxAttempts
  {
    hide Reachable, SysInv, NamesItsAttempt, SnapshotAgrees;
    ReachableFits(s, sys);
    var number := map i | 0 <= i < |sys.log| :: sys.log[i].webhook.attemptNumber;
    var sends := SendsOf(sys.log, d);
    forall i | i in sends ensures 1 <= number[i] <= s.policy.maxAttempts {
      LogFacts(s, sys, i);
      assert SnapshotFits(s, sys.db, sys.log[i].webhook);
      NamesPositive(sys.db, sys.log[i].webhook);
    }
    forall i, j | i in sends && j in sends && i != j ensures number[i] != number[j] {
      LogFacts(s, sys, i);
    }
    Pigeonhole(sends, number, s.policy.maxAttempts);
  }

  lemma NamesPositive(db: DB, w: Webhook)
    requires NamesItsAttempt(db, w)
    ensures w.attemptNumber >= 1
  {
  }

  // ----- nothing is stranded -----

  /** From the time its row names, an active delivery stays selectable for ever: it is in the
      claim filter at every later instant, and a claim that finds nothing else locked or earlier
      takes it. A terminal one never is. */
  lemma ActiveIsNeverStranded(s: Settings, sys: System, d: Id, t: Time)
    requires s.Valid() && Reachable(s, sys) && d in sys.db.deliveries
    ensures d in Claimable(sys.db, t, {})
            <==> Active(sys.db.deliveries[d].status) && DueAt(sys.db.deliveries[d]) <= t
  {
    hide Reachable, SysInv, Inv, LedgerOf, RowChecks, UniqueAttempts;
    ReachableFits(s, sys);
    InvOfSys(s, sys);
    RowFacts(s, sys.db, d);
  }

  // ----- the budget of a whole table -----

  ghost function Total(s: Settings, rows: map<Id, Delivery>, ids: set<Id>): int
    requires ids <= rows.Keys
  {
    if ids == {} then 0
    else
      var d :| d in ids;
      Remaining(s, rows[d]) + Total(s, rows, ids - {d})
  }

  lemma {:induction false} TotalSplits(s: Settings, rows: map<Id, Delivery>, ids: set<Id>, d: Id)
    requires ids <= rows.Keys && d in ids
    ensures Total(s, rows, ids) == Remaining(s, rows[d]) + Total(s, rows, ids - {d})
    decreases |ids|
  {
    var e :| e in ids && Total(s, rows, ids) == Remaining(s, rows[e]) + Total(s, rows, ids - {e});
    if e != d {
      TotalSplits(s, rows, ids - {e}, d);
      TotalSplits(s, rows, ids - {d}, e);
      assert ids - {e} - {d} == ids - {d} - {e};
    }
  }

  lemma {:induction false} TotalDepends(
    s: Settings, rows: map<Id, Delivery>, rows': map<Id, Delivery>, ids: set<Id>)
    requires ids <= rows.Keys && ids <= rows'.Keys
    requires forall d | d in ids :: rows'[d] == rows[d]
    ensures Total(s, rows', ids) == Total(s, rows, ids)
    decreases |ids|
  {
    if ids != {} {
      var d :| d in ids && Total(s, rows, ids) == Remaining(s, rows[d]) + Total(s, rows, ids - {d});
      TotalDepends(s, rows, rows', ids - {d});
      TotalSplits(s, rows', ids, d);
    }
  }

  lemma {:induction false} TotalIsNat(s: Settings, db: DB, ids: set<Id>)
    requires Inv(s, db) && ids <= db.deliveries.Keys
    ensures Total(s, db.deliveries, ids) >= 0
    decreases |ids|
  {
    hide Inv;
    if ids != {} {
      var d :| d in ids && Total(s, db.deliveries, ids)
               == Remaining(s, db.deliveries[d]) + Total(s, db.deliveries, ids - {d});
      ActiveHasWork(s, db, d);
      TotalIsNat(s, db, ids - {d});
    }
  }

  /** Lowering one row lowers the total. */
  lemma TotalDrops(s: Settings, rows: map<Id, Delivery>, rows': map<Id, Delivery>, d: Id)
    requires d in rows && rows'.Keys == rows.Keys
    requires Remaining(s, rows'[d]) < Remaining(s, rows[d])
    requires forall x | x in rows && x != d :: rows'[x] == rows[x]
    ensures Total(s, rows', rows'.Keys) < Total(s, rows, rows.Keys)
  {
    TotalSplits(s, rows, rows.Keys, d);
    TotalSplits(s, rows', rows.Keys, d);
    TotalDepends(s, rows, rows', rows.Keys - {d});
  }
}
