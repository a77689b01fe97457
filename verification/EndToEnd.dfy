/** The delivery protocol composed with the Receiver Lab: what one delivery comes to, exactly, when
    its receiver is a run configured in a given mode. Any number of workers, deliveries, publishes,
    replays and crashes run beside it. */
module EndToEnd {
  import opened Schema
  import opened Retry
  import opened Transport
  import opened Transactions
  import opened Invariants
  import opened WorkerProofs
  import opened ServiceProofs
  import opened Protocol
  import opened Contract
  import opened Settling
  import opened ReceiverLab
  import Registry = ReceiverRegistry

  type Run = Registry.Run

  const RATE_LIMIT_RETRY_AFTER_SECONDS := 5.0

  /** The delivery, the receiver route its endpoint's URL names, and how a body reads as JSON. */
  datatype Scenario = Scenario(delivery: Id, channel: Option<string>, decode: Body -> Decoded)

  /** The protocol, the receiver run that only this delivery uses, and how many requests of the
      delivery came back without an answer of the receiver. */
  datatype Lab = Lab(sys: System, run: Run, failed: nat)

  /** A protocol step. If it sends a request: whether it reached the receiver, and when. */
  datatype Step = Step(action: Action, receivedAt: Time, arrived: bool)

  function RequestFor(sc: Scenario, w: Webhook, at: Time): Registry.Request {
    Registry.Request(w.runId, sc.channel, Some(w.deliveryId), Some(w.attemptNumber), true,
                     sc.decode(w.body), at)
  }

  /** What the receiver answers to its next request. */
  function ReceiverAnswer(run: Run, q: Registry.Request): Exchange {
    var error := Registry.ErrorOf(run.configuration, q);
    var status := Registry.StatusFor(run.configuration, run.scenarioAttempts + 1, error);
    Responded(status,
              if status == 429 then DeltaSeconds(RATE_LIMIT_RETRY_AFTER_SECONDS) else Absent,
              Coded(Registry.ResponseCode(status, error)))
  }

  /** The result is what the transport makes of the receiver's answer, with some timing. */
  ghost predicate AnswersFor(s: Settings, run: Run, q: Registry.Request, result: AttemptResult) {
    exists t: Timing ::
      t.startedAt <= t.finishedAt && t.requestTimestamp >= 0
      && SendWebhook(ReceiverAnswer(run, q), s.retryAfterCap, t) == Some(result)
  }

  /** A timeout or a network error. */
  ghost predicate FailsInTransport(s: Settings, result: AttemptResult) {
    exists x: Exchange, t: Timing ::
      !x.Responded? && t.startedAt <= t.finishedAt && t.requestTimestamp >= 0
      && SendWebhook(x, s.retryAfterCap, t) == Some(result)
  }

  // ----- the steps of the composition -----

  /** A request is answered by the receiver, or fails in transport, or its worker dies; in the last
      two cases it may have reached the receiver or not. */
  ghost predicate SendFits(s: Settings, sc: Scenario, run: Run, w: Webhook,
                           answer: Option<AttemptResult>, at: Time, arrived: bool)
  {
    answer.Some? ==>
      if answer.value.httpStatus.Some?
      then arrived && AnswersFor(s, run, RequestFor(sc, w, at), answer.value)
      else FailsInTransport(s, answer.value)
  }

  predicate Missed(answer: Option<AttemptResult>) {
    answer.None? || answer.value.httpStatus.None?
  }

  /** Beside the protocol's own conditions: the delivery's lease does not expire, its endpoint is
      not disabled, and its event is not purged. */
  ghost predicate LabEnabled(s: Settings, sc: Scenario, lab: Lab, step: Step)
    requires sc.delivery in lab.sys.db.deliveries
  {
    var row := lab.sys.db.deliveries[sc.delivery];
    && Enabled(s, lab.sys, step.action)
    && match step.action
       case Claim(d, r, t, locked) => d == sc.delivery ==> row.status != InProgress
       case SetEnabled(id, enabled) => id == row.endpointId ==> enabled
       case Purge(gone) => row.eventId !in gone
       case Send(h, answer) =>
         h.webhook.deliveryId == sc.delivery ==>
           SendFits(s, sc, lab.run, h.webhook, answer, step.receivedAt, step.arrived)
       case _ => true
  }

  predicate SendsIt(sc: Scenario, a: Action) {
    a.Send? && a.h.webhook.deliveryId == sc.delivery
  }

  ghost function LabNext(s: Settings, sc: Scenario, lab: Lab, step: Step): Lab
    requires sc.delivery in lab.sys.db.deliveries && LabEnabled(s, sc, lab, step)
  {
    var sys := Next(s, lab.sys, step.action);
    if !SendsIt(sc, step.action) then Lab(sys, lab.run, lab.failed)
    else
      Lab(sys,
          if step.arrived
          then Registry.Answered(lab.run, RequestFor(sc, step.action.h.webhook, step.receivedAt))
          else lab.run,
          if Missed(step.action.answer) then lab.failed + 1 else lab.failed)
  }

  ghost predicate LabRuns(s: Settings, sc: Scenario, lab: Lab, steps: seq<Step>)
    decreases |steps|
  {
    && sc.delivery in lab.sys.db.deliveries
    && (steps == []
        || (LabEnabled(s, sc, lab, steps[0])
            && LabRuns(s, sc, LabNext(s, sc, lab, steps[0]), steps[1..])))
  }

  ghost function LabAfter(s: Settings, sc: Scenario, lab: Lab, steps: seq<Step>): Lab
    requires LabRuns(s, sc, lab, steps)
    decreases |steps|
  {
    if steps == [] then lab else LabAfter(s, sc, LabNext(s, sc, lab, steps[0]), steps[1..])
  }

  // ----- what each attempt must come to -----

  /** How many accepted bodies the mode turns away first; `None` is the sustained rate limit. */
  function FailuresFirst(c: Configuration): Option<nat> {
    match c.mode
    case RateLimited => if c.failures == 0 then None else Some(c.failures)
    case FailThenSucceed => Some(c.failures)
    case _ => Some(0)
  }

  function Verdict(c: Configuration, error: Option<string>, n: int): Disposition {
    if error.Some? then TerminalFailure
    else if FailuresFirst(c).None? || n <= FailuresFirst(c).value then Disposition.Retry
    else Succeeded
  }

  function ErrorIn(sc: Scenario, c: Configuration, body: Body): Option<string> {
    PayloadError(sc.decode(body), sc.channel, sc.channel.Some? || c.mode == PermanentFailure)
  }

  /** The evidence the m-th request that reaches the receiver must leave, if it is answered. */
  predicate Expected(
    c: Configuration, error: Option<string>, m: int,
    disposition: Option<Disposition>, httpStatus: Option<int>, excerpt: Option<Excerpt>)
  {
    && m >= 1 && disposition == Some(Verdict(c, error, m))
    && var status := Registry.StatusFor(c, m, error);
       (httpStatus == Some(status)
        && excerpt == Some(Coded(Registry.ResponseCode(status, error))))
  }

  predicate ExpectedResult(c: Configuration, error: Option<string>, m: int, r: AttemptResult) {
    Expected(c, error, m, Some(r.disposition), r.httpStatus, r.excerpt)
  }

  /** The evidence of the n-th attempt when `failed` requests came back without an answer: a retryable
      transport failure, or the receiver's answer to a request that many places earlier at most. */
  ghost predicate Fits(
    c: Configuration, error: Option<string>, n: int, failed: nat,
    disposition: Option<Disposition>, httpStatus: Option<int>, excerpt: Option<Excerpt>)
  {
    if httpStatus.None? then
      failed >= 1 && disposition == Some(Disposition.Retry) && excerpt.None?
    else exists m: nat :: m <= n <= m + failed
                          && Expected(c, error, m, disposition, httpStatus, excerpt)
  }

  ghost predicate ResultFits(
    c: Configuration, error: Option<string>, n: int, failed: nat, r: AttemptResult)
  {
    Fits(c, error, n, failed, Some(r.disposition), r.httpStatus, r.excerpt)
  }

  ghost predicate ExpectedAttempt(c: Configuration, error: Option<string>, failed: nat, a: Attempt) {
    && a.status != Indeterminate
    && (a.status == Completed ==>
          Fits(c, error, a.number, failed, a.disposition, a.httpStatus, a.excerpt))
  }

  /** The receiver's answer ends the delivery. */
  predicate IsFinal(r: AttemptResult) { r.httpStatus.Some? && r.disposition != Disposition.Retry }

  lemma FitsGrows(
    c: Configuration, error: Option<string>, n: int, failed: nat, failed': nat,
    disposition: Option<Disposition>, httpStatus: Option<int>, excerpt: Option<Excerpt>)
    requires Fits(c, error, n, failed, disposition, httpStatus, excerpt) && failed <= failed'
    ensures Fits(c, error, n, failed', disposition, httpStatus, excerpt)
  {
    hide Expected;
  }

  /** Without a transport failure the n-th attempt is the n-th request. */
  lemma FitsExactly(
    c: Configuration, error: Option<string>, n: int,
    disposition: Option<Disposition>, httpStatus: Option<int>, excerpt: Option<Excerpt>)
    requires Fits(c, error, n, 0, disposition, httpStatus, excerpt)
    ensures Expected(c, error, n, disposition, httpStatus, excerpt)
  {
    hide Expected;
  }

  /** What the verdict of a fitting answer says about its place. */
  lemma FitsVerdict(
    c: Configuration, error: Option<string>, n: int, failed: nat,
    disposition: Option<Disposition>, httpStatus: Option<int>, excerpt: Option<Excerpt>)
    requires Fits(c, error, n, failed, disposition, httpStatus, excerpt)
    ensures disposition.Some?
    ensures disposition == Some(TerminalFailure) <==> httpStatus.Some? && error.Some?
    ensures disposition == Some(Succeeded) ==>
              error.None? && FailuresFirst(c).Some? && n >= FailuresFirst(c).value + 1
  {
    if httpStatus.Some? {
      var m: nat :| m <= n <= m + failed
                    && Expected(c, error, m, disposition, httpStatus, excerpt);
    }
  }

  lemma TransportIsRetryable(s: Settings, result: AttemptResult)
    requires FailsInTransport(s, result)
    ensures result.disposition == Disposition.Retry && result.excerpt.None?
    ensures result.httpStatus.None?
  {
  }

  /** The receiver's answer to the run's next request is the expected one. */
  lemma AnswerIsExpected(
    s: Settings, sc: Scenario, run: Run, w: Webhook, at: Time, result: AttemptResult)
    requires AnswersFor(s, run, RequestFor(sc, w, at), result)
    ensures ExpectedResult(run.configuration, ErrorIn(sc, run.configuration, w.body),
                           run.scenarioAttempts + 1, result)
  {
    hide PayloadError;
    var t: Timing :| t.startedAt <= t.finishedAt && t.requestTimestamp >= 0
             && SendWebhook(ReceiverAnswer(run, RequestFor(sc, w, at)), s.retryAfterCap, t)
                == Some(result);
    assert ClassifyStatusCode(200) == Some(Succeeded);
    assert ClassifyStatusCode(400) == Some(TerminalFailure);
    assert ClassifyStatusCode(429) == Some(Disposition.Retry);
    assert ClassifyStatusCode(503) == Some(Disposition.Retry);
  }

  /** Only the rate limit asks for a delay: five seconds, or the worker's cap if that is less. */
  lemma RateLimitAsksForFiveSeconds(
    s: Settings, run: Run, q: Registry.Request, result: AttemptResult)
    requires AnswersFor(s, run, q, result)
    ensures result.retryAfter
            == if result.httpStatus != Some(429) then None
               else if 5.0 <= s.retryAfterCap then Some(5.0) else Some(s.retryAfterCap)
  {
    hide PayloadError;
    var t: Timing :| t.startedAt <= t.finishedAt && t.requestTimestamp >= 0
             && SendWebhook(ReceiverAnswer(run, q), s.retryAfterCap, t) == Some(result);
    assert ClassifyStatusCode(429) == Some(Disposition.Retry);
  }

  // ----- the invariant of the composition -----

  ghost predicate SentNumber(log: seq<SendEntry>, d: Id, n: int) {
    exists i :: 0 <= i < |log| && log[i].webhook.deliveryId == d
                && log[i].webhook.attemptNumber == n
  }

  /** The delivery's own rows: endpoint enabled, event body fixed, every attempt as expected. */
  ghost predicate RowsFit(
    s: Settings, sc: Scenario, c: Configuration, error: Option<string>, failed: nat, db: DB)
  {
    && sc.delivery in db.deliveries
    && var row := db.deliveries[sc.delivery];
       (row.endpointId in db.endpoints && db.endpoints[row.endpointId].enabled
        && row.eventId in db.events && ErrorIn(sc, c, db.events[row.eventId].body) == error
        && (row.status == DeadLettered ==>
              row.attemptCount >= 1
              && (error.Some? || row.attemptCount == s.policy.maxAttempts))
        && forall a | a in db.attempts && db.attempts[a].deliveryId == sc.delivery ::
             ExpectedAttempt(c, error, failed, db.attempts[a]))
  }

  /** A final answer belongs to the last attempt, and is either not recorded yet or the outcome. */
  predicate EndsIt(error: Option<string>, row: Delivery, n: int) {
    && n == row.attemptCount
    && (row.status == InProgress || row.status == if error.Some? then DeadLettered else Delivered)
  }

  ghost predicate AnswersFit(
    d: Id, c: Configuration, error: Option<string>, failed: nat, row: Delivery,
    log: seq<SendEntry>)
  {
    forall i | 0 <= i < |log| && log[i].webhook.deliveryId == d && log[i].answer.Some? ::
      && ResultFits(c, error, log[i].webhook.attemptNumber, failed, log[i].answer.value)
      && (IsFinal(log[i].answer.value) ==> EndsIt(error, row, log[i].webhook.attemptNumber))
  }

  ghost predicate HasFinal(log: seq<SendEntry>, d: Id) {
    exists i :: 0 <= i < |log| && log[i].webhook.deliveryId == d && log[i].answer.Some?
                && IsFinal(log[i].answer.value)
  }

  /** How many requests of the delivery were sent: every reserved attempt but one not sent yet. */
  ghost function SentCount(row: Delivery, d: Id, log: seq<SendEntry>): int {
    row.attemptCount
      - (if row.status == InProgress && !SentNumber(log, d, row.attemptCount) then 1 else 0)
  }

  /** Of the requests sent, the receiver counted all but failed ones, and those it answered are not
      more than the outcome takes. */
  ghost predicate CountFits(
    c: Configuration, error: Option<string>, row: Delivery, d: Id, log: seq<SendEntry>,
    received: nat, failed: nat)
  {
    var sent, final := SentCount(row, d, log), if HasFinal(log, d) then 1 else 0;
    && received <= sent <= received + failed && failed <= sent
    && (error.Some? ==> sent - failed <= final)
    && (error.None? && FailuresFirst(c).Some? ==> sent - failed <= FailuresFirst(c).value + final)
  }

  ghost predicate LabInv(
    s: Settings, sc: Scenario, c: Configuration, error: Option<string>, lab: Lab)
  {
    && SysInv(s, lab.sys) && lab.run.configuration == c
    && RowsFit(s, sc, c, error, lab.failed, lab.sys.db)
    && var row := lab.sys.db.deliveries[sc.delivery];
       (AnswersFit(sc.delivery, c, error, lab.failed, row, lab.sys.log)
        && CountFits(c, error, row, sc.delivery, lab.sys.log, lab.run.scenarioAttempts, lab.failed))
  }

  predicate SameEvent(db: DB, db': DB, e: Id) {
    e in db.events && e in db'.events && db'.events[e] == db.events[e]
  }

  /** Nothing of delivery d changed. */
  ghost predicate Untouched(db: DB, db': DB, d: Id) {
    && d in db.deliveries && d in db'.deliveries && db'.deliveries[d] == db.deliveries[d]
    && SameEvent(db, db', db.deliveries[d].eventId)
    && (forall a | a in db'.attempts && db'.attempts[a].deliveryId == d ::
          a in db.attempts && db'.attempts[a] == db.attempts[a])
  }

  lemma RowsFitKept(
    s: Settings, sc: Scenario, c: Configuration, error: Option<string>, failed: nat, db: DB, db': DB)
    requires RowsFit(s, sc, c, error, failed, db) && Untouched(db, db', sc.delivery)
    requires var p := db.deliveries[sc.delivery].endpointId;
             p in db'.endpoints && db'.endpoints[p].enabled
    ensures RowsFit(s, sc, c, error, failed, db')
  {
    hide ErrorIn, ExpectedAttempt;
  }

  lemma RowsFitGrows(
    s: Settings, sc: Scenario, c: Configuration, error: Option<string>, failed: nat, failed': nat,
    db: DB)
    requires RowsFit(s, sc, c, error, failed, db) && failed <= failed'
    ensures RowsFit(s, sc, c, error, failed', db)
  {
    hide ErrorIn, Fits;
    forall a | a in db.attempts && db.attempts[a].deliveryId == sc.delivery
      ensures ExpectedAttempt(c, error, failed', db.attempts[a])
    {
      var x := db.attempts[a];
      assert ExpectedAttempt(c, error, failed, x);
      if x.status == Completed {
        FitsGrows(c, error, x.number, failed, failed', x.disposition, x.httpStatus, x.excerpt);
      }
    }
  }

  lemma AnswersFitGrows(
    d: Id, c: Configuration, error: Option<string>, failed: nat, failed': nat, row: Delivery,
    log: seq<SendEntry>)
    requires AnswersFit(d, c, error, failed, row, log) && failed <= failed'
    ensures AnswersFit(d, c, error, failed', row, log)
  {
    hide Fits;
    forall i | 0 <= i < |log| && log[i].webhook.deliveryId == d && log[i].answer.Some?
      ensures ResultFits(c, error, log[i].webhook.attemptNumber, failed', log[i].answer.value)
    {
      var r := log[i].answer.value;
      FitsGrows(c, error, log[i].webhook.attemptNumber, failed, failed', Some(r.disposition),
                r.httpStatus, r.excerpt);
    }
  }

  // ----- steps that are not about the delivery -----

  /** A step that does not work on delivery d leaves it as it was. */
  lemma OtherStepsLeaveItAlone(s: Settings, sys: System, a: Action, d: Id)
    requires s.Valid() && SysInv(s, sys) && Enabled(s, sys, a) && d in sys.db.deliveries
    requires !WorksOn(s, sys, a, d)
    requires a.Purge? ==> sys.db.deliveries[d].eventId !in a.gone
    ensures Untouched(sys.db, Next(s, sys, a).db, d)
  {
    hide SysInv, Untouched, WorksOn, Next, Enabled;
    if a.Claim? {
      ClaimElsewhere(s, sys, a.d, a.r, a.queryTime, a.locked, d);
    } else if a.Finalize? {
      FinalizeElsewhere(s, sys, a.holder, a.result, a.finalizedAt, a.jitter, d);
    } else {
      QuietElsewhere(s, sys, a, d);
    }
  }

  lemma ClaimElsewhere(
    s: Settings, sys: System, x: Id, r: Reservation, t: Time, locked: set<Id>, d: Id)
    requires s.Valid() && SysInv(s, sys) && Enabled(s, sys, Claim(x, r, t, locked))
    requires d in sys.db.deliveries && !WorksOn(s, sys, Claim(x, r, t, locked), d)
    ensures Untouched(sys.db, Next(s, sys, Claim(x, r, t, locked)).db, d)
  {
    hide SysInv, Inv, Evolves, ClaimTx, ResolvesOnly, NamesItsAttempt, SnapshotAgrees;
    ClaimStep(s, sys, x, r, t, locked);
    IdIsUsed(s, sys, d);
  }

  lemma FinalizeElsewhere(
    s: Settings, sys: System, h: Holding, result: AttemptResult, now: Time, jitter: real, d: Id)
    requires s.Valid() && SysInv(s, sys) && Enabled(s, sys, Finalize(h, result, now, jitter))
    requires d in sys.db.deliveries && !WorksOn(s, sys, Finalize(h, result, now, jitter), d)
    ensures Untouched(sys.db, Next(s, sys, Finalize(h, result, now, jitter)).db, d)
  {
    hide SysInv, Inv, Evolves, FinalizeTx, ResolvesOnly, NamesItsAttempt, WellFormed;
    InvOfSys(s, sys);
    FinalizeStep(s, sys, h, result, now, jitter);
    IdIsUsed(s, sys, d);
    if FinalizeTx(s, sys.db, h.workerId, h.webhook, result, now, jitter).1 == Finalized {
      FinalizeEffect(s, sys.db, h.workerId, h.webhook, result, now, jitter);
    }
  }

  lemma QuietElsewhere(s: Settings, sys: System, a: Action, d: Id)
    requires s.Valid() && SysInv(s, sys) && Enabled(s, sys, a) && d in sys.db.deliveries
    requires !a.Claim? && !a.Finalize?
    requires a.Purge? ==> sys.db.deliveries[d].eventId !in a.gone
    ensures Untouched(sys.db, Next(s, sys, a).db, d)
  {
    hide SysInv, Enabled, Next, Evolves;
    var e := sys.db.deliveries[d].eventId;
    IdIsUsed(s, sys, d);
    QuietRows(s, sys, a);
    QuietStep(s, sys, a);
    StepKeepsSysInv(s, sys, a);
    EventStays(s, sys, a, e);
    EvolvedRow(sys.used, sys.db, Next(s, sys, a).db, d);
  }

  lemma EventStays(s: Settings, sys: System, a: Action, e: Id)
    requires s.Valid() && SysInv(s, sys) && Enabled(s, sys, a) && e in sys.db.events
    requires !a.Claim? && !a.Finalize? && (a.Purge? ==> e !in a.gone)
    ensures e in Next(s, sys, a).db.events
  {
    hide SysInv, Inv, PublishTx, ReplayTx, Evolves, CallFits;
    match a
    case Publish(q, key, m) => PublishStep(s, sys, q, key, m);
    case DecideReplay(call, newId, now, databaseNow) =>
      ReplayStep(s, sys, call, newId, now, databaseNow);
    case _ =>
  }

  lemma EvolvedRow(used: set<Id>, db: DB, db': DB, d: Id)
    requires Evolves(used, db, db') && d in db.deliveries && d in used
    requires db.deliveries[d].eventId in used && db.deliveries[d].eventId in db'.events
    ensures d in db'.deliveries && SameEvent(db, db', db.deliveries[d].eventId)
  {
  }

  lemma IdIsUsed(s: Settings, sys: System, d: Id)
    requires SysInv(s, sys) && d in sys.db.deliveries
    ensures d in sys.used && sys.db.deliveries[d].eventId in sys.used
    ensures sys.db.deliveries[d].eventId in sys.db.events
  {
    hide Ledger, Lineage, SnapshotsFit, HoldingsFit, LogFits, RecordsFit, CallsFit, RowChecks;
  }

  lemma EndpointStaysEnabled(s: Settings, sys: System, a: Action, p: Id)
    requires s.Valid() && SysInv(s, sys) && Enabled(s, sys, a)
    requires p in sys.db.endpoints && sys.db.endpoints[p].enabled
    requires a.SetEnabled? && a.target == p ==> a.enabled
    ensures p in Next(s, sys, a).db.endpoints && Next(s, sys, a).db.endpoints[p].enabled
  {
    hide SysInv, Inv, PublishTx, ReplayTx, ClaimTx, FinalizeTx, Evolves, CallFits, NamesItsAttempt,
         ResolvesOnly, SnapshotAgrees, WellFormed;
    InvOfSys(s, sys);
    match a
    case Publish(q, key, m) => PublishStep(s, sys, q, key, m);
    case DecideReplay(call, newId, now, databaseNow) =>
      ReplayStep(s, sys, call, newId, now, databaseNow);
    case Claim(d, r, t, locked) => ClaimStep(s, sys, d, r, t, locked);
    case Finalize(h, result, now, jitter) =>
      FinalizeStep(s, sys, h, result, now, jitter);
      if FinalizeTx(s, sys.db, h.workerId, h.webhook, result, now, jitter).1 == Finalized {
        FinalizeEffect(s, sys.db, h.workerId, h.webhook, result, now, jitter);
      }
    case _ =>
  }

  // ----- the steps of the delivery itself -----

  /** With an enabled endpoint and no lease outstanding, a claim always reserves an attempt. */
  lemma ClaimReserves(s: Settings, db: DB, d: Id, r: Reservation, t: Time, locked: set<Id>)
    requires s.Valid() && Inv(s, db) && Selected(db, t, locked, d) && FreshReservation(db, r)
    requires db.deliveries[d].status != InProgress
    requires db.endpoints[db.deliveries[d].endpointId].enabled
    ensures db.deliveries[d].eventId in db.events
    ensures ClaimTx(s, db, d, r)
            == (Reserve(s, db, d, r), Claimed(WebhookFor(Reserve(s, db, d, r), d, r)))
  {
    hide Inv, Constraints, LedgerOf, RowChecks, UniqueAttempts;
    ClaimKeepsInv(s, db, d, r, t, locked);
    RowFacts(s, db, d);
  }

  /** No request is numbered beyond the attempts the delivery has had. */
  lemma NextNumberIsUnsent(s: Settings, sys: System, d: Id)
    requires SysInv(s, sys) && d in sys.db.deliveries
    ensures !SentNumber(sys.log, d, sys.db.deliveries[d].attemptCount + 1)
  {
    hide SysInv, SentNumber, Inv, NamesItsAttempt;
    forall i | 0 <= i < |sys.log| && sys.log[i].webhook.deliveryId == d
      ensures sys.log[i].webhook.attemptNumber <= sys.db.deliveries[d].attemptCount
    {
      LogFacts(s, sys, i);
      InvOfSys(s, sys);
      NumberWithin(s, sys.db, sys.log[i].webhook);
    }
    NotSentNumber(sys.log, d, sys.db.deliveries[d].attemptCount + 1);
  }

  lemma NumberWithin(s: Settings, db: DB, w: Webhook)
    requires Inv(s, db) && NamesItsAttempt(db, w) && w.deliveryId in db.deliveries
    ensures w.attemptNumber <= db.deliveries[w.deliveryId].attemptCount
  {
    hide Inv;
    AttemptFacts(s, db, w.attemptId);
  }

  lemma NotSentNumber(log: seq<SendEntry>, d: Id, n: int)
    requires forall i | 0 <= i < |log| && log[i].webhook.deliveryId == d ::
               log[i].webhook.attemptNumber != n
    ensures !SentNumber(log, d, n)
  {
  }

  lemma ClaimOfIt(
    s: Settings, sc: Scenario, c: Configuration, error: Option<string>, lab: Lab,
    r: Reservation, t: Time, locked: set<Id>)
    requires s.Valid() && LabInv(s, sc, c, error, lab)
    requires Enabled(s, lab.sys, Claim(sc.delivery, r, t, locked))
    requires lab.sys.db.deliveries[sc.delivery].status != InProgress
    ensures var sys', d := Next(s, lab.sys, Claim(sc.delivery, r, t, locked)), sc.delivery;
            && RowsFit(s, sc, c, error, lab.failed, sys'.db) && sys'.log == lab.sys.log
            && AnswersFit(d, c, error, lab.failed, sys'.db.deliveries[d], sys'.log)
            && CountFits(c, error, sys'.db.deliveries[d], d, sys'.log, lab.run.scenarioAttempts,
                         lab.failed)
  {
    hide SysInv, Inv, ClaimTx, Evolves, SentNumber, ErrorIn, Fits, Truncate, UsedCovers, HasFinal;
    var db, d := lab.sys.db, sc.delivery;
    InvOfSys(s, lab.sys);
    assert FreshReservation(db, r) by { FreshIds(s, lab.sys, r); }
    ClaimReserves(s, db, d, r, t, locked);
    NextNumberIsUnsent(s, lab.sys, d);
  }

  /** A snapshot that is ready to be sent belongs to the reserved attempt of its delivery, and that
      attempt's number has not been sent. */
  lemma ReadyIsCurrent(s: Settings, sys: System, h: Holding, d: Id)
    requires SysInv(s, sys) && h in sys.ready && h.webhook.deliveryId == d
    requires d in sys.db.deliveries
    requires forall a | a in sys.db.attempts && sys.db.attempts[a].deliveryId == d ::
               sys.db.attempts[a].status != Indeterminate
    ensures sys.db.deliveries[d].status == InProgress
    ensures h.webhook.attemptNumber == sys.db.deliveries[d].attemptCount
    ensures !SentNumber(sys.log, d, h.webhook.attemptNumber)
  {
    hide SysInv, SentNumber, Inv, Sent;
    ReadyFacts(s, sys, h);
    InvOfSys(s, sys);
    var a := h.webhook.attemptId;
    AttemptFacts(s, sys.db, a);
    if sys.db.attempts[a].status == Completed {
      var j := CompletedFacts(s, sys, a);
      LogFacts(s, sys, j);
      SameAttemptSameSnapshot(s, sys, sys.log[j].webhook, h.webhook);
      IsSent(sys.log, j);
    }
    forall i | 0 <= i < |sys.log| && sys.log[i].webhook.deliveryId == d
      ensures sys.log[i].webhook.attemptNumber != h.webhook.attemptNumber
    {
      LogFacts(s, sys, i);
      IsSent(sys.log, i);
      if sys.log[i].webhook.attemptNumber == h.webhook.attemptNumber {
        SameAttemptSameSnapshot(s, sys, sys.log[i].webhook, h.webhook);
      }
    }
    NotSentNumber(sys.log, d, h.webhook.attemptNumber);
  }

  lemma IsSent(log: seq<SendEntry>, i: int)
    requires 0 <= i < |log|
    ensures Sent(log, log[i].webhook)
  {
  }

  /** A request is only sent while no final answer has been given. */
  lemma NothingFinalYet(
    d: Id, c: Configuration, error: Option<string>, failed: nat, row: Delivery,
    log: seq<SendEntry>)
    requires AnswersFit(d, c, error, failed, row, log)
    requires row.status == InProgress && !SentNumber(log, d, row.attemptCount)
    ensures !HasFinal(log, d)
  {
    hide Fits;
  }

  lemma HasFinalGrows(log: seq<SendEntry>, entry: SendEntry, d: Id)
    ensures HasFinal(log + [entry], d)
            <==> HasFinal(log, d)
                 || (entry.webhook.deliveryId == d && entry.answer.Some?
                     && IsFinal(entry.answer.value))
  {
    if i :| 0 <= i < |log| && log[i].webhook.deliveryId == d && log[i].answer.Some?
            && IsFinal(log[i].answer.value) {
      assert (log + [entry])[i] == log[i];
    }
    assert (log + [entry])[|log|] == entry;
  }

  /** The answer to the next request fits, one way or the other. */
  lemma AnswerFits(
    s: Settings, sc: Scenario, c: Configuration, error: Option<string>, lab: Lab, w: Webhook,
    answer: AttemptResult, at: Time, arrived: bool, failed': nat)
    requires SendFits(s, sc, lab.run, w, Some(answer), at, arrived)
    requires lab.run.configuration == c && ErrorIn(sc, c, w.body) == error
    requires lab.run.scenarioAttempts + 1 <= w.attemptNumber
             <= lab.run.scenarioAttempts + 1 + failed'
    requires Missed(Some(answer)) ==> failed' >= 1
    ensures ResultFits(c, error, w.attemptNumber, failed', answer)
    ensures answer.httpStatus.Some? ==>
              arrived && ExpectedResult(c, error, lab.run.scenarioAttempts + 1, answer)
    ensures IsFinal(answer) <==> answer.httpStatus.Some?
                                 && Verdict(c, error, lab.run.scenarioAttempts + 1)
                                    != Disposition.Retry
  {
    hide ErrorIn, AnswersFor, FailsInTransport;
    if answer.httpStatus.Some? {
      AnswerIsExpected(s, sc, lab.run, w, at, answer);
    } else {
      TransportIsRetryable(s, answer);
    }
  }

  lemma SendOfIt(
    s: Settings, sc: Scenario, c: Configuration, error: Option<string>, lab: Lab,
    h: Holding, answer: Option<AttemptResult>, at: Time, arrived: bool)
    requires s.Valid() && LabInv(s, sc, c, error, lab)
    requires LabEnabled(s, sc, lab, Step(Send(h, answer), at, arrived))
    requires h.webhook.deliveryId == sc.delivery
    ensures var log, d := lab.sys.log + [SendEntry(h.webhook, answer)], sc.delivery;
            var row, failed' := lab.sys.db.deliveries[d],
                                if Missed(answer) then lab.failed + 1 else lab.failed;
            && AnswersFit(d, c, error, failed', row, log)
            && CountFits(c, error, row, d, log,
                         lab.run.scenarioAttempts + (if arrived then 1 else 0), failed')
  {
    hide SysInv, SentNumber, ErrorIn, Fits, SendFits, WellFormed, HasFinal, Enabled, Expected;
    var sys, d, w, entry := lab.sys, sc.delivery, h.webhook, SendEntry(h.webhook, answer);
    var row := sys.db.deliveries[d];
    var failed' := if Missed(answer) then lab.failed + 1 else lab.failed;
    IsReady(s, sys, h, answer);
    ReadyIsCurrent(s, sys, h, d);
    ReadyBody(s, sys, h);
    NothingFinalYet(d, c, error, lab.failed, row, sys.log);
    HasFinalGrows(sys.log, entry, d);
    SentLast(sys.log, entry);
    assert SentCount(row, d, sys.log) == w.attemptNumber - 1;
    AnswersFitGrows(d, c, error, lab.failed, failed', row, sys.log);
    if answer.Some? {
      AnswerFits(s, sc, c, error, lab, w, answer.value, at, arrived, failed');
    }
    assert AnswersFit(d, c, error, failed', row, sys.log + [entry]);
    SendCounts(c, error, row, d, sys.log, entry, lab.run.scenarioAttempts, lab.failed, arrived);
  }

  /** What one more request does to the counts. */
  lemma SendCounts(
    c: Configuration, error: Option<string>, row: Delivery, d: Id, log: seq<SendEntry>,
    entry: SendEntry, received: nat, failed: nat, arrived: bool)
    requires CountFits(c, error, row, d, log, received, failed) && !HasFinal(log, d)
    requires entry.webhook.deliveryId == d && row.status == InProgress
    requires !SentNumber(log, d, row.attemptCount)
    requires SentNumber(log + [entry], d, row.attemptCount)
    requires HasFinal(log + [entry], d) <==> entry.answer.Some? && IsFinal(entry.answer.value)
    requires !Missed(entry.answer) ==>
               arrived && (IsFinal(entry.answer.value)
                           <==> Verdict(c, error, received + 1) != Disposition.Retry)
    ensures CountFits(c, error, row, d, log + [entry], received + (if arrived then 1 else 0),
                      if Missed(entry.answer) then failed + 1 else failed)
  {
    hide SentNumber, HasFinal;
  }

  lemma IsReady(s: Settings, sys: System, h: Holding, answer: Option<AttemptResult>)
    requires Enabled(s, sys, Send(h, answer))
    ensures h in sys.ready
  {
  }

  lemma SentLast(log: seq<SendEntry>, entry: SendEntry)
    ensures SentNumber(log + [entry], entry.webhook.deliveryId, entry.webhook.attemptNumber)
  {
    assert (log + [entry])[|log|] == entry;
  }

  lemma ReadyBody(s: Settings, sys: System, h: Holding)
    requires SysInv(s, sys) && h in sys.ready && h.webhook.deliveryId in sys.db.deliveries
    ensures SnapshotAgrees(sys.db, h.webhook)
  {
    hide Inv, UsedCovers, LogFits, RecordsFit, CallsFit, NamesItsAttempt, SnapshotAgrees, Sent;
    assert SnapshotFits(s, sys.db, h.webhook);
  }

  /** Which status an accepted result leads to. */
  lemma FinalizeTarget(
    s: Settings, db: DB, workerId: string, w: Webhook, result: AttemptResult, now: Time,
    jitter: real)
    requires s.Valid() && WellFormed(s, result) && 0.0 <= jitter <= 1.0 && w.attemptNumber >= 1
    requires FinalizeTx(s, db, workerId, w, result, now, jitter).1 == Finalized
    ensures OwnsLease(db, workerId, w)
    ensures var db' := FinalizeTx(s, db, workerId, w, result, now, jitter).0;
            && w.deliveryId in db'.deliveries
            && db'.deliveries[w.deliveryId].status
               == (if result.disposition == Succeeded then Delivered
                   else if result.disposition == Disposition.Retry
                           && w.attemptNumber < s.policy.maxAttempts then RetryWait
                   else DeadLettered)
  {
    hide Constraints, Truncate, LastError, RetryDelay;
    DelayBounds(s, w, result, jitter);
  }

  /** Requests of one delivery with one number are one request. */
  lemma OneRequestPerNumber(s: Settings, sys: System, i: int, j: int)
    requires SysInv(s, sys) && 0 <= i < |sys.log| && 0 <= j < |sys.log|
    requires sys.log[i].webhook.deliveryId == sys.log[j].webhook.deliveryId
    requires sys.log[i].webhook.attemptNumber == sys.log[j].webhook.attemptNumber
    ensures i == j
  {
    hide SysInv;
    LogFacts(s, sys, i);
  }

  /** The logged answer behind a result that may be finalized. */
  lemma ResultIsLogged(
    s: Settings, sc: Scenario, c: Configuration, error: Option<string>, lab: Lab, h: Holding,
    result: AttemptResult) returns (i: int)
    requires LabInv(s, sc, c, error, lab) && (h, result) in lab.sys.answered
    requires h.webhook.deliveryId == sc.delivery
    ensures 0 <= i < |lab.sys.log| && lab.sys.log[i] == SendEntry(h.webhook, Some(result))
    ensures ResultFits(c, error, h.webhook.attemptNumber, lab.failed, result)
    ensures SentNumber(lab.sys.log, sc.delivery, h.webhook.attemptNumber)
  {
    hide SysInv, RowsFit, CountFits, Fits, SentNumber, EndsIt;
    AnsweredFacts(s, lab.sys, h, result);
    i :| 0 <= i < |lab.sys.log| && lab.sys.log[i] == SendEntry(h.webhook, Some(result));
    SentAt(lab.sys.log, i);
  }

  /** The delivery's rows after an accepted result. */
  lemma FinalizeRows(
    s: Settings, sc: Scenario, c: Configuration, error: Option<string>, failed: nat, db: DB,
    workerId: string, w: Webhook, result: AttemptResult, now: Time, jitter: real)
    requires s.Valid() && Inv(s, db) && WellFormed(s, result) && 0.0 <= jitter <= 1.0
    requires NamesItsAttempt(db, w) && w.attemptNumber >= 1 && w.deliveryId == sc.delivery
    requires FinalizeTx(s, db, workerId, w, result, now, jitter).1 == Finalized
    requires RowsFit(s, sc, c, error, failed, db)
    requires ResultFits(c, error, w.attemptNumber, failed, result)
    ensures RowsFit(s, sc, c, error, failed, FinalizeTx(s, db, workerId, w, result, now, jitter).0)
  {
    hide Inv, FinalizeTx, ErrorIn, WellFormed, Fits;
    FinalizeEffect(s, db, workerId, w, result, now, jitter);
    FinalizeTarget(s, db, workerId, w, result, now, jitter);
    NumberWithinBudget(s, db, w.deliveryId);
    FitsVerdict(c, error, w.attemptNumber, failed, Some(result.disposition), result.httpStatus,
                result.excerpt);
  }

  lemma FinalizeOfIt(
    s: Settings, sc: Scenario, c: Configuration, error: Option<string>, lab: Lab,
    h: Holding, result: AttemptResult, now: Time, jitter: real)
    requires s.Valid() && LabInv(s, sc, c, error, lab)
    requires Enabled(s, lab.sys, Finalize(h, result, now, jitter))
    requires WorksOn(s, lab.sys, Finalize(h, result, now, jitter), sc.delivery)
    ensures var db', d := Next(s, lab.sys, Finalize(h, result, now, jitter)).db, sc.delivery;
            && RowsFit(s, sc, c, error, lab.failed, db')
            && AnswersFit(d, c, error, lab.failed, db'.deliveries[d], lab.sys.log)
            && CountFits(c, error, db'.deliveries[d], d, lab.sys.log, lab.run.scenarioAttempts,
                         lab.failed)
  {
    hide SysInv, Inv, Evolves, FinalizeTx, ErrorIn, SentNumber, WellFormed, SnapshotAgrees, Fits,
         HasFinal, RowsFit, RewritesDelivery, ResolvesOnly, NamesItsAttempt;
    var sys, w, d := lab.sys, h.webhook, sc.delivery;
    InvOfSys(s, sys);
    AnsweredFacts(s, sys, h, result);
    var logged := ResultIsLogged(s, sc, c, error, lab, h, result);
    FinalizeRows(s, sc, c, error, lab.failed, sys.db, h.workerId, w, result, now, jitter);
    FinalizeEffect(s, sys.db, h.workerId, w, result, now, jitter);
    FinalizeTarget(s, sys.db, h.workerId, w, result, now, jitter);
    FitsVerdict(c, error, w.attemptNumber, lab.failed, Some(result.disposition), result.httpStatus,
                result.excerpt);
    FinalAnswersAgree(s, sys, d, w, result, logged);
    assert OwnsLease(sys.db, h.workerId, w);
  }

  lemma FinalAnswersAgree(
    s: Settings, sys: System, d: Id, w: Webhook, result: AttemptResult, logged: int)
    requires SysInv(s, sys) && 0 <= logged < |sys.log| && w.deliveryId == d
    requires sys.log[logged] == SendEntry(w, Some(result))
    ensures forall i | 0 <= i < |sys.log| && sys.log[i].webhook.deliveryId == d
                       && sys.log[i].webhook.attemptNumber == w.attemptNumber :: i == logged
  {
    hide SysInv;
    forall i | 0 <= i < |sys.log| && sys.log[i].webhook.deliveryId == d
               && sys.log[i].webhook.attemptNumber == w.attemptNumber
      ensures i == logged
    {
      OneRequestPerNumber(s, sys, i, logged);
    }
  }

  lemma SentAt(log: seq<SendEntry>, i: int)
    requires 0 <= i < |log|
    ensures SentNumber(log, log[i].webhook.deliveryId, log[i].webhook.attemptNumber)
  {
  }

  lemma NumberWithinBudget(s: Settings, db: DB, d: Id)
    requires Inv(s, db) && d in db.deliveries
    ensures db.deliveries[d].attemptCount <= s.policy.maxAttempts
  {
    hide Inv, LedgerOf;
    RowFacts(s, db, d);
  }

  // ----- every step -----

  /** A step that neither works on the delivery nor sends for it. */
  lemma OtherStep(
    s: Settings, sc: Scenario, c: Configuration, error: Option<string>, lab: Lab, step: Step)
    requires s.Valid() && LabInv(s, sc, c, error, lab) && LabEnabled(s, sc, lab, step)
    requires !WorksOn(s, lab.sys, step.action, sc.delivery) && !SendsIt(sc, step.action)
    ensures var sys', d := Next(s, lab.sys, step.action), sc.delivery;
            && RowsFit(s, sc, c, error, lab.failed, sys'.db)
            && AnswersFit(d, c, error, lab.failed, sys'.db.deliveries[d], sys'.log)
            && CountFits(c, error, sys'.db.deliveries[d], d, sys'.log, lab.run.scenarioAttempts,
                         lab.failed)
  {
    hide SysInv, Next, WorksOn, SentNumber, ResultFits, RowsFit, Enabled, SendFits, Untouched,
         HasFinal, IsFinal, EndsIt;
    var sys, a, d := lab.sys, step.action, sc.delivery;
    EndpointIsEnabled(s, sc, c, error, lab.failed, sys.db);
    OtherStepsLeaveItAlone(s, sys, a, d);
    SameRow(sys.db, Next(s, sys, a).db, d);
    EndpointStaysEnabled(s, sys, a, sys.db.deliveries[d].endpointId);
    LogGrows(s, sys, a);
    RowsFitKept(s, sc, c, error, lab.failed, sys.db, Next(s, sys, a).db);
    if a.Send? {
      SentNumberKept(sys.log, SendEntry(a.h.webhook, a.answer), d,
                     sys.db.deliveries[d].attemptCount);
      HasFinalGrows(sys.log, SendEntry(a.h.webhook, a.answer), d);
    }
  }

  lemma EndpointIsEnabled(
    s: Settings, sc: Scenario, c: Configuration, error: Option<string>, failed: nat, db: DB)
    requires RowsFit(s, sc, c, error, failed, db)
    ensures sc.delivery in db.deliveries
    ensures var p := db.deliveries[sc.delivery].endpointId;
            p in db.endpoints && db.endpoints[p].enabled
  {
    hide ErrorIn, ExpectedAttempt;
  }

  lemma SameRow(db: DB, db': DB, d: Id)
    requires Untouched(db, db', d)
    ensures d in db'.deliveries && db'.deliveries[d] == db.deliveries[d]
  {
  }

  lemma LogGrows(s: Settings, sys: System, a: Action)
    requires Enabled(s, sys, a)
    ensures Next(s, sys, a).log
            == if a.Send? then sys.log + [SendEntry(a.h.webhook, a.answer)] else sys.log
  {
    hide Enabled, ClaimTx, PublishTx, ReplayTx, FinalizeTx;
  }

  lemma SentNumberKept(log: seq<SendEntry>, entry: SendEntry, d: Id, n: int)
    requires entry.webhook.deliveryId != d
    ensures SentNumber(log + [entry], d, n) <==> SentNumber(log, d, n)
  {
    if SentNumber(log, d, n) {
      var i :| 0 <= i < |log| && log[i].webhook.deliveryId == d
               && log[i].webhook.attemptNumber == n;
      assert (log + [entry])[i] == log[i];
    }
  }

  lemma SendWritesNothing(s: Settings, sys: System, a: Action)
    requires Enabled(s, sys, a) && a.Send?
    ensures Next(s, sys, a).db == sys.db
  {
    hide Enabled, ClaimTx, PublishTx, ReplayTx, FinalizeTx;
  }

  lemma WorkersWork(s: Settings, sys: System, a: Action, d: Id)
    requires WorksOn(s, sys, a, d)
    ensures a.Claim? || a.Finalize?
    ensures a.Claim? ==> a.d == d
  {
    hide FinalizeTx;
  }

  lemma StepKeepsLabInv(
    s: Settings, sc: Scenario, c: Configuration, error: Option<string>, lab: Lab, step: Step)
    requires s.Valid() && LabInv(s, sc, c, error, lab) && LabEnabled(s, sc, lab, step)
    ensures LabInv(s, sc, c, error, LabNext(s, sc, lab, step))
  {
    hide SysInv, RowsFit, CountFits, AnswersFit, SendFits, Evolves, Next, Enabled, WorksOn;
    var sys, a, d := lab.sys, step.action, sc.delivery;
    EndpointIsEnabled(s, sc, c, error, lab.failed, sys.db);
    StepKeepsSysInv(s, sys, a);
    LogGrows(s, sys, a);
    if SendsIt(sc, a) {
      SendOfIt(s, sc, c, error, lab, a.h, a.answer, step.receivedAt, step.arrived);
      SendWritesNothing(s, sys, a);
      RowsFitGrows(s, sc, c, error, lab.failed, LabNext(s, sc, lab, step).failed, sys.db);
    } else if WorksOn(s, sys, a, d) {
      WorkersWork(s, sys, a, d);
      if a.Claim? {
        ClaimOfIt(s, sc, c, error, lab, a.r, a.queryTime, a.locked);
      } else {
        FinalizeOfIt(s, sc, c, error, lab, a.holder, a.result, a.finalizedAt, a.jitter);
      }
    } else {
      OtherStep(s, sc, c, error, lab, step);
    }
  }

  lemma {:induction false} RunKeepsLabInv(
    s: Settings, sc: Scenario, c: Configuration, error: Option<string>, lab: Lab,
    steps: seq<Step>)
    requires s.Valid() && LabInv(s, sc, c, error, lab) && LabRuns(s, sc, lab, steps)
    ensures LabInv(s, sc, c, error, LabAfter(s, sc, lab, steps))
    decreases |steps|
  {
    hide LabInv, LabEnabled, LabNext;
    if steps != [] {
      StepKeepsLabInv(s, sc, c, error, lab, steps[0]);
      RunKeepsLabInv(s, sc, c, error, LabNext(s, sc, lab, steps[0]), steps[1..]);
    }
  }

  // ----- the outcome -----

  /** A reachable state of the protocol in which the delivery has not been attempted, and a run that
      was just configured. */
  ghost predicate LabStart(
    s: Settings, sc: Scenario, c: Configuration, error: Option<string>, lab: Lab)
  {
    && Reachable(s, lab.sys) && sc.delivery in lab.sys.db.deliveries
    && var row := lab.sys.db.deliveries[sc.delivery];
       (row.status == Pending && row.endpointId in lab.sys.db.endpoints
        && lab.sys.db.endpoints[row.endpointId].enabled && row.eventId in lab.sys.db.events
        && ErrorIn(sc, c, lab.sys.db.events[row.eventId].body) == error
        && lab.run.configuration == c && lab.run.scenarioAttempts == 0 && lab.failed == 0)
  }

  lemma StartFitsLab(
    s: Settings, sc: Scenario, c: Configuration, error: Option<string>, lab: Lab)
    requires s.Valid() && LabStart(s, sc, c, error, lab)
    ensures LabInv(s, sc, c, error, lab)
  {
    hide SysInv, Inv, ErrorIn, NamesItsAttempt, Reachable;
    ReachableFits(s, lab.sys);
    var sys, d := lab.sys, sc.delivery;
    InvOfSys(s, sys);
    RowFacts(s, sys.db, d);
    forall a | a in sys.db.attempts ensures sys.db.attempts[a].deliveryId != d {
      AttemptFacts(s, sys.db, a);
    }
    forall i | 0 <= i < |sys.log| ensures sys.log[i].webhook.deliveryId != d {
      LogFacts(s, sys, i);
      assert NamesItsAttempt(sys.db, sys.log[i].webhook);
      if sys.log[i].webhook.deliveryId == d { NamedAttempt(sys.db, sys.log[i].webhook); }
    }
  }

  lemma NamedAttempt(db: DB, w: Webhook)
    requires NamesItsAttempt(db, w) && w.deliveryId in db.deliveries
    ensures w.attemptId in db.attempts && db.attempts[w.attemptId].deliveryId == w.deliveryId
  {
  }

  /** The final status and the number of attempts it takes when every request is answered. */
  function OutcomeOf(s: Settings, c: Configuration, error: Option<string>): (DeliveryStatus, int) {
    var k := FailuresFirst(c);
    if error.Some? then (DeadLettered, 1)
    else if k.Some? && k.value < s.policy.maxAttempts then (Delivered, k.value + 1)
    else (DeadLettered, s.policy.maxAttempts)
  }

  predicate Waits(status: DeliveryStatus) { status == Pending || status == RetryWait }

  /** The delivery so far, when `failed` requests came back without an answer: a delivered one took
      k + 1 attempts at least and `failed` more at most; a dead letter of an acceptable body used the
      whole budget, which k failures and those requests had to fill; a rejected body was rejected by
      the first answer there was. A waiting delivery has not come that far. */
  predicate OnCourse(s: Settings, c: Configuration, error: Option<string>, row: Delivery,
                     received: nat, failed: nat)
  {
    var n, k, m := row.attemptCount, FailuresFirst(c), s.policy.maxAttempts;
    && received <= n <= m && failed <= n
    && (row.status == Delivered ==>
          error.None? && k.Some? && k.value + 1 <= n <= k.value + 1 + failed)
    && (row.status == DeadLettered && error.None? ==>
          n == m && (k.Some? ==> m <= k.value + failed))
    && (row.status == DeadLettered && error.Some? ==> 1 <= n <= failed + 1)
    && (Waits(row.status) ==>
          && n < m && (error.Some? ==> n <= failed)
          && (error.None? && k.Some? ==> n <= k.value + failed))
  }

  /** The same, exactly, when every request was answered. */
  predicate ExactlyOnCourse(s: Settings, c: Configuration, error: Option<string>, row: Delivery,
                            received: nat)
  {
    && (!Active(row.status) <==> (row.status, row.attemptCount) == OutcomeOf(s, c, error))
    && (Waits(row.status) ==> row.attemptCount < OutcomeOf(s, c, error).1)
    && received <= row.attemptCount <= OutcomeOf(s, c, error).1
  }

  lemma FittingIsOnCourse(
    s: Settings, sc: Scenario, c: Configuration, error: Option<string>, lab: Lab)
    requires s.Valid() && LabInv(s, sc, c, error, lab)
    ensures OnCourse(s, c, error, lab.sys.db.deliveries[sc.delivery], lab.run.scenarioAttempts,
                     lab.failed)
    ensures lab.failed == 0 ==>
              ExactlyOnCourse(s, c, error, lab.sys.db.deliveries[sc.delivery],
                              lab.run.scenarioAttempts)
  {
    hide SysInv, Inv, ErrorIn, SentNumber, LedgerOf, RowChecks, UniqueAttempts, Fits;
    var db, d := lab.sys.db, sc.delivery;
    var row := db.deliveries[d];
    InvOfSys(s, lab.sys);
    RowFacts(s, db, d);
    FinalMeansEnding(sc.delivery, c, error, lab.failed, row, lab.sys.log);
    if row.status == InProgress && !SentNumber(lab.sys.log, d, row.attemptCount) {
      NothingFinalYet(d, c, error, lab.failed, row, lab.sys.log);
    }
    hide AnswersFit, HasFinal;
    if row.attemptCount >= 1 {
      var last := NumberedAttempt(s, db, d, row.attemptCount);
      var x := db.attempts[last];
      assert ExpectedAttempt(c, error, lab.failed, x);
      if x.status == Completed {
        FitsVerdict(c, error, x.number, lab.failed, x.disposition, x.httpStatus, x.excerpt);
      }
    }
  }

  lemma FinalMeansEnding(
    d: Id, c: Configuration, error: Option<string>, failed: nat, row: Delivery,
    log: seq<SendEntry>)
    requires AnswersFit(d, c, error, failed, row, log)
    ensures HasFinal(log, d) ==>
              row.status == InProgress
              || row.status == if error.Some? then DeadLettered else Delivered
  {
    hide Fits;
  }

  /** Whatever else happens beside it, and in whatever order: when every request is answered, the
      delivery is delivered at attempt k + 1 if the receiver first turns k < M bodies away,
      dead-lettered after exactly M retryable failures otherwise, and dead-lettered after one attempt
      if the body is not acceptable; until then it is active. Each request that fails in transport
      costs at most one attempt more. Every completed attempt is such a failure or carries exactly
      the receiver's evidence; when every request was answered, attempt n carries the evidence of
      the receiver's n-th answer: its status, its code and the verdict on them. */
  lemma OutcomeIsExact(
    s: Settings, sc: Scenario, c: Configuration, error: Option<string>, lab: Lab,
    steps: seq<Step>)
    requires s.Valid() && LabStart(s, sc, c, error, lab) && LabRuns(s, sc, lab, steps)
    ensures var end := LabAfter(s, sc, lab, steps);
            && sc.delivery in end.sys.db.deliveries
            && OnCourse(s, c, error, end.sys.db.deliveries[sc.delivery], end.run.scenarioAttempts,
                        end.failed)
            && (end.failed == 0 ==>
                  ExactlyOnCourse(s, c, error, end.sys.db.deliveries[sc.delivery],
                                  end.run.scenarioAttempts))
            && forall a | a in end.sys.db.attempts
                          && end.sys.db.attempts[a].deliveryId == sc.delivery ::
                 var x := end.sys.db.attempts[a];
                 && ExpectedAttempt(c, error, end.failed, x)
                 && (end.failed == 0 && x.status == Completed ==>
                       Expected(c, error, x.number, x.disposition, x.httpStatus, x.excerpt))
  {
    StartFitsLab(s, sc, c, error, lab);
    RunKeepsLabInv(s, sc, c, error, lab, steps);
    FittingIsOnCourse(s, sc, c, error, LabAfter(s, sc, lab, steps));
    hide SysInv, ExpectedAttempt, OnCourse, ExactlyOnCourse, LabAfter, LabRuns, Expected;
    var end := LabAfter(s, sc, lab, steps);
    forall a | a in end.sys.db.attempts && end.sys.db.attempts[a].deliveryId == sc.delivery
               && end.failed == 0 && end.sys.db.attempts[a].status == Completed
      ensures ExpectedAttempt(c, error, 0, end.sys.db.attempts[a])
      ensures var x := end.sys.db.attempts[a];
              Expected(c, error, x.number, x.disposition, x.httpStatus, x.excerpt)
    {
      ExpectedExactly(c, error, end.sys.db.attempts[a]);
    }
  }

  lemma ExpectedExactly(c: Configuration, error: Option<string>, x: Attempt)
    requires ExpectedAttempt(c, error, 0, x) && x.status == Completed
    ensures Expected(c, error, x.number, x.disposition, x.httpStatus, x.excerpt)
  {
    hide Expected, Fits;
    FitsExactly(c, error, x.number, x.disposition, x.httpStatus, x.excerpt);
  }

  /** What the event's body is, and stays. */
  function BodyOf(sc: Scenario, db: DB): Decoded
    requires sc.delivery in db.deliveries
    requires db.deliveries[sc.delivery].eventId in db.events
  {
    sc.decode(db.events[db.deliveries[sc.delivery].eventId].body)
  }

  /** The dead letter of a rejected body, answered at its last attempt, asks for a corrected payload
      exactly when the body is neither misrouted nor a paid order that lacks only its amount; and it
      was answered when no request failed. */
  lemma RejectedBodyBlocksReplay(
    s: Settings, sc: Scenario, c: Configuration, code: string, lab: Lab, steps: seq<Step>)
    returns (last: Id)
    requires s.Valid() && LabStart(s, sc, c, Some(code), lab) && LabRuns(s, sc, lab, steps)
    requires var end := LabAfter(s, sc, lab, steps);
             sc.delivery in end.sys.db.deliveries
             && end.sys.db.deliveries[sc.delivery].status == DeadLettered
    ensures var db := LabAfter(s, sc, lab, steps).sys.db;
            && IsLastAttempt(db, sc.delivery, last)
            && db.deliveries[sc.delivery].eventId in db.events
            && BlockOf(db, sc.delivery)
               == (if db.attempts[last].httpStatus.None?
                      || RejectedButReplayable(BodyOf(sc, db), sc.channel)
                   then None else Some(PayloadCorrectionRequired))
            && (LabAfter(s, sc, lab, steps).failed == 0 ==> db.attempts[last].httpStatus.Some?)
  {
    hide SysInv, LabAfter, LabRuns, LabEnabled, LabInv, BlockOf, Inv, FailuresFirst, LabStart,
         RejectedButReplayable;
    OutcomeIsExact(s, sc, c, Some(code), lab, steps);
    StartFitsLab(s, sc, c, Some(code), lab);
    RunKeepsLabInv(s, sc, c, Some(code), lab, steps);
    var end := LabAfter(s, sc, lab, steps);
    HasDelivery(s, sc, c, Some(code), end);
    BodyIsRejected(s, sc, c, code, end.failed, end.sys.db);
    hide RowsFit, ExpectedAttempt;
    last := LastAttemptBlocks(s, c, code, end.failed, end.sys.db, sc.delivery);
  }

  lemma BodyIsRejected(
    s: Settings, sc: Scenario, c: Configuration, code: string, failed: nat, db: DB)
    requires RowsFit(s, sc, c, Some(code), failed, db)
    ensures db.deliveries[sc.delivery].eventId in db.events
    ensures ReplayBlockCode(Some(400), Some(Coded(code)))
            == (if RejectedButReplayable(BodyOf(sc, db), sc.channel) then None
                else Some(PayloadCorrectionRequired))
  {
    hide PayloadError, ExpectedAttempt, ReplayBlockCode, RejectedButReplayable;
    RejectionBlocksReplay(BodyOf(sc, db), sc.channel,
                          sc.channel.Some? || c.mode == PermanentFailure);
  }

  lemma LastAttemptBlocks(
    s: Settings, c: Configuration, code: string, failed: nat, db: DB, d: Id)
    returns (last: Id)
    requires s.Valid() && Inv(s, db) && d in db.deliveries
    requires db.deliveries[d].status == DeadLettered && db.deliveries[d].attemptCount >= 1
    requires forall a | a in db.attempts && db.attempts[a].deliveryId == d ::
               ExpectedAttempt(c, Some(code), failed, db.attempts[a])
    ensures IsLastAttempt(db, d, last)
    ensures BlockOf(db, d) == if db.attempts[last].httpStatus.None? then None
                              else ReplayBlockCode(Some(400), Some(Coded(code)))
    ensures failed == 0 ==> db.attempts[last].httpStatus.Some?
  {
    hide Inv;
    last := NumberedAttempt(s, db, d, db.deliveries[d].attemptCount);
    forall a | a in db.attempts && db.attempts[a].deliveryId == d
      ensures db.attempts[a].number <= db.attempts[last].number
    {
      AttemptFacts(s, db, a);
    }
    forall a | IsLastAttempt(db, d, a) ensures a == last {
      InvGivesUniqueAttempts(s, db);
      OneLastAttempt(db, d, a, last);
    }
    AttemptFacts(s, db, last);
  }

  /** So a replay of it under a new key succeeds exactly in those cases, as long as nobody replayed it
      before. */
  lemma RejectedBodyReplays(
    s: Settings, sc: Scenario, c: Configuration, code: string, lab: Lab, steps: seq<Step>,
    key: string, newId: Id, now: Time, databaseNow: Time)
    returns (last: Id)
    requires s.Valid() && LabStart(s, sc, c, Some(code), lab) && LabRuns(s, sc, lab, steps)
    requires var end := LabAfter(s, sc, lab, steps);
             && sc.delivery in end.sys.db.deliveries && newId !in end.sys.db.deliveries
             && end.sys.db.deliveries[sc.delivery].status == DeadLettered && !Blank(key)
             && !(exists next :: IsSuccessor(end.sys.db, sc.delivery, next))
    ensures var db := LabAfter(s, sc, lab, steps).sys.db;
            && IsLastAttempt(db, sc.delivery, last)
            && db.deliveries[sc.delivery].eventId in db.events
            && (ReplayTx(db, ReplayBegin(db, sc.delivery, key).call, newId, now, databaseNow).1
                == Replayed(sc.delivery, newId, false)
                <==> db.attempts[last].httpStatus.None?
                     || RejectedButReplayable(BodyOf(sc, db), sc.channel))
            && (LabAfter(s, sc, lab, steps).failed == 0 ==> db.attempts[last].httpStatus.Some?)
  {
    hide SysInv, LabAfter, LabRuns, LabEnabled, LabInv, BlockOf, Inv, LabStart, IsSpace,
         RejectedButReplayable, ReplayTx, IsSuccessor;
    last := RejectedBodyBlocksReplay(s, sc, c, code, lab, steps);
    StartFitsLab(s, sc, c, Some(code), lab);
    RunKeepsLabInv(s, sc, c, Some(code), lab, steps);
    var end := LabAfter(s, sc, lab, steps);
    HasDelivery(s, sc, c, Some(code), end);
    EndpointIsEnabled(s, sc, c, Some(code), end.failed, end.sys.db);
    hide RowsFit;
    BeginFits(s, end.sys.db, sc.delivery, key);
    ReplayKeepsInv(s, end.sys.db, ReplayBegin(end.sys.db, sc.delivery, key).call, newId, now,
                   databaseNow);
  }

  lemma BeginFits(s: Settings, db: DB, d: Id, key: string)
    requires Inv(s, db) && d in db.deliveries && !Blank(key)
    ensures ReplayBegin(db, d, key) == Began(ReplayCall(d, db.deliveries[d], key))
    ensures CallFits(db, ReplayCall(d, db.deliveries[d], key))
    ensures db.deliveries[d].eventId in db.events
  {
    hide Inv, LedgerOf, RowChecks, UniqueAttempts, IsSpace;
    RowFacts(s, db, d);
  }

  // ----- the outcome is reached -----

  lemma {:induction false} FreshId(used: set<Id>) returns (id: Id)
    ensures forall x | x in used :: x < id
    decreases |used|
  {
    id := 0;
    if used != {} {
      var x :| x in used;
      var y := FreshId(used - {x});
      id := if x < y then y else x + 1;
      assert used == (used - {x}) + {x};
    }
  }

  lemma SomeAnswer(s: Settings, run: Run, q: Registry.Request) returns (result: AttemptResult)
    requires s.Valid()
    ensures AnswersFor(s, run, q, result) && WellFormed(s, result)
  {
    hide PayloadError;
    var t := Timing(0.0, 0.0, 0, 0);
    SendWebhookWellFormed(s, ReceiverAnswer(run, q), t);
    result := SendWebhook(ReceiverAnswer(run, q), s.retryAfterCap, t).value;
  }

  /** A waiting delivery can be claimed alone, while other workers hold the rows before it. */
  lemma CanBeSelected(s: Settings, db: DB, d: Id) returns (t: Time, locked: set<Id>)
    requires Inv(s, db) && d in db.deliveries
    requires db.deliveries[d].status == Pending || db.deliveries[d].status == RetryWait
    ensures Selected(db, t, locked, d)
  {
    hide Inv, LedgerOf, RowChecks, UniqueAttempts;
    RowFacts(s, db, d);
    t := db.deliveries[d].nextAttemptAt.value;
    locked := db.deliveries.Keys - {d};
  }

  /** Where the delivery stands. */
  predicate StandsAt(sc: Scenario, lab: Lab, status: DeliveryStatus, attempts: int) {
    && sc.delivery in lab.sys.db.deliveries
    && lab.sys.db.deliveries[sc.delivery].status == status
    && lab.sys.db.deliveries[sc.delivery].attemptCount == attempts
  }

  /** One undisturbed turn of a worker: claim, send, finalize. It resolves one more attempt. */
  lemma TurnResolvesOne(
    s: Settings, sc: Scenario, c: Configuration, error: Option<string>, lab: Lab,
    status: DeliveryStatus, n: int)
    returns (steps: seq<Step>, end: Lab, status': DeliveryStatus)
    requires s.Valid() && LabInv(s, sc, c, error, lab) && StandsAt(sc, lab, status, n)
    requires Waits(status)
    ensures LabRuns(s, sc, lab, steps) && LabAfter(s, sc, lab, steps) == end
    ensures LabInv(s, sc, c, error, end) && StandsAt(sc, end, status', n + 1)
    ensures status' != InProgress && end.failed == lab.failed
  {
    hide *;
    var first, h, lab1 := ClaimTurn(s, sc, c, error, lab, status, n);
    var answer := SomeAnswer(s, lab1.run, RequestFor(sc, h.webhook, 0.0));
    var second, lab2 := SendTurn(s, sc, c, error, lab1, h, answer, n + 1);
    var third;
    third, end, status' := FinalizeTurn(s, sc, c, error, lab2, h, answer, n + 1);
    LabRunsConcat(s, sc, lab, first, second);
    LabRunsConcat(s, sc, lab, first + second, third);
    steps := first + second + third;
  }

  lemma OneStep(s: Settings, sc: Scenario, lab: Lab, step: Step, lab': Lab)
    requires sc.delivery in lab.sys.db.deliveries && LabEnabled(s, sc, lab, step)
    requires lab' == LabNext(s, sc, lab, step) && sc.delivery in lab'.sys.db.deliveries
    ensures LabRuns(s, sc, lab, [step]) && LabAfter(s, sc, lab, [step]) == lab'
  {
    hide LabEnabled, LabNext;
    assert [step][1..] == [];
    assert LabRuns(s, sc, lab', []) && LabAfter(s, sc, lab', []) == lab';
  }

  lemma HasDelivery(s: Settings, sc: Scenario, c: Configuration, error: Option<string>, lab: Lab)
    requires LabInv(s, sc, c, error, lab)
    ensures sc.delivery in lab.sys.db.deliveries && SysInv(s, lab.sys)
    ensures RowsFit(s, sc, c, error, lab.failed, lab.sys.db) && Inv(s, lab.sys.db)
  {
    hide SysInv, RowsFit, AnswersFit, CountFits, Inv;
    InvOfSys(s, lab.sys);
    EndpointIsEnabled(s, sc, c, error, lab.failed, lab.sys.db);
  }

  /** The delivery is leased to the holder of this snapshot, which names its attempt. */
  predicate Leased(db: DB, h: Holding) {
    && OwnsLease(db, h.workerId, h.webhook) && NamesItsAttempt(db, h.webhook)
    && h.webhook.attemptId in db.attempts && db.attempts[h.webhook.attemptId].status == Reserved
  }

  lemma {:induction false} ClaimTurn(
    s: Settings, sc: Scenario, c: Configuration, error: Option<string>, lab: Lab,
    status: DeliveryStatus, n: int)
    returns (steps: seq<Step>, h: Holding, lab': Lab)
    requires s.Valid() && LabInv(s, sc, c, error, lab)
    requires StandsAt(sc, lab, status, n) && Waits(status)
    ensures LabRuns(s, sc, lab, steps) && LabAfter(s, sc, lab, steps) == lab'
    ensures LabInv(s, sc, c, error, lab') && StandsAt(sc, lab', InProgress, n + 1)
    ensures h in lab'.sys.ready && h.webhook.deliveryId == sc.delivery && Leased(lab'.sys.db, h)
    ensures lab'.failed == lab.failed
  {
    hide SysInv, LabInv, Inv, ClaimTx, Truncate, Constraints, PublishTx, ReplayTx, FinalizeTx,
         UsedCovers, SendFits, LabRuns, LabAfter;
    HasDelivery(s, sc, c, error, lab);
    EndpointIsEnabled(s, sc, c, error, lab.failed, lab.sys.db);
    hide RowsFit;
    var sys, d := lab.sys, sc.delivery;
    CountIsNat(s, sys.db, d);
    var t, locked := CanBeSelected(s, sys.db, d);
    var token := FreshId(sys.used);
    var attemptId := FreshId(sys.used + {token});
    var r := Reservation("worker", t, token, attemptId);
    var step := Step(Claim(d, r, t, locked), 0.0, false);
    assert Enabled(s, sys, step.action);
    assert FreshReservation(sys.db, r) by { InvOfSys(s, sys); FreshIds(s, sys, r); }
    ClaimReserves(s, sys.db, d, r, t, locked);
    h := Holding("worker", WebhookFor(Reserve(s, sys.db, d, r), d, r));
    lab' := LabNext(s, sc, lab, step);
    StepKeepsLabInv(s, sc, c, error, lab, step);
    steps := [step];
    OneStep(s, sc, lab, step, lab');
  }

  lemma CountIsNat(s: Settings, db: DB, d: Id)
    requires Inv(s, db) && d in db.deliveries
    ensures db.deliveries[d].attemptCount >= 0
  {
    hide Inv, LedgerOf, RowFits;
    RowFacts(s, db, d);
  }

  lemma {:induction false} SendTurn(
    s: Settings, sc: Scenario, c: Configuration, error: Option<string>, lab: Lab, h: Holding,
    answer: AttemptResult, n: int)
    returns (steps: seq<Step>, lab': Lab)
    requires s.Valid() && LabInv(s, sc, c, error, lab) && StandsAt(sc, lab, InProgress, n)
    requires h in lab.sys.ready && h.webhook.deliveryId == sc.delivery && Leased(lab.sys.db, h)
    requires AnswersFor(s, lab.run, RequestFor(sc, h.webhook, 0.0), answer) && WellFormed(s, answer)
    ensures LabRuns(s, sc, lab, steps) && LabAfter(s, sc, lab, steps) == lab'
    ensures LabInv(s, sc, c, error, lab') && StandsAt(sc, lab', InProgress, n)
    ensures (h, answer) in lab'.sys.answered && Leased(lab'.sys.db, h)
    ensures lab'.failed == lab.failed
  {
    hide SysInv, LabInv, AnswersFor, WellFormed, SendFits, Enabled, Next, Registry.Answered, Leased,
         LabRuns, LabAfter, RequestFor;
    ReceivedFits(s, sc, lab.run, h.webhook, answer);
    SendIsEnabled(s, lab.sys, h, answer);
    var step := Step(Send(h, Some(answer)), 0.0, true);
    StepKeepsLabInv(s, sc, c, error, lab, step);
    lab' := LabNext(s, sc, lab, step);
    steps := [step];
    OneStep(s, sc, lab, step, lab');
  }

  lemma SendIsEnabled(s: Settings, sys: System, h: Holding, answer: AttemptResult)
    requires h in sys.ready && WellFormed(s, answer)
    ensures var a := Send(h, Some(answer));
            && Enabled(s, sys, a) && Next(s, sys, a).db == sys.db
            && (h, answer) in Next(s, sys, a).answered
  {
    hide WellFormed, ClaimTx, PublishTx, ReplayTx, FinalizeTx;
  }

  lemma ReceivedFits(
    s: Settings, sc: Scenario, run: Run, w: Webhook, answer: AttemptResult)
    requires AnswersFor(s, run, RequestFor(sc, w, 0.0), answer)
    ensures SendFits(s, sc, run, w, Some(answer), 0.0, true) && !Missed(Some(answer))
  {
    hide PayloadError;
  }

  lemma {:induction false} FinalizeTurn(
    s: Settings, sc: Scenario, c: Configuration, error: Option<string>, lab: Lab, h: Holding,
    answer: AttemptResult, n: int)
    returns (steps: seq<Step>, lab': Lab, status: DeliveryStatus)
    requires s.Valid() && LabInv(s, sc, c, error, lab) && StandsAt(sc, lab, InProgress, n)
    requires (h, answer) in lab.sys.answered && h.webhook.deliveryId == sc.delivery
    requires Leased(lab.sys.db, h)
    ensures LabRuns(s, sc, lab, steps) && LabAfter(s, sc, lab, steps) == lab'
    ensures LabInv(s, sc, c, error, lab') && StandsAt(sc, lab', status, n) && status != InProgress
    ensures lab'.failed == lab.failed
  {
    hide SysInv, LabInv, Inv, WellFormed, ClaimTx, PublishTx, ReplayTx, FinalizeTx, Truncate,
         NamesItsAttempt, LabRuns, LabAfter;
    var step := Step(Finalize(h, answer, 0.0, 0.0), 0.0, false);
    HasDelivery(s, sc, c, error, lab);
    hide RowsFit;
    AnsweredFacts(s, lab.sys, h, answer);
    NamesPositive(lab.sys.db, h.webhook);
    StepKeepsLabInv(s, sc, c, error, lab, step);
    FinalizeKeepsInv(s, lab.sys.db, h.workerId, h.webhook, answer, 0.0, 0.0);
    FinalizeEffect(s, lab.sys.db, h.workerId, h.webhook, answer, 0.0, 0.0);
    lab' := LabNext(s, sc, lab, step);
    status := lab'.sys.db.deliveries[sc.delivery].status;
    steps := [step];
    OneStep(s, sc, lab, step, lab');
  }

  lemma CourseOf(
    s: Settings, sc: Scenario, c: Configuration, error: Option<string>, lab: Lab,
    status: DeliveryStatus, n: int)
    requires s.Valid() && LabInv(s, sc, c, error, lab) && StandsAt(sc, lab, status, n)
    ensures Waits(status) ==> n < s.policy.maxAttempts
    ensures !Active(status) && lab.failed == 0 ==> (status, n) == OutcomeOf(s, c, error)
  {
    hide LabInv, OutcomeOf;
    FittingIsOnCourse(s, sc, c, error, lab);
  }

  /** Whenever the delivery is not in progress, its end can still be reached: undisturbed turns of a
      worker, at most one per attempt that remains, lead there; and to the exact outcome if no
      request failed in transport before. */
  lemma {:induction false} OutcomeIsReached(
    s: Settings, sc: Scenario, c: Configuration, error: Option<string>, lab: Lab,
    status: DeliveryStatus, n: int)
    returns (steps: seq<Step>, end: Lab, final: DeliveryStatus, attempts: int)
    requires s.Valid() && LabInv(s, sc, c, error, lab) && StandsAt(sc, lab, status, n)
    requires status != InProgress
    ensures LabRuns(s, sc, lab, steps) && LabAfter(s, sc, lab, steps) == end
    ensures StandsAt(sc, end, final, attempts) && !Active(final)
    ensures lab.failed == 0 ==> (final, attempts) == OutcomeOf(s, c, error)
    decreases s.policy.maxAttempts - n
  {
    hide *;
    CourseOf(s, sc, c, error, lab, status, n);
    if Waits(status) {
      var turn, next, status' := TurnResolvesOne(s, sc, c, error, lab, status, n);
      var rest;
      rest, end, final, attempts := OutcomeIsReached(s, sc, c, error, next, status', n + 1);
      steps := turn + rest;
      LabRunsConcat(s, sc, lab, turn, rest);
    } else {
      steps, end, final, attempts := [], lab, status, n;
      StandingStill(s, sc, lab, status, n);
    }
  }

  lemma StandingStill(s: Settings, sc: Scenario, lab: Lab, status: DeliveryStatus, n: int)
    requires StandsAt(sc, lab, status, n)
    ensures LabRuns(s, sc, lab, []) && LabAfter(s, sc, lab, []) == lab
    ensures status != InProgress && !Waits(status) ==> !Active(status)
  {
    hide LabEnabled, LabNext;
  }

  lemma {:induction false} LabRunsConcat(
    s: Settings, sc: Scenario, lab: Lab, first: seq<Step>, second: seq<Step>)
    requires LabRuns(s, sc, lab, first) && LabRuns(s, sc, LabAfter(s, sc, lab, first), second)
    ensures LabRuns(s, sc, lab, first + second)
    ensures LabAfter(s, sc, lab, first + second)
            == LabAfter(s, sc, LabAfter(s, sc, lab, first), second)
    decreases |first|
  {
    hide LabEnabled, LabNext;
    if first == [] {
      assert first + second == second;
    } else {
      assert (first + second)[1..] == first[1..] + second;
      LabRunsConcat(s, sc, LabNext(s, sc, lab, first[0]), first[1..], second);
    }
  }
}
