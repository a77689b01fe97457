/** What an answer makes of its delivery, said on the status code, the Retry-After field and the
    columns (backend/src/eventharbor/deliveries/retry.py, transport.py, worker.py). */
module Answers {
  import opened Schema
  import opened Retry
  import opened Transport
  import opened Transactions
  import opened Invariants
  import opened WorkerProofs
  import opened Claims

  // ----- the exchange -----

  /** What the exchange calls for: an answer by its status, anything else another attempt. */
  function DispositionFor(x: Exchange): Disposition {
    if !x.Responded? then Disposition.Retry
    else if 200 <= x.status <= 299 then Succeeded
    else if AsksForRetry(x.status) then Disposition.Retry
    else TerminalFailure
  }

  /** How long the Retry-After field asks to wait; nothing if it is absent, malformed, negative or not
      finite. */
  function Asked(x: Exchange, cap: real, finishedAt: Time): Option<real> {
    if !x.Responded? || DispositionFor(x) != Disposition.Retry then None
    else
      match x.retryAfter
      case DeltaSeconds(seconds) =>
        if seconds < 0.0 then None else if seconds <= cap then Some(seconds) else Some(cap)
      case HttpDate(at) =>
        if at <= finishedAt then Some(0.0)
        else if at - finishedAt <= cap then Some(at - finishedAt)
        else Some(cap)
      case _ => None
  }

  /** The whole result of an exchange: an answer keeps its status and its excerpt and no error, a
      failure keeps its kind and the first 1,024 characters of its message. An answer outside
      100..599 has no result. */
  lemma ResultOfExchange(x: Exchange, cap: real, t: Timing)
    requires cap > 0.0
    ensures SendWebhook(x, cap, t).None? <==> x.Responded? && !(100 <= x.status <= 599)
    ensures SendWebhook(x, cap, t).Some? ==>
              var r := SendWebhook(x, cap, t).value;
              && r.disposition == DispositionFor(x) && r.retryAfter == Asked(x, cap, t.finishedAt)
              && r.requestTimestamp == t.requestTimestamp && r.startedAt == t.startedAt
              && r.finishedAt == t.finishedAt
              && r.durationMs == (if t.roundedMs >= 0 then t.roundedMs else 0)
              && (x.Responded? ==>
                    && r.httpStatus == Some(x.status) && r.excerpt == Some(x.excerpt)
                    && r.errorType.None? && r.errorMessage.None?)
              && (!x.Responded? ==>
                    && r.httpStatus.None? && r.excerpt.None?
                    && r.errorType == Some(if x.TimedOut? then "timeout" else "network_error")
                    && IsStart(r.errorMessage, x.message, 1024))
  {
    if !x.Responded? {
      TruncateIsStart(x.message, 1024);
    }
  }

  // ----- the wait -----

  /** How long after its result the next attempt is scheduled. */
  function WaitFor(s: Settings, number: nat, jitter: real, asked: Option<real>): real
    requires number >= 1
  {
    var wait := jitter * Window(s.policy, number);
    if asked.Some? && asked.value > wait then asked.value else wait
  }

  lemma DelayIsTheWait(s: Settings, w: Webhook, result: AttemptResult, jitter: real)
    requires s.Valid() && w.attemptNumber >= 1
    ensures RetryDelay(s, w, result, jitter)
            == if result.disposition == Disposition.Retry && w.attemptNumber < s.policy.maxAttempts
               then Some(WaitFor(s, w.attemptNumber, jitter, result.retryAfter)) else None
  {
    hide Window, Ceiling;
    CeilingIsWindow(s.policy, w.attemptNumber);
    assert jitter * Window(s.policy, w.attemptNumber)
           == Ceiling(s.policy, w.attemptNumber) * jitter;
  }

  // ----- the rows -----

  /** The text a delivery shows for a result that was not a success. */
  predicate ShowsError(column: Option<string>, x: Exchange) {
    match x
    case Responded(status, _, _) =>
      && column.Some? && |column.value| == 8 && column.value[..5] == "HTTP "
      && IsDigit(column.value[5], status / 100) && IsDigit(column.value[6], status / 10 % 10)
      && IsDigit(column.value[7], status % 10)
    case TimedOut(message) => IsStart(column, "timeout: " + Detail(message), 2048)
    case NetworkError(message) => IsStart(column, "network_error: " + Detail(message), 2048)
  }

  predicate IsDigit(c: char, n: int) { c as int == '0' as int + n }

  function Detail(message: string): string {
    if message == "" then "outbound request failed"
    else if |message| <= 1024 then message else message[..1024]
  }

  /** The delivery after an accepted result. */
  predicate RowSettled(
    s: Settings, row: Delivery, row': Delivery, number: nat, x: Exchange, t: Timing, now: Time,
    jitter: real)
    requires number >= 1
  {
    var again := DispositionFor(x) == Disposition.Retry && number < s.policy.maxAttempts;
    && SamePlace(row, row') && row'.createdAt == row.createdAt
    && row'.attemptCount == row.attemptCount && row'.updatedAt == now
    && row'.leaseOwner.None? && row'.leaseToken.None? && row'.leaseExpiresAt.None?
    && row'.status == (if DispositionFor(x) == Succeeded then Delivered
                       else if again then RetryWait else DeadLettered)
    && row'.deliveredAt == (if DispositionFor(x) == Succeeded then Some(now) else None)
    && row'.nextAttemptAt
       == (if again
           then Some(now + WaitFor(s, number, jitter, Asked(x, s.retryAfterCap, t.finishedAt)))
           else None)
    && (if DispositionFor(x) == Succeeded then row'.lastError.None?
        else ShowsError(row'.lastError, x))
  }

  /** The attempt after its result: everything the exchange came to, and when the retry is due. */
  predicate AttemptCompleted(
    a: Attempt, a': Attempt, result: AttemptResult, nextAttemptAt: Option<Time>, now: Time)
  {
    && a'.deliveryId == a.deliveryId && a'.number == a.number && a'.leaseToken == a.leaseToken
    && a'.createdAt == a.createdAt && a'.status == Completed && a'.resolvedAt == Some(now)
    && a'.disposition == Some(result.disposition) && a'.httpStatus == result.httpStatus
    && a'.errorType == result.errorType && a'.errorMessage == result.errorMessage
    && a'.excerpt == result.excerpt && a'.durationMs == Some(result.durationMs)
    && a'.requestTimestamp == Some(result.requestTimestamp)
    && a'.startedAt == Some(result.startedAt) && a'.finishedAt == Some(result.finishedAt)
    && a'.retryScheduledFor == nextAttemptAt
  }

  lemma DigitsOfStatus(status: int)
    requires 100 <= status <= 599
    ensures |DigitsOf(status)| == 3
    ensures IsDigit(DigitsOf(status)[0], status / 100)
    ensures IsDigit(DigitsOf(status)[1], status / 10 % 10)
    ensures IsDigit(DigitsOf(status)[2], status % 10)
  {
    var hundreds, tens := status / 100, status / 10;
    assert hundreds < 10 && tens / 10 == hundreds;
    Digit(hundreds);
    Digit(tens % 10);
    Digit(status % 10);
    assert DigitsOf(hundreds) == ["0123456789"[hundreds]];
    assert DigitsOf(tens) == DigitsOf(hundreds) + ["0123456789"[tens % 10]];
    assert DigitsOf(status) == DigitsOf(tens) + ["0123456789"[status % 10]];
  }

  lemma Digit(n: int)
    requires 0 <= n < 10
    ensures IsDigit("0123456789"[n], n)
  {
  }

  /** Anything but a success leaves its error on the delivery. */
  lemma ErrorIsShown(x: Exchange, cap: real, t: Timing)
    requires cap > 0.0 && SendWebhook(x, cap, t).Some?
    ensures DispositionFor(x) == Succeeded ==> LastError(SendWebhook(x, cap, t).value).None?
    ensures DispositionFor(x) != Succeeded ==>
              ShowsError(LastError(SendWebhook(x, cap, t).value), x)
  {
    hide DispositionFor, DigitsOf, Truncate, IsStart, Asked;
    ResultOfExchange(x, cap, t);
    var r := SendWebhook(x, cap, t).value;
    if x.Responded? {
      DigitsOfStatus(x.status);
      assert ("HTTP " + DigitsOf(x.status))[..5] == "HTTP ";
    } else {
      MessageIsDetail(x.message);
      TruncateIsStart(r.errorType.value + ": " + Detail(x.message), 2048);
      assert "timeout" + ": " == "timeout: ";
      assert "network_error" + ": " == "network_error: ";
    }
  }

  lemma MessageIsDetail(message: string)
    ensures Detail(message)
            == if Truncate(message, 1024) != "" then Truncate(message, 1024)
               else "outbound request failed"
  {
  }

  /** What an accepted result schedules: another attempt after the wait, for a result to retry below the
      budget, and otherwise none. */
  predicate SchedulesNext(
    s: Settings, row: Delivery, number: nat, result: AttemptResult, now: Time, jitter: real)
    requires number >= 1
  {
    if result.disposition == Disposition.Retry && number < s.policy.maxAttempts then
      && row.status == RetryWait
      && row.nextAttemptAt == Some(now + WaitFor(s, number, jitter, result.retryAfter))
    else
      && row.status == (if result.disposition == Succeeded then Delivered else DeadLettered)
      && row.nextAttemptAt.None?
  }

  lemma ResultSchedulesNext(
    s: Settings, db: DB, workerId: string, w: Webhook, result: AttemptResult, now: Time, jitter: real)
    requires s.Valid() && w.attemptNumber >= 1
    requires FinalizeTx(s, db, workerId, w, result, now, jitter).1 == Finalized
    ensures var db' := FinalizeTx(s, db, workerId, w, result, now, jitter).0;
            && w.deliveryId in db'.deliveries
            && SchedulesNext(s, db'.deliveries[w.deliveryId], w.attemptNumber, result, now, jitter)
  {
    hide Constraints, Truncate, RetryDelay, LastError, WaitFor;
    DelayIsTheWait(s, w, result, jitter);
  }

  /** An accepted result, from the exchange to the rows: a 2xx answer delivers; a failure, 408, 425,
      429 or 5xx below the budget waits, for the jittered window or for what the receiver asked,
      whichever is longer; everything else is dead-lettered at once. The attempt keeps the whole
      exchange, and every other row stays. */
  lemma ExchangeDecidesTheRow(
    s: Settings, db: DB, workerId: string, w: Webhook, x: Exchange, t: Timing, now: Time,
    jitter: real)
    requires s.Valid() && w.attemptNumber >= 1
    requires SendWebhook(x, s.retryAfterCap, t).Some?
    requires FinalizeTx(s, db, workerId, w, SendWebhook(x, s.retryAfterCap, t).value, now, jitter).1
             == Finalized
    ensures var result := SendWebhook(x, s.retryAfterCap, t).value;
            var db' := FinalizeTx(s, db, workerId, w, result, now, jitter).0;
            var d, a := w.deliveryId, w.attemptId;
            && d in db.deliveries && a in db.attempts && d in db'.deliveries && a in db'.attempts
            && db'.endpoints == db.endpoints && db'.events == db.events
            && db'.deliveries == db.deliveries[d := db'.deliveries[d]]
            && db'.attempts == db.attempts[a := db'.attempts[a]]
            && db.deliveries[d].status == InProgress
            && RowSettled(s, db.deliveries[d], db'.deliveries[d], w.attemptNumber, x, t, now, jitter)
            && AttemptCompleted(db.attempts[a], db'.attempts[a], result,
                                db'.deliveries[d].nextAttemptAt, now)
  {
    hide Constraints, Truncate, RetryDelay, LastError, DispositionFor, Asked, WaitFor, ShowsError,
         SendWebhook;
    ResultOfExchange(x, s.retryAfterCap, t);
    ErrorIsShown(x, s.retryAfterCap, t);
    DelayIsTheWait(s, w, SendWebhook(x, s.retryAfterCap, t).value, jitter);
  }
}
