/** What one outbound request returns to the worker
    (backend/src/eventharbor/deliveries/transport.py). The exchange itself is a parameter. */
module Transport {
  import opened Schema
  import opened Retry

  datatype Settings = Settings(policy: Policy, leaseSeconds: real, retryAfterCap: real) {
    predicate Valid() {
      policy.Valid() && leaseSeconds > 0.0 && retryAfterCap > 0.0
    }
  }

  /** The immutable values a claim hands to the sender. */
  datatype Webhook = Webhook(
    attemptId: Id, deliveryId: Id, eventId: Id, eventType: string, url: string, secret: string,
    body: Body, attemptNumber: int, leaseToken: Id, runId: Option<string>)

  datatype AttemptResult = AttemptResult(
    disposition: Disposition, httpStatus: Option<int>,
    errorType: Option<string>, errorMessage: Option<string>, excerpt: Option<Excerpt>,
    requestTimestamp: int, retryAfter: Option<real>,
    startedAt: Time, finishedAt: Time, durationMs: int)

  /** The Retry-After field of section 10.2.3 of RFC 9110, as Python reads it. */
  datatype RetryAfterField = Absent | DeltaSeconds(seconds: real) | NotFinite | HttpDate(at: Time)
    | Malformed

  datatype Exchange = TimedOut(message: string) | NetworkError(message: string)
    | Responded(status: int, retryAfter: RetryAfterField, excerpt: Excerpt)

  datatype Timing = Timing(
    startedAt: Time, finishedAt: Time, requestTimestamp: int, roundedMs: int)

  function ParseRetryAfter(field: RetryAfterField, cap: real, reference: Time): Option<real> {
    match field
    case Absent => None
    case HttpDate(at) => Some(Min(Max(at - reference, 0.0), cap))
    case DeltaSeconds(seconds) => if seconds < 0.0 then None else Some(Min(seconds, cap))
    case NotFinite => None
    case Malformed => None
  }

  function Truncate(s: string, n: nat): string { if |s| <= n then s else s[..n] }

  /** `None` is the ValueError of an impossible status code, which escapes `send_webhook`. */
  function SendWebhook(x: Exchange, cap: real, t: Timing): Option<AttemptResult> {
    var ms := if t.roundedMs < 0 then 0 else t.roundedMs;
    match x
    case TimedOut(message) =>
      Some(AttemptResult(Disposition.Retry, None, Some("timeout"), Some(Truncate(message, 1024)),
                         None, t.requestTimestamp, None, t.startedAt, t.finishedAt, ms))
    case NetworkError(message) =>
      Some(AttemptResult(Disposition.Retry, None, Some("network_error"),
                         Some(Truncate(message, 1024)),
                         None, t.requestTimestamp, None, t.startedAt, t.finishedAt, ms))
    case Responded(status, field, excerpt) =>
      var disposition := ClassifyStatusCode(status);
      if disposition.None? then None
      else
        var retryAfter := if disposition.value == Disposition.Retry
                          then ParseRetryAfter(field, cap, t.finishedAt) else None;
        Some(AttemptResult(disposition.value, Some(status), None, None, Some(excerpt),
                           t.requestTimestamp, retryAfter, t.startedAt, t.finishedAt, ms))
  }

  /** Answered with a 2xx status. */
  predicate Accepted(r: AttemptResult) {
    r.httpStatus.Some? && 200 <= r.httpStatus.value <= 299
  }

  /** Answered with a status that asks for another attempt. */
  predicate AsksForRetry(status: int) {
    status == 408 || status == 425 || status == 429 || 500 <= status <= 599
  }

  /** What the worker may rely on in a result. */
  predicate WellFormed(s: Settings, r: AttemptResult) {
    && r.durationMs >= 0 && r.requestTimestamp >= 0 && r.startedAt <= r.finishedAt
    && (r.httpStatus.Some? ==> 100 <= r.httpStatus.value <= 599)
    && (r.httpStatus.Some? <==> r.errorType.None?)
    && (Accepted(r) <==> r.disposition == Succeeded)
    && (r.disposition == Disposition.Retry
        <==> r.httpStatus.None? || AsksForRetry(r.httpStatus.value))
    && (r.retryAfter.Some? ==> 0.0 <= r.retryAfter.value <= s.retryAfterCap)
  }

  /** Every exchange that returns at all returns a well-formed result: a 2xx answer is the only
      success, 408, 425, 429 and 5xx are the answers to retry and every other one is final, a transport
      error is always retryable, and a hostile Retry-After is clamped into [0, cap] and never delays
      a success. */
  lemma SendWebhookWellFormed(s: Settings, x: Exchange, t: Timing)
    requires s.Valid() && t.startedAt <= t.finishedAt && t.requestTimestamp >= 0
    ensures SendWebhook(x, s.retryAfterCap, t).None?
            <==> x.Responded? && !(100 <= x.status <= 599)
    ensures SendWebhook(x, s.retryAfterCap, t).Some? ==>
              var r := SendWebhook(x, s.retryAfterCap, t).value;
              && WellFormed(s, r)
              && (!x.Responded? ==> r.disposition == Disposition.Retry)
              && (r.disposition != Disposition.Retry ==> r.retryAfter.None?)
  {
    if x.Responded? {
      assert ClassifyStatusCode(x.status) == Some(Succeeded) <==> 200 <= x.status <= 299;
    }
  }
}
