/** Retry classification and backoff (backend/src/eventharbor/deliveries/retry.py) and the
    delivery lifecycle (backend/src/eventharbor/deliveries/state_machine.py). */
module Retry {
  import opened Schema

  /** `RetryPolicy`, in real arithmetic. */
  datatype Policy = Policy(maxAttempts: int, baseDelay: real, maxDelay: real) {
    predicate Valid() {
      maxAttempts >= 1 && baseDelay > 0.0 && maxDelay >= baseDelay
    }
  }

  predicate HasAttemptRemaining(p: Policy, completed: int) {
    completed < p.maxAttempts
  }

  function Pow2(n: nat): (r: real)
    ensures r >= 1.0
  {
    if n == 0 then 1.0 else 2.0 * Pow2(n - 1)
  }

  function Min(x: real, y: real): real { if x <= y then x else y }

  function Max(x: real, y: real): real { if x >= y then x else y }

  /** The longest delay the policy allows after `completed` failures. */
  function Ceiling(p: Policy, completed: int): real
    requires completed >= 1
  {
    Min(p.maxDelay, p.baseDelay * Pow2(completed - 1))
  }

  function DelaySeconds(p: Policy, completed: int, fraction: real): real
    requires completed >= 1
  {
    Ceiling(p, completed) * fraction
  }

  /** The window after the n-th failure: the base delay at first, then twice the one before, never
      more than the maximum. */
  function Window(p: Policy, n: nat): (window: real)
    requires n >= 1
  {
    if n == 1 then p.baseDelay
    else if 2.0 * Window(p, n - 1) <= p.maxDelay then 2.0 * Window(p, n - 1)
    else p.maxDelay
  }

  lemma {:induction false} CeilingIsWindow(p: Policy, n: nat)
    requires p.Valid() && n >= 1
    ensures Ceiling(p, n) == Window(p, n)
  {
    if n == 1 {
      assert Pow2(0) == 1.0;
    } else {
      CeilingIsWindow(p, n - 1);
      var before := p.baseDelay * Pow2(n - 2);
      assert p.baseDelay * Pow2(n - 1) == 2.0 * before;
    }
  }

  /** The delay is the jitter's share of the window. So it stays between zero and the ceiling, and the
      ceiling never shrinks. */
  lemma DelayWithinCeiling(p: Policy, completed: int, fraction: real)
    requires p.Valid() && completed >= 1 && 0.0 <= fraction <= 1.0
    ensures DelaySeconds(p, completed, fraction) == fraction * Window(p, completed)
    ensures 0.0 <= DelaySeconds(p, completed, fraction) <= Ceiling(p, completed) <= p.maxDelay
    ensures 0.0 < Ceiling(p, completed) <= Ceiling(p, completed + 1)
  {
    var c := Ceiling(p, completed);
    assert p.baseDelay * Pow2(completed - 1) >= p.baseDelay * 1.0;
    assert p.baseDelay * Pow2(completed) == 2.0 * (p.baseDelay * Pow2(completed - 1));
    assert c * (1.0 - fraction) >= 0.0;
    CeilingIsWindow(p, completed);
    assert c * fraction == fraction * c;
  }

  const RETRYABLE_STATUS_CODES := {408, 425, 429}

  /** `None` is the ValueError raised for a status outside 100..599. */
  function ClassifyStatusCode(code: int): Option<Disposition> {
    if !(100 <= code <= 599) then None
    else if 200 <= code <= 299 then Some(Succeeded)
    else if code in RETRYABLE_STATUS_CODES || code >= 500 then Some(Disposition.Retry)
    else Some(TerminalFailure)
  }

  datatype BlockCode = EndpointDisabled | PayloadCorrectionRequired

  const RECEIVER_PAYLOAD_ERROR_CODES := {
    "invalid_json", "invalid_payload", "invalid_data", "unsupported_event_type",
    "invalid_currency", "invalid_quantity_remaining", "invalid_reorder_threshold" }

  function ReplayBlockCode(httpStatus: Option<int>, excerpt: Option<Excerpt>): Option<BlockCode> {
    if httpStatus != Some(400) || excerpt.None? then None
    else if !excerpt.value.Coded? then None
    else if "missing_" <= excerpt.value.code || excerpt.value.code in RECEIVER_PAYLOAD_ERROR_CODES
    then Some(PayloadCorrectionRequired)
    else None
  }

  // ----- delivery lifecycle -----

  function AllowedTransitions(current: DeliveryStatus): set<DeliveryStatus> {
    match current
    case Pending => {InProgress, DeadLettered}
    case InProgress => {Delivered, RetryWait, DeadLettered}
    case RetryWait => {InProgress, DeadLettered}
    case Delivered => {}
    case DeadLettered => {}
  }
}
