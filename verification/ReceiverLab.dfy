/** The Receiver Lab (backend/src/eventharbor/receiver_lab/api.py): an LRU-bounded registry of demo
    runs, each with a scenario counter and a sliding window of evidence. */
module ReceiverLab {
  import opened Schema
  import opened Retry
  import opened Transactions

  const MAX_SCOPED_RUNS: nat := 100
  const MAX_REQUESTS_PER_RUN: nat := 100
  const CONTROL_REQUEST_LIMIT: nat := 20

  datatype Mode = Success | FailThenSucceed | RateLimited | Timeout | PermanentFailure

  datatype Configuration = Configuration(mode: Mode, failures: nat, delayMs: nat)

  // ----- payload contracts -----

  /** A decoded JSON value; `Other` stands for null, floats and lists. */
  datatype Value = Text(text: string) | Integer(n: int) | Boolean(b: bool)
    | Object(fields: map<string, Value>) | Other

  datatype Decoded = NotJson | Json(value: Value)

  datatype Contract = Contract(
    route: string, requiredText: seq<string>, requiredPositive: seq<string>)

  function ContractOf(eventType: string): Option<Contract> {
    if eventType == "order.paid" then
      Some(Contract("orders", ["order_id", "customer_id", "currency"], ["amount_cents"]))
    else if eventType == "demo.order.paid" then Some(Contract("orders", ["order_id"], []))
    else if eventType == "shipment.dispatched" then
      Some(Contract("shipping", ["shipment_id", "order_id", "carrier", "tracking_number"], []))
    else if eventType == "inventory.threshold_reached" then
      Some(Contract("inventory", ["sku", "warehouse_id"],
                    ["quantity_remaining", "reorder_threshold"]))
    else None
  }

  /** `dict.get` */
  function Get(fields: map<string, Value>, name: string): Value {
    if name in fields then fields[name] else Other
  }

  predicate HasText(fields: map<string, Value>, name: string) {
    Get(fields, name).Text? && !Blank(Get(fields, name).text)
  }

  predicate HasPositive(fields: map<string, Value>, name: string) {
    Get(fields, name).Integer? && Get(fields, name).n > 0
  }

  /** The position of the first name that fails. */
  function FirstFailing(names: seq<string>, ok: string -> bool): (r: Option<nat>)
    ensures r.None? <==> forall i | 0 <= i < |names| :: ok(names[i])
    ensures r.Some? ==> r.value < |names| && !ok(names[r.value])
    ensures r.Some? ==> forall j | 0 <= j < r.value :: ok(names[j])
  {
    if names == [] then None
    else if !ok(names[0]) then Some(0)
    else
      var r := FirstFailing(names[1..], ok);
      assert forall i | 0 < i < |names| :: names[i] == names[1..][i - 1];
      if r.None? then None else Some(r.value + 1)
  }

  function StripLeft(s: string): string {
    if s != [] && IsSpace(s[0]) then StripLeft(s[1..]) else s
  }

  function StripRight(s: string): string {
    if s != [] && IsSpace(s[|s| - 1]) then StripRight(s[..|s| - 1]) else s
  }

  predicate IsCurrency(v: Value) {
    v.Text? && |StripRight(StripLeft(v.text))| == 3
  }

  function DataError(eventType: string, contract: Contract, fields: map<string, Value>)
    : Option<string>
  {
    var text := FirstFailing(contract.requiredText, name => HasText(fields, name));
    var positive := FirstFailing(contract.requiredPositive, name => HasPositive(fields, name));
    if text.Some? then Some("missing_" + contract.requiredText[text.value])
    else if positive.Some? then Some("invalid_" + contract.requiredPositive[positive.value])
    else if eventType == "order.paid" && !IsCurrency(Get(fields, "currency")) then
      Some("invalid_currency")
    else None
  }

  /** The code of `_payload_validation_error`. */
  function PayloadError(body: Decoded, channel: Option<string>, validateUnknown: bool)
    : Option<string>
  {
    if body.NotJson? then Some("invalid_json")
    else if !body.value.Object? then Some("invalid_payload")
    else
      var kind := Get(body.value.fields, "type");
      var contract := if kind.Text? then ContractOf(kind.text) else None;
      var data := Get(body.value.fields, "data");
      if contract.None? then if validateUnknown then Some("unsupported_event_type") else None
      else if channel.Some? && channel.value != contract.value.route then
        Some("wrong_receiver_route")
      else if !data.Object? then Some("invalid_data")
      else DataError(kind.text, contract.value, data.fields)
  }

  predicate MeetsData(kind: string, c: Contract, data: map<string, Value>) {
    && (forall i | 0 <= i < |c.requiredText| :: HasText(data, c.requiredText[i]))
    && (forall i | 0 <= i < |c.requiredPositive| :: HasPositive(data, c.requiredPositive[i]))
    && (kind == "order.paid" ==> IsCurrency(Get(data, "currency")))
  }

  predicate MeetsContract(kind: string, data: Value, channel: Option<string>) {
    && ContractOf(kind).Some? && data.Object?
    && (channel.Some? ==> channel.value == ContractOf(kind).value.route)
    && MeetsData(kind, ContractOf(kind).value, data.fields)
  }

  predicate IsObject(body: Decoded) { body.Json? && body.value.Object? }

  /** The body satisfies the contract of its event type, and it came by the right route; or no
      contract is known for its type and none is asked for. */
  predicate Acceptable(body: Decoded, channel: Option<string>, validateUnknown: bool) {
    IsObject(body) && AcceptableFields(body.value.fields, channel, validateUnknown)
  }

  predicate AcceptableFields(
    fields: map<string, Value>, channel: Option<string>, validateUnknown: bool)
  {
    var kind := Get(fields, "type");
    if kind.Text? && ContractOf(kind.text).Some? then
      MeetsContract(kind.text, Get(fields, "data"), channel)
    else !validateUnknown
  }

  lemma AcceptedExactlyWhenContractMet(body: Decoded, channel: Option<string>, validateUnknown: bool)
    ensures PayloadError(body, channel, validateUnknown).None?
            <==> Acceptable(body, channel, validateUnknown)
  {
    hide ContractOf, Blank, IsCurrency;
  }

  predicate IsPositiveName(name: string) {
    name == "amount_cents" || name == "quantity_remaining" || name == "reorder_threshold"
  }

  lemma PositiveNames(kind: string, i: nat)
    requires ContractOf(kind).Some? && i < |ContractOf(kind).value.requiredPositive|
    ensures IsPositiveName(ContractOf(kind).value.requiredPositive[i])
  {
  }

  predicate IsPositiveCode(code: string) {
    || code == "invalid_amount_cents"
    || code == "invalid_quantity_remaining" || code == "invalid_reorder_threshold"
  }

  lemma PositiveCodes(name: string)
    requires IsPositiveName(name)
    ensures IsPositiveCode("invalid_" + name)
  {
    assert "invalid_" + "amount_cents" == "invalid_amount_cents";
    assert "invalid_" + "quantity_remaining" == "invalid_quantity_remaining";
    assert "invalid_" + "reorder_threshold" == "invalid_reorder_threshold";
  }

  lemma {:induction false} DataErrorCodes(
    kind: string, contract: Contract, data: map<string, Value>)
    requires ContractOf(kind) == Some(contract) && DataError(kind, contract, data).Some?
    ensures var code := DataError(kind, contract, data).value;
            "missing_" <= code || IsPositiveCode(code) || code == "invalid_currency"
  {
    hide ContractOf, HasText, HasPositive, IsCurrency, Get, IsPositiveName, IsPositiveCode;
    forall i: nat | i < |contract.requiredPositive|
      ensures IsPositiveCode("invalid_" + contract.requiredPositive[i])
    {
      PositiveNames(kind, i);
      PositiveCodes(contract.requiredPositive[i]);
    }
  }

  lemma {:induction false} CodeBlocksReplay(code: string)
    requires || "missing_" <= code || code in RECEIVER_PAYLOAD_ERROR_CODES
             || code == "wrong_receiver_route" || code == "invalid_amount_cents"
    ensures ReplayBlockCode(Some(400), Some(Coded(code))).Some?
            <==> code != "wrong_receiver_route" && code != "invalid_amount_cents"
  {
    assert "missing_"[0] == 'm';
    assert "wrong_receiver_route"[0] == 'w' && |"wrong_receiver_route"| == 20;
    assert "invalid_amount_cents"[0] == 'i' && "invalid_amount_cents"[8] == 'a';
  }

  // ----- which rejections leave an unchanged replay open -----

  predicate HasContract(fields: map<string, Value>) {
    Get(fields, "type").Text? && ContractOf(Get(fields, "type").text).Some?
  }

  /** A known event type that came by the route of another. */
  predicate CameByWrongRoute(fields: map<string, Value>, channel: Option<string>) {
    && HasContract(fields) && channel.Some?
    && channel.value != ContractOf(Get(fields, "type").text).value.route
  }

  /** A paid order that is complete but for its amount. */
  predicate LacksOnlyAmount(fields: map<string, Value>) {
    && Get(fields, "type") == Text("order.paid") && Get(fields, "data").Object?
    && LacksOnlyAmountIn(Get(fields, "data").fields)
  }

  predicate LacksOnlyAmountIn(data: map<string, Value>) {
    && HasText(data, "order_id") && HasText(data, "customer_id") && HasText(data, "currency")
    && !HasPositive(data, "amount_cents")
  }

  /** What a sender can look at: the body is rejected, and yet may be replayed unchanged. */
  predicate RejectedButReplayable(body: Decoded, channel: Option<string>) {
    && IsObject(body)
    && (CameByWrongRoute(body.value.fields, channel) || LacksOnlyAmount(body.value.fields))
  }

  lemma {:induction false} PaidOrderError(data: map<string, Value>)
    ensures var c := ContractOf("order.paid").value;
            DataError("order.paid", c, data) == Some("invalid_amount_cents")
            <==> LacksOnlyAmountIn(data)
  {
    hide HasText, HasPositive, IsCurrency;
    var c := ContractOf("order.paid").value;
    assert c.requiredText == ["order_id", "customer_id", "currency"];
    assert c.requiredPositive == ["amount_cents"];
    assert "invalid_" + "amount_cents" == "invalid_amount_cents";
    TextCodes(c, data);
    assert "invalid_currency"[8] == 'c' && "invalid_amount_cents"[8] == 'a';
  }

  /** A missing text is never reported as an amount. */
  lemma TextCodes(c: Contract, data: map<string, Value>)
    ensures forall i | 0 <= i < |c.requiredText| ::
              "missing_" + c.requiredText[i] != "invalid_amount_cents"
  {
    forall i | 0 <= i < |c.requiredText|
      ensures "missing_" + c.requiredText[i] != "invalid_amount_cents"
    {
      assert ("missing_" + c.requiredText[i])[0] == 'm';
    }
  }

  /** No other contract asks for an amount. */
  lemma {:induction false} OtherErrors(kind: string, data: map<string, Value>)
    requires kind != "order.paid" && ContractOf(kind).Some?
    ensures DataError(kind, ContractOf(kind).value, data) != Some("invalid_amount_cents")
  {
    hide HasText, HasPositive, IsCurrency;
    var c := ContractOf(kind).value;
    TextCodes(c, data);
    forall i | 0 <= i < |c.requiredPositive|
      ensures "invalid_" + c.requiredPositive[i] != "invalid_amount_cents"
    {
      var code := "invalid_" + c.requiredPositive[i];
      assert c.requiredPositive == ["quantity_remaining", "reorder_threshold"];
      assert code[8] == c.requiredPositive[i][0];
      assert "quantity_remaining"[0] == 'q' && "reorder_threshold"[0] == 'r';
      assert "invalid_amount_cents"[8] == 'a';
    }
  }

  /** The two codes that do not block a replay, in terms of the body and its route. */
  lemma {:induction false} TheTwoCodes(
    body: Decoded, channel: Option<string>, validateUnknown: bool)
    requires PayloadError(body, channel, validateUnknown).Some?
    ensures var code := PayloadError(body, channel, validateUnknown).value;
            code == "wrong_receiver_route" || code == "invalid_amount_cents"
            <==> RejectedButReplayable(body, channel)
  {
    hide ContractOf, DataError, Get, HasText, HasPositive, IsCurrency, LacksOnlyAmountIn;
    var code := PayloadError(body, channel, validateUnknown).value;
    DistinctCodes();
    if IsObject(body) {
      var kind, data := Get(body.value.fields, "type"), Get(body.value.fields, "data");
      PaidOrderIsKnown();
      if HasContract(body.value.fields) && data.Object? {
        var contract := ContractOf(kind.text).value;
        DataErrorIsNoRoute(kind.text, contract, data.fields);
        if kind.text == "order.paid" {
          PaidOrderError(data.fields);
        } else {
          OtherErrors(kind.text, data.fields);
        }
      }
    }
  }

  lemma PaidOrderIsKnown()
    ensures ContractOf("order.paid").Some?
  {
  }

  lemma DistinctCodes()
    ensures "wrong_receiver_route" != "invalid_amount_cents"
    ensures forall code | code in ["invalid_json", "invalid_payload", "unsupported_event_type",
                                   "invalid_data"] ::
              code != "wrong_receiver_route" && code != "invalid_amount_cents"
  {
    assert |"wrong_receiver_route"| == 20 && |"invalid_amount_cents"| == 20;
    assert "wrong_receiver_route"[0] == 'w' && "invalid_amount_cents"[0] == 'i';
    assert |"invalid_json"| == 12 && |"invalid_payload"| == 15 && |"invalid_data"| == 12;
    assert |"unsupported_event_type"| == 22;
  }

  lemma {:induction false} DataErrorIsNoRoute(
    kind: string, contract: Contract, data: map<string, Value>)
    requires ContractOf(kind) == Some(contract)
    ensures DataError(kind, contract, data) != Some("wrong_receiver_route")
  {
    hide ContractOf, DataError;
    if DataError(kind, contract, data).Some? {
      DataErrorCodes(kind, contract, data);
      assert "missing_"[0] == 'm' && "wrong_receiver_route"[0] == 'w';
      assert "invalid_amount_cents"[0] == 'i' && "invalid_currency"[0] == 'i';
      assert "invalid_quantity_remaining"[0] == 'i' && "invalid_reorder_threshold"[0] == 'i';
    }
  }

  /** A rejection asks for a corrected payload exactly when the body is not one of two kinds: a known
      event that came by another route, or a paid order complete but for a positive amount, whose
      code the worker's list lacks. Those two may be replayed unchanged. */
  lemma {:induction false} RejectionBlocksReplay(
    body: Decoded, channel: Option<string>, validateUnknown: bool)
    requires PayloadError(body, channel, validateUnknown).Some?
    ensures var code := PayloadError(body, channel, validateUnknown).value;
            && ReplayBlockCode(Some(400), Some(Coded(code)))
               == (if RejectedButReplayable(body, channel) then None
                   else Some(PayloadCorrectionRequired))
            && (RejectedButReplayable(body, channel)
                <==> code == "wrong_receiver_route" || code == "invalid_amount_cents")
  {
    TheTwoCodes(body, channel, validateUnknown);
    hide RejectedButReplayable, ReplayBlockCode;
    var code := PayloadError(body, channel, validateUnknown).value;
    EmittedCodes(body, channel, validateUnknown);
    hide PayloadError;
    CodeBlocksReplay(code);
    BlockIsCorrection(code);
  }

  lemma BlockIsCorrection(code: string)
    ensures ReplayBlockCode(Some(400), Some(Coded(code))).Some? ==>
              ReplayBlockCode(Some(400), Some(Coded(code))) == Some(PayloadCorrectionRequired)
  {
  }

  lemma {:induction false} EmittedCodes(
    body: Decoded, channel: Option<string>, validateUnknown: bool)
    requires PayloadError(body, channel, validateUnknown).Some?
    ensures var code := PayloadError(body, channel, validateUnknown).value;
            || "missing_" <= code || code in RECEIVER_PAYLOAD_ERROR_CODES
            || code == "wrong_receiver_route" || code == "invalid_amount_cents"
  {
    hide ContractOf, DataError, Get;
    if IsObject(body) {
      var kind, data := Get(body.value.fields, "type"), Get(body.value.fields, "data");
      if HasContract(body.value.fields) && data.Object?
         && DataError(kind.text, ContractOf(kind.text).value, data.fields).Some? {
        DataErrorCodes(kind.text, ContractOf(kind.text).value, data.fields);
      }
    }
  }

  /** Both kinds are rejected, whatever the mode. */
  lemma {:induction false} ReplayableIsRejected(
    body: Decoded, channel: Option<string>, validateUnknown: bool)
    requires RejectedButReplayable(body, channel)
    ensures PayloadError(body, channel, validateUnknown).Some?
  {
    hide ContractOf, HasText, HasPositive, IsCurrency, LacksOnlyAmountIn, DataError;
    PaidOrderIsKnown();
    if !CameByWrongRoute(body.value.fields, channel) {
      PaidOrderError(Get(body.value.fields, "data").fields);
    }
  }

  function PaidData(amount: int): map<string, Value> {
    map["order_id" := Text("o-1"), "customer_id" := Text("c-1"), "currency" := Text("EUR"),
        "amount_cents" := Integer(amount)]
  }

  function PaidOrder(amount: int): Decoded {
    Json(Object(map["type" := Text("order.paid"), "data" := Object(PaidData(amount))]))
  }

  lemma ZeroAmountData()
    ensures LacksOnlyAmountIn(PaidData(0))
  {
    hide Blank, ContractOf;
    NotBlank("o-1", 0);
    NotBlank("c-1", 0);
    NotBlank("EUR", 0);
  }

  /** A paid order of zero cents, on its own route: rejected, and not blocked. */
  lemma ZeroAmountIsNotBlocked()
    ensures PayloadError(PaidOrder(0), Some("orders"), true) == Some("invalid_amount_cents")
    ensures ReplayBlockCode(Some(400), Some(Coded("invalid_amount_cents"))).None?
  {
    hide PaidData, DataError, LacksOnlyAmountIn;
    ZeroAmountData();
    PaidOrderError(PaidData(0));
    CodeBlocksReplay("invalid_amount_cents");
  }

  /** A valid paid order sent to the shipping route: rejected, and not blocked. */
  lemma WrongRouteIsNotBlocked()
    ensures PayloadError(PaidOrder(100), Some("shipping"), true) == Some("wrong_receiver_route")
    ensures ReplayBlockCode(Some(400), Some(Coded("wrong_receiver_route"))).None?
  {
    CodeBlocksReplay("wrong_receiver_route");
  }

  lemma NotBlank(s: string, i: nat)
    requires i < |s| && s[i] in "EUoc"
    ensures !Blank(s)
  {
    assert s[i] in s && !IsSpace(s[i]);
  }
}
