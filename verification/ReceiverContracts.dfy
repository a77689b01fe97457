/** What the Receiver Lab demands of each event type and answers to it, field by field and with its
    numbers (backend/src/eventharbor/receiver_lab/api.py). */
module ReceiverContracts {
  import opened Schema
  import opened Transactions
  import opened ServiceProofs
  import opened ReceiverLab
  import opened ReceiverRegistry

  /** A string that is not all white space. */
  predicate TextAt(data: map<string, Value>, name: string) {
    && name in data && data[name].Text?
    && exists c :: c in data[name].text && !IsWhite(c as int)
  }

  /** A positive integer; a boolean is none. */
  predicate PositiveAt(data: map<string, Value>, name: string) {
    name in data && data[name].Integer? && data[name].n > 0
  }

  /** Three characters, the outer two of them visible, and nothing but white space around them. */
  ghost predicate ThreeLettersAt(data: map<string, Value>, name: string) {
    name in data && data[name].Text? && ThreeLetters(data[name].text)
  }

  ghost predicate ThreeLetters(text: string) {
    exists i, j :: 0 <= i < j <= |text| && j == i + 3 && StandsAlone(text, i, j)
  }

  /** The part of the text between i and j starts and ends visibly, and only white space is outside. */
  predicate StandsAlone(text: string, i: int, j: int)
    requires 0 <= i < j <= |text|
  {
    && !IsWhite(text[i] as int) && !IsWhite(text[j - 1] as int)
    && (forall k | 0 <= k < i :: IsWhite(text[k] as int))
    && (forall k | j <= k < |text| :: IsWhite(text[k] as int))
  }

  lemma TextOnCharacters(data: map<string, Value>, name: string)
    ensures HasText(data, name) <==> TextAt(data, name)
  {
    hide IsSpace, IsWhite;
    forall c { SpacesAreWhite(c); }
  }

  lemma {:induction false} LeftStrips(text: string) returns (i: nat)
    ensures i <= |text| && StripLeft(text) == text[i..]
    ensures forall k | 0 <= k < i :: IsWhite(text[k] as int)
    ensures i < |text| ==> !IsWhite(text[i] as int)
  {
    hide IsSpace, IsWhite;
    forall c { SpacesAreWhite(c); }
    if text != [] && IsSpace(text[0]) {
      var j := LeftStrips(text[1..]);
      i := j + 1;
      assert text[1..][j..] == text[i..];
      forall k | 0 <= k < i ensures IsWhite(text[k] as int) {
        assert k > 0 ==> text[k] == text[1..][k - 1];
      }
    } else {
      i := 0;
    }
  }

  lemma {:induction false} RightStrips(text: string) returns (j: nat)
    ensures j <= |text| && StripRight(text) == text[..j]
    ensures forall k | j <= k < |text| :: IsWhite(text[k] as int)
    ensures j > 0 ==> !IsWhite(text[j - 1] as int)
  {
    hide IsSpace, IsWhite;
    forall c { SpacesAreWhite(c); }
    if text != [] && IsSpace(text[|text| - 1]) {
      var shorter := text[..|text| - 1];
      j := RightStrips(shorter);
      assert shorter[..j] == text[..j];
    } else {
      j := |text|;
      assert text[..j] == text;
    }
  }

  lemma CurrencyOnCharacters(text: string)
    ensures IsCurrency(Text(text)) <==> ThreeLetters(text)
  {
    hide IsWhite, StripLeft, StripRight;
    var i := LeftStrips(text);
    var j := RightStrips(text[i..]);
    var right := text[i..];
    assert forall k | 0 <= k < |right| :: right[k] == text[i + k];
    assert forall k | i + j <= k < |text| :: text[k] == right[k - i];
    if |StripRight(right)| == 3 {
      assert StandsAlone(text, i, i + 3);
    }
    if ThreeLetters(text) {
      var m, n :| 0 <= m < n <= |text| && n == m + 3 && StandsAlone(text, m, n);
      assert m == i;
      assert right[j - 1] == text[i + j - 1];
    }
  }

  lemma CurrencyAt(data: map<string, Value>)
    ensures IsCurrency(Get(data, "currency")) <==> ThreeLettersAt(data, "currency")
  {
    hide IsCurrency, ThreeLetters;
    if Get(data, "currency").Text? {
      CurrencyOnCharacters(Get(data, "currency").text);
    }
    NotText(Get(data, "currency"));
  }

  lemma NotText(v: Value)
    ensures !v.Text? ==> !IsCurrency(v)
  {
  }

  // ----- each contract -----

  /** The code for a paid order's data, and so on for the other types. */
  ghost function PaidOrderCode(data: map<string, Value>): Option<string> {
    if !TextAt(data, "order_id") then Some("missing_order_id")
    else if !TextAt(data, "customer_id") then Some("missing_customer_id")
    else if !TextAt(data, "currency") then Some("missing_currency")
    else if !PositiveAt(data, "amount_cents") then Some("invalid_amount_cents")
    else if !ThreeLettersAt(data, "currency") then Some("invalid_currency")
    else None
  }

  function DemoOrderCode(data: map<string, Value>): Option<string> {
    if !TextAt(data, "order_id") then Some("missing_order_id") else None
  }

  function ShipmentCode(data: map<string, Value>): Option<string> {
    if !TextAt(data, "shipment_id") then Some("missing_shipment_id")
    else if !TextAt(data, "order_id") then Some("missing_order_id")
    else if !TextAt(data, "carrier") then Some("missing_carrier")
    else if !TextAt(data, "tracking_number") then Some("missing_tracking_number")
    else None
  }

  function InventoryCode(data: map<string, Value>): Option<string> {
    if !TextAt(data, "sku") then Some("missing_sku")
    else if !TextAt(data, "warehouse_id") then Some("missing_warehouse_id")
    else if !PositiveAt(data, "quantity_remaining") then Some("invalid_quantity_remaining")
    else if !PositiveAt(data, "reorder_threshold") then Some("invalid_reorder_threshold")
    else None
  }

  ghost function DataCode(kind: string, data: map<string, Value>): Option<string> {
    if kind == "order.paid" then PaidOrderCode(data)
    else if kind == "demo.order.paid" then DemoOrderCode(data)
    else if kind == "shipment.dispatched" then ShipmentCode(data)
    else if kind == "inventory.threshold_reached" then InventoryCode(data)
    else None
  }

  function RouteOf(kind: string): Option<string> {
    if kind == "order.paid" || kind == "demo.order.paid" then Some("orders")
    else if kind == "shipment.dispatched" then Some("shipping")
    else if kind == "inventory.threshold_reached" then Some("inventory")
    else None
  }

  /** The code that rejects a body, field by field in the order the fields are looked at. */
  lemma RejectedFieldByField(body: Decoded, channel: Option<string>, validateUnknown: bool)
    ensures PayloadError(body, channel, validateUnknown)
            == if body.NotJson? then Some("invalid_json")
               else if !body.value.Object? then Some("invalid_payload")
               else
                 var fields := body.value.fields;
                 if !("type" in fields && fields["type"].Text?
                      && RouteOf(fields["type"].text).Some?)
                 then if validateUnknown then Some("unsupported_event_type") else None
                 else if channel.Some? && channel != RouteOf(fields["type"].text) then
                   Some("wrong_receiver_route")
                 else if !("data" in fields && fields["data"].Object?) then Some("invalid_data")
                 else DataCode(fields["type"].text, fields["data"].fields)
  {
    hide DataError, DataCode;
    if body.Json? && body.value.Object? && "type" in body.value.fields
       && body.value.fields["type"].Text? {
      var kind := body.value.fields["type"].text;
      RoutesAgree(kind);
      if RouteOf(kind).Some? && "data" in body.value.fields && body.value.fields["data"].Object? {
        DataFieldByField(kind, body.value.fields["data"].fields);
      }
    }
  }

  lemma RoutesAgree(kind: string)
    ensures RouteOf(kind)
            == if ContractOf(kind).Some? then Some(ContractOf(kind).value.route) else None
  {
  }

  lemma DataFieldByField(kind: string, data: map<string, Value>)
    requires ContractOf(kind).Some?
    ensures DataError(kind, ContractOf(kind).value, data) == DataCode(kind, data)
  {
    hide DataError, PaidOrderCode, DemoOrderCode, ShipmentCode, InventoryCode;
    if kind == "order.paid" {
      PaidOrderFieldByField(data);
    } else if kind == "demo.order.paid" {
      DemoOrderFieldByField(data);
    } else if kind == "shipment.dispatched" {
      ShipmentFieldByField(data);
    } else {
      InventoryFieldByField(data);
    }
  }

  /** The tests of a contract, by position. */
  lemma DataErrorByPosition(kind: string, c: Contract, data: map<string, Value>)
    requires |c.requiredText| <= 4 && |c.requiredPositive| <= 4
    ensures var t := FirstMissing(c.requiredText, data);
            var p := FirstNotPositive(c.requiredPositive, data);
            DataError(kind, c, data)
            == if t < |c.requiredText| then Some("missing_" + c.requiredText[t])
               else if p < |c.requiredPositive| then Some("invalid_" + c.requiredPositive[p])
               else if kind == "order.paid" && !ThreeLettersAt(data, "currency") then
                 Some("invalid_currency")
               else None
  {
    hide HasText, HasPositive, TextAt, PositiveAt, IsCurrency, ThreeLettersAt;
    forall name { TextOnCharacters(data, name); }
    forall name ensures HasPositive(data, name) <==> PositiveAt(data, name) {
      PositiveOnInteger(data, name);
    }
    CurrencyAt(data);
    FirstOfFew(c.requiredText, name => HasText(data, name));
    FirstOfFew(c.requiredPositive, name => HasPositive(data, name));
  }

  /** The position of the first name without a text, or the number of names. */
  function FirstMissing(names: seq<string>, data: map<string, Value>): (i: nat)
    requires |names| <= 4
    ensures i <= |names|
  {
    if |names| > 0 && !TextAt(data, names[0]) then 0
    else if |names| > 1 && !TextAt(data, names[1]) then 1
    else if |names| > 2 && !TextAt(data, names[2]) then 2
    else if |names| > 3 && !TextAt(data, names[3]) then 3
    else |names|
  }

  function FirstNotPositive(names: seq<string>, data: map<string, Value>): (i: nat)
    requires |names| <= 4
    ensures i <= |names|
  {
    if |names| > 0 && !PositiveAt(data, names[0]) then 0
    else if |names| > 1 && !PositiveAt(data, names[1]) then 1
    else if |names| > 2 && !PositiveAt(data, names[2]) then 2
    else if |names| > 3 && !PositiveAt(data, names[3]) then 3
    else |names|
  }

  lemma PaidOrderFieldByField(data: map<string, Value>)
    ensures DataError("order.paid", ContractOf("order.paid").value, data) == PaidOrderCode(data)
  {
    hide DataError, TextAt, PositiveAt, ThreeLettersAt;
    var c := ContractOf("order.paid").value;
    assert c.requiredText == ["order_id", "customer_id", "currency"];
    assert c.requiredPositive == ["amount_cents"];
    DataErrorByPosition("order.paid", c, data);
    assert "missing_" + "order_id" == "missing_order_id";
    assert "missing_" + "customer_id" == "missing_customer_id";
    assert "missing_" + "currency" == "missing_currency";
    assert "invalid_" + "amount_cents" == "invalid_amount_cents";
  }

  lemma DemoOrderFieldByField(data: map<string, Value>)
    ensures DataError("demo.order.paid", ContractOf("demo.order.paid").value, data)
            == DemoOrderCode(data)
  {
    hide DataError, TextAt, PositiveAt, ThreeLettersAt;
    var c := ContractOf("demo.order.paid").value;
    assert c.requiredText == ["order_id"] && c.requiredPositive == [];
    DataErrorByPosition("demo.order.paid", c, data);
    assert "missing_" + "order_id" == "missing_order_id";
  }

  lemma ShipmentFieldByField(data: map<string, Value>)
    ensures DataError("shipment.dispatched", ContractOf("shipment.dispatched").value, data)
            == ShipmentCode(data)
  {
    hide DataError, TextAt, PositiveAt, ThreeLettersAt;
    var c := ContractOf("shipment.dispatched").value;
    assert c.requiredText == ["shipment_id", "order_id", "carrier", "tracking_number"];
    assert c.requiredPositive == [];
    DataErrorByPosition("shipment.dispatched", c, data);
    assert "missing_" + "shipment_id" == "missing_shipment_id";
    assert "missing_" + "order_id" == "missing_order_id";
    assert "missing_" + "carrier" == "missing_carrier";
    assert "missing_" + "tracking_number" == "missing_tracking_number";
  }

  lemma InventoryFieldByField(data: map<string, Value>)
    ensures DataError("inventory.threshold_reached",
                      ContractOf("inventory.threshold_reached").value, data)
            == InventoryCode(data)
  {
    hide DataError, TextAt, PositiveAt, ThreeLettersAt;
    var c := ContractOf("inventory.threshold_reached").value;
    assert c.requiredText == ["sku", "warehouse_id"];
    assert c.requiredPositive == ["quantity_remaining", "reorder_threshold"];
    DataErrorByPosition("inventory.threshold_reached", c, data);
    assert "missing_" + "sku" == "missing_sku";
    assert "missing_" + "warehouse_id" == "missing_warehouse_id";
    assert "invalid_" + "quantity_remaining" == "invalid_quantity_remaining";
    assert "invalid_" + "reorder_threshold" == "invalid_reorder_threshold";
  }

  lemma PositiveOnInteger(data: map<string, Value>, name: string)
    ensures HasPositive(data, name) <==> PositiveAt(data, name)
  {
  }

  lemma {:induction false} FirstOfFew(names: seq<string>, ok: string -> bool)
    requires |names| <= 4
    ensures FirstFailing(names, ok)
            == if |names| > 0 && !ok(names[0]) then Some(0)
               else if |names| > 1 && !ok(names[1]) then Some(1)
               else if |names| > 2 && !ok(names[2]) then Some(2)
               else if |names| > 3 && !ok(names[3]) then Some(3)
               else None
  {
  }

  // ----- the answer -----

  /** The answer to the next request: a rejected body is answered 400 with its code, the modes turn
      the first requests since the configuration away, or all of them, and everything else is
      accepted. The counter and the sequence move by one. */
  lemma AnswerInNumbers(run: Run, q: Request)
    ensures var n, c := run.scenarioAttempts + 1, run.configuration;
            var error := PayloadError(q.body, q.channel,
                                      q.channel.Some? || c.mode == PermanentFailure);
            var entry := EvidenceOf(run, q);
            && entry.attempt == n && entry.sequence == run.sequence + 1
            && (entry.status, ResponseCode(entry.status, error))
               == (if error.Some? then (400, error.value)
                   else if c.mode == RateLimited && (c.failures == 0 || n <= c.failures) then
                     (429, "rate_limited")
                   else if c.mode == FailThenSucceed && n <= c.failures then
                     (503, "temporarily_unavailable")
                   else (200, "accepted"))
            && entry.deliveryId == q.deliveryId && entry.deliveryAttempt == q.attempt
            && entry.receivedAt == q.receivedAt && entry.mode == c.mode && entry.signed == q.signed
            && entry.body == q.body
            && (q.channel.Some? && q.channel.value != "" ==> entry.route == q.channel.value)
            && (q.channel.None? || q.channel.value == "" ==> entry.route == "legacy-generic")
  {
    hide PayloadError;
  }
}
