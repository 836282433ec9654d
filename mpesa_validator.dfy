/** The M-Pesa schemas: the Kenyan phone number refinement, the STK push
    request, and the payment callback that Safaricom posts back. */
module MpesaValidator {
  import opened Common

  // ---------------------------------------------------------------- phone

  /** The alternatives of the phone pattern, in the order it tries them. */
  const PhonePrefixes: seq<string> := ["+254", "254", "07", "01"]

  /** `s` is `prefix` followed by eight or nine digits and nothing else. */
  predicate PrefixThenDigits(s: string, prefix: string) {
    && |prefix| <= |s|
    && s[..|prefix|] == prefix
    && AllDigits(s[|prefix|..])
    && 8 <= |s| - |prefix| <= 9
  }

  /** `^(\+254|254|07|01)\d{8,9}$`. */
  predicate IsKenyanPhone(s: string) {
    exists i :: 0 <= i < |PhonePrefixes| && PrefixThenDigits(s, PhonePrefixes[i])
  }

  /** The pattern read character by character: an optional '+' before 254,
      or a leading 0 followed by 7 or 1, and then a run of eight or nine
      digits. */
  predicate PhoneByCharacters(s: string) {
    if |s| >= 1 && s[0] == '+' then
      |s| >= 4 && s[1..4] == "254" && AllDigits(s[4..]) && 12 <= |s| <= 13
    else if |s| >= 2 && s[0] == '0' && (s[1] == '7' || s[1] == '1') then
      AllDigits(s[2..]) && 10 <= |s| <= 11
    else
      |s| >= 3 && s[..3] == "254" && AllDigits(s[3..]) && 11 <= |s| <= 12
  }

  /** The alternation and the character-by-character reading agree. */
  lemma PhonePatternByCharacters(s: string)
    ensures IsKenyanPhone(s) <==> PhoneByCharacters(s)
  {
    if IsKenyanPhone(s) {
      var i :| 0 <= i < |PhonePrefixes| && PrefixThenDigits(s, PhonePrefixes[i]);
      if i == 0 { assert s[1..4] == s[..4][1..4]; }
      else if i == 2 || i == 3 { assert s[0] == s[..2][0] && s[1] == s[..2][1]; }
      else { assert s[0] == s[..3][0]; }
    }
    if PhoneByCharacters(s) {
      if s[0] == '+' {
        assert s[..4] == [s[0]] + s[1..4];
        assert PrefixThenDigits(s, PhonePrefixes[0]);
      } else if |s| >= 2 && s[0] == '0' && s[1] == '7' {
        assert s[..2] == [s[0], s[1]];
        assert PrefixThenDigits(s, PhonePrefixes[2]);
      } else if |s| >= 2 && s[0] == '0' && s[1] == '1' {
        assert s[..2] == [s[0], s[1]];
        assert PrefixThenDigits(s, PhonePrefixes[3]);
      } else {
        assert PrefixThenDigits(s, PhonePrefixes[1]);
      }
    }
  }

  /** An accepted number is 10 to 13 characters, all digits but a leading
      '+'. */
  lemma PhoneShape(s: string)
    requires IsKenyanPhone(s)
    ensures 10 <= |s| <= 13
    ensures forall k :: 0 < k < |s| ==> IsDigit(s[k])
    ensures IsDigit(s[0]) || s[0] == '+'
  {
    PhonePatternByCharacters(s);
    if s[0] == '+' {
      assert forall k :: 1 <= k < 4 ==> s[k] == s[1..4][k - 1];
      assert forall k :: 4 <= k < |s| ==> s[k] == s[4..][k - 4];
    } else if s[0] == '0' && (s[1] == '7' || s[1] == '1') {
      assert forall k :: 2 <= k < |s| ==> s[k] == s[2..][k - 2];
    } else {
      assert forall k :: 0 <= k < 3 ==> s[k] == s[..3][k];
      assert forall k :: 3 <= k < |s| ==> s[k] == s[3..][k - 3];
    }
  }

  lemma PhoneAcceptedExamples()
    ensures IsKenyanPhone("0712345678") && IsKenyanPhone("0112345678")
    ensures IsKenyanPhone("254712345678") && IsKenyanPhone("+254712345678")
  {
    assert PrefixThenDigits("0712345678", PhonePrefixes[2]);
    assert PrefixThenDigits("0112345678", PhonePrefixes[3]);
    assert PrefixThenDigits("254712345678", PhonePrefixes[1]);
    assert PrefixThenDigits("+254712345678", PhonePrefixes[0]);
  }

  /** A wrong second digit, too few digits, or a trailing letter is refused. */
  lemma PhoneRejectedExamples()
    ensures !IsKenyanPhone("0812345678")
    ensures !IsKenyanPhone("0712345")
    ensures !IsKenyanPhone("07123456789a")
  {
    PhonePatternByCharacters("0812345678");
    PhonePatternByCharacters("0712345");
    PhonePatternByCharacters("07123456789a");
    assert !AllDigits("07123456789a"[2..]) by { assert "07123456789a"[2..][9] == 'a'; }
  }

  /** `phoneNumberSchema`. */
  predicate PhoneNumberOk(v: Value) {
    v.JStr? && IsKenyanPhone(v.s)
  }

  // ------------------------------------------------------------ STK push

  const StkKeys: set<string> := {"phoneNumber", "amount", "referenceCode", "description", "bookingId"}
  const RequiredStkKeys: set<string> := StkKeys - {"description"}
  const DefaultDescription: string := "Payment"

  /** The rule for each key of the push request. */
  predicate StkFieldOk(k: string, v: Value) {
    if k == "phoneNumber" then PhoneNumberOk(v)
    else if k == "amount" then v.JNum? && v.n >= 1.0
    else if k == "referenceCode" then StringWithin(v, 1, 50)
    else if k == "description" then StringWithin(v, 1, 255)
    else if k == "bookingId" then IsPositiveInt(v)
    else false
  }

  /** The output of `stkPushRequestSchema`, the description defaulted. */
  datatype StkPushRequest = StkPushRequest(phoneNumber: string, amount: real, referenceCode: string, description: string, bookingId: int)

  predicate ValidStkPush(x: StkPushRequest) {
    && IsKenyanPhone(x.phoneNumber) && x.amount >= 1.0
    && 1 <= |x.referenceCode| <= 50 && 1 <= |x.description| <= 255 && x.bookingId > 0
  }

  function StkValue(x: StkPushRequest, withDescription: bool, k: string): Option<Value> {
    if k == "phoneNumber" then Some(JStr(x.phoneNumber))
    else if k == "amount" then Some(JNum(x.amount))
    else if k == "referenceCode" then Some(JStr(x.referenceCode))
    else if k == "description" then (if withDescription then Some(JStr(x.description)) else None)
    else if k == "bookingId" then Some(Num(x.bookingId))
    else None
  }

  function EncodeStkPush(x: StkPushRequest, withDescription: bool): Value {
    JObj(map k | k in StkKeys && StkValue(x, withDescription, k).Some? :: StkValue(x, withDescription, k).value)
  }

  predicate StkShape(f: map<string, Value>) {
    RequiredStkKeys <= f.Keys && forall k :: k in f && k in StkKeys ==> StkFieldOk(k, f[k])
  }

  function DecodeStkPush(f: map<string, Value>): StkPushRequest
    requires StkShape(f)
  {
    assert StkFieldOk("phoneNumber", f["phoneNumber"]) && StkFieldOk("amount", f["amount"]);
    assert StkFieldOk("referenceCode", f["referenceCode"]) && StkFieldOk("bookingId", f["bookingId"]);
    assert "description" in f ==> StkFieldOk("description", f["description"]);
    StkPushRequest(f["phoneNumber"].s, f["amount"].n, f["referenceCode"].s,
                   if "description" in f then f["description"].s else DefaultDescription,
                   IntOf(f["bookingId"]))
  }

  lemma DecodeStkPushEncodes(f: map<string, Value>)
    requires StkShape(f)
    ensures ValidStkPush(DecodeStkPush(f))
    ensures Restrict(f, StkKeys) == EncodeStkPush(DecodeStkPush(f), "description" in f).fields
  {
    var g := EncodeStkPush(DecodeStkPush(f), "description" in f).fields;
    assert StkFieldOk("phoneNumber", f["phoneNumber"]) && StkFieldOk("amount", f["amount"]);
    assert StkFieldOk("referenceCode", f["referenceCode"]) && StkFieldOk("bookingId", f["bookingId"]);
    assert "description" in f ==> StkFieldOk("description", f["description"]);
    forall k | k in StkKeys
      ensures (k in f) == (k in g) && (k in f ==> f[k] == g[k])
    {
    }
  }

  /** `stkPushRequestSchema`; unknown keys are stripped. */
  function ParseStkPush(v: Value): (r: Option<StkPushRequest>)
    ensures r.Some? <==> v.JObj? && StkShape(v.fields)
    ensures r.Some? ==> ValidStkPush(r.value)
    ensures r.Some? ==> Restrict(v.fields, StkKeys) == EncodeStkPush(r.value, "description" in v.fields).fields
    ensures r.Some? && "description" !in v.fields ==> r.value.description == "Payment"
  {
    if v.JObj? && StkShape(v.fields) then
      DecodeStkPushEncodes(v.fields);
      Some(DecodeStkPush(v.fields))
    else
      None
  }

  lemma {:induction false} StkPushRoundTrip(x: StkPushRequest, withDescription: bool)
    requires ValidStkPush(x) && (withDescription || x.description == "Payment")
    ensures ParseStkPush(EncodeStkPush(x, withDescription)) == Some(x)
  {
    var f := EncodeStkPush(x, withDescription).fields;
    assert RequiredStkKeys <= f.Keys;
    forall k | k in f && k in StkKeys
      ensures StkFieldOk(k, f[k])
    {
    }
    DecodeStkPushEncodes(f);
  }

  /** An amount below one is refused, whatever else the request holds. */
  lemma AmountBelowOneRejected(f: map<string, Value>, a: real)
    requires a < 1.0
    ensures ParseStkPush(JObj(f["amount" := JNum(a)])) == None
  {
    assert !StkFieldOk("amount", JNum(a));
  }

  // ------------------------------------------------------------- callback

  /** An item's value: a string or a number. */
  datatype ItemValue = ItemText(text: string) | ItemNumber(number: real)

  datatype CallbackItem = CallbackItem(name: string, value: Option<ItemValue>)

  datatype CallbackMetadata = CallbackMetadata(items: seq<CallbackItem>)

  datatype StkCallback = StkCallback(
    merchantRequestId: string, checkoutRequestId: string, resultCode: real, resultDesc: string,
    metadata: Option<CallbackMetadata>)

  /** The output of `mpesaCallbackSchema`: `Body.stkCallback`. */
  datatype MpesaCallback = MpesaCallback(stkCallback: StkCallback)

  function ParseItemValue(v: Value): (r: Option<ItemValue>)
    ensures r.Some? <==> v.JStr? || v.JNum?
  {
    match v
    case JStr(s) => Some(ItemText(s))
    case JNum(n) => Some(ItemNumber(n))
    case _ => None
  }

  function EncodeItemValue(x: ItemValue): Value {
    match x
    case ItemText(s) => JStr(s)
    case ItemNumber(n) => JNum(n)
  }

  function ParseItem(v: Value): (r: Option<CallbackItem>)
    ensures r.Some? <==> (v.JObj? && "Name" in v.fields && v.fields["Name"].JStr?
                          && ("Value" in v.fields ==> ParseItemValue(v.fields["Value"]).Some?))
    ensures r.Some? ==> v.fields["Name"] == JStr(r.value.name)
    ensures r.Some? ==> (r.value.value.Some? <==> "Value" in v.fields)
    ensures r.Some? && r.value.value.Some? ==> v.fields["Value"] == EncodeItemValue(r.value.value.value)
  {
    if !(v.JObj? && "Name" in v.fields && v.fields["Name"].JStr?) then None
    else if "Value" !in v.fields then Some(CallbackItem(v.fields["Name"].s, None))
    else match ParseItemValue(v.fields["Value"])
      case None => None
      case Some(x) => Some(CallbackItem(v.fields["Name"].s, Some(x)))
  }

  function EncodeItem(x: CallbackItem): Value {
    JObj(if x.value.Some? then map["Name" := JStr(x.name), "Value" := EncodeItemValue(x.value.value)]
         else map["Name" := JStr(x.name)])
  }

  /** `z.array(item)`: every element must parse, and the order is kept. */
  function ParseItems(vs: seq<Value>): (r: Option<seq<CallbackItem>>)
    ensures r.Some? <==> forall i :: 0 <= i < |vs| ==> ParseItem(vs[i]).Some?
    ensures r.Some? ==> |r.value| == |vs| && forall i :: 0 <= i < |vs| ==> Some(r.value[i]) == ParseItem(vs[i])
  {
    if vs == [] then Some([])
    else match (ParseItem(vs[0]), ParseItems(vs[1..]))
      case (Some(head), Some(tail)) =>
        assert forall i :: 1 <= i < |vs| ==> vs[i] == vs[1..][i - 1];
        Some([head] + tail)
      case (None, _) => None
      case (Some(_), None) =>
        assert forall i :: 1 <= i < |vs| ==> vs[i] == vs[1..][i - 1];
        None
  }

  function EncodeItems(xs: seq<CallbackItem>): seq<Value> {
    seq(|xs|, i requires 0 <= i < |xs| => EncodeItem(xs[i]))
  }

  function ParseMetadata(v: Value): (r: Option<CallbackMetadata>)
    ensures r.Some? <==> v.JObj? && "Item" in v.fields && v.fields["Item"].JArr? && ParseItems(v.fields["Item"].items).Some?
    ensures r.Some? ==> r.value.items == ParseItems(v.fields["Item"].items).value
  {
    if v.JObj? && "Item" in v.fields && v.fields["Item"].JArr? then
      match ParseItems(v.fields["Item"].items)
      case Some(xs) => Some(CallbackMetadata(xs))
      case None => None
    else None
  }

  function EncodeMetadata(m: CallbackMetadata): Value {
    JObj(map["Item" := JArr(EncodeItems(m.items))])
  }

  /** The four scalar keys of `stkCallback` have the right types. */
  predicate StkScalarsOk(f: map<string, Value>) {
    && "MerchantRequestID" in f && f["MerchantRequestID"].JStr?
    && "CheckoutRequestID" in f && f["CheckoutRequestID"].JStr?
    && "ResultCode" in f && f["ResultCode"].JNum?
    && "ResultDesc" in f && f["ResultDesc"].JStr?
  }

  function ParseStkCallback(v: Value): (r: Option<StkCallback>)
    ensures r.Some? <==> (v.JObj? && StkScalarsOk(v.fields)
                          && ("CallbackMetadata" in v.fields ==> ParseMetadata(v.fields["CallbackMetadata"]).Some?))
    ensures r.Some? ==> && v.fields["MerchantRequestID"] == JStr(r.value.merchantRequestId)
                        && v.fields["CheckoutRequestID"] == JStr(r.value.checkoutRequestId)
                        && v.fields["ResultCode"] == JNum(r.value.resultCode)
                        && v.fields["ResultDesc"] == JStr(r.value.resultDesc)
    ensures r.Some? ==> (r.value.metadata.Some? <==> "CallbackMetadata" in v.fields)
    ensures r.Some? && "CallbackMetadata" in v.fields ==> r.value.metadata == ParseMetadata(v.fields["CallbackMetadata"])
  {
    if !(v.JObj? && StkScalarsOk(v.fields)) then None
    else
      var f := v.fields;
      var metadata := if "CallbackMetadata" in f then ParseMetadata(f["CallbackMetadata"]) else None;
      if "CallbackMetadata" in f && metadata.None? then None
      else Some(StkCallback(f["MerchantRequestID"].s, f["CheckoutRequestID"].s, f["ResultCode"].n, f["ResultDesc"].s, metadata))
  }

  function EncodeStkCallback(c: StkCallback): Value {
    var scalars := map["MerchantRequestID" := JStr(c.merchantRequestId), "CheckoutRequestID" := JStr(c.checkoutRequestId),
                       "ResultCode" := JNum(c.resultCode), "ResultDesc" := JStr(c.resultDesc)];
    JObj(if c.metadata.Some? then scalars["CallbackMetadata" := EncodeMetadata(c.metadata.value)] else scalars)
  }

  /** `mpesaCallbackSchema`: the callback sits at `Body.stkCallback`. */
  function ParseCallback(v: Value): (r: Option<MpesaCallback>)
    ensures r.Some? <==> (v.JObj? && "Body" in v.fields && v.fields["Body"].JObj?
                          && "stkCallback" in v.fields["Body"].fields
                          && ParseStkCallback(v.fields["Body"].fields["stkCallback"]).Some?)
    ensures r.Some? ==> Some(r.value.stkCallback) == ParseStkCallback(v.fields["Body"].fields["stkCallback"])
  {
    if v.JObj? && "Body" in v.fields && v.fields["Body"].JObj? && "stkCallback" in v.fields["Body"].fields then
      match ParseStkCallback(v.fields["Body"].fields["stkCallback"])
      case Some(c) => Some(MpesaCallback(c))
      case None => None
    else None
  }

  function EncodeCallback(c: MpesaCallback): Value {
    JObj(map["Body" := JObj(map["stkCallback" := EncodeStkCallback(c.stkCallback)])])
  }

  lemma ItemRoundTrip(x: CallbackItem)
    ensures ParseItem(EncodeItem(x)) == Some(x)
  {
    if x.value.Some? {
      match x.value.value
      case ItemText(_) =>
      case ItemNumber(_) =>
    }
  }

  lemma {:induction false} ItemsRoundTrip(xs: seq<CallbackItem>)
    ensures ParseItems(EncodeItems(xs)) == Some(xs)
  {
    var vs := EncodeItems(xs);
    forall i | 0 <= i < |vs|
      ensures ParseItem(vs[i]) == Some(xs[i])
    {
      ItemRoundTrip(xs[i]);
    }
    assert ParseItems(vs).value == xs;
  }

  /** Every callback passes as it is written: the schema puts no bound on
      any of its values. */
  lemma CallbackRoundTrip(c: MpesaCallback)
    ensures ParseCallback(EncodeCallback(c)) == Some(c)
  {
    if c.stkCallback.metadata.Some? {
      ItemsRoundTrip(c.stkCallback.metadata.value.items);
    }
  }

  /** A callback missing any of its four scalar keys is refused. */
  lemma CallbackRequiredKeys(v: Value, k: string)
    requires v.JObj? && k in {"MerchantRequestID", "CheckoutRequestID", "ResultCode", "ResultDesc"} && k !in v.fields
    ensures ParseStkCallback(v) == None
  {
  }
}
