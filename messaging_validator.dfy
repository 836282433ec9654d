/** The message schema: positive sender and receiver ids, an optional
    positive booking id, non-empty content, a status from the validator's own
    enumeration defaulting to Sent, and a read flag defaulting to false.
    Unknown keys are stripped. */
module MessagingValidator {
  import opened Common
  import Schema

  /** `MessageStatusEnum`. */
  const MessageStatusEnum: seq<string> := ["Sent", "Delivered", "Read"]

  const MessageKeys: set<string> := {"sender_id", "receiver_id", "booking_id", "content", "status", "is_read"}
  const RequiredMessageKeys: set<string> := {"sender_id", "receiver_id", "content"}

  /** The rule for each key of the schema. */
  predicate MessageFieldOk(k: string, v: Value) {
    if k == "sender_id" || k == "receiver_id" || k == "booking_id" then IsPositiveInt(v)
    else if k == "content" then v.JStr? && |v.s| >= 1
    else if k == "status" then v.JStr? && v.s in MessageStatusEnum
    else if k == "is_read" then v.JBool?
    else false
  }

  /** The output of `messagesSchema`, defaults filled in. */
  datatype Message = Message(senderId: int, receiverId: int, bookingId: Option<int>, content: string, status: string, isRead: bool)

  predicate ValidMessage(m: Message) {
    && m.senderId > 0 && m.receiverId > 0
    && (m.bookingId.Some? ==> m.bookingId.value > 0)
    && |m.content| >= 1
    && m.status in MessageStatusEnum
  }

  /** The value the request carries under `k` for message `m`; the status and
      the read flag are written only when `withStatus` and `withRead`. */
  function MessageValue(m: Message, withStatus: bool, withRead: bool, k: string): Option<Value> {
    if k == "sender_id" then Some(Num(m.senderId))
    else if k == "receiver_id" then Some(Num(m.receiverId))
    else if k == "booking_id" then (if m.bookingId.Some? then Some(Num(m.bookingId.value)) else None)
    else if k == "content" then Some(JStr(m.content))
    else if k == "status" then (if withStatus then Some(JStr(m.status)) else None)
    else if k == "is_read" then (if withRead then Some(JBool(m.isRead)) else None)
    else None
  }

  function EncodeMessage(m: Message, withStatus: bool, withRead: bool): Value {
    JObj(map k | k in MessageKeys && MessageValue(m, withStatus, withRead, k).Some? :: MessageValue(m, withStatus, withRead, k).value)
  }

  predicate MessageShape(f: map<string, Value>) {
    RequiredMessageKeys <= f.Keys && forall k :: k in f && k in MessageKeys ==> MessageFieldOk(k, f[k])
  }

  function DecodeMessage(f: map<string, Value>): (m: Message)
    requires MessageShape(f)
  {
    assert MessageFieldOk("content", f["content"]) && MessageFieldOk("sender_id", f["sender_id"]);
    assert MessageFieldOk("receiver_id", f["receiver_id"]);
    Message(IntOf(f["sender_id"]), IntOf(f["receiver_id"]),
            if "booking_id" in f then Some(IntOf(f["booking_id"])) else None,
            f["content"].s,
            if "status" in f then f["status"].s else "Sent",
            if "is_read" in f then f["is_read"].b else false)
  }

  /** Decoding keeps every schema key as it was sent and fills in the
      defaults. */
  lemma DecodeMessageEncodes(f: map<string, Value>)
    requires MessageShape(f)
    ensures ValidMessage(DecodeMessage(f))
    ensures Restrict(f, MessageKeys) == EncodeMessage(DecodeMessage(f), "status" in f, "is_read" in f).fields
  {
    var m := DecodeMessage(f);
    var g := EncodeMessage(m, "status" in f, "is_read" in f).fields;
    assert MessageFieldOk("sender_id", f["sender_id"]) && MessageFieldOk("receiver_id", f["receiver_id"]);
    assert "booking_id" in f ==> MessageFieldOk("booking_id", f["booking_id"]);
    assert "status" in f ==> MessageFieldOk("status", f["status"]);
    assert "is_read" in f ==> MessageFieldOk("is_read", f["is_read"]);
    forall k | k in MessageKeys
      ensures (k in f) == (k in g) && (k in f ==> f[k] == g[k])
    {
    }
  }

  /** `messagesSchema`. */
  function ParseMessage(v: Value): (r: Option<Message>)
    ensures r.Some? <==> v.JObj? && MessageShape(v.fields)
    ensures r.Some? ==> ValidMessage(r.value)
    ensures r.Some? ==> Restrict(v.fields, MessageKeys) == EncodeMessage(r.value, "status" in v.fields, "is_read" in v.fields).fields
    ensures r.Some? && "status" !in v.fields ==> r.value.status == "Sent"
    ensures r.Some? && "is_read" !in v.fields ==> !r.value.isRead
  {
    if v.JObj? && MessageShape(v.fields) then
      DecodeMessageEncodes(v.fields);
      Some(DecodeMessage(v.fields))
    else
      None
  }

  /** Every valid message passes as it is written; the status and the read
      flag may be left out when they hold their defaults. */
  lemma {:induction false} MessageRoundTrip(m: Message, withStatus: bool, withRead: bool)
    requires ValidMessage(m)
    requires (withStatus || m.status == "Sent") && (withRead || !m.isRead)
    ensures ParseMessage(EncodeMessage(m, withStatus, withRead)) == Some(m)
  {
    var f := EncodeMessage(m, withStatus, withRead).fields;
    assert "sender_id" in f && "receiver_id" in f && "content" in f;
    forall k | k in f && k in MessageKeys
      ensures MessageFieldOk(k, f[k])
    {
    }
    assert MessageShape(f);
  }

  /** A key outside the schema changes nothing: it is stripped. */
  lemma ExtraKeyStripped(f: map<string, Value>, k: string, x: Value)
    requires k !in MessageKeys
    ensures ParseMessage(JObj(f[k := x])) == ParseMessage(JObj(f))
  {
    var g := f[k := x];
    assert forall j :: j in MessageKeys ==> ((j in g) == (j in f) && (j in f ==> g[j] == f[j]));
    if MessageShape(f) {
      assert MessageShape(g);
    }
  }

  /** The validator's statuses are not the table's: it accepts Delivered,
      which the table does not have, and refuses Deleted, which it has. */
  lemma StatusEnumDiffersFromTable()
    ensures "Delivered" in MessageStatusEnum && "Delivered" !in Schema.MessageStatusLabels
    ensures "Deleted" in Schema.MessageStatusLabels && "Deleted" !in MessageStatusEnum
    ensures forall s :: s in MessageStatusEnum && s in Schema.MessageStatusLabels <==> s == "Sent" || s == "Read"
  {
  }
}
