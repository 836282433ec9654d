/** The request schema for a booking: three positive integer ids and a
    status from the booking enumeration, defaulting to Pending; no other
    key is allowed. */
module BookingsValidator {
  import opened Common
  import Schema

  /** `bookingStatusEnum`. */
  const StatusEnum: seq<string> := ["Pending", "Confirmed", "Cancelled"]

  const BookingKeys: set<string> := {"user_id", "therapist_id", "slot_id", "booking_status"}

  /** The output of `bookingsSchema`. */
  datatype BookingInput = BookingInput(userId: int, therapistId: int, slotId: int, bookingStatus: string)

  predicate ValidBooking(b: BookingInput) {
    b.userId > 0 && b.therapistId > 0 && b.slotId > 0 && b.bookingStatus in StatusEnum
  }

  /** The request object for a booking; the status key is written only when
      `withStatus`. */
  function EncodeBooking(b: BookingInput, withStatus: bool): Value {
    var ids := map["user_id" := Num(b.userId), "therapist_id" := Num(b.therapistId), "slot_id" := Num(b.slotId)];
    JObj(if withStatus then ids["booking_status" := JStr(b.bookingStatus)] else ids)
  }

  /** `bookingsSchema`: accepts exactly the encodings of valid bookings, the
      status key being optional, and an absent status normalises to Pending. */
  function ParseBookings(v: Value): (r: Option<BookingInput>)
    ensures r.Some? ==> ValidBooking(r.value)
    ensures r.Some? ==> v.JObj? && v == EncodeBooking(r.value, "booking_status" in v.fields)
    ensures r.Some? && "booking_status" !in v.fields ==> r.value.bookingStatus == "Pending"
  {
    if !v.JObj? then None
    else
      var f := v.fields;
      if !(f.Keys <= BookingKeys) then None
      else if !("user_id" in f && IsPositiveInt(f["user_id"])) then None
      else if !("therapist_id" in f && IsPositiveInt(f["therapist_id"])) then None
      else if !("slot_id" in f && IsPositiveInt(f["slot_id"])) then None
      else if "booking_status" in f && !(f["booking_status"].JStr? && f["booking_status"].s in StatusEnum) then None
      else
        var b := BookingInput(IntOf(f["user_id"]), IntOf(f["therapist_id"]), IntOf(f["slot_id"]),
                              if "booking_status" in f then f["booking_status"].s else "Pending");
        assert f == EncodeBooking(b, "booking_status" in f).fields;
        Some(b)
  }

  /** Every valid booking passes as it is written, with or without its
      status key when that status is Pending. */
  lemma BookingsRoundTrip(b: BookingInput, withStatus: bool)
    requires ValidBooking(b) && (withStatus || b.bookingStatus == "Pending")
    ensures ParseBookings(EncodeBooking(b, withStatus)) == Some(b)
  {
  }

  /** A key outside the schema is refused. */
  lemma UnknownKeyRejected(v: Value, k: string)
    requires v.JObj? && k in v.fields && k !in BookingKeys
    ensures ParseBookings(v) == None
  {
  }

  /** The validator's statuses are the table's statuses. */
  lemma StatusEnumMatchesTable()
    ensures forall s :: s in StatusEnum <==> s in Schema.BookingStatusLabels
    ensures forall s :: s in StatusEnum <==> Schema.BookingStatusOf(s).Some?
  {
  }
}
