/** The older slot schema: a therapist number, a date coerced from any
    value, two free-form time strings and a booked flag that defaults to
    false. Other keys are dropped. */
module LegacyTimeSlotValidator {
  import opened Common

  const LegacySlotKeys: set<string> := {"therapist_id", "date", "start_time", "end_time", "is_booked"}

  /** The output of the schema; `date` is the time of the coerced Date. */
  datatype LegacySlotInput = LegacySlotInput(therapistId: real, date: int, startTime: string, endTime: string, isBooked: bool)

  /** The schema, with `coerceDate` standing for `new Date(value)` (None for
      an Invalid Date, which `z.coerce.date()` refuses). A missing date key
      is refused too, since `new Date(undefined)` is invalid. */
  function ParseLegacySlot(v: Value, coerceDate: Value -> Option<int>): (r: Option<LegacySlotInput>)
    ensures r.Some? <==> (v.JObj? && "therapist_id" in v.fields && v.fields["therapist_id"].JNum?
                          && "date" in v.fields && coerceDate(v.fields["date"]).Some?
                          && "start_time" in v.fields && v.fields["start_time"].JStr?
                          && "end_time" in v.fields && v.fields["end_time"].JStr?
                          && ("is_booked" in v.fields ==> v.fields["is_booked"].JBool?))
    ensures r.Some? ==> v.JObj? && (r.value.isBooked <==> "is_booked" in v.fields && v.fields["is_booked"] == JBool(true))
    ensures r.Some? ==> && v.fields["therapist_id"] == JNum(r.value.therapistId)
                        && coerceDate(v.fields["date"]) == Some(r.value.date)
                        && v.fields["start_time"] == JStr(r.value.startTime)
                        && v.fields["end_time"] == JStr(r.value.endTime)
  {
    if !v.JObj? then None
    else
      var f := v.fields;
      if !("therapist_id" in f && f["therapist_id"].JNum?) then None
      else if "date" !in f then None
      else if coerceDate(f["date"]).None? then None
      else if !("start_time" in f && f["start_time"].JStr?) then None
      else if !("end_time" in f && f["end_time"].JStr?) then None
      else if "is_booked" in f && !f["is_booked"].JBool? then None
      else
        Some(LegacySlotInput(f["therapist_id"].n, coerceDate(f["date"]).value, f["start_time"].s, f["end_time"].s,
                             if "is_booked" in f then f["is_booked"].b else false))
  }

  /** The request object for a slot, the date written as a Date object; the
      flag key is written only when `withFlag`. */
  function EncodeLegacySlot(x: LegacySlotInput, withFlag: bool): Value {
    var m := map["therapist_id" := JNum(x.therapistId), "date" := JDate(Some(x.date)),
                 "start_time" := JStr(x.startTime), "end_time" := JStr(x.endTime)];
    JObj(if withFlag then m["is_booked" := JBool(x.isBooked)] else m)
  }

  /** Any record passes as it is written, with or without its flag when the
      flag is false: the therapist may be any number (negative or
      fractional), the times any strings. */
  lemma LegacySlotRoundTrip(x: LegacySlotInput, withFlag: bool, coerceDate: Value -> Option<int>)
    requires coerceDate(JDate(Some(x.date))) == Some(x.date)
    requires withFlag || !x.isBooked
    ensures ParseLegacySlot(EncodeLegacySlot(x, withFlag), coerceDate) == Some(x)
  {
  }

  /** Each of therapist, date, start and end is required. */
  lemma LegacyRequiredKeys(x: LegacySlotInput, k: string, coerceDate: Value -> Option<int>)
    requires k in LegacySlotKeys - {"is_booked"}
    ensures ParseLegacySlot(JObj(EncodeLegacySlot(x, true).fields - {k}), coerceDate) == None
  {
  }
}
