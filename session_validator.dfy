/** The session schemas: a full session record, and an update in which
    every key is optional but at least one must be sent. Both refuse
    unknown keys. */
module SessionValidator {
  import opened Common

  /** The date parsing the schemas lean on: recognising an ISO-8601 date-time
      with offset, turning such a string into an instant, and writing an
      instant back with `toISOString`. */
  datatype DateOps = DateOps(isOffsetDateTime: string -> bool, parseInstant: string -> int, toIso: int -> string)

  const SessionKeys: set<string> := {"user_id", "therapist_id", "booking_id", "session_notes", "session_date"}

  const EmptyUpdateMessage: string := "At least one field must be provided for update"

  /** The instant a `session_date` value stands for: an offset date-time
      string, or a valid Date object. */
  function SessionInstant(v: Value, ops: DateOps): Option<int> {
    if v.JStr? && ops.isOffsetDateTime(v.s) then Some(ops.parseInstant(v.s))
    else if v.JDate? && v.time.Some? then Some(v.time.value)
    else None
  }

  /** The rule for each key, shared by both schemas. */
  predicate SessionFieldOk(k: string, v: Value, ops: DateOps) {
    if k == "user_id" || k == "therapist_id" || k == "booking_id" then IsPositiveInt(v)
    else if k == "session_notes" then v.JStr? && |v.s| >= 1
    else if k == "session_date" then SessionInstant(v, ops).Some?
    else false
  }

  predicate SessionShape(f: map<string, Value>, ops: DateOps) {
    f.Keys <= SessionKeys && forall k :: k in f ==> SessionFieldOk(k, f[k], ops)
  }

  /** The output of `sessionSchema`; the date in its ISO form. */
  datatype Session = Session(userId: int, therapistId: int, bookingId: int, sessionNotes: string, sessionDate: string)

  datatype SessionUpdate = SessionUpdate(
    userId: Option<int>, therapistId: Option<int>, bookingId: Option<int>,
    sessionNotes: Option<string>, sessionDate: Option<string>)

  /** The outcome of the update schema: the update, or a refusal that carries
      the refinement's message when it was the refinement that failed. */
  datatype UpdateOutcome = UpdateAccepted(update: SessionUpdate) | UpdateRefused(message: Option<string>)

  function OptId(f: map<string, Value>, k: string, ops: DateOps): (r: Option<int>)
    requires k in f ==> SessionFieldOk(k, f[k], ops) && k in {"user_id", "therapist_id", "booking_id"}
    ensures r.Some? <==> k in f
    ensures r.Some? ==> r.value > 0 && f[k] == Num(r.value)
  {
    if k in f then Some(IntOf(f[k])) else None
  }

  function OptDate(f: map<string, Value>, ops: DateOps): (r: Option<string>)
    requires "session_date" in f ==> SessionFieldOk("session_date", f["session_date"], ops)
    ensures r.Some? <==> "session_date" in f
    ensures r.Some? ==> r.value == ops.toIso(SessionInstant(f["session_date"], ops).value)
  {
    if "session_date" in f then Some(ops.toIso(SessionInstant(f["session_date"], ops).value)) else None
  }

  /** `sessionSchema`: strict, every key required; the date comes out as
      the ISO string of its instant. */
  function ParseSession(v: Value, ops: DateOps): (r: Option<Session>)
    ensures r.Some? <==> v.JObj? && SessionShape(v.fields, ops) && v.fields.Keys == SessionKeys
    ensures r.Some? ==> && r.value.userId > 0 && r.value.therapistId > 0 && r.value.bookingId > 0
                        && |r.value.sessionNotes| >= 1
    ensures r.Some? ==> && v.fields["user_id"] == Num(r.value.userId)
                        && v.fields["therapist_id"] == Num(r.value.therapistId)
                        && v.fields["booking_id"] == Num(r.value.bookingId)
                        && v.fields["session_notes"] == JStr(r.value.sessionNotes)
                        && r.value.sessionDate == ops.toIso(SessionInstant(v.fields["session_date"], ops).value)
  {
    if !(v.JObj? && SessionShape(v.fields, ops) && v.fields.Keys == SessionKeys) then None
    else
      var f := v.fields;
      assert SessionFieldOk("session_notes", f["session_notes"], ops);
      Some(Session(OptId(f, "user_id", ops).value, OptId(f, "therapist_id", ops).value, OptId(f, "booking_id", ops).value,
                   f["session_notes"].s, OptDate(f, ops).value))
  }

  /** `updateSessionSchema`: strict, every key optional with the same rule,
      and then the refinement that at least one key was sent. */
  function ParseSessionUpdate(v: Value, ops: DateOps): (r: UpdateOutcome)
    ensures r.UpdateAccepted? <==> v.JObj? && SessionShape(v.fields, ops) && |v.fields| > 0
    ensures r == UpdateRefused(Some(EmptyUpdateMessage)) <==> v == JObj(map[])
    ensures r.UpdateAccepted? ==>
      var u := r.update;
      && (u.userId.Some? <==> "user_id" in v.fields)
      && (u.therapistId.Some? <==> "therapist_id" in v.fields)
      && (u.bookingId.Some? <==> "booking_id" in v.fields)
      && (u.sessionNotes.Some? <==> "session_notes" in v.fields)
      && (u.sessionDate.Some? <==> "session_date" in v.fields)
    ensures r.UpdateAccepted? ==>
      var u := r.update;
      && (u.userId.Some? ==> u.userId.value > 0 && v.fields["user_id"] == Num(u.userId.value))
      && (u.therapistId.Some? ==> u.therapistId.value > 0 && v.fields["therapist_id"] == Num(u.therapistId.value))
      && (u.bookingId.Some? ==> u.bookingId.value > 0 && v.fields["booking_id"] == Num(u.bookingId.value))
      && (u.sessionNotes.Some? ==> |u.sessionNotes.value| >= 1 && v.fields["session_notes"] == JStr(u.sessionNotes.value))
      && (u.sessionDate.Some? ==> u.sessionDate.value == ops.toIso(SessionInstant(v.fields["session_date"], ops).value))
  {
    if !(v.JObj? && SessionShape(v.fields, ops)) then UpdateRefused(None)
    else if |v.fields| == 0 then UpdateRefused(Some(EmptyUpdateMessage))
    else
      var f := v.fields;
      assert "session_notes" in f ==> SessionFieldOk("session_notes", f["session_notes"], ops);
      UpdateAccepted(SessionUpdate(OptId(f, "user_id", ops), OptId(f, "therapist_id", ops), OptId(f, "booking_id", ops),
                                   if "session_notes" in f then Some(f["session_notes"].s) else None,
                                   OptDate(f, ops)))
  }

  /** A full session passes the update schema too, with every field sent. */
  lemma FullSessionIsValidUpdate(v: Value, ops: DateOps)
    requires ParseSession(v, ops).Some?
    ensures var x := ParseSession(v, ops).value;
      ParseSessionUpdate(v, ops) == UpdateAccepted(SessionUpdate(Some(x.userId), Some(x.therapistId), Some(x.bookingId),
                                                                 Some(x.sessionNotes), Some(x.sessionDate)))
  {
    assert "user_id" in v.fields;
  }

  /** Notes alone make a valid update; empty notes do not. */
  lemma NotesOnlyUpdate(notes: string, ops: DateOps)
    ensures ParseSessionUpdate(JObj(map["session_notes" := JStr(notes)]), ops).UpdateAccepted? <==> |notes| >= 1
  {
    var f := map["session_notes" := JStr(notes)];
    assert |f| == 1;
  }
}
