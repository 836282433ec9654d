/** The feedback schemas: a full feedback record, and its partial form for
    updates. Both refuse unknown keys. */
module FeedbackValidator {
  import opened Common

  const FeedbackKeys: set<string> := {"user_id", "session_id", "rating", "comments", "therapist_notes"}
  const RequiredFeedbackKeys: set<string> := FeedbackKeys - {"therapist_notes"}

  /** The rule for each key, shared by both schemas: positive integer ids,
      an integer rating from 1 to 10, comments of 1 to 1000 characters and
      notes of at most 1000. */
  predicate FeedbackFieldOk(k: string, v: Value) {
    if k == "user_id" || k == "session_id" then IsPositiveInt(v)
    else if k == "rating" then v.JNum? && IsInteger(v.n) && 1.0 <= v.n <= 10.0
    else if k == "comments" then StringWithin(v, 1, 1000)
    else if k == "therapist_notes" then StringWithin(v, 0, 1000)
    else false
  }

  datatype Feedback = Feedback(userId: int, sessionId: int, rating: int, comments: string, therapistNotes: Option<string>)

  /** A feedback update: only the keys sent. */
  datatype FeedbackUpdate = FeedbackUpdate(
    userId: Option<int>, sessionId: Option<int>, rating: Option<int>,
    comments: Option<string>, therapistNotes: Option<string>)

  predicate ValidFeedback(x: Feedback) {
    && x.userId > 0 && x.sessionId > 0 && 1 <= x.rating <= 10
    && 1 <= |x.comments| <= 1000
    && (x.therapistNotes.Some? ==> |x.therapistNotes.value| <= 1000)
  }

  predicate ValidFeedbackUpdate(u: FeedbackUpdate) {
    && (u.userId.Some? ==> u.userId.value > 0)
    && (u.sessionId.Some? ==> u.sessionId.value > 0)
    && (u.rating.Some? ==> 1 <= u.rating.value <= 10)
    && (u.comments.Some? ==> 1 <= |u.comments.value| <= 1000)
    && (u.therapistNotes.Some? ==> |u.therapistNotes.value| <= 1000)
  }

  function OptInt(f: map<string, Value>, k: string): Option<int>
    requires k in f ==> f[k].JNum?
  {
    if k in f then Some(IntOf(f[k])) else None
  }

  function OptStr(f: map<string, Value>, k: string): Option<string>
    requires k in f ==> f[k].JStr?
  {
    if k in f then Some(f[k].s) else None
  }

  function WithStr(m: map<string, Value>, k: string, x: Option<string>): map<string, Value> {
    if x.Some? then m[k := JStr(x.value)] else m
  }

  function EncodeFeedback(x: Feedback): Value {
    JObj(WithStr(map["user_id" := Num(x.userId), "session_id" := Num(x.sessionId), "rating" := Num(x.rating),
                     "comments" := JStr(x.comments)], "therapist_notes", x.therapistNotes))
  }

  /** The value an update sends under key `k`, if it sends one. */
  function UpdateValue(u: FeedbackUpdate, k: string): Option<Value> {
    if k == "user_id" then (if u.userId.Some? then Some(Num(u.userId.value)) else None)
    else if k == "session_id" then (if u.sessionId.Some? then Some(Num(u.sessionId.value)) else None)
    else if k == "rating" then (if u.rating.Some? then Some(Num(u.rating.value)) else None)
    else if k == "comments" then (if u.comments.Some? then Some(JStr(u.comments.value)) else None)
    else if k == "therapist_notes" then (if u.therapistNotes.Some? then Some(JStr(u.therapistNotes.value)) else None)
    else None
  }

  function EncodeFeedbackUpdate(u: FeedbackUpdate): Value {
    JObj(map k | k in FeedbackKeys && UpdateValue(u, k).Some? :: UpdateValue(u, k).value)
  }

  /** `feedbackSchema`: strict, every key but the notes required. */
  function ParseFeedback(v: Value): (r: Option<Feedback>)
    ensures r.Some? <==> (v.JObj? && v.fields.Keys <= FeedbackKeys && RequiredFeedbackKeys <= v.fields.Keys
                          && forall k :: k in v.fields ==> FeedbackFieldOk(k, v.fields[k]))
    ensures r.Some? ==> ValidFeedback(r.value) && v == EncodeFeedback(r.value)
  {
    if !(v.JObj? && v.fields.Keys <= FeedbackKeys && RequiredFeedbackKeys <= v.fields.Keys
         && forall k :: k in v.fields ==> FeedbackFieldOk(k, v.fields[k]))
    then None
    else
      var f := v.fields;
      assert FeedbackFieldOk("user_id", f["user_id"]) && FeedbackFieldOk("session_id", f["session_id"]);
      assert FeedbackFieldOk("rating", f["rating"]) && FeedbackFieldOk("comments", f["comments"]);
      assert "therapist_notes" in f ==> FeedbackFieldOk("therapist_notes", f["therapist_notes"]);
      var x := Feedback(IntOf(f["user_id"]), IntOf(f["session_id"]), IntOf(f["rating"]), f["comments"].s,
                        OptStr(f, "therapist_notes"));
      assert f == EncodeFeedback(x).fields;
      Some(x)
  }

  predicate UpdateShape(f: map<string, Value>) {
    f.Keys <= FeedbackKeys && forall k :: k in f ==> FeedbackFieldOk(k, f[k])
  }

  /** The update that an object of the right shape sends. */
  function DecodeUpdate(f: map<string, Value>): FeedbackUpdate
    requires UpdateShape(f)
  {
    assert "user_id" in f ==> FeedbackFieldOk("user_id", f["user_id"]);
    assert "session_id" in f ==> FeedbackFieldOk("session_id", f["session_id"]);
    assert "rating" in f ==> FeedbackFieldOk("rating", f["rating"]);
    assert "comments" in f ==> FeedbackFieldOk("comments", f["comments"]);
    assert "therapist_notes" in f ==> FeedbackFieldOk("therapist_notes", f["therapist_notes"]);
    FeedbackUpdate(OptInt(f, "user_id"), OptInt(f, "session_id"), OptInt(f, "rating"),
                   OptStr(f, "comments"), OptStr(f, "therapist_notes"))
  }

  lemma DecodeUpdateEncodes(f: map<string, Value>)
    requires UpdateShape(f)
    ensures ValidFeedbackUpdate(DecodeUpdate(f))
    ensures f == EncodeFeedbackUpdate(DecodeUpdate(f)).fields
  {
    var u := DecodeUpdate(f);
    var g := EncodeFeedbackUpdate(u).fields;
    forall k | k in f ensures k in g && g[k] == f[k] {
      assert FeedbackFieldOk(k, f[k]);
    }
    forall k | k in g ensures k in f {
    }
  }

  /** `feedbackSchema.partial().strict()`: every key optional, the same rule
      for each key that is sent, still no unknown key. */
  function ParseFeedbackUpdate(v: Value): (r: Option<FeedbackUpdate>)
    ensures r.Some? <==> (v.JObj? && v.fields.Keys <= FeedbackKeys
                          && forall k :: k in v.fields ==> FeedbackFieldOk(k, v.fields[k]))
    ensures r.Some? ==> ValidFeedbackUpdate(r.value) && v == EncodeFeedbackUpdate(r.value)
  {
    if !(v.JObj? && UpdateShape(v.fields)) then None
    else
      DecodeUpdateEncodes(v.fields);
      Some(DecodeUpdate(v.fields))
  }

  /** Every valid feedback record passes as it is written. */
  lemma FeedbackRoundTrip(x: Feedback)
    requires ValidFeedback(x)
    ensures ParseFeedback(EncodeFeedback(x)) == Some(x)
  {
  }

  /** Every valid update passes as it is written; the empty one included. */
  lemma FeedbackUpdateRoundTrip(u: FeedbackUpdate)
    requires ValidFeedbackUpdate(u)
    ensures ParseFeedbackUpdate(EncodeFeedbackUpdate(u)) == Some(u)
  {
    var f := EncodeFeedbackUpdate(u).fields;
    assert f.Keys <= FeedbackKeys;
    forall k | k in f ensures FeedbackFieldOk(k, f[k]) {
    }
  }

  /** Whatever a full record accepts, the update schema accepts too, with
      the same values. */
  lemma FullFeedbackIsValidUpdate(v: Value)
    requires ParseFeedback(v).Some?
    ensures ParseFeedbackUpdate(v).Some?
    ensures var x, u := ParseFeedback(v).value, ParseFeedbackUpdate(v).value;
      u == FeedbackUpdate(Some(x.userId), Some(x.sessionId), Some(x.rating), Some(x.comments), x.therapistNotes)
  {
  }
}
