/** The request schemas of the time-slot routes: the H:MM / HH:MM time
    pattern, a slot `{start, end}`, slot creation, slot update and the
    available-slot query. */
module TimeSlotValidator {
  import opened Common
  import opened Clock
  import opened Schema
  import TimeSlotStore

  // -------------------------------------------------- the time pattern

  /** `[01]?[0-9]|2[0-3]`: the hour alternatives. */
  predicate HourPattern(h: string) {
    || (|h| == 1 && IsDigit(h[0]))
    || (|h| == 2 && (h[0] == '0' || h[0] == '1') && IsDigit(h[1]))
    || (|h| == 2 && h[0] == '2' && '0' <= h[1] <= '3')
  }

  /** `[0-5][0-9]`: the minute. */
  predicate MinutePattern(m: string) {
    |m| == 2 && '0' <= m[0] <= '5' && IsDigit(m[1])
  }

  /** The anchored pattern `^([01]?[0-9]|2[0-3]):[0-5][0-9]$`: the text splits
      at a colon into an hour part and a minute part. */
  predicate MatchesTimePattern(s: string) {
    exists k :: 0 <= k < |s| && s[k] == ':' && HourPattern(s[..k]) && MinutePattern(s[k + 1..])
  }

  /** Every accepted time is H:MM or HH:MM for an hour below 24 and a minute
      below 60, and reads back as that hour and minute. */
  lemma TimePatternSound(s: string)
    requires MatchesTimePattern(s)
    ensures |s| == 4 || |s| == 5
    ensures ReadTime(s).Some?
    ensures var (h, m) := ReadTime(s).value;
      h < 24 && m < 60 && s == TimeText(h, m, |s| == 5)
  {
    var k :| 0 <= k < |s| && s[k] == ':' && HourPattern(s[..k]) && MinutePattern(s[k + 1..]);
    assert k == 1 || k == 2;
    if k == 1 {
      var h, m := DigitValue(s[0]), 10 * DigitValue(s[2]) + DigitValue(s[3]);
      assert m / 10 == DigitValue(s[2]) && m % 10 == DigitValue(s[3]);
      DigitRoundTrip(s[0]);
      DigitRoundTrip(s[2]);
      DigitRoundTrip(s[3]);
      assert s == [s[0], s[1], s[2], s[3]];
      assert s == TimeText(h, m, false);
    } else {
      var h, m := 10 * DigitValue(s[0]) + DigitValue(s[1]), 10 * DigitValue(s[3]) + DigitValue(s[4]);
      assert h / 10 == DigitValue(s[0]) && h % 10 == DigitValue(s[1]);
      assert m / 10 == DigitValue(s[3]) && m % 10 == DigitValue(s[4]);
      DigitRoundTrip(s[0]);
      DigitRoundTrip(s[1]);
      DigitRoundTrip(s[3]);
      DigitRoundTrip(s[4]);
      assert s == [s[0], s[1], s[2], s[3], s[4]];
      assert s == TimeText(h, m, true);
    }
  }

  /** Every hour below 24 and minute below 60 is accepted, with or without a
      leading zero on a one-digit hour. */
  lemma TimePatternComplete(h: nat, m: nat, padded: bool)
    requires h < 24 && m < 60
    ensures MatchesTimePattern(TimeText(h, m, padded))
  {
    var s := TimeText(h, m, padded);
    var k := |s| - 3;
    assert s[k] == ':';
    assert MinutePattern(s[k + 1..]);
    assert HourPattern(s[..k]);
  }

  /** The pattern accepts exactly the clock times. */
  lemma TimePatternIsClockTime(s: string)
    ensures MatchesTimePattern(s) <==> IsClockTime(s)
  {
    if MatchesTimePattern(s) {
      TimePatternSound(s);
    } else if IsClockTime(s) {
      var (h, m) := ReadTime(s).value;
      TimePatternComplete(h, m, |s| == 5);
    }
  }

  /** A one-digit hour is accepted; hour 24 and minute 60 are not. */
  lemma TimePatternExamples()
    ensures MatchesTimePattern("7:05") && MatchesTimePattern("07:05") && MatchesTimePattern("23:59")
    ensures !MatchesTimePattern("24:00") && !MatchesTimePattern("12:60") && !MatchesTimePattern("7:5")
  {
    TimePatternComplete(7, 5, false);
    TimePatternComplete(7, 5, true);
    TimePatternComplete(23, 59, true);
    assert TimeText(7, 5, false) == "7:05";
    assert TimeText(7, 5, true) == "07:05";
    assert TimeText(23, 59, true) == "23:59";
    if MatchesTimePattern("24:00") { TimePatternSound("24:00"); }
    if MatchesTimePattern("12:60") { TimePatternSound("12:60"); }
    if MatchesTimePattern("7:5") { TimePatternSound("7:5"); }
  }

  /** The default blocks pass the pattern. */
  lemma DefaultSlotsMatchPattern()
    ensures forall i :: 0 <= i < |DefaultTimeSlots| ==>
      MatchesTimePattern(DefaultTimeSlots[i].start) && MatchesTimePattern(DefaultTimeSlots[i].end)
  {
    DefaultSlotsAreTwoHourBlocks();
    forall i | 0 <= i < |DefaultTimeSlots|
      ensures MatchesTimePattern(DefaultTimeSlots[i].start) && MatchesTimePattern(DefaultTimeSlots[i].end)
    {
      TimePatternComplete(8 + 2 * i, 0, true);
      TimePatternComplete(10 + 2 * i, 0, true);
    }
  }

  // ------------------------------------------------------------ schemas

  /** What `z.string().regex(time)` accepts. */
  predicate IsTimeString(v: Value) {
    v.JStr? && MatchesTimePattern(v.s)
  }

  /** `timeSlotSchema`: an object with `start` and `end` times; other keys
      are dropped. The two times are checked one by one: nothing relates
      them. */
  function ParseSlotSpec(v: Value): (r: Option<SlotSpec>)
    ensures r.Some? <==> v.JObj? && "start" in v.fields && "end" in v.fields
                         && IsTimeString(v.fields["start"]) && IsTimeString(v.fields["end"])
    ensures r.Some? ==> v.fields["start"] == JStr(r.value.start) && v.fields["end"] == JStr(r.value.end)
  {
    if v.JObj? && "start" in v.fields && "end" in v.fields
       && IsTimeString(v.fields["start"]) && IsTimeString(v.fields["end"])
    then Some(SlotSpec(v.fields["start"].s, v.fields["end"].s))
    else None
  }

  function EncodeSlotSpec(spec: SlotSpec): Value {
    JObj(map["start" := JStr(spec.start), "end" := JStr(spec.end)])
  }

  /** `z.array(timeSlotSchema)`: every element must pass. */
  function ParseSlotList(items: seq<Value>): (r: Option<seq<SlotSpec>>)
    ensures r.Some? <==> forall i :: 0 <= i < |items| ==> ParseSlotSpec(items[i]).Some?
    ensures r.Some? ==> |r.value| == |items|
    ensures r.Some? ==> forall i :: 0 <= i < |items| ==> ParseSlotSpec(items[i]) == Some(r.value[i])
  {
    if items == [] then Some([])
    else
      var head, tail := ParseSlotSpec(items[0]), ParseSlotList(items[1..]);
      if head.Some? && tail.Some? then Some([head.value] + tail.value)
      else
        assert head.None? || exists i :: 1 <= i < |items| && ParseSlotSpec(items[i]).None? by {
          if head.Some? {
            var i :| 0 <= i < |items[1..]| && ParseSlotSpec(items[1..][i]).None?;
            assert items[1..][i] == items[i + 1];
          }
        }
        None
  }

  /** A slot object passes exactly when both of its times are clock times,
      and it is given back unchanged. */
  lemma SlotSpecRoundTrip(spec: SlotSpec)
    ensures ParseSlotSpec(EncodeSlotSpec(spec)).Some? <==> IsClockTime(spec.start) && IsClockTime(spec.end)
    ensures ParseSlotSpec(EncodeSlotSpec(spec)).Some? ==> ParseSlotSpec(EncodeSlotSpec(spec)).value == spec
  {
    TimePatternIsClockTime(spec.start);
    TimePatternIsClockTime(spec.end);
  }

  /** A start after its end is accepted. */
  lemma SlotOrderNotChecked()
    ensures ParseSlotSpec(EncodeSlotSpec(SlotSpec("18:00", "08:00"))) == Some(SlotSpec("18:00", "08:00"))
  {
    TimePatternComplete(18, 0, true);
    TimePatternComplete(8, 0, true);
    assert TimeText(18, 0, true) == "18:00";
    assert TimeText(8, 0, true) == "08:00";
  }

  /** Output of `createTimeSlotsSchema`: the date as `new Date(text)` gives
      it (possibly an Invalid Date), and the slot list if one was sent. */
  datatype CreateTimeSlotsInput = CreateTimeSlotsInput(date: Option<int>, slots: Option<seq<SlotSpec>>)

  /** `createTimeSlotsSchema`: `date` is any string, turned into a Date by
      `newDate`; `slots` is optional. */
  function ParseCreateTimeSlots(v: Value, newDate: string -> Option<int>): (r: Option<CreateTimeSlotsInput>)
    ensures r.Some? <==> (v.JObj? && "date" in v.fields && v.fields["date"].JStr?
                          && ("slots" in v.fields ==> v.fields["slots"].JArr? && ParseSlotList(v.fields["slots"].items).Some?))
    ensures r.Some? ==> r.value.date == newDate(v.fields["date"].s)
    ensures r.Some? ==> (r.value.slots.None? <==> "slots" !in v.fields)
    ensures r.Some? && "slots" in v.fields ==> r.value.slots == ParseSlotList(v.fields["slots"].items)
  {
    if !(v.JObj? && "date" in v.fields && v.fields["date"].JStr?) then None
    else if "slots" !in v.fields then Some(CreateTimeSlotsInput(newDate(v.fields["date"].s), None))
    else if !v.fields["slots"].JArr? then None
    else match ParseSlotList(v.fields["slots"].items)
      case None => None
      case Some(list) => Some(CreateTimeSlotsInput(newDate(v.fields["date"].s), Some(list)))
  }

  /** A creation request without `slots` passes and leads the service to
      the five default blocks. */
  lemma OmittedSlotsReachDefaults(date: string, newDate: string -> Option<int>, therapistId: int, day: Day)
    ensures var r := ParseCreateTimeSlots(JObj(map["date" := JStr(date)]), newDate);
      r.Some? && r.value.slots.None? && SpecsOf(TimeSlotStore.SlotsToCreate(therapistId, day, r.value.slots)) == DefaultTimeSlots
  {
  }

  /** Every row the service builds from an accepted creation request has
      times of day, so such a request is never refused for its times. */
  lemma ValidatedSlotsHaveTimes(v: Value, newDate: string -> Option<int>, therapistId: int, day: Day)
    requires ParseCreateTimeSlots(v, newDate).Some?
    ensures TimeSlotStore.AllTimesOk(TimeSlotStore.SlotsToCreate(therapistId, day, ParseCreateTimeSlots(v, newDate).value.slots))
  {
    var slots := ParseCreateTimeSlots(v, newDate).value.slots;
    var rows := TimeSlotStore.SlotsToCreate(therapistId, day, slots);
    var specs := if slots.Some? then slots.value else DefaultTimeSlots;
    assert |rows| == |SpecsOf(rows)| == |specs|;
    if slots.None? {
      DefaultSlotsMatchPattern();
    }
    forall k | 0 <= k < |rows|
      ensures TimeSlotStore.TimesOk(rows[k])
    {
      assert SpecsOf(rows)[k] == SpecOf(rows[k]) == specs[k];
      if slots.Some? {
        assert ParseSlotSpec(v.fields["slots"].items[k]) == Some(specs[k]);
      }
      TimePatternIsClockTime(specs[k].start);
      TimePatternIsClockTime(specs[k].end);
    }
  }

  /** `updateTimeSlotSchema`: optional `start_time` and `end_time` times and
      an optional `is_booked` flag; the result is the patch the service
      applies. */
  function ParseUpdateTimeSlot(v: Value): (r: Option<TimeSlotStore.SlotPatch>)
    ensures r.Some? <==> (v.JObj?
                          && ("start_time" in v.fields ==> IsTimeString(v.fields["start_time"]))
                          && ("end_time" in v.fields ==> IsTimeString(v.fields["end_time"]))
                          && ("is_booked" in v.fields ==> v.fields["is_booked"].JBool?))
    ensures r.Some? ==> r.value.id.None? && r.value.therapistId.None? && r.value.date.None?
    ensures r.Some? ==> (r.value.startTime.Some? <==> "start_time" in v.fields)
    ensures r.Some? && r.value.startTime.Some? ==> v.fields["start_time"] == JStr(r.value.startTime.value)
    ensures r.Some? ==> (r.value.endTime.Some? <==> "end_time" in v.fields)
    ensures r.Some? && r.value.endTime.Some? ==> v.fields["end_time"] == JStr(r.value.endTime.value)
    ensures r.Some? ==> (r.value.isBooked.Some? <==> "is_booked" in v.fields)
    ensures r.Some? && r.value.isBooked.Some? ==> v.fields["is_booked"] == JBool(r.value.isBooked.value)
  {
    if !v.JObj? then None
    else
      var f := v.fields;
      if "start_time" in f && !IsTimeString(f["start_time"]) then None
      else if "end_time" in f && !IsTimeString(f["end_time"]) then None
      else if "is_booked" in f && !f["is_booked"].JBool? then None
      else Some(TimeSlotStore.SlotPatch(
        None, None, None,
        if "start_time" in f then Some(f["start_time"].s) else None,
        if "end_time" in f then Some(f["end_time"].s) else None,
        if "is_booked" in f then Some(f["is_booked"].b) else None))
  }

  /** The empty object is a valid update (it changes nothing), and the
      booked flag may be set either way. */
  lemma UpdateAcceptsEmptyAndEitherFlag(b: bool)
    ensures ParseUpdateTimeSlot(JObj(map[])) == Some(TimeSlotStore.EmptyPatch)
    ensures ParseUpdateTimeSlot(JObj(map["is_booked" := JBool(b)])) == Some(TimeSlotStore.SlotPatch(None, None, None, None, None, Some(b)))
  {
  }

  /** Every accepted update names only times of day. */
  lemma ValidatedPatchHasTimes(v: Value)
    requires ParseUpdateTimeSlot(v).Some?
    ensures TimeSlotStore.PatchTimesOk(ParseUpdateTimeSlot(v).value)
  {
    if "start_time" in v.fields { TimePatternIsClockTime(v.fields["start_time"].s); }
    if "end_time" in v.fields { TimePatternIsClockTime(v.fields["end_time"].s); }
  }

  /** Keys outside the schema do not make an update fail: a body naming the
      id and the therapist passes, though the schema's own output drops
      them. */
  lemma UpdateLetsOtherColumnsThrough()
    ensures ParseUpdateTimeSlot(JObj(map["id" := JNum(7.0), "therapist_id" := JNum(2.0)])) == Some(TimeSlotStore.EmptyPatch)
  {
  }

  /** Output of `getAvailableSlotsSchema`: both bounds as Dates. */
  datatype AvailableSlotsQuery = AvailableSlotsQuery(startDate: Option<int>, endDate: Option<int>)

  /** `getAvailableSlotsSchema`: `startDate` and `endDate` are required
      strings, each turned into a Date by `newDate`. */
  function ParseGetAvailableSlots(v: Value, newDate: string -> Option<int>): (r: Option<AvailableSlotsQuery>)
    ensures r.Some? <==> v.JObj? && "startDate" in v.fields && v.fields["startDate"].JStr?
                         && "endDate" in v.fields && v.fields["endDate"].JStr?
    ensures r.Some? ==> r.value == AvailableSlotsQuery(newDate(v.fields["startDate"].s), newDate(v.fields["endDate"].s))
  {
    if v.JObj? && "startDate" in v.fields && v.fields["startDate"].JStr?
       && "endDate" in v.fields && v.fields["endDate"].JStr?
    then Some(AvailableSlotsQuery(newDate(v.fields["startDate"].s), newDate(v.fields["endDate"].s)))
    else None
  }
}
