/** The database schema's rules that carry logic: the enumerations, the
    available-time-slot row and its uniqueness index, the default two-hour
    blocks and the mapping of slot specifications to fresh rows. */
module Schema {
  import opened Common
  import opened Clock

  // ---------------------------------------------------------------- enums

  /** Labels of the `role` enumeration of the database. */
  const RoleLabels: seq<string> := ["admin", "therapist", "patient"]
  /** Labels of the `booking_status` enumeration of the database. */
  const BookingStatusLabels: seq<string> := ["Pending", "Confirmed", "Cancelled"]
  /** Labels of the `payment_status` enumeration of the database. */
  const PaymentStatusLabels: seq<string> := ["Pending", "Completed", "Failed"]
  /** Labels of the `message_status` enumeration of the database. */
  const MessageStatusLabels: seq<string> := ["Sent", "Read", "Deleted"]

  datatype Role = Admin | Therapist | Patient
  datatype BookingStatus = Pending | Confirmed | Cancelled

  function RoleLabel(r: Role): string {
    match r
    case Admin => "admin"
    case Therapist => "therapist"
    case Patient => "patient"
  }

  function BookingStatusLabel(b: BookingStatus): string {
    match b
    case Pending => "Pending"
    case Confirmed => "Confirmed"
    case Cancelled => "Cancelled"
  }

  /** A `role` column accepts exactly its three labels. */
  function RoleOf(s: string): (r: Option<Role>)
    ensures r.Some? <==> s in RoleLabels
    ensures r.Some? ==> RoleLabel(r.value) == s
  {
    if s == "admin" then Some(Admin)
    else if s == "therapist" then Some(Therapist)
    else if s == "patient" then Some(Patient)
    else None
  }

  /** A `booking_status` column accepts exactly its three labels. */
  function BookingStatusOf(s: string): (r: Option<BookingStatus>)
    ensures r.Some? <==> s in BookingStatusLabels
    ensures r.Some? ==> BookingStatusLabel(r.value) == s
  {
    if s == "Pending" then Some(Pending)
    else if s == "Confirmed" then Some(Confirmed)
    else if s == "Cancelled" then Some(Cancelled)
    else None
  }

  /** Column defaults: a user is a patient and a booking is pending unless
      the insert says otherwise. */
  const DefaultRole: Role := Patient
  const DefaultBookingStatus: BookingStatus := Pending

  lemma EnumLabelsRoundTrip(r: Role, b: BookingStatus)
    ensures RoleOf(RoleLabel(r)) == Some(r)
    ensures BookingStatusOf(BookingStatusLabel(b)) == Some(b)
    ensures RoleLabel(DefaultRole) == "patient" && BookingStatusLabel(DefaultBookingStatus) == "Pending"
  {
  }

  // ------------------------------------------------------ available slots

  /** A calendar date, as a day number. */
  type Day = int

  /** One `{start, end}` pair of a slot list. */
  datatype SlotSpec = SlotSpec(start: string, end: string)

  /** The columns of an `available_time_slots` row other than its id. */
  datatype SlotRow = SlotRow(therapistId: int, date: Day, startTime: string, endTime: string, isBooked: bool)

  /** The unique index covers therapist, date and start time. The start
      column has type `time`, so two starts collide when they name the same
      time of day, whatever their text ("8:00" and "08:00" alike). */
  function SlotKey(row: SlotRow): (int, Day, int) {
    (row.therapistId, row.date, MinutesOf(row.startTime))
  }

  /** No two rows share a (therapist_id, date, start_time) key. */
  predicate UniqueSlotKeys(rows: seq<SlotRow>) {
    forall i, j :: 0 <= i < j < |rows| ==> SlotKey(rows[i]) != SlotKey(rows[j])
  }

  function SpecOf(row: SlotRow): SlotSpec {
    SlotSpec(row.startTime, row.endTime)
  }

  /** The start and end times of each row, in order. */
  function SpecsOf(rows: seq<SlotRow>): seq<SlotSpec> {
    seq(|rows|, i requires 0 <= i < |rows| => SpecOf(rows[i]))
  }

  /** The fixed working day: five two-hour blocks from 08:00 to 18:00. */
  function GenerateTimeSlots(): seq<SlotSpec> {
    [ SlotSpec("08:00", "10:00"),
      SlotSpec("10:00", "12:00"),
      SlotSpec("12:00", "14:00"),
      SlotSpec("14:00", "16:00"),
      SlotSpec("16:00", "18:00") ]
  }

  const DefaultTimeSlots: seq<SlotSpec> := GenerateTimeSlots()

  /** Block i of the default day starts at 8 + 2i o'clock and ends two hours
      later, both written with a two-digit hour. */
  lemma DefaultSlotsAreTwoHourBlocks()
    ensures |DefaultTimeSlots| == 5
    ensures forall i :: 0 <= i < 5 ==>
      DefaultTimeSlots[i] == SlotSpec(TimeText(8 + 2 * i, 0, true), TimeText(10 + 2 * i, 0, true))
  {
    forall i | 0 <= i < 5
      ensures DefaultTimeSlots[i] == SlotSpec(TimeText(8 + 2 * i, 0, true), TimeText(10 + 2 * i, 0, true))
    {
      if i == 0 {
        assert TimeText(8, 0, true) == "08:00";
      }
    }
  }

  /** The default blocks tile the day: each ends where the next starts, and
      each starts before it ends. */
  lemma DefaultSlotsContiguous()
    ensures forall i :: 0 <= i < |DefaultTimeSlots| - 1 ==> DefaultTimeSlots[i].end == DefaultTimeSlots[i + 1].start
    ensures forall i :: 0 <= i < |DefaultTimeSlots| ==>
      0 <= MinutesOf(DefaultTimeSlots[i].start) < MinutesOf(DefaultTimeSlots[i].end)
  {
    DefaultSlotsAreTwoHourBlocks();
    forall i | 0 <= i < |DefaultTimeSlots|
      ensures 0 <= MinutesOf(DefaultTimeSlots[i].start) < MinutesOf(DefaultTimeSlots[i].end)
    {
      ReadTimeText(8 + 2 * i, 0, true);
      ReadTimeText(10 + 2 * i, 0, true);
    }
  }

  /** The default start times are pairwise distinct times of day. */
  lemma DefaultStartsDistinct()
    ensures forall i, j :: 0 <= i < j < |DefaultTimeSlots| ==>
      MinutesOf(DefaultTimeSlots[i].start) != MinutesOf(DefaultTimeSlots[j].start)
  {
    DefaultSlotsContiguous();
    DefaultSlotsAreTwoHourBlocks();
    forall i, j | 0 <= i < j < |DefaultTimeSlots|
      ensures MinutesOf(DefaultTimeSlots[i].start) != MinutesOf(DefaultTimeSlots[j].start)
    {
      ReadTimeText(8 + 2 * i, 0, true);
      ReadTimeText(8 + 2 * j, 0, true);
    }
  }

  /** A new row for one slot specification: owned by the therapist, on the
      date, not booked. */
  function NewSlotRow(therapistId: int, date: Day, spec: SlotSpec): SlotRow {
    SlotRow(therapistId, date, spec.start, spec.end, false)
  }

  /** The `.map` over a slot list: one fresh row per specification. */
  function RowsFor(therapistId: int, date: Day, specs: seq<SlotSpec>): (r: seq<SlotRow>)
    ensures SpecsOf(r) == specs
    ensures forall row :: row in r ==> row.therapistId == therapistId && row.date == date && !row.isBooked
  {
    if specs == [] then []
    else [NewSlotRow(therapistId, date, specs[0])] + RowsFor(therapistId, date, specs[1..])
  }

  /** The rows for a therapist's day; an omitted slot list means the default
      blocks. Rows come out in the order of the list and carry its times. */
  function CreateAvailableTimeSlots(therapistId: int, date: Day, slots: Option<seq<SlotSpec>>): (r: seq<SlotRow>)
    ensures SpecsOf(r) == (if slots.Some? then slots.value else DefaultTimeSlots)
    ensures |r| == (if slots.Some? then |slots.value| else 5)
    ensures forall row :: row in r ==> row.therapistId == therapistId && row.date == date && !row.isBooked
  {
    RowsFor(therapistId, date, if slots.Some? then slots.value else DefaultTimeSlots)
  }

  /** Rows made for one therapist and date satisfy the uniqueness index
      exactly when their starts are distinct times of day. */
  lemma {:induction false} DistinctStartsGiveUniqueKeys(therapistId: int, date: Day, specs: seq<SlotSpec>)
    ensures UniqueSlotKeys(RowsFor(therapistId, date, specs)) <==>
      forall i, j :: 0 <= i < j < |specs| ==> MinutesOf(specs[i].start) != MinutesOf(specs[j].start)
  {
    var rows := RowsFor(therapistId, date, specs);
    assert |rows| == |SpecsOf(rows)| == |specs|;
    forall i | 0 <= i < |rows|
      ensures SlotKey(rows[i]) == (therapistId, date, MinutesOf(specs[i].start))
    {
      assert SpecsOf(rows)[i] == SpecOf(rows[i]);
      assert rows[i] in rows;
    }
  }

  /** One default batch for a therapist and date satisfies the index. */
  lemma DefaultBatchIsUnique(therapistId: int, date: Day)
    ensures UniqueSlotKeys(CreateAvailableTimeSlots(therapistId, date, None))
  {
    DefaultStartsDistinct();
    DistinctStartsGiveUniqueKeys(therapistId, date, DefaultTimeSlots);
  }
}
