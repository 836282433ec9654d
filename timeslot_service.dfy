/** The time-slot service over the `available_time_slots` table: batch
    creation (default or custom blocks), the queries by therapist and date or
    date range, and update and delete of one row by id. The table is held in
    memory; ids are issued as a serial column issues them, times are stored
    the way a `time` column stores them, and both the primary key and the
    (therapist_id, date, start_time) unique index are enforced on every
    write. */
module TimeSlotStore {
  import opened Common
  import opened Clock
  import opened Schema

  /** A stored row: its id and its columns. */
  datatype Slot = Slot(id: nat, row: SlotRow)

  /** Why the database refuses a write. */
  datatype StoreError =
    | EmptyBatch       // an insert with no rows at all
    | InvalidTime      // a start or end time that is not a time of day
    | UniqueViolation  // the write would repeat an id or a slot key
    | NothingToSet     // an update whose patch names no column

  datatype InsertResult = Inserted(rows: seq<Slot>) | InsertFailed(error: StoreError)

  /** The result of an update: the changed row, no row with that id (the
      service then returns undefined), or a refused write. */
  datatype UpdateResult = Updated(slot: Slot) | NoSuchSlot | UpdateFailed(error: StoreError)

  /** A partial row: the columns an update sets. The request body reaches
      the update as it was sent, so any column may be named, the id too. */
  datatype SlotPatch = SlotPatch(
    id: Option<nat>,
    therapistId: Option<int>,
    date: Option<Day>,
    startTime: Option<string>,
    endTime: Option<string>,
    isBooked: Option<bool>)

  const EmptyPatch := SlotPatch(None, None, None, None, None, None)

  function Rows(slots: seq<Slot>): seq<SlotRow> {
    seq(|slots|, i requires 0 <= i < |slots| => slots[i].row)
  }

  /** The batch the service inserts: `(customSlots || DEFAULT_TIME_SLOTS)`
      mapped to rows. An absent list means the five default blocks; a list
      given but empty is still a list (arrays are truthy) and gives no rows. */
  function SlotsToCreate(therapistId: int, date: Day, customSlots: Option<seq<SlotSpec>>): (r: seq<SlotRow>)
    ensures customSlots.None? ==> |r| == 5 && SpecsOf(r) == DefaultTimeSlots
    ensures customSlots.Some? ==> SpecsOf(r) == customSlots.value
    ensures customSlots == Some([]) ==> r == []
    ensures forall row :: row in r ==> row.therapistId == therapistId && row.date == date && !row.isBooked
  {
    CreateAvailableTimeSlots(therapistId, date, customSlots)
  }

  // ------------------------------------------------------------- times

  /** Both times of a row are times of day the `time` column reads. */
  predicate TimesOk(row: SlotRow) {
    IsClockTime(row.startTime) && IsClockTime(row.endTime)
  }

  predicate AllTimesOk(rows: seq<SlotRow>) {
    forall row :: row in rows ==> TimesOk(row)
  }

  /** Both times written HH:MM, the form the table holds. */
  predicate StoredTimes(row: SlotRow) {
    IsPaddedTime(row.startTime) && IsPaddedTime(row.endTime)
  }

  /** A row as stored has valid times. */
  lemma StoredTimesOk(row: SlotRow)
    requires StoredTimes(row)
    ensures TimesOk(row)
  {
    PaddedTimeIsClockTime(row.startTime);
    PaddedTimeIsClockTime(row.endTime);
  }

  /** The row as the table stores it: each time padded to HH:MM, naming the
      same time of day, and every other column as given. */
  function StoredRow(row: SlotRow): (r: SlotRow)
    requires TimesOk(row)
    ensures StoredTimes(r) && SlotKey(r) == SlotKey(row)
    ensures MinutesOf(r.startTime) == MinutesOf(row.startTime) && MinutesOf(r.endTime) == MinutesOf(row.endTime)
    ensures r.therapistId == row.therapistId && r.date == row.date && r.isBooked == row.isBooked
  {
    row.(startTime := PaddedTime(row.startTime), endTime := PaddedTime(row.endTime))
  }

  /** Storing a stored row changes nothing, and two rows that differ only in
      how their times are written are stored alike. */
  lemma StoredRowNormalForm(row: SlotRow, other: SlotRow)
    requires TimesOk(row) && TimesOk(other)
    ensures StoredTimes(row) ==> StoredRow(row) == row
    ensures StoredTimes(StoredRow(row))
    ensures row.therapistId == other.therapistId && row.date == other.date && row.isBooked == other.isBooked
            && MinutesOf(row.startTime) == MinutesOf(other.startTime) && MinutesOf(row.endTime) == MinutesOf(other.endTime)
            ==> StoredRow(row) == StoredRow(other)
  {
    if StoredTimes(row) {
      PaddedTimeFixesPadded(row.startTime);
      PaddedTimeFixesPadded(row.endTime);
    }
    if MinutesOf(row.startTime) == MinutesOf(other.startTime) && MinutesOf(row.endTime) == MinutesOf(other.endTime) {
      SameMinutesSamePadding(row.startTime, other.startTime);
      SameMinutesSamePadding(row.endTime, other.endTime);
    }
  }

  function StoredRows(rows: seq<SlotRow>): (r: seq<SlotRow>)
    requires AllTimesOk(rows)
    ensures |r| == |rows|
    ensures forall k :: 0 <= k < |rows| ==> r[k] == StoredRow(rows[k])
  {
    seq(|rows|, k requires 0 <= k < |rows| => StoredRow(rows[k]))
  }

  /** Storing the times of a batch keeps every slot key, so the index sees
      the stored batch as it sees the batch sent. */
  lemma StoredRowsKeepKeys(prefix: seq<SlotRow>, rows: seq<SlotRow>)
    requires AllTimesOk(rows)
    ensures UniqueSlotKeys(prefix + StoredRows(rows)) <==> UniqueSlotKeys(prefix + rows)
  {
    var a, b := prefix + StoredRows(rows), prefix + rows;
    assert |a| == |b|;
    forall i | 0 <= i < |a|
      ensures SlotKey(a[i]) == SlotKey(b[i])
    {
      if i >= |prefix| {
        assert a[i] == StoredRow(rows[i - |prefix|]) && b[i] == rows[i - |prefix|];
        assert rows[i - |prefix|] in rows;
      }
    }
  }

  /** Rows numbered with consecutive ids from `first`. */
  function Number(rows: seq<SlotRow>, first: nat): (r: seq<Slot>)
    ensures Rows(r) == rows
    ensures forall k :: 0 <= k < |r| ==> r[k].id == first + k
  {
    seq(|rows|, k requires 0 <= k < |rows| => Slot(first + k, rows[k]))
  }

  /** The position of the row with the given id. */
  function IndexOfId(slots: seq<Slot>, id: nat): (r: Option<nat>)
    ensures r.Some? ==> r.value < |slots| && slots[r.value].id == id
    ensures r.Some? ==> forall k :: 0 <= k < r.value ==> slots[k].id != id
    ensures r.None? ==> forall k :: 0 <= k < |slots| ==> slots[k].id != id
  {
    if slots == [] then None
    else if slots[0].id == id then Some(0)
    else match IndexOfId(slots[1..], id)
      case None => None
      case Some(k) => Some(k + 1)
  }

  /** The rows of `slots` that `keep` accepts, in table order. */
  function Select(slots: seq<Slot>, keep: Slot -> bool): (r: seq<Slot>)
    ensures |r| <= |slots|
    ensures forall s :: s in r <==> s in slots && keep(s)
  {
    if slots == [] then []
    else (if keep(slots[0]) then [slots[0]] else []) + Select(slots[1..], keep)
  }

  // ----------------------------------------------------------- patches

  /** The patch's times are times of day, where it names them. */
  predicate PatchTimesOk(p: SlotPatch) {
    (p.startTime.Some? ==> IsClockTime(p.startTime.value))
    && (p.endTime.Some? ==> IsClockTime(p.endTime.value))
  }

  /** The row's columns other than the id, with the patched ones overwritten
      and the others kept. */
  function ApplyPatch(row: SlotRow, p: SlotPatch): SlotRow {
    SlotRow(
      if p.therapistId.Some? then p.therapistId.value else row.therapistId,
      if p.date.Some? then p.date.value else row.date,
      if p.startTime.Some? then p.startTime.value else row.startTime,
      if p.endTime.Some? then p.endTime.value else row.endTime,
      if p.isBooked.Some? then p.isBooked.value else row.isBooked)
  }

  /** The id after the patch: the patched one, or the row's own. */
  function PatchedId(id: nat, p: SlotPatch): nat {
    if p.id.Some? then p.id.value else id
  }

  /** The empty patch changes nothing, a patch applied twice changes no more
      than once, a patch of a row with valid times leaves valid times, and a
      patch without key columns keeps the slot key. */
  lemma PatchLaws(row: SlotRow, p: SlotPatch)
    ensures ApplyPatch(row, EmptyPatch) == row
    ensures ApplyPatch(ApplyPatch(row, p), p) == ApplyPatch(row, p)
    ensures TimesOk(row) && PatchTimesOk(p) ==> TimesOk(ApplyPatch(row, p))
    ensures p.startTime.None? && p.therapistId.None? && p.date.None? ==> SlotKey(ApplyPatch(row, p)) == SlotKey(row)
  {
  }

  // ------------------------------------------------------------ tables

  /** Ids distinct (the primary key), the unique slot index holds, and every
      time is stored HH:MM. */
  predicate WellFormedTable(slots: seq<Slot>) {
    && (forall i, j :: 0 <= i < j < |slots| ==> slots[i].id != slots[j].id)
    && UniqueSlotKeys(Rows(slots))
    && (forall k :: 0 <= k < |slots| ==> StoredTimes(slots[k].row))
  }

  /** The first `j + 1` rows of a multi-row insert, numbered from `first`,
      go in without breaking the primary key or the unique index. */
  predicate PrefixGoesIn(slots: seq<Slot>, rows: seq<SlotRow>, first: nat, j: nat)
    requires j < |rows|
  {
    WellFormedTable(slots + Number(rows[..j + 1], first))
  }

  /** The position, from `k` on, of the first row of a multi-row insert that
      the primary key or the unique index refuses: the database inserts the
      rows one at a time, drawing each one's serial id as it goes, and stops
      at that row. `|rows|` when every row goes in. */
  function FirstRefused(slots: seq<Slot>, rows: seq<SlotRow>, first: nat, k: nat): (r: nat)
    requires k <= |rows|
    ensures k <= r <= |rows|
    ensures r < |rows| ==> !PrefixGoesIn(slots, rows, first, r)
    ensures forall j :: k <= j < r ==> PrefixGoesIn(slots, rows, first, j)
    ensures k < |rows| && r == |rows| ==> WellFormedTable(slots + Number(rows, first))
    decreases |rows| - k
  {
    if k == |rows| then |rows|
    else if !PrefixGoesIn(slots, rows, first, k) then k
    else
      var r := FirstRefused(slots, rows, first, k + 1);
      assert r == |rows| ==> rows[..|rows|] == rows && PrefixGoesIn(slots, rows, first, |rows| - 1);
      r
  }

  /** A batch whose first row repeats a stored start draws one id: the
      insert stops at that row. */
  lemma FirstRowClashDrawsOneId(therapistId: int, date: Day, first: nat)
    ensures var slots := [Slot(5, SlotRow(therapistId, date, "08:00", "09:00", false))];
      FirstRefused(slots, [SlotRow(therapistId, date, "08:00", "10:00", false), SlotRow(therapistId, date, "10:00", "12:00", false)], first, 0) == 0
  {
    var slots := [Slot(5, SlotRow(therapistId, date, "08:00", "09:00", false))];
    var rows := [SlotRow(therapistId, date, "08:00", "10:00", false), SlotRow(therapistId, date, "10:00", "12:00", false)];
    var all := slots + Number(rows[..1], first);
    assert Rows(all)[0] == slots[0].row && Rows(all)[1] == rows[0];
    assert SlotKey(Rows(all)[0]) == SlotKey(Rows(all)[1]);
  }

  /** An insert of stored rows numbered from `first` keeps the table well
      formed exactly when no issued id is taken and no new start falls at the
      time of day of another new start or of an existing start of the same
      therapist and date. */
  lemma {:induction false} InsertKeepsWellFormedIff(slots: seq<Slot>, rows: seq<SlotRow>, first: nat)
    requires WellFormedTable(slots) && forall row :: row in rows ==> StoredTimes(row)
    ensures WellFormedTable(slots + Number(rows, first)) <==>
      (&& (forall k :: 0 <= k < |slots| ==> !(first <= slots[k].id < first + |rows|))
       && UniqueSlotKeys(Rows(slots) + rows))
  {
    var inserted := Number(rows, first);
    var all := slots + inserted;
    assert Rows(all) == Rows(slots) + rows;
    if forall k :: 0 <= k < |slots| ==> !(first <= slots[k].id < first + |rows|) {
      forall i, j | 0 <= i < j < |all|
        ensures all[i].id != all[j].id
      {
        if j >= |slots| {
          assert all[j] == inserted[j - |slots|];
          if i >= |slots| {
            assert all[i] == inserted[i - |slots|];
          } else {
            assert all[i] == slots[i];
          }
        } else {
          assert all[i] == slots[i] && all[j] == slots[j];
        }
      }
      assert UniqueSlotKeys(Rows(slots) + rows) ==> WellFormedTable(all);
    } else {
      var k :| 0 <= k < |slots| && first <= slots[k].id < first + |rows|;
      var n := slots[k].id - first;
      assert all[|slots| + n] == inserted[n] && all[k] == slots[k];
      assert all[|slots| + n].id == all[k].id;
    }
    forall k | 0 <= k < |all|
      ensures StoredTimes(all[k].row)
    {
      if k >= |slots| {
        assert all[k].row == rows[k - |slots|];
        assert rows[k - |slots|] in rows;
      }
    }
  }

  /** Replacing the row at `k` keeps the table well formed exactly when the
      new id is no other row's and the new slot key is no other row's. */
  lemma {:induction false} ReplaceKeepsWellFormedIff(slots: seq<Slot>, k: nat, s: Slot)
    requires WellFormedTable(slots) && k < |slots| && StoredTimes(s.row)
    ensures WellFormedTable(slots[k := s]) <==>
      (&& (forall j :: 0 <= j < |slots| && j != k ==> slots[j].id != s.id)
       && (forall j :: 0 <= j < |slots| && j != k ==> SlotKey(slots[j].row) != SlotKey(s.row)))
  {
    var after := slots[k := s];
    var rows, rowsAfter := Rows(slots), Rows(after);
    assert forall j :: 0 <= j < |slots| ==> rowsAfter[j] == if j == k then s.row else rows[j];
    if !(forall j :: 0 <= j < |slots| && j != k ==> SlotKey(slots[j].row) != SlotKey(s.row)) {
      var j :| 0 <= j < |slots| && j != k && SlotKey(slots[j].row) == SlotKey(s.row);
      if j < k { assert SlotKey(rowsAfter[j]) == SlotKey(rowsAfter[k]); }
      else { assert SlotKey(rowsAfter[k]) == SlotKey(rowsAfter[j]); }
    }
    if !(forall j :: 0 <= j < |slots| && j != k ==> slots[j].id != s.id) {
      var j :| 0 <= j < |slots| && j != k && slots[j].id == s.id;
      if j < k { assert after[j].id == after[k].id; }
      else { assert after[k].id == after[j].id; }
    }
  }

  /** An update that names no key column and no id never conflicts: the row
      keeps its id and its slot key. */
  lemma NonKeyPatchNeverConflicts(slots: seq<Slot>, k: nat, p: SlotPatch)
    requires WellFormedTable(slots) && k < |slots| && PatchTimesOk(p)
    requires p.id.None? && p.therapistId.None? && p.date.None? && p.startTime.None?
    ensures TimesOk(slots[k].row) && TimesOk(ApplyPatch(slots[k].row, p))
    ensures WellFormedTable(slots[k := Slot(PatchedId(slots[k].id, p), StoredRow(ApplyPatch(slots[k].row, p)))])
  {
    StoredTimesOk(slots[k].row);
    PatchLaws(slots[k].row, p);
    var s := Slot(PatchedId(slots[k].id, p), StoredRow(ApplyPatch(slots[k].row, p)));
    assert SlotKey(s.row) == SlotKey(slots[k].row);
    forall j | 0 <= j < |slots| && j != k
      ensures SlotKey(slots[j].row) != SlotKey(s.row)
    {
      assert Rows(slots)[j] == slots[j].row && Rows(slots)[k] == slots[k].row;
    }
    ReplaceKeepsWellFormedIff(slots, k, s);
  }

  /** The index compares times of day: a start of "8:00" collides with a
      stored "08:00" of the same therapist and date. */
  lemma PaddingDoesNotEvadeIndex(therapistId: int, date: Day)
    ensures !UniqueSlotKeys([SlotRow(therapistId, date, "08:00", "10:00", false),
                             SlotRow(therapistId, date, "8:00", "9:00", false)])
  {
    var rows := [SlotRow(therapistId, date, "08:00", "10:00", false),
                 SlotRow(therapistId, date, "8:00", "9:00", false)];
    assert SlotKey(rows[0]) == SlotKey(rows[1]);
  }

  /** Dropping the row at `k` keeps the table well formed and removes exactly
      the row with that row's id. */
  lemma {:induction false} RemovePreservesWellFormed(slots: seq<Slot>, k: nat)
    requires k < |slots| && WellFormedTable(slots)
    ensures WellFormedTable(slots[..k] + slots[k + 1..])
    ensures forall s :: s in slots[..k] + slots[k + 1..] <==> s in slots && s.id != slots[k].id
  {
    var rest := slots[..k] + slots[k + 1..];
    assert |rest| == |slots| - 1;
    assert forall i :: 0 <= i < |rest| ==> rest[i] == slots[if i < k then i else i + 1];
    var rows, restRows := Rows(slots), Rows(rest);
    forall i, j | 0 <= i < j < |rest|
      ensures SlotKey(restRows[i]) != SlotKey(restRows[j])
    {
      var i' := if i < k then i else i + 1;
      var j' := if j < k then j else j + 1;
      assert restRows[i] == rows[i'] && restRows[j] == rows[j'];
    }
    forall s | s in slots && s.id != slots[k].id
      ensures s in rest
    {
      var i :| 0 <= i < |slots| && slots[i] == s;
      if i < k { assert rest[i] == s; } else { assert rest[i - 1] == s; }
    }
  }

  class TimeSlotService {
    /** The `available_time_slots` table, in insertion order. */
    var slots: seq<Slot>
    /** The next value of the serial id column. */
    var nextId: nat

    /** Ids are distinct, the unique slot index holds and times are stored
        HH:MM. */
    ghost predicate Valid()
      reads this
    {
      WellFormedTable(slots)
    }

    constructor ()
      ensures Valid() && slots == [] && nextId == 1
    {
      slots := [];
      nextId := 1;
    }

    /** Inserts the default or custom blocks for a therapist's day, all
        unbooked, and returns the inserted rows with their times as stored.
        The insert is all or nothing: an empty batch, a time that is not a
        time of day, or a batch that would take an id already in use or
        repeat a (therapist, date, start) key already present or within
        itself leaves the table as it was. A batch refused by a constraint
        has still drawn the ids of its rows up to the refused one from the
        serial sequence, so the next insert starts after them. */
    method CreateTimeSlots(therapistId: int, date: Day, customSlots: Option<seq<SlotSpec>>)
      returns (result: InsertResult)
      requires Valid()
      modifies this
      ensures Valid()
      ensures var batch := SlotsToCreate(therapistId, date, customSlots);
        if batch == [] then
          result == InsertFailed(EmptyBatch) && slots == old(slots) && nextId == old(nextId)
        else if !AllTimesOk(batch) then
          result == InsertFailed(InvalidTime) && slots == old(slots) && nextId == old(nextId)
        else if !WellFormedTable(old(slots) + Number(StoredRows(batch), old(nextId))) then
          && result == InsertFailed(UniqueViolation) && slots == old(slots)
          && nextId == old(nextId) + FirstRefused(old(slots), StoredRows(batch), old(nextId), 0) + 1
          && FirstRefused(old(slots), StoredRows(batch), old(nextId), 0) < |batch|
        else
          && result == Inserted(Number(StoredRows(batch), old(nextId)))
          && slots == old(slots) + result.rows
          && nextId == old(nextId) + |batch|
      ensures var batch := SlotsToCreate(therapistId, date, customSlots);
        result == InsertFailed(UniqueViolation) <==>
          && batch != [] && AllTimesOk(batch)
          && ((exists k :: 0 <= k < |old(slots)| && old(nextId) <= old(slots)[k].id < old(nextId) + |batch|)
              || !UniqueSlotKeys(Rows(old(slots)) + batch))
      ensures result.Inserted? ==>
        forall s :: s in result.rows ==> s in GetTimeSlots(therapistId, date) && s in GetAvailableSlotsInRange(therapistId, date, date)
    {
      var batch := SlotsToCreate(therapistId, date, customSlots);
      if batch == [] {
        return InsertFailed(EmptyBatch);
      }
      if !AllTimesOk(batch) {
        return InsertFailed(InvalidTime);
      }
      var stored := StoredRows(batch);
      var inserted := Number(stored, nextId);
      InsertKeepsWellFormedIff(slots, stored, nextId);
      StoredRowsKeepKeys(Rows(slots), batch);
      if !WellFormedTable(slots + inserted) {
        // the ids drawn up to the refused row are not given back
        nextId := nextId + FirstRefused(slots, stored, nextId, 0) + 1;
        return InsertFailed(UniqueViolation);
      }
      slots := slots + inserted;
      nextId := nextId + |batch|;
      result := Inserted(inserted);
      forall s | s in inserted
        ensures s in GetTimeSlots(therapistId, date) && s in GetAvailableSlotsInRange(therapistId, date, date)
      {
        var k :| 0 <= k < |inserted| && inserted[k] == s;
        assert s.row == StoredRow(batch[k]);
        assert batch[k] in batch;
      }
    }

    /** All rows of a therapist on a date, booked or not. */
    function GetTimeSlots(therapistId: int, date: Day): (r: seq<Slot>)
      reads this
      ensures forall s :: s in r <==> s in slots && s.row.therapistId == therapistId && s.row.date == date
    {
      Select(slots, (s: Slot) => s.row.therapistId == therapistId && s.row.date == date)
    }

    /** The unbooked rows of a therapist dated from `startDate` to `endDate`,
        both ends included. */
    function GetAvailableSlotsInRange(therapistId: int, startDate: Day, endDate: Day): (r: seq<Slot>)
      reads this
      ensures forall s :: s in r <==>
        s in slots && s.row.therapistId == therapistId && startDate <= s.row.date <= endDate && !s.row.isBooked
    {
      Select(slots, (s: Slot) => s.row.therapistId == therapistId && startDate <= s.row.date && s.row.date <= endDate && !s.row.isBooked)
    }

    /** Sets the columns present in `data` on the row with id `slotId`, the
        id itself included, and returns that row as stored; no other row
        changes. A patch that names no column, or names a time that is not a
        time of day, is refused before any row is looked at. Without a row of
        that id nothing changes and there is nothing to return. A change that
        would repeat another row's id or slot key is refused. */
    method UpdateTimeSlot(slotId: nat, data: SlotPatch) returns (result: UpdateResult)
      requires Valid()
      modifies this
      ensures Valid() && nextId == old(nextId) && |slots| == |old(slots)|
      ensures data == EmptyPatch ==> result == UpdateFailed(NothingToSet) && slots == old(slots)
      ensures data != EmptyPatch && !PatchTimesOk(data) ==> result == UpdateFailed(InvalidTime) && slots == old(slots)
      ensures data != EmptyPatch && PatchTimesOk(data) ==> match IndexOfId(old(slots), slotId)
        case None => result == NoSuchSlot && slots == old(slots)
        case Some(k) => (
          StoredTimesOk(old(slots)[k].row);
          var updated := Slot(PatchedId(slotId, data), StoredRow(ApplyPatch(old(slots)[k].row, data)));
          if WellFormedTable(old(slots)[k := updated]) then
            result == Updated(updated) && slots == old(slots)[k := updated]
          else
            result == UpdateFailed(UniqueViolation) && slots == old(slots))
      ensures forall k :: 0 <= k < |slots| && old(slots)[k].id != slotId ==> slots[k] == old(slots)[k]
    {
      if data == EmptyPatch {
        return UpdateFailed(NothingToSet);
      }
      if !PatchTimesOk(data) {
        return UpdateFailed(InvalidTime);
      }
      var found := IndexOfId(slots, slotId);
      if found.None? {
        return NoSuchSlot;
      }
      var k := found.value;
      StoredTimesOk(slots[k].row);
      var updated := Slot(PatchedId(slotId, data), StoredRow(ApplyPatch(slots[k].row, data)));
      if !WellFormedTable(slots[k := updated]) {
        return UpdateFailed(UniqueViolation);
      }
      slots := slots[k := updated];
      result := Updated(updated);
    }

    /** Removes the row with id `slotId` and returns it, or returns nothing
        and changes nothing when there is no such row. */
    method DeleteTimeSlot(slotId: nat) returns (deleted: Option<Slot>)
      requires Valid()
      modifies this
      ensures Valid() && nextId == old(nextId)
      ensures match IndexOfId(old(slots), slotId)
        case None => deleted == None && slots == old(slots)
        case Some(k) => deleted == Some(old(slots)[k]) && slots == old(slots)[..k] + old(slots)[k + 1..]
      ensures forall s :: s in slots <==> s in old(slots) && s.id != slotId
    {
      var found := IndexOfId(slots, slotId);
      if found.None? {
        return None;
      }
      var k := found.value;
      deleted := Some(slots[k]);
      RemovePreservesWellFormed(slots, k);
      slots := slots[..k] + slots[k + 1..];
    }
  }
}
