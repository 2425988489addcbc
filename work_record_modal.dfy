/**
 * components/WorkRecordModal.tsx: the form for adding or editing one work
 * record — employee, start and end time, the quick-time presets — and the
 * checks `handleSave` makes before it writes the record.
 */
module WorkRecordModal {
  import opened Wrappers
  import opened Seqs
  import opened Strings
  import opened Types
  import opened DateUtils
  import opened SalaryCalculator
  import opened Storage

  /** The four numbers behind the two time sliders. */
  datatype TimeFields = TimeFields(startHours: nat, startMinutes: nat, endHours: nat, endMinutes: nat)

  /** The form's times before anything is chosen: 09:00 to 18:00. */
  const DefaultFields := TimeFields(9, 0, 18, 0)

  /**
   * `loadQuickTimes`: the stored presets when all three have both ends,
   * else the defaults; either way every preset has both ends.
   */
  function AcceptedQuickTimes(stored: QuickTimeSettings): (q: QuickTimeSettings)
    ensures IsComplete(q)
    ensures IsComplete(stored) ==> q == stored
    ensures !IsComplete(stored) ==> q == DefaultQuickTimes
  {
    if IsComplete(stored) then stored else DefaultQuickTimes
  }

  /**
   * What `handleQuickTime` writes to the four fields: nothing when the preset
   * or one of its ends is missing, else its values with `?? 9`, `?? 0`,
   * `?? 18`, `?? 0` for a missing hour or minute.
   */
  function QuickTimeFields(quickTimes: QuickTimeSettings, meal: Meal): (f: Option<TimeFields>)
    ensures f.Some? <==> HasBothEnds(Preset(quickTimes, meal))
    ensures f.Some? ==> Copied(Preset(quickTimes, meal).value.startTime.value.hours, 9, f.value.startHours)
    ensures f.Some? ==> Copied(Preset(quickTimes, meal).value.startTime.value.minutes, 0, f.value.startMinutes)
    ensures f.Some? ==> Copied(Preset(quickTimes, meal).value.endTime.value.hours, 18, f.value.endHours)
    ensures f.Some? ==> Copied(Preset(quickTimes, meal).value.endTime.value.minutes, 0, f.value.endMinutes)
  {
    var preset := Preset(quickTimes, meal);
    if preset.None? then None
    else
      var range := preset.value;
      if range.startTime.None? || range.endTime.None? then None
      else
        var start, end := range.startTime.value, range.endTime.value;
        Some(TimeFields(start.hours.GetOr(9), start.minutes.GetOr(0), end.hours.GetOr(18), end.minutes.GetOr(0)))
  }

  /** A field set from an optional preset value: the value when present, else the fallback. */
  predicate Copied(given: Option<nat>, fallback: nat, field: nat) {
    (given.Some? ==> field == given.value) && (given.None? ==> field == fallback)
  }

  /** A preset given in full is copied as it is. */
  lemma FullPresetCopied(quickTimes: QuickTimeSettings, meal: Meal, sh: nat, sm: nat, eh: nat, em: nat)
    requires Preset(quickTimes, meal) == Some(TimeRange(Some(Clock(sh, sm)), Some(Clock(eh, em))))
    ensures QuickTimeFields(quickTimes, meal) == Some(TimeFields(sh, sm, eh, em))
  {
  }

  /** Once the presets are loaded, every quick-time button sets the times. */
  lemma LoadedPresetsApply(stored: QuickTimeSettings, meal: Meal)
    ensures QuickTimeFields(AcceptedQuickTimes(stored), meal).Some?
  {
  }

  /** The default lunch preset is 12:00 to 15:00. */
  lemma DefaultLunch()
    ensures QuickTimeFields(DefaultQuickTimes, Lunch) == Some(TimeFields(12, 0, 15, 0))
  {
  }

  /** The minute of the day a pair of slider values stands for. */
  function Total(hours: nat, minutes: nat): nat {
    hours * 60 + minutes
  }

  /** The outcome of `handleSave`: one of its two alerts, or the record to write and how. */
  datatype SaveOutcome =
    | NoEmployeeSelected
    | SameStartAndEnd
    | Save(record: WorkRecord, update: bool)

  /**
   * `editingRecord?.id || \`${date}-${selectedEmployeeId}-${Date.now()}\``:
   * the edited record's id unless it is empty, else a new id from the date,
   * the employee and the clock reading `now`.
   */
  function RecordId(editing: Option<WorkRecord>, date: string, employeeId: string, now: nat): string {
    if editing.Some? && editing.value.id != "" then editing.value.id
    else date + "-" + employeeId + "-" + NatToString(now)
  }

  /** Whether `editingRecord?.id` is a non-empty id, which `||` then keeps. */
  predicate KeepsId(editing: Option<WorkRecord>) {
    editing.Some? && editing.value.id != ""
  }

  /**
   * A new id for a given date and employee determines the clock reading: two
   * saves at different milliseconds get different ids, and an edited record
   * with an id keeps it whatever the clock says.
   */
  lemma {:induction false} RecordIdsByClock(editing1: Option<WorkRecord>, editing2: Option<WorkRecord>, date: string, employeeId: string, now1: nat, now2: nat)
    ensures !KeepsId(editing1) && !KeepsId(editing2) ==>
      (RecordId(editing1, date, employeeId, now1) == RecordId(editing2, date, employeeId, now2) <==> now1 == now2)
    ensures KeepsId(editing1) ==> RecordId(editing1, date, employeeId, now1) == RecordId(editing1, date, employeeId, now2)
  {
    if !KeepsId(editing1) && !KeepsId(editing2) && RecordId(editing1, date, employeeId, now1) == RecordId(editing2, date, employeeId, now2) {
      var prefix := date + "-" + employeeId + "-";
      var a, b := NatToString(now1), NatToString(now2);
      assert (prefix + a)[|prefix|..] == a;
      assert (prefix + b)[|prefix|..] == b;
      DecimalValueOfNatToString(now1);
      DecimalValueOfNatToString(now2);
    }
  }

  /**
   * The decision `handleSave` makes: no employee and equal start and end are
   * refused, an end before the start (overnight) is not; the record carries
   * the date, the employee and the two formatted times, and is an update
   * exactly when a record is being edited.
   */
  function SaveDecision(date: string, employeeId: string, fields: TimeFields, editing: Option<WorkRecord>, now: nat): (o: SaveOutcome)
    ensures o.NoEmployeeSelected? <==> employeeId == ""
    ensures o.SameStartAndEnd? <==>
      (employeeId != "" && Total(fields.startHours, fields.startMinutes) == Total(fields.endHours, fields.endMinutes))
    ensures o.Save? ==>
      && o.record == WorkRecord(RecordId(editing, date, employeeId, now), date, employeeId,
                                FormatTime(fields.startHours, fields.startMinutes), FormatTime(fields.endHours, fields.endMinutes))
      && o.update == editing.Some?
  {
    if employeeId == "" then NoEmployeeSelected
    else
      var startTime := FormatTime(fields.startHours, fields.startMinutes);
      var endTime := FormatTime(fields.endHours, fields.endMinutes);
      if Total(fields.endHours, fields.endMinutes) == Total(fields.startHours, fields.startMinutes) then SameStartAndEnd
      else Save(WorkRecord(RecordId(editing, date, employeeId, now), date, employeeId, startTime, endTime), editing.Some?)
  }

  /** A clock reading within one day. */
  predicate InDayFields(f: TimeFields) {
    f.startHours < 24 && f.startMinutes < 60 && f.endHours < 24 && f.endMinutes < 60
  }

  /**
   * Every record the form saves from times within a day is well formed, and
   * its length lies strictly between 0 and 24 hours: the overnight rule
   * applies when the end is before the start.
   */
  lemma SavedRecordHours(date: string, employeeId: string, fields: TimeFields, editing: Option<WorkRecord>, now: nat)
    requires InDayFields(fields)
    ensures var o := SaveDecision(date, employeeId, fields, editing, now);
      o.Save? ==> WellTimed(o.record) && 0.0 < RecordHours(o.record) < 24.0
  {
    var o := SaveDecision(date, employeeId, fields, editing, now);
    if o.Save? {
      var sh, sm, eh, em := fields.startHours, fields.startMinutes, fields.endHours, fields.endMinutes;
      WorkHoursOfFormatted(sh, sm, eh, em);
      var st, en := Total(sh, sm), Total(eh, em);
      ShiftMinutesWithinDay(st, en);
      assert RecordHours(o.record) * 60.0 == ShiftMinutes(st, en) as real;
    }
  }

  /** An overnight shift with an employee is saved, and counts the minutes across midnight. */
  lemma OvernightAccepted(date: string, employeeId: string, fields: TimeFields, editing: Option<WorkRecord>, now: nat)
    requires employeeId != ""
    requires Total(fields.endHours, fields.endMinutes) < Total(fields.startHours, fields.startMinutes)
    ensures var o := SaveDecision(date, employeeId, fields, editing, now);
      && o.Save?
      && WellTimed(o.record)
      && RecordHours(o.record) * 60.0
        == (Total(fields.endHours, fields.endMinutes) - Total(fields.startHours, fields.startMinutes) + 1440) as real
  {
    WorkHoursOfFormatted(fields.startHours, fields.startMinutes, fields.endHours, fields.endMinutes);
  }

  class RecordForm {
    /** The day the record is for, a prop. */
    const date: string
    /** The employees to choose from, a prop. */
    const employees: seq<Employee>
    /** The record being edited, a prop; `None` for a new record. */
    const editingRecord: Option<WorkRecord>
    var selectedEmployeeId: string
    var startHours: nat
    var startMinutes: nat
    var endHours: nat
    var endMinutes: nat
    var quickTimes: QuickTimeSettings

    /** The initial state: no employee, 09:00 to 18:00, the default presets. */
    constructor (date: string, employees: seq<Employee>, editingRecord: Option<WorkRecord>)
      ensures this.date == date && this.employees == employees && this.editingRecord == editingRecord
      ensures selectedEmployeeId == "" && Fields() == DefaultFields && quickTimes == DefaultQuickTimes
    {
      this.date := date;
      this.employees := employees;
      this.editingRecord := editingRecord;
      selectedEmployeeId := "";
      startHours, startMinutes, endHours, endMinutes := 9, 0, 18, 0;
      quickTimes := DefaultQuickTimes;
    }

    function Fields(): TimeFields
      reads this
    {
      TimeFields(startHours, startMinutes, endHours, endMinutes)
    }

    /** `loadQuickTimes` */
    method LoadQuickTimes(store: Store)
      modifies this`quickTimes
      ensures quickTimes == AcceptedQuickTimes(store.GetQuickTimeSettings())
    {
      var settings := store.GetQuickTimeSettings();
      if IsComplete(settings) {
        quickTimes := settings;
      } else {
        quickTimes := DefaultQuickTimes;
      }
    }

    /**
     * The effect run when the form opens: the presets are loaded; an edited
     * record's employee and times are read back; a new record starts with the
     * first employee (or none) and 09:00 to 18:00.
     */
    method OpenEffect(store: Store)
      modifies this`quickTimes, this`selectedEmployeeId, this`startHours, this`startMinutes, this`endHours, this`endMinutes
      requires editingRecord.Some? ==> WellTimed(editingRecord.value)
      ensures quickTimes == AcceptedQuickTimes(store.GetQuickTimeSettings())
      ensures editingRecord.Some? ==>
        && selectedEmployeeId == editingRecord.value.employeeId
        && Time(startHours, startMinutes) == ParseTime(editingRecord.value.startTime)
        && Time(endHours, endMinutes) == ParseTime(editingRecord.value.endTime)
      ensures editingRecord.None? ==>
        && selectedEmployeeId == (if employees == [] then "" else employees[0].id)
        && Fields() == DefaultFields
    {
      LoadQuickTimes(store);
      if editingRecord.Some? {
        selectedEmployeeId := editingRecord.value.employeeId;
        var start := ParseTime(editingRecord.value.startTime);
        var end := ParseTime(editingRecord.value.endTime);
        startHours, startMinutes := start.hours, start.minutes;
        endHours, endMinutes := end.hours, end.minutes;
      } else {
        if |employees| > 0 {
          selectedEmployeeId := employees[0].id;
        } else {
          selectedEmployeeId := "";
        }
        startHours, startMinutes, endHours, endMinutes := 9, 0, 18, 0;
      }
    }

    /** `handleQuickTime(type)`: the preset's times, or no change when it is incomplete. */
    method HandleQuickTime(meal: Meal)
      modifies this`startHours, this`startMinutes, this`endHours, this`endMinutes
      ensures QuickTimeFields(quickTimes, meal).None? ==> Fields() == old(Fields())
      ensures QuickTimeFields(quickTimes, meal).Some? ==> Fields() == QuickTimeFields(quickTimes, meal).value
    {
      var time := Preset(quickTimes, meal);
      if time.None? {
        return;
      }
      if time.value.startTime.Some? && time.value.endTime.Some? {
        var start, end := time.value.startTime.value, time.value.endTime.value;
        startHours := start.hours.GetOr(9);
        startMinutes := start.minutes.GetOr(0);
        endHours := end.hours.GetOr(18);
        endMinutes := end.minutes.GetOr(0);
      }
    }

    /** The employee picker's `onValueChange`. */
    method SelectEmployee(employeeId: string)
      modifies this`selectedEmployeeId
      ensures selectedEmployeeId == employeeId
    {
      selectedEmployeeId := employeeId;
    }

    /** The start slider's `onTimeChange`: the end stays. */
    method SetStartTime(h: nat, m: nat)
      modifies this`startHours, this`startMinutes
      ensures Fields() == old(Fields()).(startHours := h, startMinutes := m)
    {
      startHours, startMinutes := h, m;
    }

    /** The end slider's `onTimeChange`: the start stays. */
    method SetEndTime(h: nat, m: nat)
      modifies this`endHours, this`endMinutes
      ensures Fields() == old(Fields()).(endHours := h, endMinutes := m)
    {
      endHours, endMinutes := h, m;
    }

    /**
     * `handleSave`, with `now` the value of `Date.now()`: a refused save
     * writes nothing; otherwise the record is appended, or replaces the first
     * stored record with its id when a record is being edited.
     */
    method HandleSave(store: Store, now: nat) returns (outcome: SaveOutcome)
      modifies store`workRecordData
      ensures outcome == SaveDecision(date, selectedEmployeeId, Fields(), editingRecord, now)
      ensures !outcome.Save? ==> store.workRecordData == old(store.workRecordData)
      ensures outcome.Save? && !outcome.update ==> store.GetWorkRecords() == old(store.GetWorkRecords()) + [outcome.record]
      ensures outcome.Save? && outcome.update ==>
        store.GetWorkRecords() == ReplaceFirst(old(store.GetWorkRecords()), HasRecordId(outcome.record.id), outcome.record)
    {
      if selectedEmployeeId == "" {
        return NoEmployeeSelected;
      }
      var startTime := FormatTime(startHours, startMinutes);
      var endTime := FormatTime(endHours, endMinutes);
      var startTotal := startHours * 60 + startMinutes;
      var endTotal := endHours * 60 + endMinutes;
      if endTotal == startTotal {
        return SameStartAndEnd;
      }
      var id := RecordId(editingRecord, date, selectedEmployeeId, now);
      var record := WorkRecord(id, date, selectedEmployeeId, startTime, endTime);
      if editingRecord.Some? {
        store.UpdateWorkRecord(record);
      } else {
        store.AddWorkRecord(record);
      }
      outcome := Save(record, editingRecord.Some?);
    }
  }
}
