/**
 * components/WorkRecordListModal.tsx: the list of one day's work records,
 * each row with its employee's name and its hours, and its delete action.
 */
module WorkRecordListModal {
  import opened Wrappers
  import opened Seqs
  import opened Strings
  import opened Types
  import opened DateUtils
  import opened SalaryCalculator
  import opened HourFormat
  import opened Storage

  /** The name shown for a record whose employee no longer exists. */
  const UnknownName := "알 수 없음"

  /** `getEmployeeName`: the name of the first employee with that id, else the fallback. */
  function EmployeeName(employees: seq<Employee>, employeeId: string): (name: string)
    ensures (forall j :: 0 <= j < |employees| ==> employees[j].id != employeeId) ==> name == UnknownName
    ensures (exists j :: 0 <= j < |employees| && employees[j].id == employeeId) ==>
      exists i :: 0 <= i < |employees| && employees[i].id == employeeId && name == employees[i].name
        && forall j :: 0 <= j < i ==> employees[j].id != employeeId
  {
    match Find(employees, HasEmployeeId(employeeId))
    case Some(e) => e.name
    case None => UnknownName
  }

  /** The hours text of one row: `formatHours(calculateWorkHours(startTime, endTime))`. */
  function RowHours(r: WorkRecord): string
    requires WellTimed(r)
  {
    FormatHoursCompact(RecordHours(r))
  }

  /** A row shows the shift's minutes split into whole hours and the remaining minutes. */
  lemma RowHoursParts(r: WorkRecord)
    requires WellTimed(r)
    ensures var k := ShiftMinutes(MinuteOfDay(ParseTime(r.startTime)), MinuteOfDay(ParseTime(r.endTime)));
      WholeHours(RecordHours(r)) == k / 60 && RestMinutes(RecordHours(r)) == k % 60
  {
    var k := ShiftMinutes(MinuteOfDay(ParseTime(r.startTime)), MinuteOfDay(ParseTime(r.endTime)));
    assert RecordHours(r) == k as real / 60.0;
    PartsOfWholeMinutes(k);
  }

  class ListModal {
    /** The day shown, a prop. */
    const date: string
    /** The employees known to the caller, a prop. */
    const employees: seq<Employee>
    var workRecords: seq<WorkRecord>

    constructor (date: string, employees: seq<Employee>)
      ensures this.date == date && this.employees == employees && workRecords == []
    {
      this.date := date;
      this.employees := employees;
      workRecords := [];
    }

    /** `loadWorkRecords`: the stored records of the day; unreadable storage gives `[]`. */
    method LoadWorkRecords(store: Store)
      modifies this`workRecords
      ensures workRecords == store.GetWorkRecordsByDate(date)
      ensures store.workRecordData.None? ==> workRecords == []
    {
      workRecords := store.GetWorkRecordsByDate(date);
    }

    /**
     * `handleDelete`: the record goes from the store, and the reloaded list
     * holds every other record of the day and not that one.
     */
    method HandleDelete(store: Store, recordId: string)
      modifies store`workRecordData, this`workRecords
      ensures store.GetWorkRecords() == Filter(old(store.GetWorkRecords()), NotRecordId(recordId))
      ensures workRecords == store.GetWorkRecordsByDate(date)
      ensures forall r :: r in workRecords <==> r in old(store.GetWorkRecords()) && r.date == date && r.id != recordId
    {
      store.DeleteWorkRecord(recordId);
      LoadWorkRecords(store);
    }
  }
}
