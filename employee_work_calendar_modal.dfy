/**
 * components/EmployeeWorkCalendarModal.tsx: one employee's records of the
 * current month, their dates marked on a calendar, and their total hours.
 */
module EmployeeWorkCalendarModal {
  import opened Wrappers
  import opened Types
  import opened SalaryCalculator
  import opened MarkedDates
  import opened Storage

  class CalendarModal {
    /** The employee shown, a prop that may be `null`. */
    const employee: Option<Employee>
    var workRecords: seq<WorkRecord>
    var markedDates: map<string, Marking>

    constructor (employee: Option<Employee>)
      ensures this.employee == employee && workRecords == [] && markedDates == map[]
    {
      this.employee := employee;
      workRecords := [];
      markedDates := map[];
    }

    /**
     * `loadWorkRecords` for the month `today` (the value of
     * `getCurrentMonth()`): the employee's records of that month in stored
     * order, and their markable dates. Without an employee nothing changes.
     */
    method LoadWorkRecords(store: Store, today: YearMonth)
      modifies this`workRecords, this`markedDates
      ensures employee.None? ==> workRecords == old(workRecords) && markedDates == old(markedDates)
      ensures employee.Some? ==>
        && workRecords == RecordsOf(store.GetWorkRecordsByMonth(today.year, today.month), employee.value.id)
        && markedDates == MarkedOf(workRecords)
    {
      if employee.None? {
        return;
      }
      var records := store.GetWorkRecordsByMonth(today.year, today.month);
      var employeeRecords := RecordsOf(records, employee.value.id);
      var marked: map<string, Marking> := map[];
      var i := 0;
      while i < |employeeRecords|
        invariant 0 <= i <= |employeeRecords|
        invariant marked == MarkedOf(employeeRecords[..i])
      {
        MarkedOfSnoc(employeeRecords, i);
        var dateStr := employeeRecords[i].date;
        if Markable(dateStr) {
          marked := marked[dateStr := Marked];
        }
        i := i + 1;
      }
      assert employeeRecords[..i] == employeeRecords;
      workRecords := employeeRecords;
      markedDates := marked;
    }

    /** `totalHours`: the hours of the shown records added up from the first; 0 for none. */
    function TotalHours(): (h: real)
      reads this
      requires AllWellTimed(workRecords)
      ensures workRecords == [] ==> h == 0.0
    {
      SumHours(workRecords)
    }

    /** The modal renders only for an employee. */
    predicate Rendered()
      reads this
    {
      employee.Some?
    }
  }

  /**
   * The total the modal shows for an employee is the hours the payroll pays
   * that employee for the same month's records.
   */
  lemma TotalIsPaidHours(e: Employee, monthRecords: seq<WorkRecord>)
    requires AllWellTimed(monthRecords)
    ensures AllWellTimed(RecordsOf(monthRecords, e.id))
    ensures SumHours(RecordsOf(monthRecords, e.id)) == EmployeeSalaryOf(e, monthRecords).salaryInfo.totalHours
  {
  }

  /** A shown record's date of length 10 is marked, and no other date is. */
  lemma ShownDatesMarked(shown: seq<WorkRecord>, date: string)
    ensures IsMarked(MarkedOf(shown), date) <==> |date| == 10 && exists r :: r in shown && r.date == date
  {
    MarkedIffRecorded(shown, date);
  }
}
