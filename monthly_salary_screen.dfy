/**
 * screens/MonthlySalaryScreen.tsx: the month shown (1-based, moved one month
 * at a time) and that month's per-employee salaries and total.
 */
module MonthlySalaryScreen {
  import opened Wrappers
  import opened Types
  import opened SalaryCalculator
  import opened Storage

  /** Months counted from January of year 0, so that one step is one unit. */
  function MonthIndex(ym: YearMonth): int {
    ym.year * 12 + (ym.month - 1)
  }

  predicate ValidMonth(ym: YearMonth) {
    1 <= ym.month <= 12
  }

  /** Two valid months with the same index are the same month. */
  lemma MonthIndexInjective(a: YearMonth, b: YearMonth)
    requires ValidMonth(a) && ValidMonth(b) && MonthIndex(a) == MonthIndex(b)
    ensures a == b
  {
  }

  /** The month `goToPreviousMonth` moves to: one month earlier, still a valid month. */
  function PreviousMonth(ym: YearMonth): (r: YearMonth)
    ensures ValidMonth(ym) ==> ValidMonth(r) && MonthIndex(r) == MonthIndex(ym) - 1
  {
    if ym.month == 1 then YearMonth(ym.year - 1, 12) else YearMonth(ym.year, ym.month - 1)
  }

  /** The month `goToNextMonth` moves to: one month later, still a valid month. */
  function NextMonth(ym: YearMonth): (r: YearMonth)
    ensures ValidMonth(ym) ==> ValidMonth(r) && MonthIndex(r) == MonthIndex(ym) + 1
  {
    if ym.month == 12 then YearMonth(ym.year + 1, 1) else YearMonth(ym.year, ym.month + 1)
  }

  /** Forward then back, or back then forward, returns to the same month. */
  lemma NextPreviousInverse(ym: YearMonth)
    requires ValidMonth(ym)
    ensures PreviousMonth(NextMonth(ym)) == ym
    ensures NextMonth(PreviousMonth(ym)) == ym
  {
    MonthIndexInjective(PreviousMonth(NextMonth(ym)), ym);
    MonthIndexInjective(NextMonth(PreviousMonth(ym)), ym);
  }

  /** January steps back to December of the year before; December forward to January of the next. */
  lemma YearBoundaries(year: int)
    ensures PreviousMonth(YearMonth(year, 1)) == YearMonth(year - 1, 12)
    ensures NextMonth(YearMonth(year, 12)) == YearMonth(year + 1, 1)
  {
  }

  class SalaryScreen {
    var employeeSalaries: seq<EmployeeSalary>
    var monthlyTotal: SalaryInfo
    var currentMonth: YearMonth

    /**
     * The first render: no salaries, the all-zero `calculateMonthlyTotal([])`,
     * and the route's month or else `today` (the value of `getCurrentMonth()`).
     */
    constructor (initialMonth: Option<YearMonth>, today: YearMonth)
      ensures employeeSalaries == []
      ensures monthlyTotal == MonthlyTotalOf([]) == SalaryInfo(0.0, 0, 0, 0)
      ensures currentMonth == if initialMonth.Some? then initialMonth.value else today
    {
      var initialTotal := CalculateMonthlyTotal([]);
      MonthlyTotalOfNothing();
      employeeSalaries := [];
      monthlyTotal := initialTotal;
      currentMonth := if initialMonth.Some? then initialMonth.value else today;
    }

    /**
     * `loadMonthlyData`: one salary per stored employee, in employee order,
     * over the stored records of the current month, and their monthly total.
     */
    method LoadMonthlyData(store: Store)
      modifies this`employeeSalaries, this`monthlyTotal
      requires AllWellTimed(store.GetWorkRecordsByMonth(currentMonth.year, currentMonth.month))
      ensures employeeSalaries == EmployeeSalaries(store.GetEmployees(), store.GetWorkRecordsByMonth(currentMonth.year, currentMonth.month))
      ensures |employeeSalaries| == |store.GetEmployees()|
      ensures monthlyTotal == MonthlyTotalOf(employeeSalaries)
    {
      var employees := store.GetEmployees();
      var workRecords := store.GetWorkRecordsByMonth(currentMonth.year, currentMonth.month);
      var salaries := EmployeeSalaries(employees, workRecords);
      employeeSalaries := salaries;
      monthlyTotal := CalculateMonthlyTotal(salaries);
    }

    /** `goToPreviousMonth` */
    method GoToPreviousMonth()
      modifies this`currentMonth
      ensures currentMonth == PreviousMonth(old(currentMonth))
    {
      if currentMonth.month == 1 {
        currentMonth := YearMonth(currentMonth.year - 1, 12);
      } else {
        currentMonth := currentMonth.(month := currentMonth.month - 1);
      }
    }

    /** `goToNextMonth` */
    method GoToNextMonth()
      modifies this`currentMonth
      ensures currentMonth == NextMonth(old(currentMonth))
    {
      if currentMonth.month == 12 {
        currentMonth := YearMonth(currentMonth.year + 1, 1);
      } else {
        currentMonth := currentMonth.(month := currentMonth.month + 1);
      }
    }

    /** `goToCurrentMonth`, with `today` the value of `getCurrentMonth()`. */
    method GoToCurrentMonth(today: YearMonth)
      modifies this`currentMonth
      ensures currentMonth == today
    {
      currentMonth := today;
    }
  }
}
