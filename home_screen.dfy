/**
 * screens/HomeScreen.tsx: the selected month's summary cards and the
 * calendar's marked dates.
 */
module HomeScreen {
  import opened Types
  import opened SalaryCalculator
  import opened MarkedDates
  import opened Storage

  /** The `{ totalSalary, taxDeduction }` the summary cards show. */
  datatype Summary = Summary(totalSalary: int, taxDeduction: int)

  /** The net card: `totalSalary - taxDeduction`, not the computed `netSalary`. */
  function DisplayedNet(s: Summary): int {
    s.totalSalary - s.taxDeduction
  }

  /** The summary of a monthly total: its gross and its tax. */
  function SummaryOf(total: SalaryInfo): Summary {
    Summary(total.totalSalary, total.taxDeduction)
  }

  /**
   * The home screen's net is the monthly screen's net, or one won less when
   * 3.3% of the month's gross ends in exactly half a won.
   */
  lemma DisplayedNetOfMonth(ss: seq<EmployeeSalary>)
    ensures var total := MonthlyTotalOf(ss);
      total.netSalary == DisplayedNet(SummaryOf(total)) + (if (33 * total.totalSalary) % 1000 == 500 then 1 else 0)
  {
    MonthlyNetOfTax(ss);
  }

  /** Half an hour's work: the home screen shows 6285, the monthly screen 6286. */
  lemma DisplayedNetDiffers(e: Employee)
    ensures var total := MonthlyTotalOf([EmployeeSalary(e, CalculateSalary(0.5), [])]);
      DisplayedNet(SummaryOf(total)) == 6285 && total.netSalary == 6286
  {
    NetIsNotGrossLessTax();
    var ss := [EmployeeSalary(e, CalculateSalary(0.5), [])];
    assert ss[..0] == [];
    assert SumTotals(ss).salary == 6500;
    DisplayedNetOfMonth(ss);
  }

  class Home {
    var employees: seq<Employee>
    var monthlyTotal: Summary
    var markedDates: map<string, Marking>
    var selectedMonth: YearMonth

    /** The first render, with `today` the value of `getCurrentMonth()`. */
    constructor (today: YearMonth)
      ensures employees == [] && monthlyTotal == Summary(0, 0) && markedDates == map[] && selectedMonth == today
    {
      employees := [];
      monthlyTotal := Summary(0, 0);
      markedDates := map[];
      selectedMonth := today;
    }

    /** `loadData`: the stored employees. */
    method LoadData(store: Store)
      modifies this`employees
      ensures employees == store.GetEmployees()
    {
      employees := store.GetEmployees();
    }

    /**
     * `loadMonthlySummary`: with no employees nothing changes; otherwise the
     * gross and tax of the monthly total of every employee's salary for the
     * selected month. The net card then shows the month's `netSalary`, or
     * one won less when the month's tax ends in exactly half a won.
     */
    method LoadMonthlySummary(store: Store)
      modifies this`monthlyTotal
      requires employees != [] ==> AllWellTimed(store.GetWorkRecordsByMonth(selectedMonth.year, selectedMonth.month))
      ensures employees == [] ==> monthlyTotal == old(monthlyTotal)
      ensures employees != [] ==>
        monthlyTotal == SummaryOf(MonthlyTotalOf(EmployeeSalaries(employees, store.GetWorkRecordsByMonth(selectedMonth.year, selectedMonth.month))))
      ensures employees != [] ==>
        var total := MonthlyTotalOf(EmployeeSalaries(employees, store.GetWorkRecordsByMonth(selectedMonth.year, selectedMonth.month)));
        ShownNet() == total.netSalary - (if (33 * total.totalSalary) % 1000 == 500 then 1 else 0)
    {
      if |employees| == 0 {
        return;
      }
      var workRecords := store.GetWorkRecordsByMonth(selectedMonth.year, selectedMonth.month);
      var salaries := EmployeeSalaries(employees, workRecords);
      var total := CalculateMonthlyTotal(salaries);
      monthlyTotal := Summary(total.totalSalary, total.taxDeduction);
      DisplayedNetOfMonth(salaries);
    }

    /**
     * `loadMarkedDates`: each markable date of the selected month's records,
     * set once (a date already in the dictionary is skipped).
     */
    method LoadMarkedDates(store: Store)
      modifies this`markedDates
      ensures markedDates == MarkedOf(store.GetWorkRecordsByMonth(selectedMonth.year, selectedMonth.month))
    {
      var workRecords := store.GetWorkRecordsByMonth(selectedMonth.year, selectedMonth.month);
      var marked: map<string, Marking> := map[];
      var i := 0;
      while i < |workRecords|
        invariant 0 <= i <= |workRecords|
        invariant marked == MarkedOf(workRecords[..i])
      {
        MarkedOfSnocOnce(workRecords, i);
        var dateStr := workRecords[i].date;
        if Markable(dateStr) && dateStr !in marked {
          marked := marked[dateStr := Marked];
        }
        i := i + 1;
      }
      assert workRecords[..i] == workRecords;
      markedDates := marked;
    }

    /** The effect on `[employees, selectedMonth]`: both loads, only when there are employees. */
    method RefreshEffect(store: Store)
      modifies this`monthlyTotal, this`markedDates
      requires employees != [] ==> AllWellTimed(store.GetWorkRecordsByMonth(selectedMonth.year, selectedMonth.month))
      ensures employees == [] ==> monthlyTotal == old(monthlyTotal) && markedDates == old(markedDates)
      ensures employees != [] ==>
        && monthlyTotal == SummaryOf(MonthlyTotalOf(EmployeeSalaries(employees, store.GetWorkRecordsByMonth(selectedMonth.year, selectedMonth.month))))
        && markedDates == MarkedOf(store.GetWorkRecordsByMonth(selectedMonth.year, selectedMonth.month))
    {
      if |employees| > 0 {
        LoadMonthlySummary(store);
        LoadMarkedDates(store);
      }
    }

    /** `handleModalSave`: after a record is saved, the summary and the marks are reloaded. */
    method HandleModalSave(store: Store)
      modifies this`monthlyTotal, this`markedDates
      requires employees != [] ==> AllWellTimed(store.GetWorkRecordsByMonth(selectedMonth.year, selectedMonth.month))
      ensures employees == [] ==> monthlyTotal == old(monthlyTotal)
      ensures employees != [] ==>
        monthlyTotal == SummaryOf(MonthlyTotalOf(EmployeeSalaries(employees, store.GetWorkRecordsByMonth(selectedMonth.year, selectedMonth.month))))
      ensures markedDates == MarkedOf(store.GetWorkRecordsByMonth(selectedMonth.year, selectedMonth.month))
    {
      LoadMonthlySummary(store);
      LoadMarkedDates(store);
    }

    /** The calendar's `onMonthChange(year, month)`, with a 1-based month. */
    method OnMonthChange(year: int, month: int)
      modifies this`selectedMonth
      ensures selectedMonth == YearMonth(year, month)
    {
      selectedMonth := YearMonth(year, month);
    }

    /** The net card of the current summary. */
    function ShownNet(): int
      reads this
    {
      DisplayedNet(monthlyTotal)
    }
  }
}
