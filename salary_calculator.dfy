/**
 * utils/salaryCalculator.ts: pay for a number of hours, the per-employee
 * fold over work records, and the monthly fold over per-employee results.
 *
 * Amounts are exact: hours are reals, the tax rate is exactly 33/1000, and
 * every `Math.round` is `JsMath.Round`.
 */
module SalaryCalculator {
  import opened Seqs
  import opened JsMath
  import opened Types
  import opened DateUtils

  /** `HOURLY_WAGE`, in won. */
  const HourlyWage: int := 13000

  /** `TAX_RATE`: 3.3%. */
  const TaxRate: real := 0.033

  /** The fields of a result, each within half a won of what it rounds. */
  predicate RoundsTo(r: int, x: real) {
    r as real - 0.5 <= x < r as real + 0.5
  }

  /**
   * `calculateSalary`: gross pay, the tax on the UNROUNDED gross, and the net
   * pay gross minus tax, each rounded on its own. The net pay may therefore
   * be one won away from `totalSalary - taxDeduction`.
   */
  function CalculateSalary(workHours: real): (info: SalaryInfo)
    ensures info.totalHours == workHours
    ensures RoundsTo(info.totalSalary, workHours * HourlyWage as real)
    ensures RoundsTo(info.taxDeduction, workHours * HourlyWage as real * TaxRate)
    ensures RoundsTo(info.netSalary, workHours * HourlyWage as real * (1.0 - TaxRate))
    ensures -1 <= info.netSalary - (info.totalSalary - info.taxDeduction) <= 1
  {
    var totalSalary := workHours * HourlyWage as real;
    var taxDeduction := totalSalary * TaxRate;
    var netSalary := totalSalary - taxDeduction;
    SalaryInfo(workHours, Round(totalSalary), Round(taxDeduction), Round(netSalary))
  }

  /** Nine hours: 117000 gross, 3861 tax, 113139 net. */
  lemma SalaryOfNineHours()
    ensures CalculateSalary(9.0) == SalaryInfo(9.0, 117000, 3861, 113139)
  {
    var info := CalculateSalary(9.0);
    assert RoundsTo(info.totalSalary, 117000.0);
    assert RoundsTo(info.taxDeduction, 3861.0);
    assert RoundsTo(info.netSalary, 113139.0);
  }

  /**
   * Half an hour: the net pay 6285.5 rounds to 6286, one won more than the
   * gross 6500 less the rounded tax 215.
   */
  lemma NetIsNotGrossLessTax()
    ensures var info := CalculateSalary(0.5);
      info == SalaryInfo(0.5, 6500, 215, 6286) && info.netSalary != info.totalSalary - info.taxDeduction
  {
    var info := CalculateSalary(0.5);
    assert RoundsTo(info.totalSalary, 6500.0);
    assert RoundsTo(info.taxDeduction, 214.5);
    assert RoundsTo(info.netSalary, 6285.5);
  }

  /** More hours never pay less, gross, tax or net. */
  lemma {:induction false} SalaryMonotone(h1: real, h2: real)
    requires h1 <= h2
    ensures CalculateSalary(h1).totalSalary <= CalculateSalary(h2).totalSalary
    ensures CalculateSalary(h1).taxDeduction <= CalculateSalary(h2).taxDeduction
    ensures CalculateSalary(h1).netSalary <= CalculateSalary(h2).netSalary
  {
    var g1, g2 := h1 * HourlyWage as real, h2 * HourlyWage as real;
    RoundMonotone(g1, g2);
    RoundMonotone(g1 * TaxRate, g2 * TaxRate);
    RoundMonotone(g1 - g1 * TaxRate, g2 - g2 * TaxRate);
  }

  /** A record whose two times `parseTime` reads as numbers. */
  predicate WellTimed(r: WorkRecord) {
    IsTimeString(r.startTime) && IsTimeString(r.endTime)
  }

  predicate AllWellTimed(rs: seq<WorkRecord>) {
    forall r :: r in rs ==> WellTimed(r)
  }

  /** `r => r.employeeId === employeeId` */
  function ForEmployee(employeeId: string): WorkRecord -> bool {
    (r: WorkRecord) => r.employeeId == employeeId
  }

  /** `workRecords.filter((r) => r.employeeId === employee.id)` */
  function RecordsOf(rs: seq<WorkRecord>, employeeId: string): (mine: seq<WorkRecord>)
    ensures forall r :: r in mine <==> r in rs && r.employeeId == employeeId
    ensures AllWellTimed(rs) ==> AllWellTimed(mine)
  {
    Filter(rs, ForEmployee(employeeId))
  }

  /** The hours of one record, `calculateWorkHours(record.startTime, record.endTime)`. */
  function RecordHours(r: WorkRecord): real
    requires WellTimed(r)
  {
    CalculateWorkHours(r.startTime, r.endTime)
  }

  /** The hours of all records, added up from the first to the last. */
  function SumHours(rs: seq<WorkRecord>): real
    requires AllWellTimed(rs)
  {
    SumOf(rs, RecordHours)
  }

  lemma SumHoursAppend(a: seq<WorkRecord>, b: seq<WorkRecord>)
    requires AllWellTimed(a) && AllWellTimed(b)
    ensures AllWellTimed(a + b) && SumHours(a + b) == SumHours(a) + SumHours(b)
  {
    SumOfAppend(a, b, RecordHours);
  }

  /** The specification of `calculateEmployeeSalary`. */
  function EmployeeSalaryOf(e: Employee, rs: seq<WorkRecord>): EmployeeSalary
    requires AllWellTimed(RecordsOf(rs, e.id))
  {
    var mine := RecordsOf(rs, e.id);
    EmployeeSalary(e, CalculateSalary(SumHours(mine)), mine)
  }

  /**
   * `calculateEmployeeSalary`: the employee's records in their original order,
   * and the pay for their hours summed in a loop.
   */
  method CalculateEmployeeSalary(employee: Employee, workRecords: seq<WorkRecord>) returns (es: EmployeeSalary)
    requires AllWellTimed(RecordsOf(workRecords, employee.id))
    ensures es == EmployeeSalaryOf(employee, workRecords)
  {
    var employeeRecords := RecordsOf(workRecords, employee.id);
    var totalHours := 0.0;
    var i := 0;
    while i < |employeeRecords|
      invariant 0 <= i <= |employeeRecords|
      invariant totalHours == SumOf(employeeRecords[..i], RecordHours)
    {
      assert employeeRecords[..i + 1][..i] == employeeRecords[..i];
      totalHours := totalHours + RecordHours(employeeRecords[i]);
      i := i + 1;
    }
    assert employeeRecords[..i] == employeeRecords;
    var salaryInfo := CalculateSalary(totalHours);
    es := EmployeeSalary(employee, salaryInfo, employeeRecords);
  }

  /** An employee without records is paid nothing. */
  lemma NoRecordsNoPay(e: Employee, rs: seq<WorkRecord>)
    requires forall r :: r in rs ==> r.employeeId != e.id
    ensures AllWellTimed(RecordsOf(rs, e.id))
    ensures EmployeeSalaryOf(e, rs).workRecords == []
    ensures EmployeeSalaryOf(e, rs).salaryInfo == SalaryInfo(0.0, 0, 0, 0)
  {
    var info := CalculateSalary(0.0);
    assert RoundsTo(info.totalSalary, 0.0) && RoundsTo(info.taxDeduction, 0.0) && RoundsTo(info.netSalary, 0.0);
  }

  /**
   * A record of another employee, wherever it is inserted, changes nothing
   * in this employee's result.
   */
  lemma OtherRecordIgnored(e: Employee, before: seq<WorkRecord>, r: WorkRecord, after: seq<WorkRecord>)
    requires r.employeeId != e.id
    ensures RecordsOf(before + [r] + after, e.id) == RecordsOf(before + after, e.id)
    ensures AllWellTimed(RecordsOf(before + after, e.id)) ==>
      EmployeeSalaryOf(e, before + [r] + after) == EmployeeSalaryOf(e, before + after)
  {
    OtherRecordFiltered(e.id, before, r, after);
  }

  lemma OtherRecordFiltered(employeeId: string, before: seq<WorkRecord>, r: WorkRecord, after: seq<WorkRecord>)
    requires r.employeeId != employeeId
    ensures RecordsOf(before + [r] + after, employeeId) == RecordsOf(before + after, employeeId)
  {
    FilterSkip(before, r, after, ForEmployee(employeeId));
  }

  /** The records of one employee, from records appended later, come later. */
  lemma RecordsOfAppend(a: seq<WorkRecord>, b: seq<WorkRecord>, employeeId: string)
    ensures RecordsOf(a + b, employeeId) == RecordsOf(a, employeeId) + RecordsOf(b, employeeId)
  {
    FilterAppend(a, b, ForEmployee(employeeId));
  }

  /** The running totals of `calculateMonthlyTotal`. */
  datatype Totals = Totals(hours: real, salary: int)

  /** The totals of hours and of rounded gross pay, added up from the first entry. */
  function SumTotals(ss: seq<EmployeeSalary>): Totals {
    if ss == [] then Totals(0.0, 0)
    else
      var t := SumTotals(ss[..|ss| - 1]);
      var last := ss[|ss| - 1].salaryInfo;
      Totals(t.hours + last.totalHours, t.salary + last.totalSalary)
  }

  /** The specification of `calculateMonthlyTotal`. */
  function MonthlyTotalOf(ss: seq<EmployeeSalary>): (info: SalaryInfo)
    ensures info.totalHours == SumTotals(ss).hours && info.totalSalary == SumTotals(ss).salary
    ensures RoundsTo(info.taxDeduction, info.totalSalary as real * TaxRate)
    ensures RoundsTo(info.netSalary, info.totalSalary as real * (1.0 - TaxRate))
  {
    var t := SumTotals(ss);
    var taxDeduction := t.salary as real * TaxRate;
    var netSalary := t.salary as real - taxDeduction;
    SalaryInfo(t.hours, Round(t.salary as real), Round(taxDeduction), Round(netSalary))
  }

  /**
   * `calculateMonthlyTotal`: hours and rounded gross pay summed in a loop,
   * then tax and net pay derived from the summed gross.
   */
  method CalculateMonthlyTotal(employeeSalaries: seq<EmployeeSalary>) returns (info: SalaryInfo)
    ensures info == MonthlyTotalOf(employeeSalaries)
  {
    var totalHours := 0.0;
    var totalSalary := 0;
    var i := 0;
    while i < |employeeSalaries|
      invariant 0 <= i <= |employeeSalaries|
      invariant Totals(totalHours, totalSalary) == SumTotals(employeeSalaries[..i])
    {
      assert employeeSalaries[..i + 1][..i] == employeeSalaries[..i];
      totalHours := totalHours + employeeSalaries[i].salaryInfo.totalHours;
      totalSalary := totalSalary + employeeSalaries[i].salaryInfo.totalSalary;
      i := i + 1;
    }
    assert employeeSalaries[..i] == employeeSalaries;
    var taxDeduction := totalSalary as real * TaxRate;
    var netSalary := totalSalary as real - taxDeduction;
    info := SalaryInfo(totalHours, Round(totalSalary as real), Round(taxDeduction), Round(netSalary));
  }

  /** No entries: everything is zero. */
  lemma MonthlyTotalOfNothing()
    ensures MonthlyTotalOf([]) == SalaryInfo(0.0, 0, 0, 0)
  {
    var info := MonthlyTotalOf([]);
    assert RoundsTo(info.taxDeduction, 0.0) && RoundsTo(info.netSalary, 0.0);
  }

  function AddTotals(x: Totals, y: Totals): Totals {
    Totals(x.hours + y.hours, x.salary + y.salary)
  }

  lemma {:induction false} SumTotalsAppend(a: seq<EmployeeSalary>, b: seq<EmployeeSalary>)
    ensures SumTotals(a + b) == AddTotals(SumTotals(a), SumTotals(b))
    decreases |b|
  {
    if b != [] {
      var ab := a + b;
      var b' := b[..|b| - 1];
      assert ab[..|ab| - 1] == a + b' && ab[|ab| - 1] == b[|b| - 1];
      SumTotalsAppend(a, b');
    } else {
      assert a + b == a;
    }
  }

  /** The totals do not depend on the order of the entries. */
  lemma {:induction false} SumTotalsPermutation(a: seq<EmployeeSalary>, b: seq<EmployeeSalary>)
    requires multiset(a) == multiset(b)
    ensures SumTotals(a) == SumTotals(b)
    decreases |a|
  {
    if a != [] {
      var j := PermutationSplit(a, b);
      var a', x := a[..|a| - 1], a[|a| - 1];
      var front, back := b[..j], b[j + 1..];
      var tf, tx, tb := SumTotals(front), SumTotals([x]), SumTotals(back);
      calc {
        SumTotals(b);
        { SumTotalsAppend(front + [x], back); }
        AddTotals(SumTotals(front + [x]), tb);
        { SumTotalsAppend(front, [x]); }
        AddTotals(AddTotals(tf, tx), tb);
        AddTotals(AddTotals(tf, tb), tx);
        { SumTotalsAppend(front, back); }
        AddTotals(SumTotals(front + back), tx);
        { SumTotalsPermutation(a', front + back); }
        AddTotals(SumTotals(a'), tx);
        { assert a == a' + [x]; SumTotalsAppend(a', [x]); }
        SumTotals(a);
      }
    } else {
      assert |b| == |multiset(b)| == 0;
    }
  }

  /** `calculateMonthlyTotal` does not depend on the order of its input. */
  lemma MonthlyTotalPermutation(a: seq<EmployeeSalary>, b: seq<EmployeeSalary>)
    requires multiset(a) == multiset(b)
    ensures MonthlyTotalOf(a) == MonthlyTotalOf(b)
  {
    SumTotalsPermutation(a, b);
  }

  /**
   * For a whole number of won, the rounded tax and the rounded net add up to
   * the gross, except when 3.3% of it ends in exactly half a won: then the
   * net is one won more.
   */
  lemma {:induction false} TaxAndNetOfWholeAmount(total: int)
    ensures var t := total as real * TaxRate;
      Round(t) + Round(total as real - t) == total + (if (33 * total) % 1000 == 500 then 1 else 0)
  {
    var q, rem := (33 * total) / 1000, (33 * total) % 1000;
    var t := total as real * TaxRate;
    assert t == q as real + rem as real / 1000.0;
    var tax := if rem >= 500 then q + 1 else q;
    var net := if rem > 500 then total - q - 1 else total - q;
    assert RoundsTo(tax, t);
    assert RoundsTo(net, total as real - t);
    RoundUnique(Round(t), tax, t);
    RoundUnique(Round(total as real - t), net, total as real - t);
  }

  /** Only one integer lies within half a unit of a real (halves going up). */
  lemma RoundUnique(r1: int, r2: int, x: real)
    requires RoundsTo(r1, x) && RoundsTo(r2, x)
    ensures r1 == r2
  {
  }

  /** The monthly net pay is the gross less the tax, or one won more. */
  lemma MonthlyNetOfTax(ss: seq<EmployeeSalary>)
    ensures var info := MonthlyTotalOf(ss);
      info.netSalary == info.totalSalary - info.taxDeduction + (if (33 * info.totalSalary) % 1000 == 500 then 1 else 0)
  {
    var info := MonthlyTotalOf(ss);
    TaxAndNetOfWholeAmount(info.totalSalary);
    var t := info.totalSalary as real * TaxRate;
    RoundUnique(info.taxDeduction, Round(t), t);
    RoundUnique(info.netSalary, Round(info.totalSalary as real - t), info.totalSalary as real - t);
  }

  /**
   * The monthly tax is taken from the summed gross, not summed from each
   * employee's tax: two employees with half an hour each owe 429, not 215 + 215.
   */
  lemma MonthlyTaxIsNotSumOfTaxes(e1: Employee, e2: Employee)
    ensures var s := CalculateSalary(0.5);
      var total := MonthlyTotalOf([EmployeeSalary(e1, s, []), EmployeeSalary(e2, s, [])]);
      total.taxDeduction == 429 && s.taxDeduction + s.taxDeduction == 430
  {
    NetIsNotGrossLessTax();
    var s := CalculateSalary(0.5);
    var ss := [EmployeeSalary(e1, s, []), EmployeeSalary(e2, s, [])];
    assert ss[..1][..0] == [];
    assert SumTotals(ss[..1]).salary == 6500;
    assert SumTotals(ss).salary == 13000;
    var total := MonthlyTotalOf(ss);
    assert RoundsTo(total.taxDeduction, 429.0);
  }

  /** `employees.map((emp) => calculateEmployeeSalary(emp, records))`: one entry per employee, in order. */
  function EmployeeSalaries(employees: seq<Employee>, rs: seq<WorkRecord>): (ss: seq<EmployeeSalary>)
    requires AllWellTimed(rs)
    ensures |ss| == |employees|
    ensures forall i :: 0 <= i < |ss| ==> ss[i] == EmployeeSalaryOf(employees[i], rs)
  {
    if employees == [] then []
    else [EmployeeSalaryOf(employees[0], rs)] + EmployeeSalaries(employees[1..], rs)
  }
}
