/**
 * utils/storage.ts: the three persisted collections. Each mutator reads the
 * whole collection, changes it in memory and writes it back; each query
 * reads and filters.
 *
 * The device store is the object's fields. A slot holding `None` is a key
 * with nothing stored under it, or whose contents could not be read or
 * parsed: every getter then falls back to its default.
 */
module Storage {
  import opened Wrappers
  import opened Seqs
  import opened Strings
  import opened Types
  import opened DateUtils

  /** `(e) => e.id === id` */
  function HasEmployeeId(id: string): Employee -> bool {
    (e: Employee) => e.id == id
  }

  /** `(e) => e.id !== id` */
  function NotEmployeeId(id: string): Employee -> bool {
    (e: Employee) => e.id != id
  }

  /** `(r) => r.id === id` */
  function HasRecordId(id: string): WorkRecord -> bool {
    (r: WorkRecord) => r.id == id
  }

  /** `(r) => r.id !== id` */
  function NotRecordId(id: string): WorkRecord -> bool {
    (r: WorkRecord) => r.id != id
  }

  /** `(r) => r.date === date` */
  function OnDate(date: string): WorkRecord -> bool {
    (r: WorkRecord) => r.date == date
  }

  /**
   * The test of `getWorkRecordsByMonth`: the first `-`-separated field of the
   * date is the decimal year and the second is the month padded to two
   * digits; a date without a second field never matches.
   */
  predicate DateInMonth(date: string, year: int, month: int) {
    var parts := Split(date, '-');
    parts[0] == IntToString(year) && |parts| >= 2 && parts[1] == Pad2(IntToString(month))
  }

  function InMonth(year: int, month: int): WorkRecord -> bool {
    (r: WorkRecord) => DateInMonth(r.date, year, month)
  }

  class Store {
    var employeeData: Option<seq<Employee>>
    var workRecordData: Option<seq<WorkRecord>>
    var quickTimeData: Option<QuickTimeSettings>

    /** A device on which nothing has been stored yet. */
    constructor ()
      ensures employeeData == None && workRecordData == None && quickTimeData == None
    {
      employeeData := None;
      workRecordData := None;
      quickTimeData := None;
    }

    /** `getEmployees`: the stored list, or `[]` when there is none. */
    function GetEmployees(): (es: seq<Employee>)
      reads this
      ensures employeeData.None? ==> es == []
      ensures employeeData.Some? ==> es == employeeData.value
    {
      employeeData.GetOr([])
    }

    /** `saveEmployees` */
    method SaveEmployees(employees: seq<Employee>)
      modifies this`employeeData
      ensures employeeData == Some(employees)
    {
      employeeData := Some(employees);
    }

    /** `addEmployee`: appended at the end; the others keep their order. */
    method AddEmployee(employee: Employee)
      modifies this`employeeData
      ensures GetEmployees() == old(GetEmployees()) + [employee]
    {
      var employees := GetEmployees();
      employees := employees + [employee];
      SaveEmployees(employees);
    }

    /**
     * `updateEmployee`: the first employee with the same id is replaced.
     * Without one nothing is written.
     */
    method UpdateEmployee(employee: Employee)
      modifies this`employeeData
      ensures FirstIndex(old(GetEmployees()), HasEmployeeId(employee.id)) == -1 ==> employeeData == old(employeeData)
      ensures FirstIndex(old(GetEmployees()), HasEmployeeId(employee.id)) != -1 ==>
        GetEmployees() == old(GetEmployees())[FirstIndex(old(GetEmployees()), HasEmployeeId(employee.id)) := employee]
    {
      var employees := GetEmployees();
      var index := FirstIndex(employees, HasEmployeeId(employee.id));
      if index != -1 {
        employees := employees[index := employee];
        SaveEmployees(employees);
      }
    }

    /** `deleteEmployee`: every employee with that id goes; the work records stay. */
    method DeleteEmployee(employeeId: string)
      modifies this`employeeData
      ensures GetEmployees() == Filter(old(GetEmployees()), NotEmployeeId(employeeId))
    {
      var employees := GetEmployees();
      var filtered := Filter(employees, NotEmployeeId(employeeId));
      SaveEmployees(filtered);
    }

    /** `getWorkRecords`: the stored list, or `[]` when there is none. */
    function GetWorkRecords(): (rs: seq<WorkRecord>)
      reads this
      ensures workRecordData.None? ==> rs == []
      ensures workRecordData.Some? ==> rs == workRecordData.value
    {
      workRecordData.GetOr([])
    }

    /** `saveWorkRecords` */
    method SaveWorkRecords(records: seq<WorkRecord>)
      modifies this`workRecordData
      ensures workRecordData == Some(records)
    {
      workRecordData := Some(records);
    }

    /** `addWorkRecord`: appended at the end; the others keep their order. */
    method AddWorkRecord(record: WorkRecord)
      modifies this`workRecordData
      ensures GetWorkRecords() == old(GetWorkRecords()) + [record]
    {
      var records := GetWorkRecords();
      records := records + [record];
      SaveWorkRecords(records);
    }

    /**
     * `updateWorkRecord`: the first record with the same id is replaced.
     * Without one nothing is written.
     */
    method UpdateWorkRecord(record: WorkRecord)
      modifies this`workRecordData
      ensures FirstIndex(old(GetWorkRecords()), HasRecordId(record.id)) == -1 ==> workRecordData == old(workRecordData)
      ensures FirstIndex(old(GetWorkRecords()), HasRecordId(record.id)) != -1 ==>
        GetWorkRecords() == old(GetWorkRecords())[FirstIndex(old(GetWorkRecords()), HasRecordId(record.id)) := record]
    {
      var records := GetWorkRecords();
      var index := FirstIndex(records, HasRecordId(record.id));
      if index != -1 {
        records := records[index := record];
        SaveWorkRecords(records);
      }
    }

    /** `deleteWorkRecord`: every record with that id goes. */
    method DeleteWorkRecord(recordId: string)
      modifies this`workRecordData
      ensures GetWorkRecords() == Filter(old(GetWorkRecords()), NotRecordId(recordId))
    {
      var records := GetWorkRecords();
      var filtered := Filter(records, NotRecordId(recordId));
      SaveWorkRecords(filtered);
    }

    /** `getWorkRecordsByDate`: the stored records on exactly that date. */
    function GetWorkRecordsByDate(date: string): (rs: seq<WorkRecord>)
      reads this
      ensures forall r :: r in rs <==> r in GetWorkRecords() && r.date == date
    {
      Filter(GetWorkRecords(), OnDate(date))
    }

    /** `getWorkRecordsByMonth`: the stored records whose date lies in that month. */
    function GetWorkRecordsByMonth(year: int, month: int): (rs: seq<WorkRecord>)
      reads this
      ensures forall r :: r in rs <==> r in GetWorkRecords() && DateInMonth(r.date, year, month)
    {
      Filter(GetWorkRecords(), InMonth(year, month))
    }

    /** `getQuickTimeSettings`: the stored settings, or the defaults when there are none. */
    function GetQuickTimeSettings(): (s: QuickTimeSettings)
      reads this
      ensures quickTimeData.None? ==> s == DefaultQuickTimes
      ensures quickTimeData.Some? ==> s == quickTimeData.value
    {
      quickTimeData.GetOr(DefaultQuickTimes)
    }

    /** `saveQuickTimeSettings`: a later get returns exactly what was saved. */
    method SaveQuickTimeSettings(settings: QuickTimeSettings)
      modifies this`quickTimeData
      ensures GetQuickTimeSettings() == settings
    {
      quickTimeData := Some(settings);
    }
  }

  /**
   * Replacing the first entry with an id keeps the length and every other
   * entry, and what is stored under that position is the new value.
   */
  lemma UpdateKeepsOthers(es: seq<Employee>, e: Employee)
    ensures var i := FirstIndex(es, HasEmployeeId(e.id));
      var updated := if i == -1 then es else es[i := e];
      && updated == ReplaceFirst(es, HasEmployeeId(e.id), e)
      && |updated| == |es|
      && (i != -1 ==> updated[i] == e && forall j :: 0 <= j < i ==> es[j].id != e.id)
      && (forall j :: 0 <= j < |es| && j != i ==> updated[j] == es[j])
  {
  }

  /** Deleting one record keeps the others in their stored order. */
  lemma {:induction false} DeleteKeepsOrder(before: seq<WorkRecord>, r: WorkRecord, after: seq<WorkRecord>)
    requires forall x :: x in before + after ==> x.id != r.id
    ensures Filter(before + [r] + after, NotRecordId(r.id)) == before + after
  {
    var p := NotRecordId(r.id);
    FilterSkip(before, r, after, p);
    FilterKeepsAll(before + after, p);
  }

  /** A date `formatDate` produced lies in its own month. */
  lemma FormattedDateInMonth(d: Date)
    requires d.year >= 0 && d.month0 >= -1 && d.day >= 0
    ensures DateInMonth(FormatDate(d), d.year, d.month0 + 1)
  {
    FormatDateFields(d);
    InMonthByFields(FormatDate(d), d.year, d.month0 + 1, Pad2(NatToString(d.day)));
  }

  lemma InMonthByFields(date: string, year: nat, month: nat, rest: string)
    requires Split(date, '-') == [NatToString(year), Pad2(NatToString(month)), rest]
    ensures DateInMonth(date, year, month)
  {
    var parts := Split(date, '-');
    assert parts[0] == IntToString(year) && parts[1] == Pad2(IntToString(month));
  }

  /** A `YYYY-MM-DD` string: four digits, `-`, two digits, `-`, two digits. */
  predicate IsIsoDate(s: string) {
    |s| == 10 && s[4] == '-' && s[7] == '-'
    && AllDigits(s[..4]) && AllDigits(s[5..7]) && AllDigits(s[8..])
  }

  /**
   * For a `YYYY-MM-DD` date and a non-negative year and month, the month
   * test is exactly the test that the date starts with `year-MM`.
   */
  lemma MonthTestIsPrefixTest(s: string, year: nat, month: nat)
    requires IsIsoDate(s)
    ensures DateInMonth(s, year, month) <==> s[..7] == IntToString(year) + "-" + Pad2(IntToString(month))
  {
    var y, m := NatToString(year), Pad2(NatToString(month));
    Pad2Value(month);
    IsoMonthTest(s, year, month);
    assert DateInMonth(s, year, month) <==> s[..4] == y && s[5..7] == m;
    if s[..7] == y + "-" + m {
      PrefixFields(s, y, m);
    }
    if s[..4] == y && s[5..7] == m {
      PrefixOfIsoDate(s);
    }
  }

  /** On a `YYYY-MM-DD` date the month test compares the year and month fields. */
  lemma IsoMonthTest(s: string, year: nat, month: nat)
    requires IsIsoDate(s)
    ensures DateInMonth(s, year, month) <==> s[..4] == NatToString(year) && s[5..7] == Pad2(NatToString(month))
  {
    IsoDateFields(s);
  }

  lemma IsoDateFields(s: string)
    requires IsIsoDate(s)
    ensures Split(s, '-') == [s[..4], s[5..7], s[8..]]
  {
    var a, b, c := s[..4], s[5..7], s[8..];
    assert s == a + ['-'] + (b + ['-'] + c);
    SplitThreeFields(a, '-', b, c);
  }

  lemma PrefixOfIsoDate(s: string)
    requires IsIsoDate(s)
    ensures s[..7] == s[..4] + "-" + s[5..7]
  {
  }

  /**
   * A `year-MM` string of digit fields equal to the first seven characters
   * of a `YYYY-MM-DD` date: the fields are the date's year and month fields.
   */
  lemma PrefixFields(s: string, y: string, m: string)
    requires IsIsoDate(s)
    requires AllDigits(y) && AllDigits(m) && s[..7] == y + "-" + m
    ensures s[..4] == y && s[5..7] == m
  {
    var t := s[..7];
    assert t[|y|] == '-';
    assert |y| == 4;
    assert t[..4] == s[..4] && t[5..] == s[5..7];
  }
}
