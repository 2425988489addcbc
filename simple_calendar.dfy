/**
 * components/SimpleCalendar.tsx: a month grid of 42 cells with marked days,
 * navigated one month at a time with a 0-based month.
 */
module SimpleCalendar {
  import opened Wrappers
  import opened Strings
  import opened Types
  import opened DateUtils
  import opened MarkedDates
  import MonthlySalaryScreen

  /** Six weeks of seven days. */
  const TotalCells := 42

  /** The calendar's `formatDate(year, month, day)`, with a 0-based month: the same text as `utils/dateUtils.ts` gives. */
  function CalendarDate(year: int, month0: int, day: int): string {
    FormatDate(Date(year, month0, day))
  }

  /** A day of a four-digit year is shown marked exactly when some record carries its date. */
  lemma CalendarDayMarked(rs: seq<WorkRecord>, year: int, month0: int, day: int)
    requires 1000 <= year <= 9999 && 0 <= month0 <= 11 && 1 <= day <= 31
    ensures IsMarked(MarkedOf(rs), CalendarDate(year, month0, day))
      <==> exists r :: r in rs && r.date == CalendarDate(year, month0, day)
  {
    FormatDateLayout(Date(year, month0, day));
    MarkedIffRecorded(rs, CalendarDate(year, month0, day));
  }

  // The proleptic Gregorian calendar behind `getDaysInMonth` and `getFirstDayOfMonth`.

  predicate IsLeapYear(year: int) {
    year % 4 == 0 && (year % 100 != 0 || year % 400 == 0)
  }

  function YearLength(year: int): int {
    if IsLeapYear(year) then 366 else 365
  }

  /** `new Date(year, month + 1, 0).getDate()` for a month in range. */
  function DaysInMonth(year: int, month0: int): (n: int)
    requires 0 <= month0 <= 11
    ensures 28 <= n <= 31
  {
    if month0 == 1 then (if IsLeapYear(year) then 29 else 28)
    else if month0 == 3 || month0 == 5 || month0 == 8 || month0 == 10 then 30
    else 31
  }

  /** Days of the year before the first of the month. */
  function DaysBeforeMonth(year: int, month0: int): int
    requires 0 <= month0 <= 12
  {
    if month0 == 0 then 0 else DaysBeforeMonth(year, month0 - 1) + DaysInMonth(year, month0 - 1)
  }

  /** The twelve months add up to the year. */
  lemma MonthsMakeYear(year: int)
    ensures DaysBeforeMonth(year, 12) == YearLength(year)
  {
    var feb := DaysInMonth(year, 1);
    assert DaysBeforeMonth(year, 1) == 31;
    assert DaysBeforeMonth(year, 2) == 31 + feb;
    assert DaysBeforeMonth(year, 3) == 62 + feb;
    assert DaysBeforeMonth(year, 4) == 92 + feb;
    assert DaysBeforeMonth(year, 5) == 123 + feb;
    assert DaysBeforeMonth(year, 6) == 153 + feb;
    assert DaysBeforeMonth(year, 7) == 184 + feb;
    assert DaysBeforeMonth(year, 8) == 215 + feb;
    assert DaysBeforeMonth(year, 9) == 245 + feb;
    assert DaysBeforeMonth(year, 10) == 276 + feb;
    assert DaysBeforeMonth(year, 11) == 306 + feb;
  }

  /** Days from 1 January of year 0 to 1 January of `year`. */
  function DaysBeforeYear(year: int): int {
    365 * year + (year + 3) / 4 - (year + 99) / 100 + (year + 399) / 400
  }

  lemma {:induction false} DaysBeforeNextYear(year: int)
    ensures DaysBeforeYear(year + 1) == DaysBeforeYear(year) + YearLength(year)
  {
    var step := DaysBeforeYear(year + 1) - DaysBeforeYear(year);
    var s4, s100, s400 := (year + 4) / 4 - (year + 3) / 4, (year + 100) / 100 - (year + 99) / 100, (year + 400) / 400 - (year + 399) / 400;
    assert step == 365 + s4 - s100 + s400;
    MultipleStep4(year);
    MultipleStep100(year);
    MultipleStep400(year);
    Divisibility(year);
  }

  /** A multiple of 400 is one of 100, and a multiple of 100 one of 4. */
  lemma Divisibility(year: int)
    ensures year % 400 == 0 ==> year % 100 == 0
    ensures year % 100 == 0 ==> year % 4 == 0
  {
    if year % 400 == 0 {
      var k := year / 400;
      assert year == 100 * (4 * k);
    }
    if year % 100 == 0 {
      var k := year / 100;
      assert year == 4 * (25 * k);
    }
  }

  lemma MultipleStep4(year: int)
    ensures (year + 4) / 4 - (year + 3) / 4 == if year % 4 == 0 then 1 else 0
  {
  }

  lemma MultipleStep100(year: int)
    ensures (year + 100) / 100 - (year + 99) / 100 == if year % 100 == 0 then 1 else 0
  {
  }

  lemma MultipleStep400(year: int)
    ensures (year + 400) / 400 - (year + 399) / 400 == if year % 400 == 0 then 1 else 0
  {
  }

  /** Days from 1 January of year 0. */
  function DayNumber(year: int, month0: int, day: int): int
    requires 0 <= month0 <= 11
  {
    DaysBeforeYear(year) + DaysBeforeMonth(year, month0) + day - 1
  }

  /** `getDay()`: 0 for Sunday to 6 for Saturday; 1 January of year 0 was a Saturday. */
  function Weekday(year: int, month0: int, day: int): (w: int)
    requires 0 <= month0 <= 11
    ensures 0 <= w <= 6
  {
    (DayNumber(year, month0, day) + 6) % 7
  }

  /** `new Date(year, month, 1).getDay()` for a month in range. */
  function FirstDayOfMonth(year: int, month0: int): (w: int)
    requires 0 <= month0 <= 11
    ensures 0 <= w <= 6
  {
    Weekday(year, month0, 1)
  }

  /** The weekday count is anchored right: 1 January 1970 was a Thursday, 1 January 2000 a Saturday. */
  lemma WeekdayAnchors()
    ensures FirstDayOfMonth(1970, 0) == 4
    ensures FirstDayOfMonth(2000, 0) == 6
  {
    assert DaysBeforeYear(1970) == 719528;
    assert DaysBeforeYear(2000) == 730485;
  }

  /** A month begins on the weekday after the previous month's last day, across a year's end too. */
  lemma NextMonthStartsAfter(year: int, month0: int)
    requires 0 <= month0 <= 11
    ensures var next := NextView(MonthView(year, month0));
      FirstDayOfMonth(next.year, next.month0) == (FirstDayOfMonth(year, month0) + DaysInMonth(year, month0)) % 7
  {
    var next := NextView(MonthView(year, month0));
    var n := DayNumber(year, month0, 1);
    if month0 == 11 {
      MonthsMakeYear(year);
      DaysBeforeNextYear(year);
    }
    assert DayNumber(next.year, next.month0, 1) == n + DaysInMonth(year, month0);
    ShiftMod7(n + 6, DaysInMonth(year, month0));
  }

  lemma ShiftMod7(a: int, b: int)
    ensures (a + b) % 7 == (a % 7 + b) % 7
  {
    var q := a / 7;
    assert a + b == (a % 7 + b) + 7 * q;
  }

  /** A month never needs more than the 42 cells. */
  lemma MonthFitsGrid(year: int, month0: int)
    requires 0 <= month0 <= 11
    ensures FirstDayOfMonth(year, month0) + DaysInMonth(year, month0) <= TotalCells
  {
  }

  // Navigation with a 0-based month.

  /** The calendar's `currentYear` and 0-based `currentMonth`. */
  datatype MonthView = MonthView(year: int, month0: int)

  function ViewIndex(v: MonthView): int {
    v.year * 12 + v.month0
  }

  predicate ValidView(v: MonthView) {
    0 <= v.month0 <= 11
  }

  /** The view `goToPreviousMonth` moves to: one month earlier, month still in 0..11. */
  function PreviousView(v: MonthView): (r: MonthView)
    ensures ValidView(v) ==> ValidView(r) && ViewIndex(r) == ViewIndex(v) - 1
  {
    if v.month0 == 0 then MonthView(v.year - 1, 11) else MonthView(v.year, v.month0 - 1)
  }

  /** The view `goToNextMonth` moves to: one month later, month still in 0..11. */
  function NextView(v: MonthView): (r: MonthView)
    ensures ValidView(v) ==> ValidView(r) && ViewIndex(r) == ViewIndex(v) + 1
  {
    if v.month0 == 11 then MonthView(v.year + 1, 0) else MonthView(v.year, v.month0 + 1)
  }

  /** The 1-based month reported to `onMonthChange`. */
  function Reported(v: MonthView): YearMonth {
    YearMonth(v.year, v.month0 + 1)
  }

  /**
   * The calendar's 0-based navigation reports the same months as the
   * monthly screen's 1-based navigation.
   */
  lemma NavigationAgrees(v: MonthView)
    requires ValidView(v)
    ensures Reported(PreviousView(v)) == MonthlySalaryScreen.PreviousMonth(Reported(v))
    ensures Reported(NextView(v)) == MonthlySalaryScreen.NextMonth(Reported(v))
    ensures MonthlySalaryScreen.ValidMonth(Reported(v))
  {
  }

  /** One cell of the grid: a blank, or a day with its date and whether it is marked. */
  datatype Cell = Blank | Day(day: int, date: string, marked: bool)

  class Calendar {
    /** The `markedDates` prop, `{}` when absent. */
    const markedDates: map<string, Marking>
    var currentMonth: int
    var currentYear: int

    /**
     * The first render: the 1-based `initialMonth` minus one, else today's
     * month; `initialYear` unless absent or 0 (the `||` fallback), else
     * today's year.
     */
    constructor (markedDates: map<string, Marking>, initialYear: Option<int>, initialMonth: Option<int>, today: Date)
      ensures this.markedDates == markedDates
      ensures currentMonth == if initialMonth.Some? then initialMonth.value - 1 else today.month0
      ensures currentYear == if initialYear.Some? && initialYear.value != 0 then initialYear.value else today.year
    {
      this.markedDates := markedDates;
      currentMonth := if initialMonth.Some? then initialMonth.value - 1 else today.month0;
      currentYear := if initialYear.Some? && initialYear.value != 0 then initialYear.value else today.year;
    }

    function View(): MonthView
      reads this
    {
      MonthView(currentYear, currentMonth)
    }

    /** The effect on the two props: both present, and the view follows them. */
    method FollowProps(initialYear: Option<int>, initialMonth: Option<int>)
      modifies this`currentMonth, this`currentYear
      ensures initialYear.Some? && initialMonth.Some? ==> View() == MonthView(initialYear.value, initialMonth.value - 1)
      ensures !(initialYear.Some? && initialMonth.Some?) ==> View() == old(View())
    {
      if initialYear.Some? && initialMonth.Some? {
        currentYear := initialYear.value;
        currentMonth := initialMonth.value - 1;
      }
    }

    /** `goToPreviousMonth`, returning what `onMonthChange` is called with. */
    method GoToPreviousMonth() returns (reported: YearMonth)
      modifies this`currentMonth, this`currentYear
      ensures View() == PreviousView(old(View()))
      ensures reported == Reported(View())
    {
      var newMonth := currentMonth;
      var newYear := currentYear;
      if currentMonth == 0 {
        newMonth := 11;
        newYear := currentYear - 1;
      } else {
        newMonth := currentMonth - 1;
      }
      currentMonth := newMonth;
      currentYear := newYear;
      reported := YearMonth(newYear, newMonth + 1);
    }

    /** `goToNextMonth`, returning what `onMonthChange` is called with. */
    method GoToNextMonth() returns (reported: YearMonth)
      modifies this`currentMonth, this`currentYear
      ensures View() == NextView(old(View()))
      ensures reported == Reported(View())
    {
      var newMonth := currentMonth;
      var newYear := currentYear;
      if currentMonth == 11 {
        newMonth := 0;
        newYear := currentYear + 1;
      } else {
        newMonth := currentMonth + 1;
      }
      currentMonth := newMonth;
      currentYear := newYear;
      reported := YearMonth(newYear, newMonth + 1);
    }

    /** `goToToday`, with `today` read from the clock by the caller. */
    method GoToToday(today: Date) returns (reported: YearMonth)
      modifies this`currentMonth, this`currentYear
      ensures View() == MonthView(today.year, today.month0)
      ensures reported == YearMonth(today.year, today.month0 + 1)
    {
      currentMonth := today.month0;
      currentYear := today.year;
      reported := YearMonth(today.year, today.month0 + 1);
    }

    /** The cell of a day of the shown month. */
    function DayCell(day: int): Cell
      reads this
    {
      var dateStr := CalendarDate(currentYear, currentMonth, day);
      Day(day, dateStr, IsMarked(markedDates, dateStr))
    }

    /** The cell `renderDays` puts at index `i`. */
    function CellAt(firstDay: nat, daysInMonth: nat, i: int): Cell
      reads this
    {
      if firstDay <= i < firstDay + daysInMonth then DayCell(i - firstDay + 1) else Blank
    }

    /**
     * `renderDays`: `firstDay` blanks, the days 1 to `daysInMonth` in order,
     * then blanks up to 42 cells (none when the days already reach 42).
     */
    method RenderDays(firstDay: nat, daysInMonth: nat) returns (cells: seq<Cell>)
      ensures |cells| == if firstDay + daysInMonth < TotalCells then TotalCells else firstDay + daysInMonth
      ensures forall i :: 0 <= i < |cells| ==> cells[i] == CellAt(firstDay, daysInMonth, i)
    {
      var days: seq<Cell> := [];
      var i := 0;
      while i < firstDay
        invariant 0 <= i <= firstDay && |days| == i
        invariant forall j :: 0 <= j < |days| ==> days[j] == CellAt(firstDay, daysInMonth, j)
      {
        Extend(firstDay, daysInMonth, days, Blank);
        days := days + [Blank];
        i := i + 1;
      }
      var day := 1;
      while day <= daysInMonth
        invariant 1 <= day <= daysInMonth + 1 && |days| == firstDay + day - 1
        invariant forall j :: 0 <= j < |days| ==> days[j] == CellAt(firstDay, daysInMonth, j)
      {
        Extend(firstDay, daysInMonth, days, DayCell(day));
        days := days + [DayCell(day)];
        day := day + 1;
      }
      var remainingCells := TotalCells - |days|;
      i := 0;
      while i < remainingCells
        invariant remainingCells == TotalCells - (firstDay + daysInMonth)
        invariant 0 <= i && |days| == firstDay + daysInMonth + i
        invariant remainingCells <= 0 ==> i == 0
        invariant remainingCells > 0 ==> i <= remainingCells
        invariant forall j :: 0 <= j < |days| ==> days[j] == CellAt(firstDay, daysInMonth, j)
      {
        Extend(firstDay, daysInMonth, days, Blank);
        days := days + [Blank];
        i := i + 1;
      }
      cells := days;
    }

    lemma Extend(firstDay: nat, daysInMonth: nat, days: seq<Cell>, c: Cell)
      requires forall j :: 0 <= j < |days| ==> days[j] == CellAt(firstDay, daysInMonth, j)
      requires c == CellAt(firstDay, daysInMonth, |days|)
      ensures forall j :: 0 <= j < |days| + 1 ==> (days + [c])[j] == CellAt(firstDay, daysInMonth, j)
    {
    }

    /** Blanks, then day `d` at index `firstDay + d - 1`, then blanks. */
    lemma CellLayout(firstDay: nat, daysInMonth: nat, cells: seq<Cell>)
      requires forall i :: 0 <= i < |cells| ==> cells[i] == CellAt(firstDay, daysInMonth, i)
      ensures forall i :: 0 <= i < firstDay && i < |cells| ==> cells[i] == Blank
      ensures forall d :: 1 <= d <= daysInMonth && firstDay + d - 1 < |cells| ==> cells[firstDay + d - 1] == DayCell(d)
      ensures forall i :: firstDay + daysInMonth <= i < |cells| ==> cells[i] == Blank
    {
    }

    /**
     * The grid of a month in range, with the Gregorian month length and first
     * weekday: exactly 42 cells, day `d` at index `firstDay + d - 1`.
     */
    method Render() returns (cells: seq<Cell>)
      requires ValidView(View())
      ensures |cells| == TotalCells
      ensures var firstDay, daysInMonth := FirstDayOfMonth(currentYear, currentMonth), DaysInMonth(currentYear, currentMonth);
        && (forall i :: 0 <= i < firstDay ==> cells[i] == Blank)
        && (forall d :: 1 <= d <= daysInMonth ==> cells[firstDay + d - 1] == DayCell(d))
        && (forall i :: firstDay + daysInMonth <= i < TotalCells ==> cells[i] == Blank)
    {
      var daysInMonth := DaysInMonth(currentYear, currentMonth);
      var firstDay := FirstDayOfMonth(currentYear, currentMonth);
      MonthFitsGrid(currentYear, currentMonth);
      cells := RenderDays(firstDay, daysInMonth);
      CellLayout(firstDay, daysInMonth, cells);
    }
  }
}
