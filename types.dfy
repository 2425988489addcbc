/**
 * The records of types/index.ts. A quick-time preset is modelled in the shape
 * it may have after `JSON.parse`: any slot, time or hour may be absent,
 * because the screens check each of them before use.
 */
module Types {
  import opened Wrappers

  datatype Employee = Employee(id: string, name: string)

  /** One shift; `date` is meant as YYYY-MM-DD and the times as HH:mm. */
  datatype WorkRecord = WorkRecord(id: string, date: string, employeeId: string, startTime: string, endTime: string)

  datatype SalaryInfo = SalaryInfo(totalHours: real, totalSalary: int, taxDeduction: int, netSalary: int)

  datatype EmployeeSalary = EmployeeSalary(employee: Employee, salaryInfo: SalaryInfo, workRecords: seq<WorkRecord>)

  /** `{ hours, minutes }` of a preset. */
  datatype ClockTime = ClockTime(hours: Option<nat>, minutes: Option<nat>)

  /** `{ startTime, endTime }` of a preset. */
  datatype TimeRange = TimeRange(startTime: Option<ClockTime>, endTime: Option<ClockTime>)

  datatype QuickTimeSettings = QuickTimeSettings(morning: Option<TimeRange>, lunch: Option<TimeRange>, dinner: Option<TimeRange>)

  /** The three preset names, `'morning' | 'lunch' | 'dinner'`. */
  datatype Meal = Morning | Lunch | Dinner

  /** Which end of a preset. */
  datatype Edge = Start | End

  /** `settings[meal]` */
  function Preset(s: QuickTimeSettings, meal: Meal): Option<TimeRange> {
    match meal
    case Morning => s.morning
    case Lunch => s.lunch
    case Dinner => s.dinner
  }

  /** `settings?.[meal]?.[edge]`: absent when the preset or that end is absent. */
  function TimeAt(s: QuickTimeSettings, meal: Meal, edge: Edge): Option<ClockTime> {
    match Preset(s, meal)
    case None => None
    case Some(range) => if edge == Start then range.startTime else range.endTime
  }

  /** A preset that is present and has both ends. */
  predicate HasBothEnds(t: Option<TimeRange>) {
    t.Some? && t.value.startTime.Some? && t.value.endTime.Some?
  }

  /** The shape check the screens apply before adopting loaded settings. */
  predicate IsComplete(s: QuickTimeSettings) {
    HasBothEnds(s.morning) && HasBothEnds(s.lunch) && HasBothEnds(s.dinner)
  }

  function Clock(h: nat, m: nat): ClockTime {
    ClockTime(Some(h), Some(m))
  }

  /**
   * The default presets: morning 9:00-12:00, lunch 12:00-15:00 and dinner
   * 18:00-21:00 (the same literal appears in storage.ts, WorkRecordModal.tsx
   * and QuickTimeSettingsScreen.tsx).
   */
  const DefaultQuickTimes: QuickTimeSettings :=
    QuickTimeSettings(
      Some(TimeRange(Some(Clock(9, 0)), Some(Clock(12, 0)))),
      Some(TimeRange(Some(Clock(12, 0)), Some(Clock(15, 0)))),
      Some(TimeRange(Some(Clock(18, 0)), Some(Clock(21, 0)))))

  /** Every default preset has both ends, each with its hours and minutes. */
  lemma DefaultQuickTimesComplete()
    ensures IsComplete(DefaultQuickTimes)
    ensures forall meal: Meal, edge: Edge ::
      (TimeAt(DefaultQuickTimes, meal, edge).Some?
       && TimeAt(DefaultQuickTimes, meal, edge).value.hours.Some?
       && TimeAt(DefaultQuickTimes, meal, edge).value.minutes.Some?)
  {
  }

  /** `{ year, month }` with a 1-based month. */
  datatype YearMonth = YearMonth(year: int, month: int)

  /** The value stored in a marked-dates dictionary, `{ marked?: boolean }`. */
  datatype Marking = Marking(marked: Option<bool>)
}
