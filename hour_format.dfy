/**
 * The `formatHours` helpers of screens/MonthlySalaryScreen.tsx,
 * components/EmployeeWorkCalendarModal.tsx and
 * components/WorkRecordListModal.tsx: whole hours by `Math.floor`, and the
 * rest in minutes by `Math.round`.
 */
module HourFormat {
  import opened Strings
  import opened JsMath

  /** `Math.floor(hours)`: the greatest integer not above `hours`. */
  function WholeHours(hours: real): (h: int)
    ensures h as real <= hours < h as real + 1.0
  {
    hours.Floor
  }

  /** `Math.round((hours - h) * 60)`: from 0 to 60, 60 only for a fraction of at least 59.5 minutes. */
  function RestMinutes(hours: real): (m: int)
    ensures 0 <= m <= 60
  {
    Round((hours - WholeHours(hours) as real) * 60.0)
  }

  /** `${h}시간 ${m}분`, the form of the monthly salary screen. */
  function FormatHoursLong(hours: real): string {
    IntToString(WholeHours(hours)) + "시간 " + IntToString(RestMinutes(hours)) + "분"
  }

  /** `${h}시간`, or `${h}시간 ${m}분` when there are minutes: the form of the two modals. */
  function FormatHoursCompact(hours: real): string {
    var m := RestMinutes(hours);
    if m == 0 then IntToString(WholeHours(hours)) + "시간"
    else IntToString(WholeHours(hours)) + "시간 " + IntToString(m) + "분"
  }

  /**
   * For a whole number of minutes `k`, the hours part is `k div 60` and the
   * minutes part `k mod 60` (both floored, as `Math.floor` is): no minute is
   * lost to rounding.
   */
  lemma {:induction false} PartsOfWholeMinutes(k: int)
    ensures WholeHours(k as real / 60.0) == k / 60
    ensures RestMinutes(k as real / 60.0) == k % 60
  {
    var q, r := k / 60, k % 60;
    var x := k as real / 60.0;
    assert x == q as real + r as real / 60.0;
    assert q as real <= x < q as real + 1.0;
    assert WholeHours(x) == q;
    assert (x - q as real) * 60.0 == r as real;
    RoundInteger(r);
  }

  /**
   * The compact form is the long form, except that a zero minutes part is
   * dropped together with its space.
   */
  lemma CompactDropsOnlyZeroMinutes(hours: real)
    ensures RestMinutes(hours) != 0 ==> FormatHoursCompact(hours) == FormatHoursLong(hours)
    ensures RestMinutes(hours) == 0 ==> FormatHoursLong(hours) == FormatHoursCompact(hours) + " 0분"
  {
    if RestMinutes(hours) == 0 {
      assert IntToString(0) == "0";
    }
  }
}
