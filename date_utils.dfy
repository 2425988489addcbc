/**
 * utils/dateUtils.ts: calendar dates and HH:mm times as strings, and the
 * length of a shift in hours with the overnight rule.
 */
module DateUtils {
  import opened Strings

  /** What a JavaScript `Date` reports: getFullYear(), getMonth() (0-based), getDate(). */
  datatype Date = Date(year: int, month0: int, day: int)

  /** `formatDate`: year, then the 1-based month and the day, each padded to two digits. */
  function FormatDate(d: Date): string {
    IntToString(d.year) + "-" + Pad2(IntToString(d.month0 + 1)) + "-" + Pad2(IntToString(d.day))
  }

  /**
   * For non-negative fields, splitting the result at `-` recovers the year,
   * the padded 1-based month and the padded day.
   */
  lemma FormatDateFields(d: Date)
    requires d.year >= 0 && d.month0 >= -1 && d.day >= 0
    ensures Split(FormatDate(d), '-') == [NatToString(d.year), Pad2(NatToString(d.month0 + 1)), Pad2(NatToString(d.day))]
  {
    var y, m, dd := NatToString(d.year), Pad2(NatToString(d.month0 + 1)), Pad2(NatToString(d.day));
    assert FormatDate(d) == y + ['-'] + (m + ['-'] + dd) by {
      assert IntToString(d.year) == y;
      assert IntToString(d.month0 + 1) == NatToString(d.month0 + 1);
      assert IntToString(d.day) == NatToString(d.day);
    }
    Pad2Value(d.month0 + 1);
    Pad2Value(d.day);
    SplitThreeFields(y, '-', m, dd);
  }

  /** For a four-digit year the result is YYYY-MM-DD: ten characters. */
  lemma FormatDateLayout(d: Date)
    requires 1000 <= d.year <= 9999 && 0 <= d.month0 <= 11 && 1 <= d.day <= 31
    ensures var s := FormatDate(d);
      && |s| == 10 && s[4] == '-' && s[7] == '-'
      && s[..4] == NatToString(d.year)
      && AllDigits(s[5..7]) && DecimalValue(s[5..7]) == d.month0 + 1
      && AllDigits(s[8..]) && DecimalValue(s[8..]) == d.day
  {
    var y, m, dd := NatToString(d.year), Pad2(NatToString(d.month0 + 1)), Pad2(NatToString(d.day));
    NatToStringLength(d.year);
    Pad2Numeral(d.month0 + 1);
    Pad2Numeral(d.day);
    assert FormatDate(d) == y + "-" + m + "-" + dd;
    JoinedSlices(y, m, dd);
  }

  lemma JoinedSlices(y: string, m: string, dd: string)
    requires |y| == 4 && |m| == 2 && |dd| == 2
    ensures var s := y + "-" + m + "-" + dd;
      |s| == 10 && s[4] == '-' && s[7] == '-' && s[..4] == y && s[5..7] == m && s[8..] == dd
  {
  }

  /** A clock reading as `parseTime` returns it. */
  datatype Time = Time(hours: nat, minutes: nat)

  /**
   * The strings `parseTime` turns into numbers: the first two `:`-separated
   * fields are digit strings.
   */
  predicate IsTimeString(s: string) {
    var p := Split(s, ':');
    |p| >= 2 && AllDigits(p[0]) && AllDigits(p[1])
  }

  /** `parseTime`: `split(':').map(Number)`, first field hours, second minutes. */
  function ParseTime(s: string): Time
    requires IsTimeString(s)
  {
    var p := Split(s, ':');
    Time(DecimalValue(p[0]), DecimalValue(p[1]))
  }

  /** `formatTime`: hours and minutes, each padded to two digits, joined by `:`. */
  function FormatTime(hours: nat, minutes: nat): string {
    Pad2(NatToString(hours)) + ":" + Pad2(NatToString(minutes))
  }

  /** The two `:`-separated fields of `formatTime`'s result are the padded numerals. */
  lemma FormatTimeFields(hours: nat, minutes: nat)
    ensures Split(FormatTime(hours, minutes), ':') == [Pad2(NatToString(hours)), Pad2(NatToString(minutes))]
  {
    var a, b := Pad2(NatToString(hours)), Pad2(NatToString(minutes));
    assert FormatTime(hours, minutes) == a + [':'] + b;
    Pad2Value(hours);
    Pad2Value(minutes);
    SplitTwoFields(a, ':', b);
  }

  /** Formatting then parsing gives back the hours and minutes, for all naturals. */
  lemma ParseFormatTime(hours: nat, minutes: nat)
    ensures IsTimeString(FormatTime(hours, minutes))
    ensures ParseTime(FormatTime(hours, minutes)) == Time(hours, minutes)
  {
    FormatTimeFields(hours, minutes);
    Pad2Value(hours);
    Pad2Value(minutes);
  }

  /** Below 100, `formatTime` gives exactly two digits, `:`, two digits. */
  lemma FormatTimeLayout(hours: nat, minutes: nat)
    requires hours <= 99 && minutes <= 99
    ensures var s := FormatTime(hours, minutes);
      && |s| == 5 && s[2] == ':'
      && AllDigits(s[..2]) && AllDigits(s[3..])
      && DecimalValue(s[..2]) == hours && DecimalValue(s[3..]) == minutes
  {
    var a, b := Pad2(NatToString(hours)), Pad2(NatToString(minutes));
    assert FormatTime(hours, minutes) == a + ":" + b;
    Pad2Numeral(hours);
    Pad2Numeral(minutes);
    ClockSlices(a, b);
  }

  lemma ClockSlices(a: string, b: string)
    requires |a| == 2 && |b| == 2
    ensures var s := a + ":" + b;
      |s| == 5 && s[2] == ':' && s[..2] == a && s[3..] == b
  {
  }

  /** A canonical HH:mm string is reproduced by parsing and formatting it again. */
  lemma FormatParseTime(s: string)
    requires |s| == 5 && s[2] == ':' && AllDigits(s[..2]) && AllDigits(s[3..])
    ensures IsTimeString(s) && FormatTime(ParseTime(s).hours, ParseTime(s).minutes) == s
  {
    var a, b := s[..2], s[3..];
    assert s == a + [':'] + b;
    SplitTwoFields(a, ':', b);
    Pad2OfTwoDigits(a);
    Pad2OfTwoDigits(b);
  }

  function MinuteOfDay(t: Time): nat {
    t.hours * 60 + t.minutes
  }

  /** A reading inside one day: hours 0..23 and minutes 0..59. */
  predicate InDay(t: Time) {
    t.hours < 24 && t.minutes < 60
  }

  /**
   * The minutes from `startMinute` to `endMinute`, adding a whole day when
   * the end comes earlier (the shift ends the next day).
   */
  function ShiftMinutes(startMinute: int, endMinute: int): (m: int)
    ensures m == endMinute - startMinute || m == endMinute - startMinute + 1440
    ensures m >= 0 <==> endMinute - startMinute >= -1440
  {
    var diffMinutes := endMinute - startMinute;
    if diffMinutes < 0 then diffMinutes + 24 * 60 else diffMinutes
  }

  /** `calculateWorkHours`: the shift's minutes divided by 60. */
  function CalculateWorkHours(startTime: string, endTime: string): real
    requires IsTimeString(startTime) && IsTimeString(endTime)
  {
    ShiftMinutes(MinuteOfDay(ParseTime(startTime)), MinuteOfDay(ParseTime(endTime))) as real / 60.0
  }

  /** Within one day a shift lasts less than a day, and nothing only from a minute to itself. */
  lemma ShiftMinutesWithinDay(startMinute: int, endMinute: int)
    requires 0 <= startMinute < 1440 && 0 <= endMinute < 1440
    ensures 0 <= ShiftMinutes(startMinute, endMinute) < 1440
    ensures ShiftMinutes(startMinute, endMinute) == 0 <==> startMinute == endMinute
  {
  }

  /** An end no earlier than the start: the plain difference, in hours. */
  lemma WorkHoursSameDay(startTime: string, endTime: string)
    requires IsTimeString(startTime) && IsTimeString(endTime)
    requires MinuteOfDay(ParseTime(endTime)) >= MinuteOfDay(ParseTime(startTime))
    ensures CalculateWorkHours(startTime, endTime) * 60.0
         == (MinuteOfDay(ParseTime(endTime)) - MinuteOfDay(ParseTime(startTime))) as real
  {
  }

  /** An end earlier than the start: the shift runs past midnight. */
  lemma WorkHoursOvernight(startTime: string, endTime: string)
    requires IsTimeString(startTime) && IsTimeString(endTime)
    requires MinuteOfDay(ParseTime(endTime)) < MinuteOfDay(ParseTime(startTime))
    ensures CalculateWorkHours(startTime, endTime) * 60.0
         == (MinuteOfDay(ParseTime(endTime)) - MinuteOfDay(ParseTime(startTime)) + 1440) as real
  {
  }

  /**
   * For readings within a day the shift lasts at least 0 and less than 24
   * hours; it is 0 exactly when start and end are the same minute (never 24).
   */
  lemma WorkHoursWithinDay(startTime: string, endTime: string)
    requires IsTimeString(startTime) && IsTimeString(endTime)
    requires InDay(ParseTime(startTime)) && InDay(ParseTime(endTime))
    ensures 0.0 <= CalculateWorkHours(startTime, endTime) < 24.0
    ensures CalculateWorkHours(startTime, endTime) == 0.0
        <==> MinuteOfDay(ParseTime(startTime)) == MinuteOfDay(ParseTime(endTime))
  {
    var st, en := MinuteOfDay(ParseTime(startTime)), MinuteOfDay(ParseTime(endTime));
    ShiftMinutesWithinDay(st, en);
    var m := ShiftMinutes(st, en);
    assert CalculateWorkHours(startTime, endTime) == m as real / 60.0;
  }

  /** On `formatTime` strings the shift length is read off the clock values. */
  lemma WorkHoursOfFormatted(h1: nat, m1: nat, h2: nat, m2: nat)
    ensures IsTimeString(FormatTime(h1, m1)) && IsTimeString(FormatTime(h2, m2))
    ensures var d := (h2 * 60 + m2) - (h1 * 60 + m1);
      CalculateWorkHours(FormatTime(h1, m1), FormatTime(h2, m2)) * 60.0
        == (if d < 0 then d + 1440 else d) as real
  {
    ParseFormatTime(h1, m1);
    ParseFormatTime(h2, m2);
  }

  /** A 09:00 to 18:00 shift is 9 hours; a 22:00 to 06:00 shift is 8 hours. */
  lemma WorkHoursExamples()
    ensures IsTimeString(FormatTime(9, 0)) && IsTimeString(FormatTime(18, 0))
    ensures CalculateWorkHours(FormatTime(9, 0), FormatTime(18, 0)) == 9.0
    ensures IsTimeString(FormatTime(22, 0)) && IsTimeString(FormatTime(6, 0))
    ensures CalculateWorkHours(FormatTime(22, 0), FormatTime(6, 0)) == 8.0
  {
    WorkHoursOfFormatted(9, 0, 18, 0);
    WorkHoursOfFormatted(22, 0, 6, 0);
  }
}
