# parttime-pay-ledger, modelled in Dafny

parttime-pay-ledger is a small payroll app for part-time staff. A manager keeps a list of
employees. For each calendar day they record shifts, each with a start and an end time.
The app marks the worked days on a month calendar. It pays every hour at a fixed wage of
13000 won, withholds a flat 3.3% tax, and shows per-employee and monthly totals.
Three quick-time presets (morning, lunch, dinner) fill in the shift form.

This project models the app's logic in Dafny and proves what that logic guarantees. It
covers the time arithmetic, the salary folds, the device store, and the decision rules
inside the screens and components. Each source file becomes one module:

| module | file | form |
|---|---|---|
| `DateUtils` | utils/dateUtils.ts | functions and lemmas |
| `SalaryCalculator` | utils/salaryCalculator.ts | a pure `CalculateSalary` and two looping methods, each proved equal to a specification function |
| `Storage` | utils/storage.ts | class `Store` holding the three persisted collections; functions for the queries and methods for the mutators |
| `WorkRecordModal` | components/WorkRecordModal.tsx | class `RecordForm`, whose fields are the form state and whose methods are the handlers |
| `EmployeeScreen` | screens/EmployeeScreen.tsx | class `EmployeeList` |
| `QuickTimeSettingsScreen` | screens/QuickTimeSettingsScreen.tsx | class `SettingsScreen` |
| `MonthlySalaryScreen` | screens/MonthlySalaryScreen.tsx | class `SalaryScreen`, with 1-based month navigation |
| `SimpleCalendar` | components/SimpleCalendar.tsx | class `Calendar`: 0-based navigation and the three-loop 42-cell `RenderDays` |
| `HomeScreen` | screens/HomeScreen.tsx | class `Home`, including the marked-dates loop |
| `EmployeeWorkCalendarModal` | components/EmployeeWorkCalendarModal.tsx | class `CalendarModal`, including the marking loop |
| `WorkRecordListModal` | components/WorkRecordListModal.tsx | class `ListModal` and the row formatting functions |

Five helper modules support them:

| module | contents |
|---|---|
| `Types` | the records of types/index.ts |
| `HourFormat` | the `formatHours` helpers the three screens share |
| `MarkedDates` | the marked-dates dictionary |
| `JsMath` | `Math.round` |
| `Strings`, `Seqs` | the JavaScript string and array built-ins the code relies on: `padStart`, `split`, `trim`, `String(n)`, `filter`, `findIndex`, `find`, `reduce` |

The numbers are modelled as follows:

- Amounts and hours are exact: hours are reals (`minutes / 60`), and the tax rate is exactly 33/1000.
- `Math.round(x)` is `floor(x + 1/2)`, so halves round towards +∞.
- HH:mm times stay strings, as the records store them. `parseTime` reads them as digit fields.

## Where the code's amounts do not add up

`SalaryInfo` carries three rounded amounts: gross, tax and net. The home
screen shows `totalSalary − taxDeduction` as the net
(screens/HomeScreen.tsx:149), as if the net were the gross less the tax.
`calculateSalary` (utils/salaryCalculator.ts:9-16) does otherwise, and the
model follows it:

- it takes the tax from the unrounded gross;
- it rounds the net pay (`gross - tax`, both unrounded) on its own.

The rounded net can therefore differ by one won from the rounded gross less the rounded tax.

- `SalaryCalculator.NetIsNotGrossLessTax`: half an hour pays 6500 gross, 215 tax and 6286 net, where 6500 − 215 = 6285.
- `SalaryCalculator.MonthlyNetOfTax`: the monthly net is the gross less the tax, plus one exactly when 3.3% of the gross ends in half a won.
- `HomeScreen.DisplayedNetDiffers`: the home screen computes its net card as `totalSalary − taxDeduction` (screens/HomeScreen.tsx:149). The monthly screen instead shows `netSalary` (screens/MonthlySalaryScreen.tsx:115). For the same month the two screens can therefore show 6285 and 6286.

## Model

| member | source | states |
|---|---|---|
| JsMath.Round | utils/salaryCalculator.ts:14-16 | `Math.round` gives the integer within half a unit, halves going up |
| JsMath.RoundInteger | utils/salaryCalculator.ts:54 | rounding a whole number gives it back, so the already whole monthly gross is unchanged by its `Math.round` |
| JsMath.RoundMonotone | utils/salaryCalculator.ts:14-16 | rounding never reverses an order |
| Strings.NatToString | utils/dateUtils.ts:9 | `String(n)` is a non-empty digit string, a single digit exactly below 10 |
| Strings.DecimalValueOfNatToString | utils/dateUtils.ts:13 | `Number(String(n)) == n` |
| Strings.PadStart | utils/dateUtils.ts:3-4 | `padStart` keeps the string as a suffix, reaches the length asked for, and fills the front with the pad character |
| Strings.Pad2Numeral | utils/dateUtils.ts:9 | a number below 100 padded to two characters is two digits denoting it |
| Strings.Split | utils/dateUtils.ts:13 | `split` gives at least one field, and no field contains the separator |
| Strings.Trim | screens/EmployeeScreen.tsx:66 | `trim` is empty exactly for an all-whitespace string; otherwise it is the middle of the input, with no whitespace at either end |
| Strings.TrimIdempotent | screens/EmployeeScreen.tsx:74 | trimming twice is trimming once |
| Seqs.Filter | utils/storage.ts:46 | `filter` keeps exactly the elements that pass, and never lengthens |
| Seqs.FilterAppend | utils/storage.ts:86 | filtering distributes over concatenation, so the kept elements stay in their order |
| Seqs.FilterMultiset | utils/salaryCalculator.ts:24 | each passing value is kept as often as it occurs and the others not at all |
| Seqs.FirstIndex | utils/storage.ts:37 | `findIndex` is -1 exactly when no element passes, and otherwise the first passing position |
| Seqs.Find | components/WorkRecordListModal.tsx:58 | `find` is absent exactly when no element passes, and otherwise the element at the first passing position |
| Seqs.ReplaceFirst | utils/storage.ts:37-39 | `arr[findIndex] = x` keeps the length, puts `x` at the first match and changes no other position |
| DateUtils.FormatDate | utils/dateUtils.ts:1-6 | the definition: the year, `-`, the padded 1-based month, `-`, the padded day; what it promises is stated by `FormatDateFields` and `FormatDateLayout` |
| DateUtils.FormatTime | utils/dateUtils.ts:8-10 | the definition: padded hours, `:`, padded minutes; what it promises is stated by `FormatTimeLayout` and `ParseFormatTime` |
| DateUtils.ParseTime | utils/dateUtils.ts:12-15 | the definition: the numbers of the first two `:`-separated fields; its partner `FormatTime` is related to it by `ParseFormatTime` and `FormatParseTime` |
| DateUtils.ShiftMinutes | utils/dateUtils.ts:25-28 | the shift is the plain difference or that difference plus one day, and it is non-negative exactly when the end is at most a day before the start |
| DateUtils.CalculateWorkHours | utils/dateUtils.ts:17-31 | the definition: the shift's minutes over 60; what it promises is stated by `WorkHoursSameDay`, `WorkHoursOvernight` and `WorkHoursWithinDay` |
| DateUtils.FormatDateFields | utils/dateUtils.ts:1-6 | splitting `formatDate` at `-` gives back the year, the padded 1-based month and the padded day |
| DateUtils.FormatDateLayout | utils/dateUtils.ts:1-6 | a four-digit year gives ten characters `YYYY-MM-DD`, whose month field reads as `getMonth()+1` and whose day field reads as the day |
| DateUtils.FormatTimeLayout | utils/dateUtils.ts:8-10 | for hours and minutes up to 99 the result is two digits, `:`, two digits, reading back as the inputs |
| DateUtils.ParseFormatTime | utils/dateUtils.ts:8-15 | `parseTime(formatTime(h, m))` is `{h, m}`, for all naturals |
| DateUtils.FormatParseTime | utils/dateUtils.ts:8-15 | a canonical `HH:mm` string is reproduced by parsing it and formatting it again |
| DateUtils.WorkHoursSameDay | utils/dateUtils.ts:17-23 | an end no earlier than the start gives `(end − start) / 60` |
| DateUtils.WorkHoursOvernight | utils/dateUtils.ts:24-30 | an end before the start gives `(end − start + 1440) / 60` |
| DateUtils.ShiftMinutesWithinDay | utils/dateUtils.ts:25-28 | for minutes within a day the shift is 0 to 1439 minutes, and 0 exactly for equal ends |
| DateUtils.WorkHoursWithinDay | utils/dateUtils.ts:17-30 | in-day times give hours in [0, 24), and 0 (never 24) exactly when start and end are the same minute |
| DateUtils.WorkHoursOfFormatted | utils/dateUtils.ts:17-30 | on `formatTime` strings the hours are read off the clock values, with the overnight rule |
| DateUtils.WorkHoursExamples | utils/dateUtils.ts:17-30 | 09:00 to 18:00 is 9 hours, and 22:00 to 06:00 is 8 hours |
| SalaryCalculator.CalculateSalary | utils/salaryCalculator.ts:7-18 | `totalHours` is the input. Gross, tax (from the unrounded gross) and net (unrounded gross less unrounded tax) are each within half a won of the exact value, so the net is at most one won from gross − tax |
| SalaryCalculator.SalaryOfNineHours | utils/salaryCalculator.ts:4-18 | nine hours give 117000, 3861 and 113139 |
| SalaryCalculator.NetIsNotGrossLessTax | utils/salaryCalculator.ts:9-16 | half an hour gives net 6286, while gross − tax is 6285 |
| SalaryCalculator.SalaryMonotone | utils/salaryCalculator.ts:7-18 | more hours never pay less gross, tax or net |
| SalaryCalculator.RecordsOf | utils/salaryCalculator.ts:24 | an employee's records are exactly the input records with that `employeeId` |
| SalaryCalculator.RecordsOfAppend | utils/salaryCalculator.ts:24 | the filtered records keep the input order |
| SalaryCalculator.CalculateEmployeeSalary | utils/salaryCalculator.ts:20-38 | the `forEach` loop's hours are the sum of `calculateWorkHours` over the employee's records, and the result pairs that salary with those records in input order |
| SalaryCalculator.NoRecordsNoPay | utils/salaryCalculator.ts:24-31 | an employee without records gets no records and an all-zero salary |
| SalaryCalculator.OtherRecordIgnored | utils/salaryCalculator.ts:24-31 | a record of another (or deleted) employee, inserted anywhere, changes nothing in this employee's result |
| SalaryCalculator.SumHours | utils/salaryCalculator.ts:26-29 | the definition: the records' hours added from first to last; stated through `SumHoursAppend` and `CalculateEmployeeSalary` |
| SalaryCalculator.EmployeeSalaryOf | utils/salaryCalculator.ts:20-38 | the definition `calculateEmployeeSalary` is proved against; stated through `NoRecordsNoPay`, `OtherRecordIgnored` and `CalculateEmployeeSalary` |
| SalaryCalculator.SumHoursAppend | utils/salaryCalculator.ts:26-29 | hours of concatenated record lists add up |
| SalaryCalculator.MonthlyTotalOf | utils/salaryCalculator.ts:40-58 | hours and gross are the sums over the entries; tax and net are taken from the summed, already rounded gross |
| SalaryCalculator.CalculateMonthlyTotal | utils/salaryCalculator.ts:40-58 | the `forEach` loop and the derived tax and net give exactly `MonthlyTotalOf` |
| SalaryCalculator.MonthlyTotalOfNothing | utils/salaryCalculator.ts:40-58 | no entries give all zeros |
| SalaryCalculator.SumTotalsPermutation | utils/salaryCalculator.ts:44-47 | the summed hours and gross do not depend on the order of the entries |
| SalaryCalculator.MonthlyTotalPermutation | utils/salaryCalculator.ts:44-57 | the monthly total is the same for every permutation of its input |
| SalaryCalculator.TaxAndNetOfWholeAmount | utils/salaryCalculator.ts:49-56 | for a whole gross the rounded tax and the rounded net add up to the gross, or one more when 3.3% of it ends in exactly half a won |
| SalaryCalculator.MonthlyNetOfTax | utils/salaryCalculator.ts:49-56 | the monthly net is gross − tax, plus one exactly in the half-won case |
| SalaryCalculator.MonthlyTaxIsNotSumOfTaxes | utils/salaryCalculator.ts:49-55 | two employees at half an hour each owe 429 monthly tax, not their summed 215 + 215 |
| SalaryCalculator.EmployeeSalaries | screens/MonthlySalaryScreen.tsx:43-45 | `employees.map(calculateEmployeeSalary)` has one entry per employee, in employee order |
| Storage.Store.constructor | utils/storage.ts:4-8 | a fresh device stores nothing under the three keys |
| Storage.Store.GetEmployees | utils/storage.ts:11-19 | the stored list, or `[]` when nothing can be read |
| Storage.Store.SaveEmployees | utils/storage.ts:21-27 | the list is stored as given |
| Storage.Store.AddEmployee | utils/storage.ts:29-33 | the employee is appended after the unchanged existing ones |
| Storage.Store.UpdateEmployee | utils/storage.ts:35-42 | the first employee with that id is replaced; with none, nothing is written |
| Storage.Store.DeleteEmployee | utils/storage.ts:44-48 | exactly the employees with other ids remain, in order |
| Storage.Store.GetWorkRecords | utils/storage.ts:51-59 | the stored list, or `[]` when nothing can be read |
| Storage.Store.SaveWorkRecords | utils/storage.ts:61-67 | the list is stored as given |
| Storage.Store.AddWorkRecord | utils/storage.ts:69-73 | the record is appended after the unchanged existing ones |
| Storage.Store.UpdateWorkRecord | utils/storage.ts:75-82 | the first record with that id is replaced; with none, nothing is written |
| Storage.Store.DeleteWorkRecord | utils/storage.ts:84-88 | exactly the records with other ids remain, in order |
| Storage.Store.GetWorkRecordsByDate | utils/storage.ts:90-93 | exactly the stored records on that date |
| Storage.Store.GetWorkRecordsByMonth | utils/storage.ts:95-102 | exactly the stored records whose first date field is the year and whose second is the padded month |
| Storage.Store.GetQuickTimeSettings | utils/storage.ts:105-143 | the stored settings, or the 9–12, 12–15 and 18–21 defaults when nothing is stored or it cannot be read |
| Storage.Store.SaveQuickTimeSettings | utils/storage.ts:145-151 | a later get returns exactly what was saved |
| Storage.UpdateKeepsOthers | utils/storage.ts:35-42 | an update keeps the length and every other position, and gives the new value at the first match |
| Storage.DeleteKeepsOrder | utils/storage.ts:84-88 | deleting one record leaves the others in their stored order |
| Storage.DateInMonth | utils/storage.ts:97-100 | the definition: the first `-` field is the year and the second the padded month; stated through `FormattedDateInMonth` and `Store.GetWorkRecordsByMonth` |
| Storage.FormattedDateInMonth | utils/storage.ts:95-102 | a date `formatDate` produced is found by the query of its own month |
| Storage.MonthTestIsPrefixTest | utils/storage.ts:97-100 | on a `YYYY-MM-DD` date, the month test is exactly the test that the date starts with `year-MM` |
| Types.DefaultQuickTimesComplete | utils/storage.ts:112-125 | the default presets have both ends of every preset |
| HourFormat.WholeHours | screens/MonthlySalaryScreen.tsx:56 | the greatest integer not above the hours |
| HourFormat.RestMinutes | screens/MonthlySalaryScreen.tsx:57 | the minutes part lies between 0 and 60 |
| HourFormat.PartsOfWholeMinutes | screens/MonthlySalaryScreen.tsx:55-59 | for `k/60` hours the parts are `k div 60` hours and `k mod 60` minutes |
| HourFormat.CompactDropsOnlyZeroMinutes | components/EmployeeWorkCalendarModal.tsx:70-77 | the compact form equals the long form unless the minutes are 0, in which case only ` 0분` is dropped |
| HourFormat.FormatHoursLong | screens/MonthlySalaryScreen.tsx:55-59 | the definition `${h}시간 ${m}분`; stated through `PartsOfWholeMinutes` and `CompactDropsOnlyZeroMinutes` |
| HourFormat.FormatHoursCompact | components/EmployeeWorkCalendarModal.tsx:70-77 | the definition, dropping a zero minutes part; related to the long form by `CompactDropsOnlyZeroMinutes` |
| MarkedDates.MarkedOf | screens/HomeScreen.tsx:84-94 | the definition the two loops are proved against; stated through `MarkedOfKeys`, `MarkedOfValues` and `MarkedIffRecorded` |
| MarkedDates.IsMarked | components/SimpleCalendar.tsx:58-60 | the definition `markedDates[dateStr]?.marked === true`; stated through `MarkedIffRecorded` |
| MarkedDates.MarkedOfKeys | screens/HomeScreen.tsx:84-94 | the keys are exactly the record dates that are non-empty and of length 10 |
| MarkedDates.MarkedOfValues | screens/HomeScreen.tsx:88-90 | every value is `{ marked: true }` |
| MarkedDates.MarkedIffRecorded | components/SimpleCalendar.tsx:58-60 | a date reads as marked exactly when it has length 10 and some record carries it |
| MarkedDates.UnmarkableIgnored | screens/HomeScreen.tsx:86-87 | a record whose date is empty or of another length marks nothing |
| MarkedDates.RepeatedDateIgnored | screens/HomeScreen.tsx:87 | a further record on an already marked date changes nothing |
| MarkedDates.MarkedOfSnocOnce | screens/HomeScreen.tsx:85-93 | the step that skips a date already present builds the same dictionary |
| WorkRecordModal.AcceptedQuickTimes | components/WorkRecordModal.tsx:80-125 | the stored presets when all three have both ends, else the defaults; either way complete |
| WorkRecordModal.QuickTimeFields | components/WorkRecordModal.tsx:127-145 | the fields change exactly when the preset is present with both ends; each of the four fields is then the preset's value when present, else 9, 0, 18 or 0 |
| WorkRecordModal.FullPresetCopied | components/WorkRecordModal.tsx:134-144 | a preset given in full is copied as it is |
| WorkRecordModal.LoadedPresetsApply | components/WorkRecordModal.tsx:84-88 | after loading, every quick-time button sets the times |
| WorkRecordModal.DefaultLunch | components/WorkRecordModal.tsx:44-47 | the default lunch button gives 12:00 to 15:00 |
| WorkRecordModal.RecordIdsByClock | components/WorkRecordModal.tsx:175 | new ids for the same date and employee are equal exactly when the clock readings are; an edited record with a non-empty id keeps it whatever the clock says |
| WorkRecordModal.SaveDecision | components/WorkRecordModal.tsx:156-186 | refused exactly when no employee is chosen, or when start and end are the same minute; an overnight end is accepted; the record carries the date, the employee and both formatted times, and is an update exactly when editing |
| WorkRecordModal.SavedRecordHours | components/WorkRecordModal.tsx:162-180 | a record saved from in-day times parses, and lasts strictly between 0 and 24 hours |
| WorkRecordModal.OvernightAccepted | components/WorkRecordModal.tsx:165-172 | an end before the start is saved, counted across midnight |
| WorkRecordModal.RecordForm.constructor | components/WorkRecordModal.tsx:34-52 | no employee, 09:00 to 18:00, and the default presets |
| WorkRecordModal.RecordForm.LoadQuickTimes | components/WorkRecordModal.tsx:80-125 | the presets become `AcceptedQuickTimes` of the stored ones |
| WorkRecordModal.RecordForm.OpenEffect | components/WorkRecordModal.tsx:54-78 | an edited record's employee and parsed times, or the first employee (or none) and 09:00 to 18:00 |
| WorkRecordModal.RecordForm.HandleQuickTime | components/WorkRecordModal.tsx:127-145 | the fields become the preset's, or stay when it is incomplete |
| WorkRecordModal.RecordForm.SelectEmployee | components/WorkRecordModal.tsx:211-214 | the picker sets the employee |
| WorkRecordModal.RecordForm.SetStartTime | components/WorkRecordModal.tsx:300-308 | the start moves and the end stays |
| WorkRecordModal.RecordForm.SetEndTime | components/WorkRecordModal.tsx:310-318 | the end moves and the start stays |
| WorkRecordModal.RecordForm.HandleSave | components/WorkRecordModal.tsx:156-189 | the outcome is `SaveDecision`; a refusal writes nothing; a new record is appended; an edit replaces the first record with its id |
| EmployeeScreen.EmployeeToSave | screens/EmployeeScreen.tsx:65-82 | none exactly for an all-whitespace name; else the trimmed name, under the edited id (nothing else changed) or `emp-now` |
| EmployeeScreen.SavedNameIsStable | screens/EmployeeScreen.tsx:71-75 | a saved name has no whitespace at either end, so saving it again unchanged writes the same employee |
| EmployeeScreen.EmployeeList.constructor | screens/EmployeeScreen.tsx:21-24 | no employees, no edit target, an empty name, the form closed |
| EmployeeScreen.EmployeeList.LoadEmployees | screens/EmployeeScreen.tsx:30-33 | the list becomes the stored employees |
| EmployeeScreen.EmployeeList.HandleAdd | screens/EmployeeScreen.tsx:35-39 | no edit target, an empty name, the form open |
| EmployeeScreen.EmployeeList.HandleEdit | screens/EmployeeScreen.tsx:41-45 | that employee as the target, the name preloaded, the form open |
| EmployeeScreen.EmployeeList.SetEmployeeName | screens/EmployeeScreen.tsx:24 | typing sets the name |
| EmployeeScreen.EmployeeList.HandleDelete | screens/EmployeeScreen.tsx:47-63 | cancel changes nothing; confirm removes that id and reloads; work records are never touched |
| EmployeeScreen.EmployeeList.HandleSave | screens/EmployeeScreen.tsx:65-86 | a blank name writes nothing; an edit replaces the first employee with that id; a new employee is appended; then the form closes and the list reloads |
| QuickTimeSettingsScreen.WithTime | screens/QuickTimeSettingsScreen.tsx:75-185 | one preset end takes the new time, and the other five ends are unchanged |
| QuickTimeSettingsScreen.WithTimeKeepsComplete | screens/QuickTimeSettingsScreen.tsx:75-185 | complete presets stay complete under every edit |
| QuickTimeSettingsScreen.Displayed | screens/QuickTimeSettingsScreen.tsx:73-74 | a slider shows the stored hour and minute; a missing hour falls back to that slot's default hour, a missing minute to 0, and a missing end to the default preset's time |
| QuickTimeSettingsScreen.SliderShowsItsTime | screens/QuickTimeSettingsScreen.tsx:71-88 | after a slider moves, it shows what it was moved to |
| QuickTimeSettingsScreen.SettingsScreen.constructor | screens/QuickTimeSettingsScreen.tsx:15-28 | the 9–12, 12–15 and 18–21 defaults |
| QuickTimeSettingsScreen.SettingsScreen.LoadSettings | screens/QuickTimeSettingsScreen.tsx:34-47 | stored presets are adopted only when all three have both ends, else the current ones stay; completeness is kept |
| QuickTimeSettingsScreen.SettingsScreen.UpdateTime | screens/QuickTimeSettingsScreen.tsx:75-185 | the settings become `WithTime` of the old ones; completeness is kept |
| QuickTimeSettingsScreen.SettingsScreen.HandleSave | screens/QuickTimeSettingsScreen.tsx:49-51 | a later get returns the settings as they are; settings with both ends of every preset are then exactly what the work-record form adopts |
| QuickTimeSettingsScreen.SavedPresetsReachTheForm | screens/QuickTimeSettingsScreen.tsx:49-51 | complete presets saved here are the ones the work-record form adopts |
| MonthlySalaryScreen.MonthIndexInjective | screens/MonthlySalaryScreen.tsx:61-75 | two valid months with the same month count are the same month |
| MonthlySalaryScreen.PreviousMonth | screens/MonthlySalaryScreen.tsx:61-67 | a valid month steps to a valid month one earlier |
| MonthlySalaryScreen.NextMonth | screens/MonthlySalaryScreen.tsx:69-75 | a valid month steps to a valid month one later |
| MonthlySalaryScreen.NextPreviousInverse | screens/MonthlySalaryScreen.tsx:61-75 | next then previous, or previous then next, is the identity |
| MonthlySalaryScreen.YearBoundaries | screens/MonthlySalaryScreen.tsx:61-75 | January goes back to December of the year before, and December forward to January of the next |
| MonthlySalaryScreen.SalaryScreen.constructor | screens/MonthlySalaryScreen.tsx:24-28 | no salaries, the all-zero `calculateMonthlyTotal([])`, and the route's month or else the current one |
| MonthlySalaryScreen.SalaryScreen.LoadMonthlyData | screens/MonthlySalaryScreen.tsx:36-49 | one salary per stored employee, in order, over the month's records, and their monthly total |
| MonthlySalaryScreen.SalaryScreen.GoToPreviousMonth | screens/MonthlySalaryScreen.tsx:61-67 | the month becomes `PreviousMonth` of the old one |
| MonthlySalaryScreen.SalaryScreen.GoToNextMonth | screens/MonthlySalaryScreen.tsx:69-75 | the month becomes `NextMonth` of the old one |
| MonthlySalaryScreen.SalaryScreen.GoToCurrentMonth | screens/MonthlySalaryScreen.tsx:77-79 | the month becomes the current month |
| SimpleCalendar.CalendarDate | components/SimpleCalendar.tsx:43-47 | the definition, the same text as `formatDate`; stated through `CalendarDayMarked` |
| SimpleCalendar.CalendarDayMarked | components/SimpleCalendar.tsx:43-60 | a day of a four-digit year is shown marked exactly when some record carries its date |
| SimpleCalendar.DaysInMonth | components/SimpleCalendar.tsx:35-37 | a month has 28 to 31 days |
| SimpleCalendar.MonthsMakeYear | components/SimpleCalendar.tsx:35-37 | the twelve month lengths add up to the year's length |
| SimpleCalendar.FirstDayOfMonth | components/SimpleCalendar.tsx:39-41 | the first weekday is 0 (Sunday) to 6 |
| SimpleCalendar.WeekdayAnchors | components/SimpleCalendar.tsx:39-41 | 1 January 1970 was a Thursday and 1 January 2000 a Saturday |
| SimpleCalendar.NextMonthStartsAfter | components/SimpleCalendar.tsx:35-41 | a month starts on the weekday after the previous month's last day, across a year's end too |
| SimpleCalendar.MonthFitsGrid | components/SimpleCalendar.tsx:112 | the leading blanks and the days of a month always fit in the 42 cells |
| SimpleCalendar.PreviousView | components/SimpleCalendar.tsx:62-76 | a 0-based month steps to a month one earlier, still in 0..11 |
| SimpleCalendar.NextView | components/SimpleCalendar.tsx:78-92 | a 0-based month steps to a month one later, still in 0..11 |
| SimpleCalendar.NavigationAgrees | components/SimpleCalendar.tsx:62-92 | the months reported to `onMonthChange` are those of the monthly screen's 1-based navigation |
| SimpleCalendar.Calendar.constructor | components/SimpleCalendar.tsx:19-25 | the month is `initialMonth − 1`, else today's; the year is `initialYear` unless absent or 0, else today's |
| SimpleCalendar.Calendar.FollowProps | components/SimpleCalendar.tsx:28-33 | with both props present the view follows them; otherwise it stays |
| SimpleCalendar.Calendar.GoToPreviousMonth | components/SimpleCalendar.tsx:62-76 | the view becomes `PreviousView`, and its 1-based month is reported |
| SimpleCalendar.Calendar.GoToNextMonth | components/SimpleCalendar.tsx:78-92 | the view becomes `NextView`, and its 1-based month is reported |
| SimpleCalendar.Calendar.GoToToday | components/SimpleCalendar.tsx:94-103 | the view becomes today's month, which is reported |
| SimpleCalendar.Calendar.RenderDays | components/SimpleCalendar.tsx:110-163 | the three loops give 42 cells (or more when the days overflow): `firstDay` blanks, then the days 1.. in order with their date and mark, then blanks |
| SimpleCalendar.Calendar.CellLayout | components/SimpleCalendar.tsx:115-151 | day `d` sits at index `firstDay + d − 1`, with blanks before and after |
| SimpleCalendar.Calendar.Render | components/SimpleCalendar.tsx:107-163 | a month in range renders exactly 42 cells in that layout |
| HomeScreen.DisplayedNetOfMonth | screens/HomeScreen.tsx:149 | the home screen's net is the monthly `netSalary`, or one less in the half-won case |
| HomeScreen.DisplayedNetDiffers | screens/HomeScreen.tsx:149 | half an hour's month shows 6285 on the home screen and 6286 as `netSalary` |
| HomeScreen.Home.constructor | screens/HomeScreen.tsx:27-34 | no employees, a zero summary, no marks, the current month |
| HomeScreen.Home.LoadData | screens/HomeScreen.tsx:54-57 | the employees become the stored ones |
| HomeScreen.Home.LoadMonthlySummary | screens/HomeScreen.tsx:59-76 | with no employees nothing changes; else the gross and tax of the monthly total of the selected month, and the net card is that total's `netSalary`, one won less when the tax ends in exactly half a won |
| HomeScreen.Home.LoadMarkedDates | screens/HomeScreen.tsx:78-95 | the loop builds exactly `MarkedOf` the month's records |
| HomeScreen.Home.RefreshEffect | screens/HomeScreen.tsx:47-52 | both loads run, and only when there are employees |
| HomeScreen.Home.HandleModalSave | screens/HomeScreen.tsx:114-117 | after a save the marks are rebuilt, and the summary too when there are employees |
| HomeScreen.Home.OnMonthChange | screens/HomeScreen.tsx:130-132 | the selected month becomes the reported year and 1-based month |
| EmployeeWorkCalendarModal.CalendarModal.constructor | components/EmployeeWorkCalendarModal.tsx:27-28 | no records and no marks |
| EmployeeWorkCalendarModal.CalendarModal.LoadWorkRecords | components/EmployeeWorkCalendarModal.tsx:43-68 | without an employee nothing changes; else the employee's records of the month in stored order, and the loop marks their markable dates |
| EmployeeWorkCalendarModal.CalendarModal.TotalHours | components/EmployeeWorkCalendarModal.tsx:79-81 | no records give 0 hours |
| EmployeeWorkCalendarModal.TotalIsPaidHours | components/EmployeeWorkCalendarModal.tsx:79-81 | the modal's total is the hours the payroll pays that employee for the same records |
| EmployeeWorkCalendarModal.ShownDatesMarked | components/EmployeeWorkCalendarModal.tsx:57-65 | a date is marked exactly when it has length 10 and a shown record carries it |
| WorkRecordListModal.EmployeeName | components/WorkRecordListModal.tsx:57-60 | the name of the first employee with that id, or `알 수 없음` when there is none |
| WorkRecordListModal.RowHours | components/WorkRecordListModal.tsx:72 | the definition: the record's hours in the compact form; stated through `RowHoursParts` |
| WorkRecordListModal.RowHoursParts | components/WorkRecordListModal.tsx:62-72 | a row shows the shift's minutes as `div 60` hours and `mod 60` minutes |
| WorkRecordListModal.ListModal.constructor | components/WorkRecordListModal.tsx:33 | no records |
| WorkRecordListModal.ListModal.LoadWorkRecords | components/WorkRecordListModal.tsx:41-49 | the day's stored records; unreadable storage gives `[]` |
| WorkRecordListModal.ListModal.HandleDelete | components/WorkRecordListModal.tsx:51-55 | the record is removed from the store, and the reloaded list holds exactly the day's other records |

## Left out

- AsyncStorage and JSON are left out. A slot holding `None` stands for a key with nothing under it, or one that cannot be read or parsed. Write failures, which the code only logs, are not modelled.
- IEEE-754 doubles are left out. The model does not reproduce the inexact 0.033, float summation in the folds, or tie artefacts of `Math.round` on doubles.
  - HourFormat.RestMinutes can be 60 for a fraction of at least 59.5 minutes, as the code allows. For shifts of whole minutes this never happens (`HourFormat.PartsOfWholeMinutes`).
- DateUtils.CalculateWorkHours requires both times to be digit fields. `Number` of a non-numeric field is NaN, a floating-point value that is not modelled. The requirement also excludes fields that `Number` does read as numbers, such as `" 9"`, `"+9"`, `"9.5"`, `"1e1"` and `"0x9"`. Neither matters to the app: every time it writes comes from `formatTime`, which gives digit fields (`DateUtils.ParseFormatTime`).
  - For this reason the following members require well-formed times (`IsTimeString` of a time, or `WellTimed`/`AllWellTimed` of records): `DateUtils.ParseTime`; `SalaryCalculator.RecordHours`, `SalaryCalculator.SumHours`, `SalaryCalculator.EmployeeSalaryOf`, `SalaryCalculator.CalculateEmployeeSalary` and `SalaryCalculator.EmployeeSalaries`; `MonthlySalaryScreen.SalaryScreen.LoadMonthlyData`; `HomeScreen.Home.LoadMonthlySummary`, `HomeScreen.Home.RefreshEffect` and `HomeScreen.Home.HandleModalSave`; `WorkRecordModal.RecordForm.OpenEffect`; `EmployeeWorkCalendarModal.CalendarModal.TotalHours`; `WorkRecordListModal.RowHours`.
- The clock is passed in as a parameter: `Date.now()` for new ids, `new Date()`, and `getCurrentMonth` (utils/dateUtils.ts:33-39).
- `isToday` highlighting is left out; it is styling only.
- JavaScript `Date` normalises months outside 0..11 and maps years 0–99 to 1900+. The model instead uses the proleptic Gregorian calendar: `SimpleCalendar.Calendar.Render` requires a month in 0..11, and `RenderDays` takes the first weekday and month length as parameters.
- React plumbing is replaced by sequential method calls:
  - effects, focus effects and async ordering;
  - the `onSave`/`onClose`/`onRefresh` callbacks;
  - modal visibility flags other than the employee form's;
  - `handleDayPress`, `selectedDate` and the list and record modals' open state on the home screen.
- `onMonthChange` is modelled as the value the navigation methods return.
- `Alert` dialogs: a refused save returns which alert it shows. The delete confirmation of the employee screen is a boolean parameter.
- Rendering and presentation are not modelled: styles, `Modal`, `Picker`, `DateTimePicker`, the `toLocaleString` currency format, and the quick-time button labels with their `||` fallbacks (components/WorkRecordModal.tsx:240, 264, 288).
- The `catch` branch of `handleQuickTime`, which resets the four fields to 09:00–18:00, is left out: the modelled operations cannot throw.
- App.tsx (navigation) and components/TimeSlider.tsx (a picker wrapper) are not part of this model.
- DateUtils.WorkHoursExamples is stated over `formatTime(9, 0)` and the like rather than literal `"09:00"` strings; the two are the same text.
