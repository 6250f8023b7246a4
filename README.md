# PCCOE leave form and teacher dashboard: a Dafny model

This project models the two pieces of logic in the leave-application web app.

- **The student form** (`script.js`) holds a from-date and a to-date field. It clamps the to-date so it never precedes the from-date. Its calculator shows the inclusive number of days in the range and how many of them are Monday to Friday. A submitted application carries that result and the status `Pending`.
- **The teacher dashboard** (`teacher-script.js`) works over the records fetched from the sheet. It shows:
  - the Pending, Approved and Rejected tallies, with the total;
  - the ten newest records, and their status/age-filtered variant;
  - the section tables and the search box;
  - a leave-type chart and a six-month trend chart;
  - the review dialog, which targets a sheet row and preselects a status.

How the model represents the source:

- **Dates and instants.** Calendar dates are integer day numbers, with day 0 = 1970-01-01, a Thursday. `Calendar.Weekday` therefore agrees with `Date.getDay`. Timestamps are milliseconds since that epoch. A timestamp or date field that does not parse is `None`.
- **Months.** A month is `year * 12 + (month - 1)`, computed by the civil-from-days conversion. Chart month keys are that number modulo 1200, because the source's keys (`"Jan 25"`) keep only two digits of the year.
- **The form's fields.** `LeaveForm.DateFields` is a class holding the two inputs, their `min` attributes and the summary on display. The date part of the browser's `checkValidity` is the predicate `DatesValid`: both dates filled in, neither below its `min`. The to-date's `min` always equals the from-date (`MinFollowsFrom`), so a submitted application always covers at least one day. `calculateTotalDays` becomes the loop method `LeaveForm.CountDays`, proved equal to the function `LeaveForm.Summary`.
- **The dashboard's state.** The module state of `teacher-script.js` is the class `TeacherDashboard.Dashboard`. It holds `leavesData`, `currentLeaves` and `currentRowIndex`, and what the page shows of them. Its invariant `Valid` says two things: the table in view is a subsequence of the fetched records, and the cards and badges show the fetched records' tallies.
- **Pure views and charts.** The views built from `filter`, `sort` and `slice` are functions in module `LeaveRecords`. The two chart loops are methods in module `DashboardCharts`, proved against the functions `FirstSeenLabels`/`LabelCounts` and `TrendWindowOf`/`MonthSeries`.

Two behaviours of the code that a reader may not expect:

- A record whose timestamp does not parse passes the age filter (`NaN < cutoff` is false). It is not excluded from the time-windowed view.
- The review dialog acts on the first record with the chosen PRN, not necessarily on the record whose button was pressed. `LeaveRecords.ActionTargetsFirstRecord` states this.

## Model

| member | source | states |
|---|---|---|
| Calendar.Weekday | script.js:121 | the day of the week of a day number is in 0..6, as `getDay` returns |
| Calendar.NextWeekday | script.js:119-125 | advancing one day moves the weekday on by one, wrapping from Saturday (6) to Sunday (0) |
| Calendar.MonthKey | teacher-script.js:514 | a month key is one of 1200 values: month and two-digit year |
| Calendar.MonthKeysDiffer | teacher-script.js:509-516 | months less than a century apart never share a key, so the six trend months are distinct |
| Calendar.KnownWeekdays | script.js:121 | 2025-01-01 is a Wednesday, 2025-01-04 a Saturday, 2025-01-06 a Monday |
| Calendar.KnownMonths | teacher-script.js:521-522 | 2024-12-31 falls in December 2024 and 2025-01-01 in January 2025 |
| LeaveForm.CountDays | script.js:106-142 | the day-by-day loop returns exactly `Summary(from, to)` |
| LeaveForm.SummaryOfRange | script.js:112-126 | for from ≤ to: totalDays = to − from + 1 ≥ 1; workingDays = the number of Monday-to-Friday days in [from, to]; workingDays ≤ totalDays |
| LeaveForm.SummaryOfNoRange | script.js:112-141 | an empty or unparseable date, or a reversed range, gives {0, 0} |
| LeaveForm.SingleDay | script.js:114-126 | a one-day range gives totalDays 1, and workingDays 1 exactly when that day is a weekday |
| LeaveForm.WeekendRange | script.js:117-126 | a range inside one weekend (a Saturday, a Saturday–Sunday pair, or a Sunday) has no working days |
| LeaveForm.NoWorkingDayInRange | script.js:117-126 | a range with no Monday-to-Friday day counts zero working days |
| LeaveForm.WorkingDaysAtMost | script.js:117-126 | the loop counts at most one working day per day walked |
| LeaveForm.WorkingDaysCountsSet | script.js:117-126 | the loop's counter equals the size of the set of working days in the range |
| LeaveForm.WorkingDaysSplit | script.js:117-126 | counting a range in two consecutive pieces gives the same number |
| LeaveForm.WeekHasFiveWorkingDays | script.js:117-126 | any seven consecutive days hold exactly five working days |
| LeaveForm.WholeWeeks | script.js:117-126 | w whole weeks hold 5·w working days, wherever they start |
| LeaveForm.KnownRanges | script.js:106-142 | 2025-01-01 alone gives {1,1}; 4–5 Jan 2025 gives {2,0}; 6–10 Jan 2025 gives {5,5}; the first range reversed gives {0,0} |
| LeaveForm.DateFields.constructor | script.js:5 | the form starts with both date fields empty, no minimums and no summary; the to-date's minimum equals the from-date |
| LeaveForm.DateFields.CalculateTotalDays | script.js:106-142 | returns and shows the summary of the two fields; nothing else changes |
| LeaveForm.DateFields.UpdateDateMin | script.js:96-104 | the to-date's minimum becomes the from-date, which keeps `MinFollowsFrom`; a to-date behind it is raised to exactly the from-date, and one not behind it is kept; afterwards the dates are in order and the summary is shown |
| LeaveForm.DateFields.SetupDateLimits | script.js:68-86 | both minimums are today, from = today and to = tomorrow, so the dates are valid and the initial summary shows 2 days |
| LeaveForm.DateFields.ChangeFrom | script.js:35 | picking a from-date runs the clamp: the dates end in order and the summary matches them |
| LeaveForm.DateFields.ChangeTo | script.js:36 | picking a to-date stores it as given and shows its summary; a to-date before the from-date fails the date validation |
| LeaveForm.DateFields.HandleFormSubmit | script.js:233-272 | a row is built exactly when the other fields are valid and both dates are filled in and not below their minimums; it has status Pending, the submit instant, the two dates, and totals equal to the calculator's result, at least one day with working days ≤ total |
| LeaveForm.OpenAndSubmit | script.js:68-240 | a form opened today whose from-date is then changed is submitted exactly when that from-date is not before today; the Pending row then covers at least one day, with working days ≤ total days |
| LeaveForm.ReversedDatesRefused | script.js:68-240 | a form opened today whose to-date is then typed in before today is not submitted |
| Sequences.Filter | teacher-script.js:142 | `filter` keeps only elements that satisfy the test, all taken from the input, never more than the input |
| Sequences.FilterIsSubsequence | teacher-script.js:141 | `filter` keeps the input's order |
| Sequences.FilterMultiset | teacher-script.js:141 | `filter` keeps every copy of a passing element and no copy of a failing one |
| Sequences.FilterComplete | teacher-script.js:184 | `filter` keeps every element that passes |
| Sequences.FilterPrefix | teacher-script.js:205 | the first k elements of a filtered list pass the test and keep the input's order |
| Text.Lower | teacher-script.js:418 | `toLowerCase` keeps the length and lowercases each character |
| Text.LowerIdempotent | teacher-script.js:418 | lowercasing twice is lowercasing once |
| Text.TrimStart | teacher-script.js:418 | drops exactly the leading white space |
| Text.TrimEnd | teacher-script.js:418 | drops exactly the trailing white space |
| Text.TrimEmptyIff | teacher-script.js:418-420 | the trimmed query is empty if and only if every character is white space |
| Text.ContainsIff | teacher-script.js:424-427 | `includes` holds if and only if the needle occurs at some position |
| LeaveRecords.Tally | teacher-script.js:141-148 | the total is the number of records, and the three named counts never exceed it |
| LeaveRecords.TallyConservation | teacher-script.js:141-148 | Pending + Approved + Rejected + (records with any other status) = total |
| LeaveRecords.TallyExample | teacher-script.js:141-148 | two Pending, one Approved and one Rejected record tally as 2, 1, 1 of 4 |
| LeaveRecords.InsertByTime | teacher-script.js:169-170 | inserting adds exactly one record and loses none |
| LeaveRecords.SortNewestFirst | teacher-script.js:169-170 | the sort returns a permutation of its input |
| LeaveRecords.InsertByTimeSorted | teacher-script.js:169-170 | inserting into a newest-first list keeps it newest first |
| LeaveRecords.SortNewestFirstSorted | teacher-script.js:169-170 | the sorted copy is newest first, with unparseable timestamps last |
| LeaveRecords.InsertByTimeStable | teacher-script.js:169-170 | insertion puts a record before those with the same timestamp |
| LeaveRecords.SortNewestFirstStable | teacher-script.js:169-170 | records with equal timestamps keep their relative order |
| LeaveRecords.NewestFirstSplit | teacher-script.js:169-171 | in a newest-first list, everything before a cut is no older than everything after it |
| LeaveRecords.RecentLeavesSpec | teacher-script.js:168-171 | the overview shows min(10, n) records, newest first, drawn from the input, and no record left out is newer than a record shown |
| LeaveRecords.FilteredRecentSpec | teacher-script.js:180-209 | exactly the first min(10, m) of the m passing records, position by position, a subsequence of the input; each has the chosen status (unless "all") and a timestamp not before now − days; if at most ten pass, all are shown |
| LeaveRecords.SectionLeavesSpec | teacher-script.js:382-401 | the pending, approved and rejected sections keep exactly the records with that status (every copy, in order); any other section keeps all records |
| LeaveRecords.SearchBlankIsIdentity | teacher-script.js:417-421 | a blank or white-space-only query returns the records unchanged |
| LeaveRecords.SearchSpec | teacher-script.js:417-429 | any other query returns, in order, exactly the records whose lowercased name, PRN, branch or division contains the trimmed, lowercased query |
| LeaveRecords.SearchIgnoresQueryCase | teacher-script.js:418 | the search result does not depend on the case of the query |
| LeaveRecords.FirstIndexOfPrn | teacher-script.js:320-325 | the index of the first record with the PRN, or none when no record has it |
| LeaveRecords.SheetRowOf | teacher-script.js:320-325 | a row exists if and only if some record has the PRN; it lies in 2..n+1 and holds a record with that PRN |
| LeaveRecords.ActionTargetsFirstRecord | teacher-script.js:320-325 | with duplicate PRNs, the dialog never targets the row of a later duplicate |
| LeaveRecords.ActionStatus | teacher-script.js:338-339 | "approve" → Approved, "reject" → Rejected, anything else → Pending |
| DashboardCharts.FirstSeenLabelsDistinct | teacher-script.js:496-501 | the leave-type labels are distinct |
| DashboardCharts.FirstSeenLabelsSpec | teacher-script.js:496-501 | the labels are distinct and are exactly the leave types present, an empty type counting as "Other" |
| DashboardCharts.TypeCountsKeys | teacher-script.js:496-501 | the `leaveTypes` object has a counter for exactly the labels listed |
| DashboardCharts.TypeCountsSpec | teacher-script.js:496-501 | each counter holds the number of records with its label |
| DashboardCharts.TypeCountsStep | teacher-script.js:498-500 | one more record either increments an existing counter or appends a new label with count 1 |
| DashboardCharts.TypeCountsTotal | teacher-script.js:496-501 | the counters add up to the number of records |
| DashboardCharts.TypeCountsFacts | teacher-script.js:496-503 | distinct labels, exactly the types present, each counter exact, and the counters sum to the number of records |
| DashboardCharts.LabelCounts | teacher-script.js:503 | one value per label |
| DashboardCharts.TypeSeriesFacts | teacher-script.js:496-503 | the chart's labels are distinct and exactly the types present, and its values sum to the number of records |
| DashboardCharts.GroupByLeaveType | teacher-script.js:496-503 | the loop yields the first-seen labels and, for each, the number of records carrying it |
| DashboardCharts.TrendWindowOf | teacher-script.js:509-516 | the trend covers six months |
| DashboardCharts.TrendWindowDistinct | teacher-script.js:509-516 | the six month keys are distinct |
| DashboardCharts.TrendWindow | teacher-script.js:507-516 | the loop yields the six months ending with the current one, oldest first, each with a zero counter |
| DashboardCharts.MonthCountsSpec | teacher-script.js:518-525 | `monthlyData` has keys exactly the window's months, each counting the records stamped in that month |
| DashboardCharts.MonthCountsTotal | teacher-script.js:518-525 | the window's counters add up to at most the number of records |
| DashboardCharts.MonthCountsFacts | teacher-script.js:518-525 | each month's counter is exact, and together they are at most the number of records |
| DashboardCharts.MonthSeries | teacher-script.js:529 | one value per month |
| DashboardCharts.TrendSeriesFacts | teacher-script.js:507-529 | the six trend months are distinct, and the values sum to at most the number of records |
| DashboardCharts.MonthlyTrend | teacher-script.js:507-529 | the loop yields the six-month window and, for each month, the number of records stamped in it (zero if none) |
| TeacherDashboard.Dashboard.constructor | teacher-script.js:4-6 | no records, an empty table, no row selected |
| TeacherDashboard.Dashboard.UpdateDashboardCounts | teacher-script.js:140-149 | the cards show the tallies of the fetched records |
| TeacherDashboard.Dashboard.UpdateBadges | teacher-script.js:152-161 | the badges show the Pending, Approved and Rejected tallies |
| TeacherDashboard.Dashboard.LoadRecentLeaves | teacher-script.js:164-177 | the overview shows the ten newest records, at most ten and newest first; the fetched records are not reordered |
| TeacherDashboard.Dashboard.FilterRecentLeaves | teacher-script.js:180-209 | the overview shows the first ten records passing the status and age filter, in sheet order |
| TeacherDashboard.Dashboard.UpdateCharts | teacher-script.js:494-531 | both charts show the counts of the fetched records, the trend over the six months ending with the current one |
| TeacherDashboard.Dashboard.LoadDashboardData | teacher-script.js:111-138 | a successful fetch replaces the records, resets the table to all of them, and refreshes cards, overview, charts and badges, keeping the invariant; a failed fetch changes nothing |
| TeacherDashboard.Dashboard.LoadSectionData | teacher-script.js:382-401 | the table becomes the section's records, and the invariant is kept |
| TeacherDashboard.Dashboard.HandleSearch | teacher-script.js:417-434 | the table becomes the search result over all fetched records, and the invariant is kept |
| TeacherDashboard.Dashboard.OpenActionModal | teacher-script.js:319-342 | an unknown PRN changes nothing; otherwise the dialog targets the sheet row of the first record with that PRN and preselects the action's status |

## Left out

- DOM access, rendering, modals, alerts and loading indicators are left out, including `createLeaveTableRow`, `renderSectionTable`, previews, `printPreview`, `downloadAsPDF` and `debugLogo`. They are presentation only. The guards that return early when a page element is missing are also left out: every element is assumed present.
- `fetch` calls to the spreadsheet backend are left out. `loadDashboardData` receives the fetch's result as a parameter, with `None` for a failed request. The submit request, its response and the form reset after it are also left out.
- The `handleFormSubmit` row is modelled only up to the request. Its date strings are modelled as day numbers.
- `handleSubmitAction`, the status update sent to the sheet, is left out: it is not part of the modelled core.
- Chart.js construction and updates are left out. Only the labels and values handed to the charts are modelled.
- `debounce` and every `setTimeout` are left out; they concern timing only.
- The clock (`new Date()`) is a parameter: `today`, `now` or `currentMonth`.
- JavaScript `Date` parsing, time zones and daylight saving, and `Math.ceil` over millisecond differences are left out. Dates are whole day numbers, and the weekday and month of an instant are taken in UTC.
- The `setMonth` end-of-month overflow, which can repeat a month key on the 29th–31st, is left out. The trend window is modelled as six consecutive calendar months.
- Text.Lower: lowercases ASCII letters only. `toLowerCase` also folds non-ASCII letters, and Unicode case mapping is not modelled.
- LeaveRecords.SortNewestFirst: a timestamp that does not parse sorts as the oldest. The source's comparator returns `NaN` for it, and the resulting order is left to the engine.
- DashboardCharts.GroupByLeaveType: leave types that name an `Object.prototype` property are not modelled; the model counts them like any other label. The source tallies into a plain object `{}`, so for `"__proto__"` the read yields `Object.prototype`, the sum becomes the string `"[object Object]1"` and the `__proto__` setter drops it, leaving no key at all; for `"constructor"`, `"toString"`, `"valueOf"` and the like the count becomes a string such as `"function Object() { [native code] }1"`. For such labels the source breaks the conservation law `TypeCountsTotal` proves (the values no longer sum to the number of records).
- The charts' label order follows the order of first occurrence. `Object.keys` would list integer-like labels (such as a leave type named "1") first; that ordering is not modelled.
- The fetched response is assumed to be an array of records whose fields are all strings. A body that is not an array, or a record whose status is not a string, makes the source throw part-way through `loadDashboardData`, after `leavesData` and `currentLeaves` were already replaced; those partial updates are not modelled. Likewise a numeric PRN, which `openActionModal`'s `===` never matches against the button's string, is not modelled.
- The date fields are assumed to be `required` inputs: an empty date fails `DatesValid`. The rest of `checkValidity` (the other required fields and their formats) is the parameter `othersValid` of `HandleFormSubmit`.
- Search fields that are not strings are left out. In the source, a record whose name, PRN, branch or division is not a string makes `handleSearch` throw; in the model every field is a string.
- A days filter that does not parse as an integer (`NaN`) is left out; `days` is an integer.
- Record fields the modelled logic never reads are left out: from/to dates, total days, reason and remarks of fetched records.
