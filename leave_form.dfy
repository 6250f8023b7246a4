/** The student leave form (script.js): the leave-duration calculator and the two date
    fields it reads. A date field holds a day number, or `None` while it is empty or does
    not parse (`new Date(value)` is then an invalid date, and every comparison with it is false). */
module LeaveForm {
  import opened Wrappers
  import opened Calendar

  /** What the form shows under the dates and submits with the application. */
  datatype DaySummary = DaySummary(totalDays: nat, workingDays: nat)

  /** Shown while the dates do not form a range. */
  const NoSummary := DaySummary(0, 0)

  /** The number of working days among the `n` consecutive days starting at day `start`. */
  function WorkingDaysFrom(start: int, n: nat): nat
  {
    if n == 0 then 0
    else WorkingDaysFrom(start, n - 1) + (if IsWorkingDay(start + n - 1) then 1 else 0)
  }

  /** The working days themselves, as a set. */
  ghost function WorkingDaySet(start: int, n: nat): set<int>
  {
    set d | start <= d < start + n && IsWorkingDay(d)
  }

  /** The calculator's result for a from-date and a to-date: the inclusive day count and the
      working days among them for a range, nothing for an empty, unparseable or reversed one. */
  function Summary(from: Option<int>, to: Option<int>): DaySummary
  {
    if from.Some? && to.Some? && from.value <= to.value then
      DaySummary(to.value - from.value + 1, WorkingDaysFrom(from.value, to.value - from.value + 1))
    else
      NoSummary
  }

  /** `calculateTotalDays` without its display updates: walks the range one day at a time,
      counting the days that are neither Sunday nor Saturday. */
  method CountDays(from: Option<int>, to: Option<int>) returns (s: DaySummary)
    ensures s == Summary(from, to)
  {
    if from.Some? && to.Some? && from.value <= to.value {
      var totalDays := to.value - from.value + 1;
      var workingDays := 0;
      var currentDate := from.value;
      for i := 0 to totalDays
        invariant currentDate == from.value + i
        invariant workingDays == WorkingDaysFrom(from.value, i)
      {
        var dayOfWeek := Weekday(currentDate);
        if dayOfWeek != 0 && dayOfWeek != 6 {
          workingDays := workingDays + 1;
        }
        currentDate := currentDate + 1;
      }
      s := DaySummary(totalDays, workingDays);
    } else {
      s := NoSummary;
    }
  }

  lemma {:induction false} WorkingDaysAtMost(start: int, n: nat)
    ensures WorkingDaysFrom(start, n) <= n
  {
    if n > 0 {
      WorkingDaysAtMost(start, n - 1);
    }
  }

  /** The day-by-day count agrees with the number of Monday-to-Friday days in the range. */
  lemma {:induction false} WorkingDaysCountsSet(start: int, n: nat)
    ensures WorkingDaysFrom(start, n) == |WorkingDaySet(start, n)|
  {
    if n == 0 {
      assert WorkingDaySet(start, 0) == {};
    } else {
      WorkingDaysCountsSet(start, n - 1);
      var last := start + n - 1;
      if IsWorkingDay(last) {
        assert WorkingDaySet(start, n) == WorkingDaySet(start, n - 1) + {last};
      } else {
        assert WorkingDaySet(start, n) == WorkingDaySet(start, n - 1);
      }
    }
  }

  /** Counting a range in two consecutive pieces gives the same total. */
  lemma {:induction false} WorkingDaysSplit(start: int, m: nat, n: nat)
    ensures WorkingDaysFrom(start, m + n) == WorkingDaysFrom(start, m) + WorkingDaysFrom(start + m, n)
  {
    if n > 0 {
      WorkingDaysSplit(start, m, n - 1);
    }
  }

  /** Any seven consecutive days hold exactly five working days. */
  lemma WeekHasFiveWorkingDays(start: int)
    ensures WorkingDaysFrom(start, 7) == 5
  {
    NextWeekday(start);
    NextWeekday(start + 1);
    NextWeekday(start + 2);
    NextWeekday(start + 3);
    NextWeekday(start + 4);
    NextWeekday(start + 5);
    assert WorkingDaysFrom(start, 7) == WorkingDaysFrom(start, 6) + (if IsWorkingDay(start + 6) then 1 else 0);
    assert WorkingDaysFrom(start, 6) == WorkingDaysFrom(start, 5) + (if IsWorkingDay(start + 5) then 1 else 0);
    assert WorkingDaysFrom(start, 5) == WorkingDaysFrom(start, 4) + (if IsWorkingDay(start + 4) then 1 else 0);
    assert WorkingDaysFrom(start, 4) == WorkingDaysFrom(start, 3) + (if IsWorkingDay(start + 3) then 1 else 0);
    assert WorkingDaysFrom(start, 3) == WorkingDaysFrom(start, 2) + (if IsWorkingDay(start + 2) then 1 else 0);
    assert WorkingDaysFrom(start, 2) == WorkingDaysFrom(start, 1) + (if IsWorkingDay(start + 1) then 1 else 0);
    assert WorkingDaysFrom(start, 1) == if IsWorkingDay(start) then 1 else 0;
  }

  /** A range of whole weeks holds five working days per week, wherever it starts. */
  lemma {:induction false} WholeWeeks(start: int, weeks: nat)
    ensures WorkingDaysFrom(start, 7 * weeks) == 5 * weeks
  {
    if weeks > 0 {
      WholeWeeks(start, weeks - 1);
      WorkingDaysSplit(start, 7 * (weeks - 1), 7);
      WeekHasFiveWorkingDays(start + 7 * (weeks - 1));
    }
  }

  /** For a range, the total is the inclusive day count, at least one, and the working days
      are exactly the range's Monday-to-Friday days, no more than the total. */
  lemma SummaryOfRange(from: int, to: int)
    requires from <= to
    ensures Summary(Some(from), Some(to)).totalDays == to - from + 1 >= 1
    ensures Summary(Some(from), Some(to)).workingDays == |set d | from <= d <= to && IsWorkingDay(d)|
    ensures Summary(Some(from), Some(to)).workingDays <= Summary(Some(from), Some(to)).totalDays
  {
    WorkingDaysAtMost(from, to - from + 1);
    WorkingDaysCountsSet(from, to - from + 1);
    assert WorkingDaySet(from, to - from + 1) == set d | from <= d <= to && IsWorkingDay(d);
  }

  /** An empty or unparseable date, or a to-date before the from-date, gives no summary. */
  lemma SummaryOfNoRange(from: Option<int>, to: Option<int>)
    requires from.None? || to.None? || to.value < from.value
    ensures Summary(from, to) == NoSummary
  {
  }

  /** A single day counts once, and as a working day exactly when it is Monday to Friday. */
  lemma SingleDay(d: int)
    ensures Summary(Some(d), Some(d)) == DaySummary(1, if IsWorkingDay(d) then 1 else 0)
  {
    assert WorkingDaysFrom(d, 1) == WorkingDaysFrom(d, 0) + (if IsWorkingDay(d) then 1 else 0);
  }

  /** A range with no Monday-to-Friday day in it has no working days. */
  lemma {:induction false} NoWorkingDayInRange(start: int, n: nat)
    requires forall d :: start <= d < start + n ==> !IsWorkingDay(d)
    ensures WorkingDaysFrom(start, n) == 0
  {
    if n > 0 {
      NoWorkingDayInRange(start, n - 1);
    }
  }

  /** A range lying on one weekend (Saturday, Saturday to Sunday, or Sunday) has no
      working days. */
  lemma WeekendRange(from: int, to: int)
    requires from <= to <= from + 1
    requires Weekday(from) == 6 || (Weekday(from) == 0 && to == from)
    ensures Summary(Some(from), Some(to)).workingDays == 0
  {
    if Weekday(from) == 6 {
      NextWeekday(from);
      NoWorkingDayInRange(from, to - from + 1);
    } else {
      SingleDay(from);
    }
  }

  /** Wednesday 2025-01-01 alone; the weekend of 4-5 January 2025; Monday 6 to Friday
      10 January 2025; and the first of those ranges given backwards. */
  lemma KnownRanges()
    ensures Summary(Some(20089), Some(20089)) == DaySummary(1, 1)
    ensures Summary(Some(20092), Some(20093)) == DaySummary(2, 0)
    ensures Summary(Some(20094), Some(20098)) == DaySummary(5, 5)
    ensures Summary(Some(20093), Some(20092)) == NoSummary
  {
    KnownWeekdays();
    SingleDay(20089);
    WeekendRange(20092, 20093);
    NextWeekday(20094);
    NextWeekday(20095);
    NextWeekday(20096);
    NextWeekday(20097);
    assert WorkingDaysFrom(20094, 5) == 5;
  }

  /** The fields of a submitted application that the calculator does not produce. */
  datatype Applicant = Applicant(
    academicYear: string, semester: string, prn: string, fullName: string,
    division: string, branch: string, email: string, contact: string,
    classTeacher: string, associateTeacher: string, leaveType: string, reason: string)

  /** The row `handleFormSubmit` sends to the sheet. */
  datatype SubmittedRow = SubmittedRow(
    timestamp: int, applicant: Applicant, fromDate: Option<int>, toDate: Option<int>,
    totalDays: nat, workingDays: nat, status: string)

  /** The form's from-date and to-date inputs: their values, their `min` attributes, and the
      summary shown beneath them. */
  class DateFields {
    var fromValue: Option<int>
    var toValue: Option<int>
    var fromMin: Option<int>
    var toMin: Option<int>
    var shown: DaySummary

    /** Both inputs empty, as the page loads. */
    constructor ()
      ensures fromValue == None && toValue == None && fromMin == None && toMin == None
      ensures shown == NoSummary
      ensures MinFollowsFrom()
    {
      fromValue, toValue, fromMin, toMin := None, None, None, None;
      shown := NoSummary;
    }

    /** The to-date's minimum is always the from-date: `setupDateLimits` sets both to today
        and `updateDateMin` copies the from-date over on every change of it. */
    ghost predicate MinFollowsFrom()
      reads this`toMin, this`fromValue
    {
      toMin == fromValue
    }

    /** The to-date is not before the from-date, whenever both are dates. */
    predicate InOrder()
      reads this
    {
      fromValue.Some? && toValue.Some? ==> fromValue.value <= toValue.value
    }

    /** The date part of `checkValidity`: both (required) dates are filled in and neither lies
        before its input's `min`; an empty `min` sets no bound. */
    predicate DatesValid()
      reads this
    {
      fromValue.Some? && toValue.Some?
      && (fromMin.Some? ==> fromMin.value <= fromValue.value)
      && (toMin.Some? ==> toMin.value <= toValue.value)
    }

    /** `calculateTotalDays`: computes and shows the summary of the two fields. */
    method CalculateTotalDays() returns (s: DaySummary)
      modifies this`shown
      ensures s == Summary(fromValue, toValue) && shown == s
    {
      s := CountDays(fromValue, toValue);
      shown := s;
    }

    /** `updateDateMin`: the to-date may not precede the from-date; a to-date behind it is
      pulled up to it, one already at or after it is left alone. */
    method UpdateDateMin()
      modifies this`toMin, this`toValue, this`shown
      ensures toMin == fromValue && MinFollowsFrom()
      ensures toValue == if fromValue.Some? && old(toValue).Some? && old(toValue).value < fromValue.value
                         then fromValue else old(toValue)
      ensures InOrder()
      ensures old(InOrder()) ==> toValue == old(toValue)
      ensures shown == Summary(fromValue, toValue)
    {
      toMin := fromValue;
      if fromValue.Some? && toValue.Some? && toValue.value < fromValue.value {
        toValue := fromValue;
      }
      var _ := CalculateTotalDays();
    }

    /** `setupDateLimits`: both fields start no earlier than today, the from-date on today and
      the to-date on tomorrow, so the form opens on a valid two-day leave. */
    method SetupDateLimits(today: int)
      modifies this
      ensures fromMin == Some(today) && fromValue == Some(today)
      ensures toMin == Some(today) && toValue == Some(today + 1)
      ensures MinFollowsFrom() && InOrder() && DatesValid()
      ensures shown == Summary(fromValue, toValue) && shown.totalDays == 2
    {
      fromMin := Some(today);
      fromValue := Some(today);
      toMin := Some(today);
      toValue := Some(today + 1);
      var _ := CalculateTotalDays();
    }

    /** The user picks a from-date; the `change` listener runs `updateDateMin`. */
    method ChangeFrom(v: Option<int>)
      modifies this`fromValue, this`toMin, this`toValue, this`shown
      ensures fromValue == v && toMin == v && InOrder() && MinFollowsFrom()
      ensures toValue == if v.Some? && old(toValue).Some? && old(toValue).value < v.value then v else old(toValue)
      ensures shown == Summary(fromValue, toValue)
    {
      fromValue := v;
      UpdateDateMin();
    }

    /** The user picks a to-date; the `change` listener runs `calculateTotalDays`. A to-date
      before the from-date is accepted here, shows no summary, and fails validation. */
    method ChangeTo(v: Option<int>)
      requires MinFollowsFrom()
      modifies this`toValue, this`shown
      ensures toValue == v && MinFollowsFrom()
      ensures shown == Summary(fromValue, toValue)
      ensures fromValue.Some? && v.Some? && v.value < fromValue.value ==> !DatesValid()
    {
      toValue := v;
      var _ := CalculateTotalDays();
    }

    /** `handleFormSubmit` up to the network request. `othersValid` is the rest of the
      form's `checkValidity`; together with the two dates it decides whether a row is built.
      The row carries the current dates, the calculator's result for them, which covers at
      least one day, the submission instant, and the status Pending. */
    method HandleFormSubmit(othersValid: bool, applicant: Applicant, now: int) returns (row: Option<SubmittedRow>)
      requires MinFollowsFrom()
      modifies this`shown
      ensures row.Some? <==> othersValid && DatesValid()
      ensures row.Some? ==> row.value.status == "Pending"
      ensures row.Some? ==> row.value.timestamp == now && row.value.applicant == applicant
      ensures row.Some? ==> row.value.fromDate == fromValue && row.value.toDate == toValue
      ensures row.Some? ==> DaySummary(row.value.totalDays, row.value.workingDays) == Summary(fromValue, toValue)
      ensures row.Some? ==> 1 <= row.value.totalDays && row.value.workingDays <= row.value.totalDays
      ensures row.None? ==> shown == old(shown)
      ensures row.Some? ==> shown == Summary(fromValue, toValue)
    {
      if !othersValid || !DatesValid() {
        return None;
      }
      var days := CalculateTotalDays();
      SummaryOfRange(fromValue.value, toValue.value);
      row := Some(SubmittedRow(now, applicant, fromValue, toValue, days.totalDays, days.workingDays, "Pending"));
    }
  }

  /** A form opened on `today` whose from-date is then changed can be submitted exactly when
      that from-date is not before today (the to-date follows it), and the application then
      covers at least one day. */
  method OpenAndSubmit(today: int, from: int, applicant: Applicant, now: int) returns (row: Option<SubmittedRow>)
    ensures row.Some? <==> from >= today
    ensures row.Some? ==> row.value.status == "Pending" && row.value.totalDays >= 1
    ensures row.Some? ==> row.value.workingDays <= row.value.totalDays
  {
    var form := new DateFields();
    form.SetupDateLimits(today);
    form.ChangeFrom(Some(from));
    row := form.HandleFormSubmit(true, applicant, now);
  }

  /** A to-date typed in before the from-date is refused at submission. */
  method ReversedDatesRefused(today: int, to: int, applicant: Applicant, now: int) returns (row: Option<SubmittedRow>)
    requires to < today
    ensures row.None?
  {
    var form := new DateFields();
    form.SetupDateLimits(today);
    form.ChangeTo(Some(to));
    row := form.HandleFormSubmit(true, applicant, now);
  }
}
