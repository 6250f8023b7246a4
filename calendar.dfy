/** Calendar dates as integer day numbers: day 0 is 1970-01-01, the day JavaScript's
    `Date` counts from, so day `d` starts at instant `d * MsPerDay`. */
module Calendar {

  const MsPerDay: int := 86_400_000

  /** 1970-01-01 was a Thursday; `Date.getDay` numbers Sunday 0 through Saturday 6. */
  const EpochWeekday: int := 4

  /** The day an instant (milliseconds since the epoch) falls on. */
  function DayOf(t: int): int
  {
    t / MsPerDay
  }

  /** `Date.getDay`: 0 is Sunday, 6 is Saturday. */
  function Weekday(d: int): (w: int)
    ensures 0 <= w < 7
  {
    (d + EpochWeekday) % 7
  }

  /** Monday through Friday. */
  predicate IsWorkingDay(d: int)
  {
    Weekday(d) != 0 && Weekday(d) != 6
  }

  /** The weekday cycle: the day after Saturday is a Sunday, otherwise the number goes up by one. */
  lemma NextWeekday(d: int)
    ensures Weekday(d + 1) == if Weekday(d) == 6 then 0 else Weekday(d) + 1
  {
    var q := (d + EpochWeekday) / 7;
    assert d + EpochWeekday == 7 * q + Weekday(d);
    if Weekday(d) == 6 {
      assert d + 1 + EpochWeekday == 7 * (q + 1);
    } else {
      assert d + 1 + EpochWeekday == 7 * q + Weekday(d) + 1;
    }
  }

  /** The month a day falls in, as `year * 12 + (month - 1)` in the proleptic Gregorian
      calendar (the civil-from-days conversion, with eras of 400 years). */
  function MonthIndexOfDay(d: int): int
  {
    var z := d + 719_468;
    var era := z / 146_097;
    var doe := z % 146_097;
    var yoe := (doe - doe / 1_460 + doe / 36_524 - doe / 146_096) / 365;
    var doy := doe - (365 * yoe + yoe / 4 - yoe / 100);
    var mp := (5 * doy + 2) / 153;
    var month := if mp < 10 then mp + 3 else mp - 9;
    var year := yoe + era * 400 + (if month <= 2 then 1 else 0);
    year * 12 + (month - 1)
  }

  /** `toLocaleDateString('en-US', { month: 'short', year: '2-digit' })` names a month by its
      short name and the last two digits of its year, so months 100 years apart share a key. */
  function MonthKey(monthIndex: int): (key: int)
    ensures 0 <= key < 1200
  {
    monthIndex % 1200
  }

  /** Months less than a century apart have different keys. */
  lemma MonthKeysDiffer(a: int, b: int)
    requires 0 < b - a < 1200
    ensures MonthKey(a) != MonthKey(b)
  {
    var qa, qb := a / 1200, b / 1200;
    assert a == 1200 * qa + MonthKey(a);
    assert b == 1200 * qb + MonthKey(b);
  }

  /** Known dates: 2025-01-01 (a Wednesday) is day 20089, 2025-01-04 a Saturday, 2025-01-06 a Monday. */
  lemma KnownWeekdays()
    ensures Weekday(20089) == 3 && Weekday(20092) == 6 && Weekday(20094) == 1
  {
  }

  /** 2024-12-31 (day 20088) lies in December 2024 and 2025-01-01 in January 2025. */
  lemma KnownMonths()
    ensures MonthIndexOfDay(20088) == 2024 * 12 + 11
    ensures MonthIndexOfDay(20089) == 2025 * 12 + 0
  {
    // both days lie in the sixth 400-year era after 0000-03-01, 24 years into it
    assert (20088 + 719_468) / 146_097 == 5 && (20088 + 719_468) % 146_097 == 9071;
    assert (20089 + 719_468) / 146_097 == 5 && (20089 + 719_468) % 146_097 == 9072;
    assert 9071 / 1_460 == 6 && 9071 / 36_524 == 0 && 9071 / 146_096 == 0 && (9071 - 6) / 365 == 24;
    assert 9072 / 1_460 == 6 && 9072 / 36_524 == 0 && 9072 / 146_096 == 0 && (9072 - 6) / 365 == 24;
    assert 24 / 4 == 6 && 24 / 100 == 0;
    assert (5 * 305 + 2) / 153 == 9 && (5 * 306 + 2) / 153 == 10;
  }
}
