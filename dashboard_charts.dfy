/** The counting half of the dashboard's `updateCharts`: the leave-type doughnut and the
    six-month trend. The drawing itself is left to the chart library. */
module DashboardCharts {
  import opened Wrappers
  import opened Sequences
  import opened Calendar
  import opened LeaveRecords

  /** `leave['Type of Leave'] || 'Other'`: a record without a leave type is counted as Other. */
  function TypeLabel(r: LeaveRecord): string
  {
    if r.leaveType == "" then "Other" else r.leaveType
  }

  function HasTypeLabel(name: string): LeaveRecord -> bool
  {
    (r: LeaveRecord) => TypeLabel(r) == name
  }

  /** The type labels in the order they first occur, as the keys of the `leaveTypes` object. */
  function FirstSeenLabels(records: seq<LeaveRecord>): seq<string>
  {
    if records == [] then []
    else
      var earlier := FirstSeenLabels(records[..|records| - 1]);
      var newest := TypeLabel(records[|records| - 1]);
      if newest in earlier then earlier else earlier + [newest]
  }

  /** The `leaveTypes` object after `(leaveTypes[type] || 0) + 1` has run for every record. */
  function TypeCounts(records: seq<LeaveRecord>): map<string, nat>
  {
    if records == [] then map[]
    else
      var counts := TypeCounts(records[..|records| - 1]);
      var t := TypeLabel(records[|records| - 1]);
      counts[t := (if t in counts then counts[t] else 0) + 1]
  }

  /** Some record carries this label. */
  predicate HasLabel(records: seq<LeaveRecord>, name: string)
  {
    exists i :: 0 <= i < |records| && TypeLabel(records[i]) == name
  }

  lemma HasLabelAppend(records: seq<LeaveRecord>, name: string)
    requires records != []
    ensures HasLabel(records, name) <==>
            HasLabel(records[..|records| - 1], name) || TypeLabel(records[|records| - 1]) == name
  {
    var init := records[..|records| - 1];
    if HasLabel(init, name) {
      var i :| 0 <= i < |init| && TypeLabel(init[i]) == name;
      assert records[i] == init[i];
    }
    if HasLabel(records, name) {
      var i :| 0 <= i < |records| && TypeLabel(records[i]) == name;
      if i < |init| {
        assert init[i] == records[i];
      }
    }
  }

  /** No label is listed twice. */
  lemma {:induction false} FirstSeenLabelsDistinct(records: seq<LeaveRecord>)
    ensures Distinct(FirstSeenLabels(records))
  {
    if records != [] {
      FirstSeenLabelsDistinct(records[..|records| - 1]);
    }
  }

  /** One label per distinct leave type of the records, and no other. */
  lemma {:induction false} FirstSeenLabelsSpec(records: seq<LeaveRecord>)
    ensures Distinct(FirstSeenLabels(records))
    ensures forall name :: name in FirstSeenLabels(records) <==> HasLabel(records, name)
  {
    FirstSeenLabelsDistinct(records);
    if records != [] {
      FirstSeenLabelsSpec(records[..|records| - 1]);
      forall name
        ensures HasLabel(records, name) <==>
                HasLabel(records[..|records| - 1], name) || TypeLabel(records[|records| - 1]) == name
      {
        HasLabelAppend(records, name);
      }
    }
  }

  /** The counters are kept exactly under the first-seen labels. */
  lemma {:induction false} TypeCountsKeys(records: seq<LeaveRecord>)
    ensures forall name :: name in TypeCounts(records) <==> name in FirstSeenLabels(records)
  {
    if records != [] {
      TypeCountsKeys(records[..|records| - 1]);
    }
  }

  /** Each counter holds the number of records with its label. */
  lemma {:induction false} TypeCountsSpec(records: seq<LeaveRecord>)
    ensures forall name :: name in TypeCounts(records) ==>
              TypeCounts(records)[name] == |Filter(records, HasTypeLabel(name))|
  {
    if records != [] {
      var init, last := records[..|records| - 1], records[|records| - 1];
      TypeCountsSpec(init);
      TypeCountsKeys(init);
      assert records == init + [last];
      forall name
        ensures Filter(records, HasTypeLabel(name))
                == Filter(init, HasTypeLabel(name)) + (if TypeLabel(last) == name then [last] else [])
      {
        FilterAppend(init, last, HasTypeLabel(name));
      }
      FirstSeenLabelsSpec(init);
      forall name | name !in TypeCounts(init)
        ensures Filter(init, HasTypeLabel(name)) == []
      {
        forall x | x in init
          ensures !HasTypeLabel(name)(x)
        {
          var i :| 0 <= i < |init| && init[i] == x;
        }
        FilterNone(init, HasTypeLabel(name));
      }
    }
  }

  /** Counting is conservative: the counters add up to the number of records. */
  lemma {:induction false} TypeCountsTotal(records: seq<LeaveRecord>)
    ensures forall name :: name in FirstSeenLabels(records) ==> name in TypeCounts(records)
    ensures SumOver(FirstSeenLabels(records), TypeCounts(records)) == |records|
  {
    TypeCountsKeys(records);
    if records != [] {
      var init, last := records[..|records| - 1], records[|records| - 1];
      var labels, counts, t := FirstSeenLabels(init), TypeCounts(init), TypeLabel(last);
      TypeCountsTotal(init);
      FirstSeenLabelsDistinct(init);
      TypeCountsStep(records);
      if t in labels {
        SumOverIncrement(labels, counts, t);
      } else {
        SumOverAppendNew(labels, counts, t, 1);
      }
    }
  }

  /** One more record either bumps the counter of a label already seen or appends a new
      label with a counter of one. */
  lemma TypeCountsStep(records: seq<LeaveRecord>)
    requires records != []
    ensures var init, t := records[..|records| - 1], TypeLabel(records[|records| - 1]);
            if t in FirstSeenLabels(init) then
              t in TypeCounts(init) && FirstSeenLabels(records) == FirstSeenLabels(init)
              && TypeCounts(records) == TypeCounts(init)[t := TypeCounts(init)[t] + 1]
            else
              t !in TypeCounts(init)
              && FirstSeenLabels(records) == FirstSeenLabels(init) + [t] && TypeCounts(records) == TypeCounts(init)[t := 1]
  {
    TypeCountsKeys(records[..|records| - 1]);
  }

  /** What the counting loop leaves behind: one counter per distinct label, in first-seen
      order, each holding the number of records with that label, together adding up to the
      number of records. */
  lemma TypeCountsFacts(records: seq<LeaveRecord>)
    ensures Distinct(FirstSeenLabels(records))
    ensures forall name :: name in FirstSeenLabels(records) <==> HasLabel(records, name)
    ensures forall name :: name in FirstSeenLabels(records) ==>
              name in TypeCounts(records) && TypeCounts(records)[name] == |Filter(records, HasTypeLabel(name))|
    ensures SumOver(FirstSeenLabels(records), TypeCounts(records)) == |records|
  {
    FirstSeenLabelsSpec(records);
    TypeCountsKeys(records);
    TypeCountsSpec(records);
    TypeCountsTotal(records);
  }

  /** For each label, the number of records that carry it. */
  function LabelCounts(records: seq<LeaveRecord>, labels: seq<string>): (values: seq<nat>)
    ensures |values| == |labels|
  {
    seq(|labels|, j requires 0 <= j < |labels| => |Filter(records, HasTypeLabel(labels[j]))|)
  }

  /** The leave-type series has one distinct label per leave type present, and since every
      record lands in exactly one bucket, its counts add up to the number of records. */
  lemma TypeSeriesFacts(records: seq<LeaveRecord>)
    ensures Distinct(FirstSeenLabels(records))
    ensures forall name :: name in FirstSeenLabels(records) <==> HasLabel(records, name)
    ensures Sum(LabelCounts(records, FirstSeenLabels(records))) == |records|
  {
    TypeCountsFacts(records);
    SumOfValues(FirstSeenLabels(records), TypeCounts(records), LabelCounts(records, FirstSeenLabels(records)));
  }

  /** The leave-type series: the labels in first-seen order, each with the number of
      records that carry it. */
  method GroupByLeaveType(records: seq<LeaveRecord>) returns (labels: seq<string>, values: seq<nat>)
    ensures labels == FirstSeenLabels(records)
    ensures values == LabelCounts(records, labels)
  {
    var leaveTypes: map<string, nat> := map[];
    labels := [];
    for i := 0 to |records|
      invariant labels == FirstSeenLabels(records[..i])
      invariant leaveTypes == TypeCounts(records[..i])
    {
      var leave := records[i];
      var t := if leave.leaveType == "" then "Other" else leave.leaveType;
      assert records[..i + 1][..i] == records[..i];
      TypeCountsStep(records[..i + 1]);
      leaveTypes := leaveTypes[t := (if t in leaveTypes then leaveTypes[t] else 0) + 1];
      if t !in labels {
        labels := labels + [t];
      }
    }
    assert records[..|records|] == records;
    TypeCountsKeys(records);
    TypeCountsSpec(records);
    values := seq(|labels|, j requires 0 <= j < |labels| => leaveTypes[labels[j]]);
  }

  /** The number of months the trend chart covers, the current one included. */
  const TrendMonths: nat := 6

  /** The month key of a record's timestamp; a timestamp that does not parse has none. */
  function RecordMonthKey(r: LeaveRecord): Option<int>
  {
    if r.timestamp.Some? then Some(MonthKey(MonthIndexOfDay(DayOf(r.timestamp.value)))) else None
  }

  function InMonth(key: int): LeaveRecord -> bool
  {
    (r: LeaveRecord) => RecordMonthKey(r) == Some(key)
  }

  /** The `monthlyData` object: a zero for each key of the window, then one more for every
      record whose month key is among them. */
  function MonthCounts(records: seq<LeaveRecord>, window: seq<int>): map<int, nat>
  {
    if records == [] then map k | k in window :: 0
    else
      var counts := MonthCounts(records[..|records| - 1], window);
      var key := RecordMonthKey(records[|records| - 1]);
      if key.Some? && key.value in counts then counts[key.value := counts[key.value] + 1] else counts
  }

  /** The window's months each count the records stamped in them; other records are ignored. */
  lemma {:induction false} MonthCountsSpec(records: seq<LeaveRecord>, window: seq<int>)
    ensures forall k :: k in MonthCounts(records, window) <==> k in window
    ensures forall k :: k in MonthCounts(records, window) ==>
              MonthCounts(records, window)[k] == |Filter(records, InMonth(k))|
  {
    if records != [] {
      var init, last := records[..|records| - 1], records[|records| - 1];
      MonthCountsSpec(init, window);
      assert records == init + [last];
      forall k
        ensures Filter(records, InMonth(k))
                == Filter(init, InMonth(k)) + (if RecordMonthKey(last) == Some(k) then [last] else [])
      {
        FilterAppend(init, last, InMonth(k));
      }
    }
  }

  /** Each record adds at most one to the window, so the window's counts add up to at most
      the number of records. */
  lemma {:induction false} MonthCountsTotal(records: seq<LeaveRecord>, window: seq<int>)
    requires Distinct(window)
    ensures forall k :: k in window ==> k in MonthCounts(records, window)
    ensures SumOver(window, MonthCounts(records, window)) <= |records|
  {
    MonthCountsSpec(records, window);
    if records == [] {
      SumOverZero(window, MonthCounts(records, window));
    } else {
      var init, last := records[..|records| - 1], records[|records| - 1];
      MonthCountsTotal(init, window);
      MonthCountsSpec(init, window);
      var key := RecordMonthKey(last);
      if key.Some? && key.value in MonthCounts(init, window) {
        SumOverIncrement(window, MonthCounts(init, window), key.value);
      }
    }
  }

  /** What the counting loop leaves behind: a counter for each month of the window holding
      the number of records stamped in it, together no more than the number of records. */
  lemma MonthCountsFacts(records: seq<LeaveRecord>, window: seq<int>)
    requires Distinct(window)
    ensures forall k :: k in window ==>
              k in MonthCounts(records, window) && MonthCounts(records, window)[k] == |Filter(records, InMonth(k))|
    ensures SumOver(window, MonthCounts(records, window)) <= |records|
  {
    MonthCountsSpec(records, window);
    MonthCountsTotal(records, window);
  }

  /** The six month keys ending with `currentMonth`, oldest first. */
  function TrendWindowOf(currentMonth: int): (window: seq<int>)
    ensures |window| == TrendMonths
  {
    seq(TrendMonths, j requires 0 <= j < TrendMonths => MonthKey(currentMonth - (TrendMonths - 1) + j))
  }

  /** Six consecutive months never share a key. */
  lemma TrendWindowDistinct(currentMonth: int)
    ensures Distinct(TrendWindowOf(currentMonth))
  {
    var w := TrendWindowOf(currentMonth);
    forall i, j | 0 <= i < j < |w|
      ensures w[i] != w[j]
    {
      MonthKeysDiffer(currentMonth - (TrendMonths - 1) + i, currentMonth - (TrendMonths - 1) + j);
    }
  }

  /** The "last 6 months" loop of `updateCharts`: the window's month keys, oldest first, and
      the `monthlyData` object with a zero under each. */
  method TrendWindow(currentMonth: int) returns (months: seq<int>, monthlyData: map<int, nat>)
    ensures months == TrendWindowOf(currentMonth)
    ensures monthlyData == map k | k in months :: 0
  {
    monthlyData := map[];
    months := [];
    var i := TrendMonths - 1;
    while i >= 0
      invariant -1 <= i < TrendMonths
      invariant months == TrendWindowOf(currentMonth)[..TrendMonths - 1 - i]
      invariant monthlyData == map k | k in months :: 0
    {
      var monthKey := MonthKey(currentMonth - i);
      months := months + [monthKey];
      monthlyData := monthlyData[monthKey := 0];
      i := i - 1;
    }
  }

  /** For each month key, the number of records stamped in that month. */
  function MonthSeries(records: seq<LeaveRecord>, window: seq<int>): (values: seq<nat>)
    ensures |values| == |window|
  {
    seq(|window|, j requires 0 <= j < |window| => |Filter(records, InMonth(window[j]))|)
  }

  /** The trend series covers six distinct months, and since a record outside the window, or
      without a timestamp, is not counted, its counts add up to at most the number of records. */
  lemma TrendSeriesFacts(records: seq<LeaveRecord>, currentMonth: int)
    ensures Distinct(TrendWindowOf(currentMonth))
    ensures Sum(MonthSeries(records, TrendWindowOf(currentMonth))) <= |records|
  {
    var window := TrendWindowOf(currentMonth);
    TrendWindowDistinct(currentMonth);
    MonthCountsFacts(records, window);
    SumOfValues(window, MonthCounts(records, window), MonthSeries(records, window));
  }

  /** The trend series: the keys of the six months ending with `currentMonth`, oldest first,
      each with the number of records stamped in that month, zero when there are none. */
  method MonthlyTrend(records: seq<LeaveRecord>, currentMonth: int) returns (labels: seq<int>, values: seq<nat>)
    ensures labels == TrendWindowOf(currentMonth)
    ensures values == MonthSeries(records, labels)
  {
    var months, monthlyData := TrendWindow(currentMonth);
    for n := 0 to |records|
      invariant monthlyData == MonthCounts(records[..n], months)
    {
      var leaveMonth := RecordMonthKey(records[n]);
      assert records[..n + 1][..n] == records[..n];
      if leaveMonth.Some? && leaveMonth.value in monthlyData {
        monthlyData := monthlyData[leaveMonth.value := monthlyData[leaveMonth.value] + 1];
      }
    }
    assert records[..|records|] == records;
    TrendWindowDistinct(currentMonth);
    MonthCountsFacts(records, months);
    labels := months;
    values := seq(|months|, j requires 0 <= j < |months| => monthlyData[months[j]]);
  }
}
