/** The teacher dashboard's module state (teacher-script.js): the records last fetched, the
    records of the table in view, the sheet row the review dialog acts on, and what the page
    shows of them. Each handler of the source is a method that updates exactly the fields it
    assigns or renders. */
module TeacherDashboard {
  import opened Wrappers
  import opened Sequences
  import opened Calendar
  import opened LeaveRecords
  import opened DashboardCharts

  /** The three sidebar badges. */
  datatype Badges = Badges(pending: nat, approved: nat, rejected: nat)

  class Dashboard {
    var leavesData: seq<LeaveRecord>
    var currentLeaves: seq<LeaveRecord>
    var currentRowIndex: Option<int>
    var actionStatus: string            // the status preselected in the review dialog
    var counts: StatusCounts            // the four figures of the overview cards
    var badges: Badges
    var overviewRows: seq<LeaveRecord>  // the overview table
    var typeLabels: seq<string>         // the leave-type chart
    var typeValues: seq<nat>
    var trendLabels: seq<int>           // the monthly trend chart, as month keys
    var trendValues: seq<nat>

    /** The table in view lists some of the fetched records in sheet order, and the cards and
        badges show the tallies of the fetched records. */
    ghost predicate Valid()
      reads this`currentLeaves, this`leavesData, this`counts, this`badges
    {
      IsSubsequence(currentLeaves, leavesData)
      && counts == Tally(leavesData)
      && badges == Badges(counts.pending, counts.approved, counts.rejected)
    }

    /** The two charts show the counts of the fetched records, the trend for the six months
        ending with the month of `now`. */
    ghost predicate ChartsShow(now: int)
      reads this`leavesData, this`typeLabels, this`typeValues, this`trendLabels, this`trendValues
    {
      typeLabels == FirstSeenLabels(leavesData)
      && typeValues == LabelCounts(leavesData, typeLabels)
      && trendLabels == TrendWindowOf(MonthIndexOfDay(DayOf(now)))
      && trendValues == MonthSeries(leavesData, trendLabels)
    }

    /** The page before its first fetch: no records, no row selected. */
    constructor ()
      ensures Valid()
      ensures leavesData == [] && currentLeaves == [] && currentRowIndex == None && overviewRows == []
    {
      leavesData, currentLeaves, currentRowIndex := [], [], None;
      actionStatus := Pending;
      counts := StatusCounts(0, 0, 0, 0);
      badges := Badges(0, 0, 0);
      overviewRows := [];
      typeLabels, typeValues, trendLabels, trendValues := [], [], [], [];
    }

    /** `updateDashboardCounts` */
    method UpdateDashboardCounts()
      modifies this`counts
      ensures counts == Tally(leavesData)
    {
      var pending := StatusCount(leavesData, Pending);
      var approved := StatusCount(leavesData, Approved);
      var rejected := StatusCount(leavesData, Rejected);
      counts := StatusCounts(pending, approved, rejected, |leavesData|);
    }

    /** `updateBadges` */
    method UpdateBadges()
      modifies this`badges
      ensures badges == Badges(Tally(leavesData).pending, Tally(leavesData).approved, Tally(leavesData).rejected)
    {
      badges := Badges(StatusCount(leavesData, Pending), StatusCount(leavesData, Approved),
                       StatusCount(leavesData, Rejected));
    }

    /** `loadRecentLeaves`: sorts a copy, so the fetched records keep their order. */
    method LoadRecentLeaves()
      modifies this`overviewRows
      ensures overviewRows == RecentLeaves(leavesData)
      ensures |overviewRows| <= RecentLimit && NewestFirst(overviewRows)
    {
      overviewRows := RecentLeaves(leavesData);
      RecentLeavesSpec(leavesData);
    }

    /** `filterRecentLeaves`, run when either overview filter changes. */
    method FilterRecentLeaves(statusFilter: string, days: int, now: int)
      modifies this`overviewRows
      ensures overviewRows == FilteredRecent(leavesData, statusFilter, days, now)
      ensures |overviewRows| <= RecentLimit && IsSubsequence(overviewRows, leavesData)
    {
      overviewRows := FilteredRecent(leavesData, statusFilter, days, now);
      FilteredRecentSpec(leavesData, statusFilter, days, now);
    }

    /** `updateCharts` at instant `now`. */
    method UpdateCharts(now: int)
      modifies this`typeLabels, this`typeValues, this`trendLabels, this`trendValues
      ensures ChartsShow(now)
    {
      typeLabels, typeValues := GroupByLeaveType(leavesData);
      trendLabels, trendValues := MonthlyTrend(leavesData, MonthIndexOfDay(DayOf(now)));
    }

    /** `loadDashboardData` at instant `now`, given what the fetch returned: `None` when the
        request or its JSON failed, which changes nothing. */
    method LoadDashboardData(response: Option<seq<LeaveRecord>>, now: int)
      requires Valid()
      modifies this`leavesData, this`currentLeaves, this`counts, this`badges, this`overviewRows
      modifies this`typeLabels, this`typeValues, this`trendLabels, this`trendValues
      ensures Valid()
      ensures response.None? ==> unchanged(this)
      ensures response.Some? ==> leavesData == response.value && currentLeaves == leavesData
      ensures response.Some? ==> overviewRows == RecentLeaves(leavesData) && ChartsShow(now)
    {
      if response.Some? {
        leavesData := response.value;
        currentLeaves := leavesData;
        UpdateDashboardCounts();
        LoadRecentLeaves();
        UpdateCharts(now);
        UpdateBadges();
        SubsequenceReflexive(leavesData);
      }
    }

    /** `loadSectionData`, run when a sidebar section other than the overview is opened. */
    method LoadSectionData(section: string)
      requires Valid()
      modifies this`currentLeaves
      ensures Valid()
      ensures currentLeaves == SectionLeaves(leavesData, section)
    {
      currentLeaves := SectionLeaves(leavesData, section);
      SectionLeavesSpec(leavesData, section);
    }

    /** `handleSearch`: the search runs over all fetched records, whatever section is open. */
    method HandleSearch(query: string)
      requires Valid()
      modifies this`currentLeaves
      ensures Valid()
      ensures currentLeaves == SearchLeaves(leavesData, query)
    {
      currentLeaves := SearchLeaves(leavesData, query);
      var term := Text.Trim(Text.Lower(query));
      if term == [] {
        SubsequenceReflexive(leavesData);
      } else {
        FilterIsSubsequence(leavesData, MatchesTerm(term));
      }
    }

    /** `openActionModal`: selects the sheet row of the first record with this PRN and
        preselects the status for the action; a PRN no record has changes nothing. */
    method OpenActionModal(prn: string, action: string)
      modifies this`currentRowIndex, this`actionStatus
      ensures SheetRowOf(leavesData, prn).None? ==>
                currentRowIndex == old(currentRowIndex) && actionStatus == old(actionStatus)
      ensures SheetRowOf(leavesData, prn).Some? ==>
                currentRowIndex == SheetRowOf(leavesData, prn) && actionStatus == ActionStatus(action)
      ensures currentRowIndex != old(currentRowIndex) ==>
                FirstDataRow <= currentRowIndex.value < |leavesData| + FirstDataRow
                && leavesData[currentRowIndex.value - FirstDataRow].prn == prn
    {
      var row := SheetRowOf(leavesData, prn);
      if row.None? {
        return;
      }
      currentRowIndex := row;
      actionStatus := ActionStatus(action);
    }
  }
}
