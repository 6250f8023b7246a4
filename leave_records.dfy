/** The views the teacher dashboard (teacher-script.js) derives from the sheet's leave
    records: status tallies, the newest-first overview, the status/age filter, the section
    tables, the search box, and the record an approve/reject button acts on. None of them
    changes the records it is given. */
module LeaveRecords {
  import opened Wrappers
  import opened Sequences
  import opened Text
  import opened Calendar

  /** One row of the sheet, as far as the dashboard's logic reads it. */
  datatype LeaveRecord = LeaveRecord(
    timestamp: Option<int>,  // milliseconds since 1970-01-01T00:00Z; None when it does not parse
    fullName: string,
    prn: string,
    branch: string,
    division: string,
    leaveType: string,
    status: string)

  const Pending: string := "Pending"
  const Approved: string := "Approved"
  const Rejected: string := "Rejected"

  predicate IsKnownStatus(status: string)
  {
    status == Pending || status == Approved || status == Rejected
  }

  function HasStatus(status: string): LeaveRecord -> bool
  {
    (r: LeaveRecord) => r.status == status
  }

  function HasOtherStatus(): LeaveRecord -> bool
  {
    (r: LeaveRecord) => !IsKnownStatus(r.status)
  }

  // ---------------------------------------------------------------- status tallies

  /** `leavesData.filter(leave => leave.Status === status).length` */
  function StatusCount(records: seq<LeaveRecord>, status: string): nat
  {
    |Filter(records, HasStatus(status))|
  }

  /** The four figures of `updateDashboardCounts`. */
  datatype StatusCounts = StatusCounts(pending: nat, approved: nat, rejected: nat, total: nat)

  function Tally(records: seq<LeaveRecord>): (c: StatusCounts)
    ensures c.total == |records|
    ensures c.pending + c.approved + c.rejected <= c.total
  {
    TallyConservation(records);
    StatusCounts(StatusCount(records, Pending), StatusCount(records, Approved),
                 StatusCount(records, Rejected), |records|)
  }

  /** Every record is counted exactly once: as Pending, Approved, Rejected, or (towards the
      total only) as having some other status. */
  lemma {:induction false} TallyConservation(records: seq<LeaveRecord>)
    ensures StatusCount(records, Pending) + StatusCount(records, Approved) + StatusCount(records, Rejected)
            + |Filter(records, HasOtherStatus())| == |records|
  {
    if records != [] {
      TallyConservation(records[1..]);
    }
  }

  /** Two Pending, one Approved and one Rejected record tally as 2, 1, 1 out of 4. */
  lemma TallyExample(a: LeaveRecord, b: LeaveRecord, c: LeaveRecord, d: LeaveRecord)
    requires a.status == Pending && b.status == Pending && c.status == Approved && d.status == Rejected
    ensures Tally([a, b, c, d]) == StatusCounts(2, 1, 1, 4)
  {
    var s := [a, b, c, d];
    assert s[1..] == [b, c, d] && s[1..][1..] == [c, d] && s[1..][1..][1..] == [d] && [d][1..] == [];
    assert |Pending| == 7 && |Approved| == 8 && Approved[0] != Rejected[0];
    ExamplePending(a, b, c, d);
    ExampleApproved(a, b, c, d);
    ExampleRejected(a, b, c, d);
  }

  lemma ExamplePending(a: LeaveRecord, b: LeaveRecord, c: LeaveRecord, d: LeaveRecord)
    requires a.status == Pending && b.status == Pending && c.status == Approved && d.status == Rejected
    ensures Filter([a, b, c, d], HasStatus(Pending)) == [a, b]
  {
    assert [a, b, c, d][1..] == [b, c, d] && [b, c, d][1..] == [c, d] && [c, d][1..] == [d] && [d][1..] == [];
    assert |Pending| == 7 && |Approved| == 8;
    assert Filter([d], HasStatus(Pending)) == [] && Filter([c, d], HasStatus(Pending)) == [];
    assert Filter([b, c, d], HasStatus(Pending)) == [b];
  }

  lemma ExampleApproved(a: LeaveRecord, b: LeaveRecord, c: LeaveRecord, d: LeaveRecord)
    requires a.status == Pending && b.status == Pending && c.status == Approved && d.status == Rejected
    ensures Filter([a, b, c, d], HasStatus(Approved)) == [c]
  {
    assert [a, b, c, d][1..] == [b, c, d] && [b, c, d][1..] == [c, d] && [c, d][1..] == [d] && [d][1..] == [];
    assert |Pending| == 7 && |Approved| == 8 && Approved[0] != Rejected[0];
    assert Filter([d], HasStatus(Approved)) == [] && Filter([c, d], HasStatus(Approved)) == [c];
  }

  lemma ExampleRejected(a: LeaveRecord, b: LeaveRecord, c: LeaveRecord, d: LeaveRecord)
    requires a.status == Pending && b.status == Pending && c.status == Approved && d.status == Rejected
    ensures Filter([a, b, c, d], HasStatus(Rejected)) == [d]
  {
    assert [a, b, c, d][1..] == [b, c, d] && [b, c, d][1..] == [c, d] && [c, d][1..] == [d] && [d][1..] == [];
    assert |Pending| == 7 && |Approved| == 8 && Approved[0] != Rejected[0];
    assert Filter([c, d], HasStatus(Rejected)) == [d];
  }

  // ---------------------------------------------------------------- newest first, top ten

  /** `a` is at least as recent as `b`. A timestamp that does not parse counts as the oldest. */
  predicate NoOlder(a: LeaveRecord, b: LeaveRecord)
  {
    match (a.timestamp, b.timestamp)
    case (_, None) => true
    case (None, Some(_)) => false
    case (Some(x), Some(y)) => x >= y
  }

  predicate NewestFirst(s: seq<LeaveRecord>)
  {
    forall i, j :: 0 <= i < j < |s| ==> NoOlder(s[i], s[j])
  }

  function SameTimestamp(t: Option<int>): LeaveRecord -> bool
  {
    (r: LeaveRecord) => r.timestamp == t
  }

  /** Places `x` before the first record that is no newer than it. */
  function InsertByTime(x: LeaveRecord, s: seq<LeaveRecord>): (r: seq<LeaveRecord>)
    ensures multiset(r) == multiset(s) + multiset{x}
    ensures |r| == |s| + 1
  {
    if s == [] || NoOlder(x, s[0]) then [x] + s
    else
      assert s == [s[0]] + s[1..];
      [s[0]] + InsertByTime(x, s[1..])
  }

  /** The stable sort `[...leavesData].sort((a, b) => new Date(b.Timestamp) - new Date(a.Timestamp))`. */
  function SortNewestFirst(s: seq<LeaveRecord>): (r: seq<LeaveRecord>)
    ensures multiset(r) == multiset(s)
    ensures |r| == |s|
  {
    if s == [] then []
    else
      assert s == [s[0]] + s[1..];
      InsertByTime(s[0], SortNewestFirst(s[1..]))
  }

  lemma {:induction false} InsertByTimeSorted(x: LeaveRecord, s: seq<LeaveRecord>)
    requires NewestFirst(s)
    ensures NewestFirst(InsertByTime(x, s))
  {
    if s != [] && !NoOlder(x, s[0]) {
      InsertByTimeSorted(x, s[1..]);
      var r := InsertByTime(x, s[1..]);
      forall j | 0 <= j < |r|
        ensures NoOlder(s[0], r[j])
      {
        assert r[j] in multiset(r);
        assert r[j] == x || r[j] in multiset(s[1..]);
      }
    }
  }

  /** Sorting puts the records newest first. */
  lemma {:induction false} SortNewestFirstSorted(s: seq<LeaveRecord>)
    ensures NewestFirst(SortNewestFirst(s))
  {
    if s != [] {
      SortNewestFirstSorted(s[1..]);
      InsertByTimeSorted(s[0], SortNewestFirst(s[1..]));
    }
  }

  lemma {:induction false} InsertByTimeStable(x: LeaveRecord, s: seq<LeaveRecord>, t: Option<int>)
    requires NewestFirst(s)
    ensures Filter(InsertByTime(x, s), SameTimestamp(t))
            == (if x.timestamp == t then [x] else []) + Filter(s, SameTimestamp(t))
  {
    if s != [] && !NoOlder(x, s[0]) {
      InsertByTimeStable(x, s[1..], t);
      assert ([s[0]] + InsertByTime(x, s[1..]))[1..] == InsertByTime(x, s[1..]);
    }
  }

  /** Sorting is stable: records with equal timestamps keep their relative order. */
  lemma {:induction false} SortNewestFirstStable(s: seq<LeaveRecord>, t: Option<int>)
    ensures Filter(SortNewestFirst(s), SameTimestamp(t)) == Filter(s, SameTimestamp(t))
  {
    if s != [] {
      SortNewestFirstStable(s[1..], t);
      SortNewestFirstSorted(s[1..]);
      InsertByTimeStable(s[0], SortNewestFirst(s[1..]), t);
    }
  }

  const RecentLimit: nat := 10

  /** `loadRecentLeaves`: a sorted copy of the records, cut to the first ten. */
  function RecentLeaves(records: seq<LeaveRecord>): seq<LeaveRecord>
  {
    SortNewestFirst(records)[..Min(RecentLimit, |records|)]
  }

  /** In a newest-first sequence, everything before position `k` is no older than anything
      from `k` on. */
  lemma NewestFirstSplit(sorted: seq<LeaveRecord>, k: nat)
    requires NewestFirst(sorted) && k <= |sorted|
    ensures forall x, y :: x in sorted[..k] && y in sorted[k..] ==> NoOlder(x, y)
  {
    forall x, y | x in sorted[..k] && y in sorted[k..]
      ensures NoOlder(x, y)
    {
      var i :| 0 <= i < k && sorted[..k][i] == x;
      var j :| 0 <= j < |sorted| - k && sorted[k..][j] == y;
      assert sorted[i] == x && sorted[k + j] == y;
    }
  }

  /** The overview lists min(10, n) records, newest first, taken from the input, and every
      record left out is no newer than every record listed. */
  lemma RecentLeavesSpec(records: seq<LeaveRecord>)
    ensures |RecentLeaves(records)| == Min(RecentLimit, |records|)
    ensures NewestFirst(RecentLeaves(records))
    ensures multiset(RecentLeaves(records)) <= multiset(records)
    ensures forall x, y :: x in RecentLeaves(records) && y in multiset(records) - multiset(RecentLeaves(records))
                           ==> NoOlder(x, y)
  {
    var sorted := SortNewestFirst(records);
    var k := Min(RecentLimit, |records|);
    var recent := sorted[..k];
    SortNewestFirstSorted(records);
    NewestFirstSplit(sorted, k);
    assert sorted == recent + sorted[k..];
    assert multiset(records) - multiset(recent) == multiset(sorted[k..]);
  }

  // ---------------------------------------------------------------- status and age filter

  /** The instant `daysFilter` days before `now`. */
  function Cutoff(now: int, days: int): int
  {
    now - days * MsPerDay
  }

  /** The predicate of `filterRecentLeaves`. A timestamp that does not parse is never before
      the cutoff, so such a record passes the age test. */
  function PassesOverviewFilter(statusFilter: string, cutoff: int): LeaveRecord -> bool
  {
    (r: LeaveRecord) => (statusFilter == "all" || r.status == statusFilter)
         && !(r.timestamp.Some? && r.timestamp.value < cutoff)
  }

  /** `filterRecentLeaves`: the matching records in sheet order, of which the first ten are shown. */
  function FilteredRecent(records: seq<LeaveRecord>, statusFilter: string, days: int, now: int): seq<LeaveRecord>
  {
    var kept := Filter(records, PassesOverviewFilter(statusFilter, Cutoff(now, days)));
    kept[..Min(RecentLimit, |kept|)]
  }

  /** The first ten of the passing records, all of them when fewer pass, in sheet order; each
      has the chosen status (unless the filter is "all") and a timestamp no earlier than the
      cutoff; and when no more than ten match, every one of them is shown. */
  lemma FilteredRecentSpec(records: seq<LeaveRecord>, statusFilter: string, days: int, now: int)
    ensures |FilteredRecent(records, statusFilter, days, now)|
            == Min(RecentLimit, |Filter(records, PassesOverviewFilter(statusFilter, Cutoff(now, days)))|)
    ensures forall i :: 0 <= i < |FilteredRecent(records, statusFilter, days, now)| ==>
              FilteredRecent(records, statusFilter, days, now)[i]
              == Filter(records, PassesOverviewFilter(statusFilter, Cutoff(now, days)))[i]
    ensures IsSubsequence(FilteredRecent(records, statusFilter, days, now), records)
    ensures forall x :: x in FilteredRecent(records, statusFilter, days, now) ==>
              (statusFilter == "all" || x.status == statusFilter)
              && (x.timestamp.Some? ==> x.timestamp.value >= now - days * MsPerDay)
    ensures |Filter(records, PassesOverviewFilter(statusFilter, Cutoff(now, days)))| <= RecentLimit ==>
              forall x :: x in records && PassesOverviewFilter(statusFilter, Cutoff(now, days))(x) ==>
                x in FilteredRecent(records, statusFilter, days, now)
  {
    var p := PassesOverviewFilter(statusFilter, Cutoff(now, days));
    var kept := Filter(records, p);
    var k := Min(RecentLimit, |kept|);
    var shown := FilteredRecent(records, statusFilter, days, now);
    assert shown == kept[..k];
    FilterPrefix(records, p, k);
    forall x | x in shown
      ensures (statusFilter == "all" || x.status == statusFilter)
              && (x.timestamp.Some? ==> x.timestamp.value >= now - days * MsPerDay)
    {
      assert p(x);
    }
    if |kept| <= RecentLimit {
      assert shown == kept;
      FilterComplete(records, p);
    }
  }

  // ---------------------------------------------------------------- section tables

  /** The status a sidebar section lists, if it lists one status. */
  function SectionStatus(section: string): Option<string>
  {
    if section == "pending" then Some(Pending)
    else if section == "approved" then Some(Approved)
    else if section == "rejected" then Some(Rejected)
    else None
  }

  /** `loadSectionData`'s selection. */
  function SectionLeaves(records: seq<LeaveRecord>, section: string): seq<LeaveRecord>
  {
    match SectionStatus(section)
    case Some(status) => Filter(records, HasStatus(status))
    case None => records
  }

  /** The pending, approved and rejected sections keep exactly the records with that status,
      every copy of them, in sheet order; any other section keeps all the records. */
  lemma SectionLeavesSpec(records: seq<LeaveRecord>, section: string)
    ensures IsSubsequence(SectionLeaves(records, section), records)
    ensures SectionStatus(section).None? ==> SectionLeaves(records, section) == records
    ensures SectionStatus(section).Some? ==>
              forall x :: multiset(SectionLeaves(records, section))[x]
                          == if x.status == SectionStatus(section).value then multiset(records)[x] else 0
  {
    match SectionStatus(section)
    case Some(status) =>
      FilterIsSubsequence(records, HasStatus(status));
      FilterMultiset(records, HasStatus(status));
    case None =>
      SubsequenceReflexive(records);
  }

  // ---------------------------------------------------------------- search

  /** The search test: the term occurs in the lowercased name, PRN, branch or division. */
  function MatchesTerm(term: string): LeaveRecord -> bool
  {
    (r: LeaveRecord) => Contains(Lower(r.fullName), term) || Contains(Lower(r.prn), term)
         || Contains(Lower(r.branch), term) || Contains(Lower(r.division), term)
  }

  /** `handleSearch`: the query is lowercased and trimmed; an empty term keeps everything. */
  function SearchLeaves(records: seq<LeaveRecord>, query: string): seq<LeaveRecord>
  {
    var term := Trim(Lower(query));
    if term == [] then records else Filter(records, MatchesTerm(term))
  }

  /** A blank or white-space-only query returns the records unchanged. */
  lemma SearchBlankIsIdentity(records: seq<LeaveRecord>, query: string)
    requires forall i :: 0 <= i < |query| ==> IsWhitespace(query[i])
    ensures SearchLeaves(records, query) == records
  {
    var lowered := Lower(query);
    assert forall i :: 0 <= i < |lowered| ==> IsWhitespace(lowered[i]);
    TrimEmptyIff(lowered);
    assert Trim(lowered) == [];
  }

  /** Any other query keeps, in sheet order, exactly the records (every copy of them) whose
      lowercased name, PRN, branch or division contains the trimmed, lowercased query. */
  lemma SearchSpec(records: seq<LeaveRecord>, query: string)
    requires exists i :: 0 <= i < |query| && !IsWhitespace(query[i])
    ensures IsSubsequence(SearchLeaves(records, query), records)
    ensures forall x :: multiset(SearchLeaves(records, query))[x]
                        == if MatchesTerm(Trim(Lower(query)))(x) then multiset(records)[x] else 0
  {
    var i :| 0 <= i < |query| && !IsWhitespace(query[i]);
    var lowered := Lower(query);
    assert !IsWhitespace(lowered[i]);
    TrimEmptyIff(lowered);
    var p := MatchesTerm(Trim(lowered));
    assert SearchLeaves(records, query) == Filter(records, p);
    FilterIsSubsequence(records, p);
    FilterMultiset(records, p);
  }

  /** The search ignores the case of the query. */
  lemma SearchIgnoresQueryCase(records: seq<LeaveRecord>, query: string)
    ensures SearchLeaves(records, Lower(query)) == SearchLeaves(records, query)
  {
    LowerIdempotent(query);
  }

  // ---------------------------------------------------------------- review action

  /** The position of the first record with this PRN (`leavesData.find` then `indexOf`). */
  function FirstIndexOfPrn(records: seq<LeaveRecord>, prn: string): (i: Option<nat>)
    ensures i.Some? ==> i.value < |records| && records[i.value].prn == prn
                        && forall j :: 0 <= j < i.value ==> records[j].prn != prn
    ensures i.None? ==> forall j :: 0 <= j < |records| ==> records[j].prn != prn
  {
    if records == [] then None
    else if records[0].prn == prn then Some(0)
    else
      match FirstIndexOfPrn(records[1..], prn)
      case Some(k) => Some(k + 1)
      case None => None
  }

  /** Sheet rows are numbered from 1 and row 1 holds the column headings. `openActionModal`
      assumes that record `i` of the fetched list lives on row `i + 2`, which holds only
      when the backend returns every sheet row, in sheet order. */
  const FirstDataRow: int := 2

  /** The sheet row `openActionModal` will update for this PRN, if any record has it. */
  function SheetRowOf(records: seq<LeaveRecord>, prn: string): (row: Option<int>)
    ensures row.Some? <==> exists j :: 0 <= j < |records| && records[j].prn == prn
    ensures row.Some? ==> FirstDataRow <= row.value < |records| + FirstDataRow
                          && records[row.value - FirstDataRow].prn == prn
  {
    match FirstIndexOfPrn(records, prn)
    case Some(i) => Some(i + FirstDataRow)
    case None => None
  }

  /** When a student has several records, the action always lands on the row of the first
      one, whichever of them the button was shown for. */
  lemma ActionTargetsFirstRecord(records: seq<LeaveRecord>, i: nat, j: nat)
    requires i < j < |records| && records[i].prn == records[j].prn
    ensures SheetRowOf(records, records[j].prn) != Some(j + FirstDataRow)
  {
  }

  /** The status preselected in the review dialog. */
  function ActionStatus(action: string): (status: string)
    ensures IsKnownStatus(status)
    ensures status == Approved <==> action == "approve"
    ensures status == Rejected <==> action == "reject"
  {
    if action == "approve" then Approved
    else if action == "reject" then Rejected
    else Pending
  }
}
