/**
 * `HealthService`: the upload pipeline end to end and the summary it keeps. An upload either
 * aborts with the first exception of its steps, leaving the kept summary as it was, or replaces
 * the kept summary with the seven-day summary of the upload.
 */
module Service {
  import opened Wrappers
  import opened Model
  import opened Headers
  import opened Rows
  import opened Cells
  import opened Merge
  import opened Group
  import opened Window
  import opened Summary

  /** Every group merges into a sample (and none is empty, as `groupingBy` never makes an empty group). */
  predicate MergesAll(p: Parsers, groups: map<Day, seq<Row>>) {
    forall d :: d in groups ==> Merges(p, groups[d])
  }

  /** The rows of one date merge into a sample. */
  predicate Merges(p: Parsers, raw: seq<Row>) {
    raw != [] && Merged(p, raw).Ok?
  }

  /** The merged sample of every date: the `byDate` map of step 2. */
  function Daily(p: Parsers, groups: map<Day, seq<Row>>): map<Day, DailySample>
    requires MergesAll(p, groups)
  {
    map d | d in groups :: Merged(p, groups[d]).value
  }

  /** The summary of the window of a non-empty map of daily samples: the days of `Week`, in order, reduced. */
  ghost function WeekSummary(byDate: map<Day, DailySample>): Summary7d
    requires byDate.Keys != {}
  {
    var keys := byDate.Keys;
    WeekMembers(keys);
    var week := Week(keys);
    assert forall k :: 0 <= k < |week| ==> week[k] in keys by {
      forall k | 0 <= k < |week| ensures week[k] in keys {
        assert week[k] in week;
      }
    }
    SummaryOf(Samples(byDate, week))
  }

  /** `rows` are the records decoded under `cols`, a resolution of the lookups the index allows. */
  ghost predicate ReadUnder(idx: Index, records: seq<seq<string>>, cols: map<Field, string>, rows: seq<Row>) {
    && ValidColumns(idx, Lookups(), cols)
    && |rows| == |records|
    && (forall k :: 0 <= k < |records| ==> Decoded(idx, cols, records[k], rows[k]))
  }

  /** Every date of the rows parses, every date's rows merge, and `summary` is the summary of their window. */
  ghost predicate SummarizesRows(p: Parsers, rows: seq<Row>, summary: Summary7d) {
    && Groups(p, rows).Ok?
    && MergesAll(p, Groups(p, rows).value)
    && Daily(p, Groups(p, rows).value).Keys != {}
    && summary == WeekSummary(Daily(p, Groups(p, rows).value))
  }

  /** The goal counts of the summary of a window are at most seven, one per day of the window. */
  lemma WeekGoalsAtMostSeven(byDate: map<Day, DailySample>, g: Goal)
    requires byDate.Keys != {}
    ensures 0 <= GoalCount(WeekSummary(byDate), g) <= 7
  {
    var keys := byDate.Keys;
    WeekMembers(keys);
    WeekShape(keys);
    var week := Week(keys);
    assert forall k :: 0 <= k < |week| ==> week[k] in week;
    WeekGoalDays(Samples(byDate, week), g);
  }

  /**
   * Only the window counts: dropping dates before it, or changing their samples, leaves the
   * summary as it was.
   */
  lemma EarlierDatesIgnored(byDate: map<Day, DailySample>, other: map<Day, DailySample>)
    requires byDate.Keys != {} && other.Keys <= byDate.Keys
    requires forall d :: d in byDate && InWeek(Latest(byDate.Keys), d) ==> d in other && other[d] == byDate[d]
    ensures other.Keys != {} && WeekSummary(other) == WeekSummary(byDate)
  {
    var keys := byDate.Keys;
    WeekOfSubset(keys, other.Keys);
    WeekMembers(keys);
    var week := Week(keys);
    forall k | 0 <= k < |week| ensures week[k] in byDate && week[k] in other && other[week[k]] == byDate[week[k]] {
      assert week[k] in week;
    }
    SamplesAgree(other, byDate, week);
  }

  /** The samples of the same dates from two maps that agree on them are the same. */
  lemma SamplesAgree(a: map<Day, DailySample>, b: map<Day, DailySample>, days: seq<Day>)
    requires forall k :: 0 <= k < |days| ==> days[k] in a && days[k] in b && a[days[k]] == b[days[k]]
    ensures Samples(a, days) == Samples(b, days)
  {
  }

  /** Every required field has a header the index can resolve. */
  predicate ColumnsResolvable(idx: Index) {
    forall i :: 0 <= i < |Lookups()| && Required(Lookups()[i].field) ==> Resolvable(idx, Lookups()[i].aliases)
  }

  /**
   * Step 1: the header index, the column lookups and the record loop. A repeated header, a
   * required column that cannot be found or a record too short for a column aborts.
   */
  method ReadUpload(header: seq<string>, records: seq<seq<string>>) returns (r: Result<seq<Row>, UploadError>)
    ensures IndexOf(header).Err? ==> r == Err(IndexOf(header).error)
    ensures IndexOf(header).Ok? && !ColumnsResolvable(IndexOf(header).value) ==>
              r.Err? && exists j :: FirstMissing(IndexOf(header).value, Lookups(), j) && r.error == MissingColumn(Lookups()[j].aliases)
    ensures r.Ok? ==> IndexOf(header).Ok? && ColumnsResolvable(IndexOf(header).value)
    ensures r.Ok? ==> exists cols :: ReadUnder(IndexOf(header).value, records, cols, r.value)
    ensures IndexOf(header).Ok? && ColumnsResolvable(IndexOf(header).value) && records == [] ==> r == Ok([])
    ensures r.Err? && IndexOf(header).Ok? && ColumnsResolvable(IndexOf(header).value) ==>
              exists cols, k, j :: && ValidColumns(IndexOf(header).value, Lookups(), cols)
                                   && FirstShortRecord(IndexOf(header).value, cols, records, k)
                                   && FirstOutOfRange(IndexOf(header).value, cols, records[k], j)
                                   && r.error == OutOfRange(IndexOf(header).value, cols, records[k], j)
  {
    var idx := IndexOf(header);
    if idx.Err? {
      return Err(idx.error);
    }
    LookupsComplete();
    var cols := ResolveColumns(idx.value, Lookups());
    if cols.Err? {
      return Err(cols.error);
    }
    var rows := DecodeRecords(idx.value, cols.value, records);
    if rows.Err? {
      return Err(rows.error);
    }
    assert ReadUnder(idx.value, records, cols.value, rows.value);
    return rows;
  }

  /**
   * Step 2: `groupingBy` on the parsed date, then every group merged. A date that does not
   * parse or a cell that does not convert aborts.
   */
  method CollapseByDate(p: Parsers, rows: seq<Row>) returns (r: Result<map<Day, DailySample>, UploadError>)
    ensures Groups(p, rows).Err? ==> r == Err(Groups(p, rows).error)
    ensures r.Ok? ==> Groups(p, rows).Ok? && MergesAll(p, Groups(p, rows).value) && r.value == Daily(p, Groups(p, rows).value)
    ensures r.Ok? ==> (r.value.Keys == {} <==> rows == [])
    ensures rows == [] ==> r.Ok?
    ensures Groups(p, rows).Ok? && MergesAll(p, Groups(p, rows).value) ==> r.Ok?
    ensures r.Err? && Groups(p, rows).Ok? ==>
              exists d :: d in Groups(p, rows).value && Groups(p, rows).value[d] != [] && Merged(p, Groups(p, rows).value[d]) == Err(r.error)
  {
    var groups := Groups(p, rows);
    if groups.Err? {
      return Err(groups.error);
    }
    GroupsKeys(p, rows);
    var byDate := MergeGroups(p, groups.value);
    if byDate.Err? {
      return Err(byDate.error);
    }
    assert rows != [] ==> groups.value.Keys != {} by {
      if rows != [] {
        GroupsCover(p, rows, 0);
      }
    }
    return byDate;
  }

  /** Steps 3 and 4: the window of the dates and the reduction over it; no dates is "No data rows.". */
  method SummarizeWeek(byDate: map<Day, DailySample>) returns (r: Result<Summary7d, UploadError>)
    ensures r.Err? <==> byDate.Keys == {}
    ensures r.Err? ==> r.error == NoData
    ensures r.Ok? ==> r.value == WeekSummary(byDate)
  {
    var week := LastWeek(byDate.Keys);
    if week.Err? {
      return Err(week.error);
    }
    WeekMembers(byDate.Keys);
    assert forall k :: 0 <= k < |week.value| ==> week.value[k] in week.value;
    var summary := Reduce(byDate, week.value);
    return Ok(summary);
  }

  /** Steps 2 to 4: a date that does not parse, a cell that does not convert, or no rows at all aborts. */
  method SummarizeRows(p: Parsers, rows: seq<Row>) returns (r: Result<Summary7d, UploadError>)
    ensures r.Ok? ==> SummarizesRows(p, rows, r.value)
    ensures Groups(p, rows).Err? ==> r == Err(Groups(p, rows).error)
    ensures rows == [] ==> r == Err(NoData)
    ensures r.Ok? ==> rows != []
    ensures Groups(p, rows).Ok? && MergesAll(p, Groups(p, rows).value) && rows != [] ==> r.Ok?
  {
    var byDate := CollapseByDate(p, rows);
    if byDate.Err? {
      return Err(byDate.error);
    }
    r := SummarizeWeek(byDate.value);
  }

  class HealthService {
    /** The summary of the last successful upload, `null` until there is one. */
    var latest: Option<Summary7d>

    constructor()
      ensures latest == None
    {
      latest := None;
    }

    /** `getLatest`: the kept summary, unchanged. */
    method GetLatest() returns (r: Option<Summary7d>)
      ensures r == latest
    {
      r := latest;
    }

    /**
     * `uploadAndSummarize`: the header row and the records of the CSV file through the four
     * steps; the library parsers are `p`. Success keeps the new summary; failure keeps the old one.
     */
    method UploadAndSummarize(header: seq<string>, records: seq<seq<string>>, p: Parsers) returns (r: Result<Summary7d, UploadError>)
      modifies this
      ensures r.Ok? ==> latest == Some(r.value)
      ensures r.Err? ==> latest == old(latest)
      ensures IndexOf(header).Err? ==> r == Err(IndexOf(header).error)
      ensures IndexOf(header).Ok? && !ColumnsResolvable(IndexOf(header).value) ==>
                r.Err? && exists j :: FirstMissing(IndexOf(header).value, Lookups(), j) && r.error == MissingColumn(Lookups()[j].aliases)
      ensures IndexOf(header).Ok? && ColumnsResolvable(IndexOf(header).value) && records == [] ==> r == Err(NoData)
      ensures r.Ok? ==> IndexOf(header).Ok? && records != []
      ensures r.Ok? ==> exists cols, rows :: ReadUnder(IndexOf(header).value, records, cols, rows) && SummarizesRows(p, rows, r.value)
    {
      var rows := ReadUpload(header, records);
      if rows.Err? {
        return Err(rows.error);
      }
      r := SummarizeRows(p, rows.value);
      if r.Ok? {
        latest := Some(r.value);
      }
    }
  }
}
