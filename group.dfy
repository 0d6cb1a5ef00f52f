/**
 * Step 2 of `uploadAndSummarize`: the decoded rows are grouped by their parsed date
 * (`Collectors.groupingBy`), and each group is merged by `toDailySamples` into the sample of
 * its date (`Collectors.toMap` over the groups, in hash order).
 */
module Group {
  import opened Wrappers
  import opened Model
  import opened Cells
  import opened Merge

  /** The date of each row, in order, or the error of the first row whose date does not parse. */
  function Dates(p: Parsers, rows: seq<Row>): (r: Result<seq<Day>, UploadError>)
    ensures r.Ok? ==> |r.value| == |rows|
  {
    if rows == [] then Ok([])
    else
      var prior :- Dates(p, rows[..|rows| - 1]);
      var last :- ParseDate(p, Cell(rows[|rows| - 1], Date));
      Ok(prior + [last])
  }

  /** The rows whose date is `d`, in upload order: the list `groupingBy` collects for `d`. */
  function RowsOn(rows: seq<Row>, dates: seq<Day>, d: Day): seq<Row>
    requires |dates| == |rows|
  {
    if rows == [] then []
    else
      var prior := RowsOn(rows[..|rows| - 1], dates[..|dates| - 1], d);
      if dates[|dates| - 1] == d then prior + [rows[|rows| - 1]] else prior
  }

  /** How many of the dates are `d`. */
  function Count(dates: seq<Day>, d: Day): nat {
    if dates == [] then 0
    else Count(dates[..|dates| - 1], d) + (if dates[|dates| - 1] == d then 1 else 0)
  }

  /** `groupingBy(m -> parseDate(m.get("date")))`: one group per date that occurs. */
  function Groups(p: Parsers, rows: seq<Row>): Result<map<Day, seq<Row>>, UploadError> {
    var dates :- Dates(p, rows);
    Ok(map d | d in dates :: RowsOn(rows, dates, d))
  }

  /** Row k is the first whose date does not parse. */
  predicate FirstBadDate(p: Parsers, rows: seq<Row>, k: int) {
    && 0 <= k < |rows|
    && ParseDate(p, Cell(rows[k], Date)).Err?
    && forall i :: 0 <= i < k ==> ParseDate(p, Cell(rows[i], Date)).Ok?
  }

  /**
   * The dates are the rows' own, one by one; they fail exactly when some row's date does not
   * parse, with the error of the first such row.
   */
  lemma {:induction false} DatesEach(p: Parsers, rows: seq<Row>)
    ensures Dates(p, rows).Ok? <==> forall k :: 0 <= k < |rows| ==> ParseDate(p, Cell(rows[k], Date)).Ok?
    ensures Dates(p, rows).Ok? ==> forall k :: 0 <= k < |rows| ==> ParseDate(p, Cell(rows[k], Date)) == Ok(Dates(p, rows).value[k])
    ensures Dates(p, rows).Err? ==> exists k :: FirstBadDate(p, rows, k) && ParseDate(p, Cell(rows[k], Date)) == Err(Dates(p, rows).error)
  {
    if rows != [] {
      var init := rows[..|rows| - 1];
      DatesEach(p, init);
      assert forall k :: 0 <= k < |init| ==> init[k] == rows[k];
      if Dates(p, init).Err? {
        var k :| FirstBadDate(p, init, k) && ParseDate(p, Cell(init[k], Date)) == Err(Dates(p, init).error);
        assert FirstBadDate(p, rows, k);
      } else if Dates(p, rows).Err? {
        assert FirstBadDate(p, rows, |rows| - 1);
      }
    }
  }

  /**
   * The group of `d` holds exactly the rows dated `d`: each of its rows is one of them, every one
   * of them is in it, and it has as many rows as there are rows dated `d`.
   */
  lemma {:induction false} RowsOnExact(rows: seq<Row>, dates: seq<Day>, d: Day)
    requires |dates| == |rows|
    ensures forall r :: r in RowsOn(rows, dates, d) ==> exists k :: 0 <= k < |rows| && rows[k] == r && dates[k] == d
    ensures forall k :: 0 <= k < |rows| && dates[k] == d ==> rows[k] in RowsOn(rows, dates, d)
    ensures |RowsOn(rows, dates, d)| == Count(dates, d)
  {
    if rows != [] {
      var init, dinit := rows[..|rows| - 1], dates[..|dates| - 1];
      RowsOnExact(init, dinit, d);
      assert forall k :: 0 <= k < |init| ==> init[k] == rows[k] && dinit[k] == dates[k];
    }
  }

  /** A date that occurs has at least one row. */
  lemma {:induction false} CountPositive(dates: seq<Day>, d: Day)
    ensures d in dates <==> Count(dates, d) > 0
  {
    if dates != [] {
      var init := dates[..|dates| - 1];
      CountPositive(init, d);
      assert dates == init + [dates[|dates| - 1]];
    }
  }

  /** Grouping fails exactly when some row's date does not parse, with the error of the first such row. */
  lemma GroupsFail(p: Parsers, rows: seq<Row>)
    ensures Groups(p, rows).Ok? <==> forall k :: 0 <= k < |rows| ==> ParseDate(p, Cell(rows[k], Date)).Ok?
    ensures Groups(p, rows).Err? ==>
              exists k :: FirstBadDate(p, rows, k) && ParseDate(p, Cell(rows[k], Date)) == Err(Groups(p, rows).error)
  {
    DatesEach(p, rows);
  }

  /** There is one group per date that occurs among the rows, and none is empty. */
  lemma GroupsKeys(p: Parsers, rows: seq<Row>)
    requires Groups(p, rows).Ok?
    ensures forall d :: d in Groups(p, rows).value <==> exists k :: 0 <= k < |rows| && ParseDate(p, Cell(rows[k], Date)) == Ok(d)
    ensures forall d :: d in Groups(p, rows).value ==> Groups(p, rows).value[d] != []
  {
    DatesEach(p, rows);
    var dates := Dates(p, rows).value;
    var g := Groups(p, rows).value;
    forall d | d in g ensures g[d] != [] {
      RowsOnExact(rows, dates, d);
      CountPositive(dates, d);
    }
  }

  /** Every row of the group of `d` is one of the rows, dated `d`. */
  lemma GroupsDated(p: Parsers, rows: seq<Row>, d: Day)
    requires Groups(p, rows).Ok? && d in Groups(p, rows).value
    ensures forall r :: r in Groups(p, rows).value[d] ==> r in rows && ParseDate(p, Cell(r, Date)) == Ok(d)
  {
    DatesEach(p, rows);
    RowsOnExact(rows, Dates(p, rows).value, d);
  }

  /** Every row is in the group of its own date. */
  lemma GroupsCover(p: Parsers, rows: seq<Row>, k: nat)
    requires Groups(p, rows).Ok? && k < |rows|
    ensures ParseDate(p, Cell(rows[k], Date)).Ok?
    ensures ParseDate(p, Cell(rows[k], Date)).value in Groups(p, rows).value
    ensures rows[k] in Groups(p, rows).value[ParseDate(p, Cell(rows[k], Date)).value]
  {
    DatesEach(p, rows);
    var dates := Dates(p, rows).value;
    RowsOnExact(rows, dates, dates[k]);
  }

  /** The merged sample of every group carries the group's own date. */
  lemma MergedDateIsKey(p: Parsers, rows: seq<Row>, d: Day)
    requires Groups(p, rows).Ok? && d in Groups(p, rows).value
    ensures Groups(p, rows).value[d] != []
    ensures Merged(p, Groups(p, rows).value[d]).Ok? ==> Merged(p, Groups(p, rows).value[d]).value.date == d
  {
    GroupsKeys(p, rows);
    GroupsDated(p, rows, d);
    var raw := Groups(p, rows).value[d];
    assert raw[0] in raw;
    MergedOk(p, raw);
  }

  /** The outcome of merging each group, keyed by date. */
  function Outcomes(p: Parsers, groups: map<Day, seq<Row>>): map<Day, Result<DailySample, UploadError>>
    requires forall d :: d in groups ==> groups[d] != []
  {
    map d | d in groups :: Merged(p, groups[d])
  }

  /**
   * `toMap(Map.Entry::getKey, e -> toDailySamples(e.getValue()))`: every group merged, in hash
   * order. When several groups fail, which error surfaces depends on that order, so the model
   * only promises that it is the error of one of them.
   */
  method MergeGroups(p: Parsers, groups: map<Day, seq<Row>>) returns (r: Result<map<Day, DailySample>, UploadError>)
    requires forall d :: d in groups ==> groups[d] != []
    ensures r.Ok? ==> r.value.Keys == groups.Keys && forall d :: d in groups ==> Outcomes(p, groups)[d] == Ok(r.value[d])
    ensures r.Err? ==> exists d :: d in groups && Outcomes(p, groups)[d] == Err(r.error)
  {
    var todo := groups.Keys;
    var done: map<Day, DailySample> := map[];
    while todo != {}
      invariant todo <= groups.Keys
      invariant done.Keys == groups.Keys - todo
      invariant forall d :: d in done ==> Outcomes(p, groups)[d] == Ok(done[d])
      decreases todo
    {
      SomeDay(todo);
      var d :| d in todo;
      var s := MergeDay(p, groups[d]);
      if s.Err? {
        return Err(s.error);
      }
      done := done[d := s.value];
      todo := todo - {d};
    }
    return Ok(done);
  }
}
