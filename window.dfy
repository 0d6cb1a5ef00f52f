/**
 * Step 3 of `uploadAndSummarize`: the merged dates are listed, sorted, and cut down to the
 * seven days that end at the most recent one.
 */
module Window {
  import opened Wrappers
  import opened Model

  /** Sorted, and no date twice (the dates are the keys of a map). */
  predicate Ascending(days: seq<Day>) {
    forall i, j :: 0 <= i < j < |days| ==> days[i] < days[j]
  }

  /** The most recent of the dates. */
  ghost function Latest(keys: set<Day>): (m: Day)
    requires keys != {}
    ensures m in keys && forall d :: d in keys ==> d <= m
    decreases |keys|
  {
    SomeDay(keys);
    var x :| x in keys;
    assert forall d :: d in keys ==> d == x || d in keys - {x};
    if keys - {x} == {} then
      x
    else
      var m := Latest(keys - {x});
      if x < m then m else x
  }

  /** `!d.isBefore(max.minusDays(6))`: the date lies in the seven days that end at `latest`. */
  predicate InWeek(latest: Day, d: Day) {
    latest - 6 <= d
  }

  /** The first date of an ascending list is its earliest, and the rest are all the others, still ascending. */
  lemma AscendingHead(days: seq<Day>)
    requires Ascending(days) && days != []
    ensures forall d :: d in days ==> days[0] <= d
    ensures forall d :: d in days[1..] <==> d in days && d != days[0]
    ensures Ascending(days[1..])
  {
    forall d | d in days ensures days[0] <= d && (d in days[1..] <==> d != days[0]) {
      var k :| 0 <= k < |days| && days[k] == d;
      if k > 0 {
        assert days[1..][k - 1] == d;
      }
    }
  }

  /** Two ascending lists of the same dates are the same list: sorting leaves nothing open. */
  lemma {:induction false} AscendingUnique(a: seq<Day>, b: seq<Day>)
    requires Ascending(a) && Ascending(b)
    requires forall d :: d in a <==> d in b
    ensures a == b
    decreases |a|
  {
    assert a != [] ==> a[0] in a;
    assert b != [] ==> b[0] in b;
    if a != [] && b != [] {
      AscendingHead(a);
      AscendingHead(b);
      assert a[0] == b[0];
      AscendingUnique(a[1..], b[1..]);
      assert a == [a[0]] + a[1..] && b == [b[0]] + b[1..];
    }
  }

  /** An ascending list of dates that all lie between `lo` and `hi` has no more than `hi - lo + 1` of them. */
  lemma {:induction false} AscendingSpan(days: seq<Day>, lo: Day, hi: Day)
    requires Ascending(days)
    requires forall k :: 0 <= k < |days| ==> lo <= days[k] <= hi
    requires lo <= hi + 1
    ensures |days| <= hi - lo + 1
    decreases |days|
  {
    if days != [] {
      assert forall k :: 0 <= k < |days| - 1 ==> days[1..][k] == days[k + 1] && days[0] < days[k + 1];
      AscendingSpan(days[1..], days[0] + 1, hi);
    }
  }

  /** One insertion step of the sort: `d` goes in front of the first later date. */
  method InsertDay(days: seq<Day>, d: Day) returns (r: seq<Day>)
    requires Ascending(days) && d !in days
    ensures Ascending(r)
    ensures forall e :: e in r <==> e in days || e == d
  {
    var i := 0;
    while i < |days| && days[i] < d
      invariant 0 <= i <= |days|
      invariant forall k :: 0 <= k < i ==> days[k] < d
    {
      i := i + 1;
    }
    assert i < |days| ==> d < days[i];
    r := days[..i] + [d] + days[i..];
    assert forall k :: 0 <= k < |r| ==> r[k] == (if k < i then days[k] else if k == i then d else days[k - 1]);
  }

  /** `new ArrayList<>(byDate.keySet())` and `Collections.sort(days)`: the dates, ascending. */
  method SortedDays(keys: set<Day>) returns (days: seq<Day>)
    ensures days == SortedOf(keys)
  {
    var todo := keys;
    days := [];
    while todo != {}
      invariant todo <= keys
      invariant Ascending(days)
      invariant forall d :: d in days <==> d in keys && d !in todo
      decreases todo
    {
      SomeDay(todo);
      var d :| d in todo;
      days := InsertDay(days, d);
      todo := todo - {d};
    }
    AscendingUnique(days, SortedOf(keys));
  }

  /** A date later than every date of an ascending list can go at its end. */
  lemma LaterThanAll(days: seq<Day>, m: Day)
    requires Ascending(days) && forall d :: d in days ==> d < m
    ensures Ascending(days + [m])
  {
    assert forall k :: 0 <= k < |days| ==> days[k] in days;
  }

  /** The dates in ascending order, built from the latest backwards: the reference for the sort. */
  ghost function SortedOf(keys: set<Day>): (days: seq<Day>)
    ensures Ascending(days)
    ensures forall d :: d in days <==> d in keys
    decreases |keys|
  {
    if keys == {} then []
    else
      var m := Latest(keys);
      var rest := SortedOf(keys - {m});
      LaterThanAll(rest, m);
      rest + [m]
  }

  /** The sorted dates are empty only for no dates, and otherwise end with the latest. */
  lemma SortedEnds(keys: set<Day>)
    ensures SortedOf(keys) == [] <==> keys == {}
    ensures keys != {} ==> SortedOf(keys)[|SortedOf(keys)| - 1] == Latest(keys)
  {
  }

  /** `days.stream().filter(d -> !d.isBefore(from))`: the dates from `from` on, in their order. */
  function Since(days: seq<Day>, from: Day): (r: seq<Day>)
    ensures forall d :: d in r <==> d in days && from <= d
    ensures Ascending(days) ==> Ascending(r)
  {
    if days == [] then []
    else
      var rest := Since(days[1..], from);
      assert Ascending(days) ==> forall k :: 0 <= k < |rest| ==> days[0] < rest[k] by {
        if Ascending(days) {
          forall k | 0 <= k < |rest| ensures days[0] < rest[k] {
            assert rest[k] in days[1..];
          }
        }
      }
      if from <= days[0] then [days[0]] + rest else rest
  }

  /** The window a set of dates defines: the ascending dates of the seven days that end at the latest one. */
  ghost function Week(keys: set<Day>): seq<Day>
    requires keys != {}
  {
    Since(SortedOf(keys), Latest(keys) - 6)
  }

  /** The window is ascending and holds exactly the dates of the seven days that end at the latest one. */
  lemma WeekMembers(keys: set<Day>)
    requires keys != {}
    ensures Ascending(Week(keys))
    ensures forall d :: d in Week(keys) <==> d in keys && InWeek(Latest(keys), d)
  {
  }

  /** The window has between one and seven dates and ends with the latest. */
  lemma WeekShape(keys: set<Day>)
    requires keys != {}
    ensures 1 <= |Week(keys)| <= 7 && Week(keys)[|Week(keys)| - 1] == Latest(keys)
  {
    WeekMembers(keys);
    var max := Latest(keys);
    var week := Week(keys);
    assert max in week;
    forall k | 0 <= k < |week| ensures max - 6 <= week[k] <= max {
      assert week[k] in week;
    }
    AscendingSpan(week, max - 6, max);
    var last := week[|week| - 1];
    assert last == max by {
      var k :| 0 <= k < |week| && week[k] == max;
    }
  }

  /**
   * Only the window's dates decide the window: any subset of the dates that keeps all of the
   * window's has the same window.
   */
  lemma WeekOfSubset(keys: set<Day>, sub: set<Day>)
    requires keys != {} && sub <= keys
    requires forall d :: d in keys && InWeek(Latest(keys), d) ==> d in sub
    ensures sub != {} && Latest(sub) == Latest(keys) && Week(sub) == Week(keys)
  {
    var m := Latest(keys);
    assert m in sub;
    assert Latest(sub) == m by {
      var n := Latest(sub);
      assert n in keys;
    }
    WeekMembers(keys);
    WeekMembers(sub);
    AscendingUnique(Week(sub), Week(keys));
  }

  /**
   * The window of step 3: no dates at all is the "No data rows." error; otherwise the window
   * of the dates, as `Week` defines it.
   */
  method LastWeek(keys: set<Day>) returns (r: Result<seq<Day>, UploadError>)
    ensures r.Err? <==> keys == {}
    ensures r.Err? ==> r.error == NoData
    ensures r.Ok? ==> r.value == Week(keys)
  {
    var days := SortedDays(keys);
    SortedEnds(keys);
    if |days| == 0 {
      return Err(NoData);
    }
    var max := days[|days| - 1];
    var from := max - 6;
    var week := Since(days, from);
    return Ok(week);
  }
}
