/**
 * The statistical helpers of HealthService: sums, `avg`, `avgD`, `avgInt`,
 * `minD`, `minInt`, `maxInt`, `median`, `Math.round` and `round2`, over exact reals.
 */
module Stats {
  import opened Wrappers

  function Sum(s: seq<real>): real {
    if s == [] then 0.0 else Sum(s[..|s| - 1]) + s[|s| - 1]
  }

  function SumInt(s: seq<int>): int {
    if s == [] then 0 else SumInt(s[..|s| - 1]) + s[|s| - 1]
  }

  /** The least element of a non-empty list. */
  function MinReal(s: seq<real>): (m: real)
    requires |s| > 0
    ensures m in s && forall i :: 0 <= i < |s| ==> m <= s[i]
  {
    if |s| == 1 then s[0]
    else
      var m := MinReal(s[..|s| - 1]);
      assert forall i :: 0 <= i < |s| - 1 ==> s[i] == s[..|s| - 1][i];
      if s[|s| - 1] < m then s[|s| - 1] else m
  }

  /** The greatest element of a non-empty list. */
  function MaxReal(s: seq<real>): (m: real)
    requires |s| > 0
    ensures m in s && forall i :: 0 <= i < |s| ==> s[i] <= m
  {
    if |s| == 1 then s[0]
    else
      var m := MaxReal(s[..|s| - 1]);
      assert forall i :: 0 <= i < |s| - 1 ==> s[i] == s[..|s| - 1][i];
      if s[|s| - 1] > m then s[|s| - 1] else m
  }

  function MinOfInts(s: seq<int>): (m: int)
    requires |s| > 0
    ensures m in s && forall i :: 0 <= i < |s| ==> m <= s[i]
  {
    if |s| == 1 then s[0]
    else
      var m := MinOfInts(s[..|s| - 1]);
      assert forall i :: 0 <= i < |s| - 1 ==> s[i] == s[..|s| - 1][i];
      if s[|s| - 1] < m then s[|s| - 1] else m
  }

  function MaxOfInts(s: seq<int>): (m: int)
    requires |s| > 0
    ensures m in s && forall i :: 0 <= i < |s| ==> s[i] <= m
  {
    if |s| == 1 then s[0]
    else
      var m := MaxOfInts(s[..|s| - 1]);
      assert forall i :: 0 <= i < |s| - 1 ==> s[i] == s[..|s| - 1][i];
      if s[|s| - 1] > m then s[|s| - 1] else m
  }

  /** A sum of values in [lo, hi] lies between |s|*lo and |s|*hi. */
  lemma {:induction false} SumBounds(s: seq<real>, lo: real, hi: real)
    requires forall i :: 0 <= i < |s| ==> lo <= s[i] <= hi
    ensures |s| as real * lo <= Sum(s) <= |s| as real * hi
  {
    if s != [] {
      var n := |s| - 1;
      var init := s[..n];
      assert forall i :: 0 <= i < n ==> init[i] == s[i];
      SumBounds(init, lo, hi);
      assert n as real * lo + lo == |s| as real * lo;
      assert n as real * hi + hi == |s| as real * hi;
    }
  }

  lemma MeanBounds(total: real, n: real, lo: real, hi: real)
    requires n > 0.0 && n * lo <= total <= n * hi
    ensures lo <= total / n <= hi
  {
  }

  /** The arithmetic mean of a non-empty list lies between its least and greatest element. */
  function Mean(s: seq<real>): (m: real)
    requires |s| > 0
    ensures MinReal(s) <= m <= MaxReal(s)
  {
    var lo, hi, n := MinReal(s), MaxReal(s), |s| as real;
    SumBounds(s, lo, hi);
    MeanBounds(Sum(s), n, lo, hi);
    Sum(s) / n
  }

  /** `avg`: 0.0 for the empty list (not null), the mean otherwise. */
  function Avg(s: seq<real>): (r: real)
    ensures |s| == 0 ==> r == 0.0
    ensures |s| > 0 ==> r == Mean(s)
  {
    if |s| == 0 then 0.0 else Mean(s)
  }

  /** `avgD`: null for the empty list, the mean otherwise. */
  function AvgD(s: seq<real>): (r: Option<real>)
    ensures r.None? <==> |s| == 0
    ensures r.Some? ==> r.value == Mean(s)
  {
    if |s| == 0 then None else Some(Mean(s))
  }

  /** `Math.round`: the nearest integer, halves rounded up. */
  function Round(x: real): (r: int)
    ensures r as real - 0.5 <= x < r as real + 0.5
  {
    (x + 0.5).Floor
  }

  /** Rounding a value that lies between two integers stays between them. */
  lemma RoundBetween(x: real, lo: int, hi: int)
    requires lo as real <= x <= hi as real
    ensures lo <= Round(x) <= hi
  {
  }

  /** A whole number of hundredths. */
  function Hundredths(n: int): real {
    n as real / 100.0
  }

  /** `round2`: `Math.round(v * 100.0) / 100.0`, the nearest hundredth, halves up. */
  function Round2(v: real): (r: real)
    ensures exists n: int :: r == Hundredths(n) && n as real - 0.5 <= v * 100.0 < n as real + 0.5
    ensures v - 0.005 < r <= v + 0.005
  {
    Hundredths(Round(v * 100.0))
  }

  /** A sum of whole numbers in [lo, hi] lies between |s|*lo and |s|*hi. */
  lemma {:induction false} SumIntBounds(s: seq<int>, lo: int, hi: int)
    requires forall i :: 0 <= i < |s| ==> lo <= s[i] <= hi
    ensures |s| * lo <= SumInt(s) <= |s| * hi
  {
    if s != [] {
      var n := |s| - 1;
      var init := s[..n];
      assert forall i :: 0 <= i < n ==> init[i] == s[i];
      SumIntBounds(init, lo, hi);
      assert n * lo + lo == |s| * lo;
      assert n * hi + hi == |s| * hi;
    }
  }

  /** A whole-number mean bounded by whole numbers, as a real. */
  lemma IntMean(total: int, n: int, lo: int, hi: int)
    requires n > 0 && n * lo <= total <= n * hi
    ensures lo as real <= total as real / n as real <= hi as real
  {
    assert (n * lo) as real == n as real * lo as real;
    assert (n * hi) as real == n as real * hi as real;
    MeanBounds(total as real, n as real, lo as real, hi as real);
  }

  /** The mean of a non-empty list of whole numbers lies between its least and greatest element. */
  lemma IntMeanBounds(s: seq<int>)
    requires |s| > 0
    ensures MinOfInts(s) as real <= SumInt(s) as real / |s| as real <= MaxOfInts(s) as real
  {
    SumIntBounds(s, MinOfInts(s), MaxOfInts(s));
    IntMean(SumInt(s), |s|, MinOfInts(s), MaxOfInts(s));
  }

  /** `avgInt`: null for the empty list, otherwise the rounded mean, between the least and greatest element. */
  function AvgInt(s: seq<int>): (r: Option<int>)
    ensures r.None? <==> |s| == 0
    ensures r.Some? ==> MinOfInts(s) <= r.value <= MaxOfInts(s)
    ensures r.Some? ==> r.value as real - 0.5 <= SumInt(s) as real / |s| as real < r.value as real + 0.5
  {
    if |s| == 0 then None
    else
      var x := SumInt(s) as real / |s| as real;
      IntMeanBounds(s);
      RoundBetween(x, MinOfInts(s), MaxOfInts(s));
      Some(Round(x))
  }

  /** `minD`: null for the empty list, otherwise its least element. */
  function MinD(s: seq<real>): (r: Option<real>)
    ensures r.None? <==> |s| == 0
    ensures r.Some? ==> r.value in s && forall i :: 0 <= i < |s| ==> r.value <= s[i]
  {
    if |s| == 0 then None else Some(MinReal(s))
  }

  /** `minInt`: null for the empty list, otherwise its least element. */
  function MinInt(s: seq<int>): (r: Option<int>)
    ensures r.None? <==> |s| == 0
    ensures r.Some? ==> r.value in s && forall i :: 0 <= i < |s| ==> r.value <= s[i]
  {
    if |s| == 0 then None else Some(MinOfInts(s))
  }

  /** `maxInt`: null for the empty list, otherwise its greatest element. */
  function MaxInt(s: seq<int>): (r: Option<int>)
    ensures r.None? <==> |s| == 0
    ensures r.Some? ==> r.value in s && forall i :: 0 <= i < |s| ==> s[i] <= r.value
  {
    if |s| == 0 then None else Some(MaxOfInts(s))
  }

  // ---- median: sort a private copy, take the middle (or the mean of the two middles) ----

  predicate Sorted(s: seq<real>) {
    forall i, j :: 0 <= i < j < |s| ==> s[i] <= s[j]
  }

  function Insert(s: seq<real>, x: real): (r: seq<real>)
    requires Sorted(s)
    ensures Sorted(r) && multiset(r) == multiset(s) + multiset{x}
    ensures |r| == |s| + 1 && (r[0] == x || (s != [] && r[0] == s[0]))
  {
    if s == [] then [x]
    else if x <= s[0] then PrependSorted(x, s); [x] + s
    else
      var rest := Insert(s[1..], x);
      assert s == [s[0]] + s[1..];
      PrependSorted(s[0], rest);
      [s[0]] + rest
  }

  lemma {:induction false} PrependSorted(x: real, s: seq<real>)
    requires Sorted(s) && (s == [] || x <= s[0])
    ensures Sorted([x] + s)
  {
    var r := [x] + s;
    forall i, j | 0 <= i < j < |r| ensures r[i] <= r[j] {
      if i == 0 && j > 1 { assert s[0] <= s[j - 1]; }
    }
  }

  /** `Collections.sort` on a copy: a sorted permutation of the list. */
  function Sort(s: seq<real>): (r: seq<real>)
    ensures Sorted(r) && multiset(r) == multiset(s)
  {
    if s == [] then []
    else
      assert s == s[..|s| - 1] + [s[|s| - 1]];
      Insert(Sort(s[..|s| - 1]), s[|s| - 1])
  }

  /** A sorted arrangement of a multiset is unique. */
  lemma {:induction false} SortedUnique(a: seq<real>, b: seq<real>)
    requires Sorted(a) && Sorted(b) && multiset(a) == multiset(b)
    ensures a == b
  {
    assert |a| == |multiset(a)| == |multiset(b)| == |b|;
    if a != [] {
      assert a[0] in multiset(a);
      assert a[0] in b;
      assert b[0] in multiset(b);
      assert b[0] in a;
      assert a[0] == b[0];
      assert a == [a[0]] + a[1..];
      assert b == [b[0]] + b[1..];
      assert multiset(a[1..]) == multiset(a) - multiset{a[0]};
      assert multiset(b[1..]) == multiset(b) - multiset{b[0]};
      SortedUnique(a[1..], b[1..]);
    }
  }

  lemma {:induction false} PermutedMembers(a: seq<real>, b: seq<real>)
    requires multiset(a) == multiset(b)
    ensures |a| == |b|
    ensures forall k :: 0 <= k < |a| ==> a[k] in b
  {
    assert |a| == |multiset(a)| == |multiset(b)| == |b|;
    forall k | 0 <= k < |a| ensures a[k] in b {
      assert a[k] in multiset(a);
    }
  }

  /** The middle element of a sorted list, or the mean of the two middle ones when its length is even. */
  function Middle(a: seq<real>): (m: real)
    requires |a| > 0 && Sorted(a)
    ensures a[(|a| - 1) / 2] <= m <= a[|a| / 2]
  {
    var n := |a|;
    if n % 2 == 0 then (a[n / 2 - 1] + a[n / 2]) / 2.0 else a[n / 2]
  }

  /** `median`: null for the empty list, otherwise the middle of the sorted copy, between min and max. */
  function Median(s: seq<real>): (r: Option<real>)
    ensures r.None? <==> |s| == 0
    ensures r.Some? ==> MinReal(s) <= r.value <= MaxReal(s)
    ensures |s| == 1 ==> r == Some(s[0])
  {
    if |s| == 0 then None
    else
      var a := Sort(s);
      PermutedMembers(a, s);
      assert |s| == 1 ==> a == s;
      Some(Middle(a))
  }

  /** The median does not depend on the order of the list. */
  lemma {:induction false} MedianOrderFree(s: seq<real>, t: seq<real>)
    requires multiset(s) == multiset(t)
    ensures Median(s) == Median(t)
  {
    SortedUnique(Sort(s), Sort(t));
    assert |s| == |multiset(s)| == |multiset(t)| == |t|;
    if |s| > 0 {
      assert Median(s) == Some(Middle(Sort(s)));
      assert Median(t) == Some(Middle(Sort(t)));
    }
  }
}
