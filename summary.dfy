/**
 * Step 4 of `uploadAndSummarize`: the samples of the window are reduced, day by day, into running
 * totals, goal counters and per-metric lists, which the statistical helpers then turn into the
 * seven-day `Summary7d`.
 */
module Summary {
  import opened Wrappers
  import opened Stats
  import opened Model

  /** The loop's running state: the totals, the goal counters and the lists the metrics are collected in. */
  datatype Tally = Tally(
    totalActive: real,
    totalResting: real,
    distance: real,
    standMinutes: real,
    steps: int,
    standGoalDays: int,
    moveGoalDays: int,
    hrAvgs: seq<int>,
    hrMins: seq<int>,
    hrMaxs: seq<int>,
    restingHrs: seq<int>,
    restingHrMins: seq<int>,
    restingHrMaxs: seq<int>,
    walkHrs: seq<int>,
    hrvs: seq<real>,
    speeds: seq<real>,
    stepLens: seq<real>,
    doubleSupports: seq<real>,
    asymmetries: seq<real>,
    stairUps: seq<real>,
    stairDowns: seq<real>,
    audioLevels: seq<real>,
    spo2s: seq<real>,
    spo2Mins: seq<real>,
    exerciseMins: seq<real>)

  /** The state before the first day: zero totals, no goal days, empty lists. */
  const NoDays := Tally(0.0, 0.0, 0.0, 0.0, 0, 0, 0, [], [], [], [], [], [], [], [], [], [], [], [], [], [], [], [], [], [])

  /** The seven-day stand goal: at least 12 stand hours. */
  const StandGoalHours := 12.0

  /** The seven-day move goal: at least 500 active kilocalories. */
  const MoveGoalKcal := 500.0

  /** One iteration of the reduce loop: the day is added to the totals, counted against the goals, and its present metrics appended. */
  function Add(t: Tally, s: DailySample): Tally {
    t.(
      totalActive := t.totalActive + s.activeEnergyKcal,
      totalResting := t.totalResting + s.restingEnergyKcal,
      distance := t.distance + s.distanceMi,
      steps := t.steps + s.steps,
      standMinutes := t.standMinutes + s.standMinutes,
      standGoalDays := t.standGoalDays + (if s.standHourCount >= StandGoalHours then 1 else 0),
      moveGoalDays := t.moveGoalDays + (if s.activeEnergyKcal >= MoveGoalKcal then 1 else 0),
      hrAvgs := t.hrAvgs + AsSeq(s.hrAvg),
      hrMins := t.hrMins + AsSeq(s.hrMin),
      hrMaxs := t.hrMaxs + AsSeq(s.hrMax),
      restingHrs := t.restingHrs + AsSeq(s.restingHr),
      restingHrMins := t.restingHrMins + AsSeq(s.restingHr),
      restingHrMaxs := t.restingHrMaxs + AsSeq(s.restingHr),
      walkHrs := t.walkHrs + AsSeq(s.walkHrAvg),
      hrvs := t.hrvs + AsSeq(s.hrvMs),
      speeds := t.speeds + AsSeq(s.walkSpeedMph),
      stepLens := t.stepLens + AsSeq(s.walkStepLenIn),
      doubleSupports := t.doubleSupports + AsSeq(s.walkDoubleSupportPct),
      asymmetries := t.asymmetries + AsSeq(s.walkAsymPct),
      stairUps := t.stairUps + AsSeq(s.stairUpFtPerSec),
      stairDowns := t.stairDowns + AsSeq(s.stairDownFtPerSec),
      audioLevels := t.audioLevels + AsSeq(s.envAudioDbA),
      spo2s := t.spo2s + AsSeq(s.spo2Pct),
      spo2Mins := t.spo2Mins + AsSeq(s.spo2Pct),
      exerciseMins := t.exerciseMins + [s.exerciseMin])
  }

  /** The state after the loop has seen the samples, in order. */
  function TallyOf(ss: seq<DailySample>): Tally {
    if ss == [] then NoDays else Add(TallyOf(ss[..|ss| - 1]), ss[|ss| - 1])
  }

  /** Minutes expressed in hours. */
  function Hours(minutes: real): real {
    minutes / 60.0
  }

  /** The `Summary7d` constructor call after the loop: totals rounded to hundredths, lists through the helpers. */
  function Summarize(t: Tally): Summary7d {
    Summary7d(
      Round2(t.totalActive),
      Round2(t.totalResting),
      Round2(Avg(t.exerciseMins)),
      Round2(Hours(t.standMinutes)),
      t.standGoalDays,
      t.moveGoalDays,
      Round2(t.distance),
      t.steps,
      AvgInt(t.hrAvgs),
      MinInt(t.hrMins),
      MaxInt(t.hrMaxs),
      AvgInt(t.restingHrs),
      MinInt(t.restingHrMins),
      MaxInt(t.restingHrMaxs),
      Median(t.hrvs),
      AvgInt(t.walkHrs),
      AvgD(t.speeds),
      AvgD(t.stepLens),
      AvgD(t.doubleSupports),
      AvgD(t.asymmetries),
      AvgD(t.stairUps),
      AvgD(t.stairDowns),
      AvgD(t.audioLevels),
      AvgD(t.spo2s),
      MinD(t.spo2Mins))
  }

  /** The summary of a run of daily samples. */
  function SummaryOf(ss: seq<DailySample>): Summary7d {
    Summarize(TallyOf(ss))
  }

  /** `byDate.get(d).get(0)` for each date of the window, in window order. */
  function Samples(byDate: map<Day, DailySample>, days: seq<Day>): (ss: seq<DailySample>)
    requires forall k :: 0 <= k < |days| ==> days[k] in byDate
    ensures |ss| == |days| && forall k :: 0 <= k < |days| ==> ss[k] == byDate[days[k]]
  {
    seq(|days|, k requires 0 <= k < |days| => byDate[days[k]])
  }

  /** The heart-rate metrics a day may carry, each collected into whole-number lists by the loop. */
  datatype IntMetric = HrAvgOf | HrMinOf | HrMaxOf | RestingHrOf | WalkHrOf

  function DailyInt(s: DailySample, m: IntMetric): Option<int> {
    match m
    case HrAvgOf => s.hrAvg
    case HrMinOf => s.hrMin
    case HrMaxOf => s.hrMax
    case RestingHrOf => s.restingHr
    case WalkHrOf => s.walkHrAvg
  }

  /** The list the loop collects the metric in (for resting heart rate, the one `avgInt` reads). */
  function IntList(t: Tally, m: IntMetric): seq<int> {
    match m
    case HrAvgOf => t.hrAvgs
    case HrMinOf => t.hrMins
    case HrMaxOf => t.hrMaxs
    case RestingHrOf => t.restingHrs
    case WalkHrOf => t.walkHrs
  }

  /** The decimal metrics a day may carry, each collected into a list by the loop. */
  datatype RealMetric = HrvOf | SpeedOf | StepLenOf | DoubleSupportOf | AsymmetryOf | StairUpOf | StairDownOf | AudioOf | Spo2Of

  function DailyReal(s: DailySample, m: RealMetric): Option<real> {
    match m
    case HrvOf => s.hrvMs
    case SpeedOf => s.walkSpeedMph
    case StepLenOf => s.walkStepLenIn
    case DoubleSupportOf => s.walkDoubleSupportPct
    case AsymmetryOf => s.walkAsymPct
    case StairUpOf => s.stairUpFtPerSec
    case StairDownOf => s.stairDownFtPerSec
    case AudioOf => s.envAudioDbA
    case Spo2Of => s.spo2Pct
  }

  /** The list the loop collects the metric in (for SpO2, the one `avgD` reads). */
  function RealList(t: Tally, m: RealMetric): seq<real> {
    match m
    case HrvOf => t.hrvs
    case SpeedOf => t.speeds
    case StepLenOf => t.stepLens
    case DoubleSupportOf => t.doubleSupports
    case AsymmetryOf => t.asymmetries
    case StairUpOf => t.stairUps
    case StairDownOf => t.stairDowns
    case AudioOf => t.audioLevels
    case Spo2Of => t.spo2s
  }

  /** The daily amounts the loop adds up. */
  datatype Amount = ActiveEnergyOf | RestingEnergyOf | DistanceOf | StandMinutesOf

  function DailyAmount(s: DailySample, a: Amount): real {
    match a
    case ActiveEnergyOf => s.activeEnergyKcal
    case RestingEnergyOf => s.restingEnergyKcal
    case DistanceOf => s.distanceMi
    case StandMinutesOf => s.standMinutes
  }

  function TallyAmount(t: Tally, a: Amount): real {
    match a
    case ActiveEnergyOf => t.totalActive
    case RestingEnergyOf => t.totalResting
    case DistanceOf => t.distance
    case StandMinutesOf => t.standMinutes
  }

  /** The amount of every day, in order: the reference the running total is checked against. */
  function AmountColumn(ss: seq<DailySample>, a: Amount): (col: seq<real>)
    ensures |col| == |ss| && forall k :: 0 <= k < |ss| ==> col[k] == DailyAmount(ss[k], a)
  {
    seq(|ss|, k requires 0 <= k < |ss| => DailyAmount(ss[k], a))
  }

  function StepsColumn(ss: seq<DailySample>): (col: seq<int>)
    ensures |col| == |ss| && forall k :: 0 <= k < |ss| ==> col[k] == ss[k].steps
  {
    seq(|ss|, k requires 0 <= k < |ss| => ss[k].steps)
  }

  function ExerciseColumn(ss: seq<DailySample>): (col: seq<real>)
    ensures |col| == |ss| && forall k :: 0 <= k < |ss| ==> col[k] == ss[k].exerciseMin
  {
    if ss == [] then []
    else
      var init := ss[..|ss| - 1];
      assert forall k :: 0 <= k < |init| ==> init[k] == ss[k];
      ExerciseColumn(init) + [ss[|ss| - 1].exerciseMin]
  }

  /** A heart-rate metric of every day, in order, `None` where the day has none. */
  function IntColumn(ss: seq<DailySample>, m: IntMetric): (col: seq<Option<int>>)
    ensures |col| == |ss| && forall k :: 0 <= k < |ss| ==> col[k] == DailyInt(ss[k], m)
  {
    if ss == [] then []
    else
      var init := ss[..|ss| - 1];
      assert forall k :: 0 <= k < |init| ==> init[k] == ss[k];
      IntColumn(init, m) + [DailyInt(ss[|ss| - 1], m)]
  }

  /** A decimal metric of every day, in order, `None` where the day has none. */
  function RealColumn(ss: seq<DailySample>, m: RealMetric): (col: seq<Option<real>>)
    ensures |col| == |ss| && forall k :: 0 <= k < |ss| ==> col[k] == DailyReal(ss[k], m)
  {
    if ss == [] then []
    else
      var init := ss[..|ss| - 1];
      assert forall k :: 0 <= k < |init| ==> init[k] == ss[k];
      RealColumn(init, m) + [DailyReal(ss[|ss| - 1], m)]
  }

  lemma IntStep(t: Tally, s: DailySample, m: IntMetric)
    ensures IntList(Add(t, s), m) == IntList(t, m) + AsSeq(DailyInt(s, m))
  {
  }

  lemma RealStep(t: Tally, s: DailySample, m: RealMetric)
    ensures RealList(Add(t, s), m) == RealList(t, m) + AsSeq(DailyReal(s, m))
  {
  }

  /** The list holds exactly the values of a heart-rate metric the days carry. */
  ghost predicate CollectsInts(l: seq<int>, ss: seq<DailySample>, m: IntMetric) {
    && (forall v :: v in l ==> exists k :: 0 <= k < |ss| && DailyInt(ss[k], m) == Some(v))
    && (forall k :: 0 <= k < |ss| && DailyInt(ss[k], m).Some? ==> DailyInt(ss[k], m).value in l)
  }

  /** The list holds exactly the values of a decimal metric the days carry. */
  ghost predicate CollectsReals(l: seq<real>, ss: seq<DailySample>, m: RealMetric) {
    && (forall v :: v in l ==> exists k :: 0 <= k < |ss| && DailyReal(ss[k], m) == Some(v))
    && (forall k :: 0 <= k < |ss| && DailyReal(ss[k], m).Some? ==> DailyReal(ss[k], m).value in l)
  }

  /** The list of a heart-rate metric is the present daily values, in day order. */
  lemma {:induction false} IntListPresent(ss: seq<DailySample>, m: IntMetric)
    ensures IntList(TallyOf(ss), m) == Present(IntColumn(ss, m))
  {
    if ss != [] {
      var init, last := ss[..|ss| - 1], ss[|ss| - 1];
      IntListPresent(init, m);
      IntStep(TallyOf(init), last, m);
      assert IntColumn(ss, m)[..|ss| - 1] == IntColumn(init, m);
    }
  }

  /** The list of a heart-rate metric holds exactly the values of the days that have one. */
  lemma {:induction false} IntListMembers(ss: seq<DailySample>, m: IntMetric)
    ensures CollectsInts(IntList(TallyOf(ss), m), ss, m)
  {
    if ss != [] {
      var init, last := ss[..|ss| - 1], ss[|ss| - 1];
      IntListMembers(init, m);
      IntStep(TallyOf(init), last, m);
      assert forall k :: 0 <= k < |init| ==> init[k] == ss[k];
    }
  }

  /** The list of a decimal metric is the present daily values, in day order. */
  lemma {:induction false} RealListPresent(ss: seq<DailySample>, m: RealMetric)
    ensures RealList(TallyOf(ss), m) == Present(RealColumn(ss, m))
  {
    if ss != [] {
      var init, last := ss[..|ss| - 1], ss[|ss| - 1];
      RealListPresent(init, m);
      RealStep(TallyOf(init), last, m);
      assert RealColumn(ss, m)[..|ss| - 1] == RealColumn(init, m);
    }
  }

  /** The list of a decimal metric holds exactly the values of the days that have one. */
  lemma {:induction false} RealListMembers(ss: seq<DailySample>, m: RealMetric)
    ensures CollectsReals(RealList(TallyOf(ss), m), ss, m)
  {
    if ss != [] {
      var init, last := ss[..|ss| - 1], ss[|ss| - 1];
      RealListMembers(init, m);
      RealStep(TallyOf(init), last, m);
      assert forall k :: 0 <= k < |init| ==> init[k] == ss[k];
    }
  }

  /** The lists `minInt`/`maxInt` read for resting heart rate, and the one `minD` reads for SpO2, are copies. */
  lemma {:induction false} TallyCopies(ss: seq<DailySample>)
    ensures TallyOf(ss).restingHrMins == TallyOf(ss).restingHrs
    ensures TallyOf(ss).restingHrMaxs == TallyOf(ss).restingHrs
    ensures TallyOf(ss).spo2Mins == TallyOf(ss).spo2s
  {
    if ss != [] {
      TallyCopies(ss[..|ss| - 1]);
    }
  }

  /** Each running total is the sum of that amount over the days. */
  lemma {:induction false} TallyAmounts(ss: seq<DailySample>, a: Amount)
    ensures TallyAmount(TallyOf(ss), a) == Sum(AmountColumn(ss, a))
  {
    if ss != [] {
      var init := ss[..|ss| - 1];
      TallyAmounts(init, a);
      assert TallyOf(ss) == Add(TallyOf(init), ss[|ss| - 1]);
      AmountStep(TallyOf(init), ss[|ss| - 1], a);
      assert AmountColumn(ss, a)[..|ss| - 1] == AmountColumn(init, a);
    }
  }

  /** The step total is the sum of the days' steps. */
  lemma {:induction false} TallySteps(ss: seq<DailySample>)
    ensures TallyOf(ss).steps == SumInt(StepsColumn(ss))
  {
    if ss != [] {
      var init := ss[..|ss| - 1];
      TallySteps(init);
      assert StepsColumn(ss)[..|ss| - 1] == StepsColumn(init);
    }
  }

  /** One day adds its amount to the running total. */
  lemma AmountStep(t: Tally, s: DailySample, a: Amount)
    ensures TallyAmount(Add(t, s), a) == TallyAmount(t, a) + DailyAmount(s, a)
  {
  }

  /** One day adds its exercise minutes to the list. */
  lemma ExerciseStep(t: Tally, s: DailySample)
    ensures Add(t, s).exerciseMins == t.exerciseMins + [s.exerciseMin]
  {
  }

  /** Every day contributes its exercise minutes, present or not. */
  lemma {:induction false} TallyExercise(ss: seq<DailySample>)
    ensures TallyOf(ss).exerciseMins == ExerciseColumn(ss)
  {
    if ss != [] {
      var init := ss[..|ss| - 1];
      TallyExercise(init);
      ExerciseStep(TallyOf(init), ss[|ss| - 1]);
    }
  }

  /** The two daily goals the loop counts. */
  datatype Goal = StandGoal | MoveGoal

  /** `standHourCount >= 12` and `activeEnergyKcal >= 500`. */
  predicate Met(s: DailySample, g: Goal) {
    match g
    case StandGoal => s.standHourCount >= StandGoalHours
    case MoveGoal => s.activeEnergyKcal >= MoveGoalKcal
  }

  function GoalDays(t: Tally, g: Goal): int {
    match g
    case StandGoal => t.standGoalDays
    case MoveGoal => t.moveGoalDays
  }

  lemma GoalStep(t: Tally, s: DailySample, g: Goal)
    ensures GoalDays(Add(t, s), g) == GoalDays(t, g) + (if Met(s, g) then 1 else 0)
  {
  }

  /** How many of the days met the goal. */
  function Hits(ss: seq<DailySample>, g: Goal): nat {
    if ss == [] then 0 else Hits(ss[..|ss| - 1], g) + (if Met(ss[|ss| - 1], g) then 1 else 0)
  }

  /** Between none and all of the days meet a goal; none exactly when no day does, all exactly when every day does. */
  lemma {:induction false} HitsRange(ss: seq<DailySample>, g: Goal)
    ensures Hits(ss, g) <= |ss|
    ensures (exists k :: 0 <= k < |ss| && Met(ss[k], g)) <==> Hits(ss, g) > 0
    ensures (exists k :: 0 <= k < |ss| && !Met(ss[k], g)) <==> Hits(ss, g) < |ss|
  {
    if ss != [] {
      var init, last := ss[..|ss| - 1], ss[|ss| - 1];
      HitsRange(init, g);
      assert forall k :: 0 <= k < |init| ==> init[k] == ss[k];
    }
  }

  /** A goal counter counts the days that met the goal. */
  lemma {:induction false} TallyGoals(ss: seq<DailySample>, g: Goal)
    ensures GoalDays(TallyOf(ss), g) == Hits(ss, g)
  {
    if ss != [] {
      var init := ss[..|ss| - 1];
      TallyGoals(init, g);
      GoalStep(TallyOf(init), ss[|ss| - 1], g);
    }
  }

  /** `if (x != null) list.add(x)`: the list gains the value when there is one. */
  method AddIfPresent<T>(list: seq<T>, x: Option<T>) returns (r: seq<T>)
    ensures r == list + AsSeq(x)
  {
    r := list;
    if x.Some? {
      r := r + [x.value];
    }
  }

  /**
   * The body of the reduce loop for one day: the totals grow by the day's amounts, a goal met
   * counts the day, and each metric the day has is appended to its list (resting heart rate
   * and SpO2 to two lists each; exercise minutes always).
   */
  method AddDay(t: Tally, s: DailySample) returns (r: Tally)
    ensures r == Add(t, s)
  {
    var standGoalDays, moveGoalDays := t.standGoalDays, t.moveGoalDays;
    if s.standHourCount >= StandGoalHours {
      standGoalDays := standGoalDays + 1;
    }
    if s.activeEnergyKcal >= MoveGoalKcal {
      moveGoalDays := moveGoalDays + 1;
    }
    var hrAvgs := AddIfPresent(t.hrAvgs, s.hrAvg);
    var hrMins := AddIfPresent(t.hrMins, s.hrMin);
    var hrMaxs := AddIfPresent(t.hrMaxs, s.hrMax);
    var restingHrs := AddIfPresent(t.restingHrs, s.restingHr);
    var restingHrMins := AddIfPresent(t.restingHrMins, s.restingHr);
    var restingHrMaxs := AddIfPresent(t.restingHrMaxs, s.restingHr);
    var walkHrs := AddIfPresent(t.walkHrs, s.walkHrAvg);
    var hrvs := AddIfPresent(t.hrvs, s.hrvMs);
    var speeds := AddIfPresent(t.speeds, s.walkSpeedMph);
    var stepLens := AddIfPresent(t.stepLens, s.walkStepLenIn);
    var doubleSupports := AddIfPresent(t.doubleSupports, s.walkDoubleSupportPct);
    var asymmetries := AddIfPresent(t.asymmetries, s.walkAsymPct);
    var stairUps := AddIfPresent(t.stairUps, s.stairUpFtPerSec);
    var stairDowns := AddIfPresent(t.stairDowns, s.stairDownFtPerSec);
    var audioLevels := AddIfPresent(t.audioLevels, s.envAudioDbA);
    var spo2s := AddIfPresent(t.spo2s, s.spo2Pct);
    var spo2Mins := AddIfPresent(t.spo2Mins, s.spo2Pct);
    r := Tally(
      t.totalActive + s.activeEnergyKcal,
      t.totalResting + s.restingEnergyKcal,
      t.distance + s.distanceMi,
      t.standMinutes + s.standMinutes,
      t.steps + s.steps,
      standGoalDays, moveGoalDays,
      hrAvgs, hrMins, hrMaxs, restingHrs, restingHrMins, restingHrMaxs, walkHrs,
      hrvs, speeds, stepLens, doubleSupports, asymmetries, stairUps, stairDowns, audioLevels, spo2s, spo2Mins,
      t.exerciseMins + [s.exerciseMin]);
  }

  /**
   * The reduce loop over the window and the `Summary7d` it builds: the summary of the window's
   * samples, taken in window order.
   */
  method Reduce(byDate: map<Day, DailySample>, days: seq<Day>) returns (summary: Summary7d)
    requires forall k :: 0 <= k < |days| ==> days[k] in byDate
    ensures summary == SummaryOf(Samples(byDate, days))
  {
    ghost var ss := Samples(byDate, days);
    var t := NoDays;
    for i := 0 to |days|
      invariant t == TallyOf(ss[..i])
    {
      var s := byDate[days[i]];
      assert ss[..i + 1][..i] == ss[..i];
      t := AddDay(t, s);
    }
    assert ss[..|days|] == ss;
    summary := Summarize(t);
  }

  // ---- what the summary says about the days it covers ----

  /** The list is empty exactly when no day carries the metric. */
  lemma IntsAbsent(l: seq<int>, ss: seq<DailySample>, m: IntMetric)
    requires CollectsInts(l, ss, m)
    ensures |l| == 0 <==> forall k :: 0 <= k < |ss| ==> DailyInt(ss[k], m).None?
  {
    if |l| > 0 {
      assert l[0] in l;
      assert forall v :: v in l ==> exists k :: 0 <= k < |ss| && DailyInt(ss[k], m) == Some(v);
    }
  }

  lemma RealsAbsent(l: seq<real>, ss: seq<DailySample>, m: RealMetric)
    requires CollectsReals(l, ss, m)
    ensures |l| == 0 <==> forall k :: 0 <= k < |ss| ==> DailyReal(ss[k], m).None?
  {
    if |l| > 0 {
      assert l[0] in l;
      assert forall v :: v in l ==> exists k :: 0 <= k < |ss| && DailyReal(ss[k], m) == Some(v);
    }
  }

  /** The least element of the list is the least value any day carries. */
  lemma LeastInt(l: seq<int>, ss: seq<DailySample>, m: IntMetric)
    requires CollectsInts(l, ss, m) && |l| > 0
    ensures exists k :: 0 <= k < |ss| && DailyInt(ss[k], m) == Some(MinOfInts(l))
    ensures forall k :: 0 <= k < |ss| && DailyInt(ss[k], m).Some? ==> MinOfInts(l) <= DailyInt(ss[k], m).value
  {
    assert MinOfInts(l) in l;
    assert exists k :: 0 <= k < |ss| && DailyInt(ss[k], m) == Some(MinOfInts(l));
    forall k | 0 <= k < |ss| && DailyInt(ss[k], m).Some? ensures MinOfInts(l) <= DailyInt(ss[k], m).value {
      assert DailyInt(ss[k], m).value in l;
    }
  }

  /** The greatest element of the list is the greatest value any day carries. */
  lemma GreatestInt(l: seq<int>, ss: seq<DailySample>, m: IntMetric)
    requires CollectsInts(l, ss, m) && |l| > 0
    ensures exists k :: 0 <= k < |ss| && DailyInt(ss[k], m) == Some(MaxOfInts(l))
    ensures forall k :: 0 <= k < |ss| && DailyInt(ss[k], m).Some? ==> DailyInt(ss[k], m).value <= MaxOfInts(l)
  {
    assert MaxOfInts(l) in l;
    assert exists k :: 0 <= k < |ss| && DailyInt(ss[k], m) == Some(MaxOfInts(l));
    forall k | 0 <= k < |ss| && DailyInt(ss[k], m).Some? ensures DailyInt(ss[k], m).value <= MaxOfInts(l) {
      assert DailyInt(ss[k], m).value in l;
    }
  }

  lemma LeastReal(l: seq<real>, ss: seq<DailySample>, m: RealMetric)
    requires CollectsReals(l, ss, m) && |l| > 0
    ensures exists k :: 0 <= k < |ss| && DailyReal(ss[k], m) == Some(MinReal(l))
    ensures forall k :: 0 <= k < |ss| && DailyReal(ss[k], m).Some? ==> MinReal(l) <= DailyReal(ss[k], m).value
  {
    assert MinReal(l) in l;
    assert exists k :: 0 <= k < |ss| && DailyReal(ss[k], m) == Some(MinReal(l));
    forall k | 0 <= k < |ss| && DailyReal(ss[k], m).Some? ensures MinReal(l) <= DailyReal(ss[k], m).value {
      assert DailyReal(ss[k], m).value in l;
    }
  }

  lemma GreatestReal(l: seq<real>, ss: seq<DailySample>, m: RealMetric)
    requires CollectsReals(l, ss, m) && |l| > 0
    ensures exists k :: 0 <= k < |ss| && DailyReal(ss[k], m) == Some(MaxReal(l))
  {
    assert MaxReal(l) in l;
    assert exists k :: 0 <= k < |ss| && DailyReal(ss[k], m) == Some(MaxReal(l));
  }

  /** The week's minimum heart rate is the least daily minimum; absent when no day has one. */
  lemma WeekHrMin(ss: seq<DailySample>)
    ensures SummaryOf(ss).hrMin == MinInt(Present(IntColumn(ss, HrMinOf)))
    ensures SummaryOf(ss).hrMin.None? <==> forall k :: 0 <= k < |ss| ==> ss[k].hrMin.None?
    ensures SummaryOf(ss).hrMin.Some? ==>
              && (exists k :: 0 <= k < |ss| && ss[k].hrMin == SummaryOf(ss).hrMin)
              && forall k :: 0 <= k < |ss| && ss[k].hrMin.Some? ==> SummaryOf(ss).hrMin.value <= ss[k].hrMin.value
  {
    var l := TallyOf(ss).hrMins;
    IntListPresent(ss, HrMinOf);
    IntListMembers(ss, HrMinOf);
    IntsAbsent(l, ss, HrMinOf);
    if |l| > 0 {
      LeastInt(l, ss, HrMinOf);
    }
  }

  /** The week's maximum heart rate is the greatest daily maximum; absent when no day has one. */
  lemma WeekHrMax(ss: seq<DailySample>)
    ensures SummaryOf(ss).hrMax == MaxInt(Present(IntColumn(ss, HrMaxOf)))
    ensures SummaryOf(ss).hrMax.None? <==> forall k :: 0 <= k < |ss| ==> ss[k].hrMax.None?
    ensures SummaryOf(ss).hrMax.Some? ==>
              && (exists k :: 0 <= k < |ss| && ss[k].hrMax == SummaryOf(ss).hrMax)
              && forall k :: 0 <= k < |ss| && ss[k].hrMax.Some? ==> ss[k].hrMax.value <= SummaryOf(ss).hrMax.value
  {
    var l := TallyOf(ss).hrMaxs;
    IntListPresent(ss, HrMaxOf);
    IntListMembers(ss, HrMaxOf);
    IntsAbsent(l, ss, HrMaxOf);
    if |l| > 0 {
      GreatestInt(l, ss, HrMaxOf);
    }
  }

  /** A value between the least and greatest element of the list lies between values some days carry. */
  lemma BetweenInts(l: seq<int>, ss: seq<DailySample>, m: IntMetric, v: int)
    requires CollectsInts(l, ss, m) && |l| > 0 && MinOfInts(l) <= v <= MaxOfInts(l)
    ensures exists i :: 0 <= i < |ss| && DailyInt(ss[i], m).Some? && DailyInt(ss[i], m).value <= v
    ensures exists j :: 0 <= j < |ss| && DailyInt(ss[j], m).Some? && v <= DailyInt(ss[j], m).value
  {
    LeastInt(l, ss, m);
    GreatestInt(l, ss, m);
  }

  lemma BetweenReals(l: seq<real>, ss: seq<DailySample>, m: RealMetric, v: real)
    requires CollectsReals(l, ss, m) && |l| > 0 && MinReal(l) <= v <= MaxReal(l)
    ensures exists i :: 0 <= i < |ss| && DailyReal(ss[i], m).Some? && DailyReal(ss[i], m).value <= v
    ensures exists j :: 0 <= j < |ss| && DailyReal(ss[j], m).Some? && v <= DailyReal(ss[j], m).value
  {
    LeastReal(l, ss, m);
    GreatestReal(l, ss, m);
  }

  /** The summary field that averages a heart-rate metric with `avgInt`. */
  function AveragedInt(w: Summary7d, m: IntMetric): Option<int>
    requires m == HrAvgOf || m == RestingHrOf || m == WalkHrOf
  {
    match m
    case HrAvgOf => w.hrAvg
    case RestingHrOf => w.restingHrAvg
    case WalkHrOf => w.walkHrAvg
  }

  /**
   * A weekly heart-rate average is absent exactly when no day has the metric, and otherwise
   * lies between the lowest and the highest daily value.
   */
  lemma WeekIntAverage(ss: seq<DailySample>, m: IntMetric)
    requires m == HrAvgOf || m == RestingHrOf || m == WalkHrOf
    ensures AveragedInt(SummaryOf(ss), m) == AvgInt(Present(IntColumn(ss, m)))
    ensures AveragedInt(SummaryOf(ss), m).None? <==> forall k :: 0 <= k < |ss| ==> DailyInt(ss[k], m).None?
    ensures AveragedInt(SummaryOf(ss), m).Some? ==>
              var v := AveragedInt(SummaryOf(ss), m).value;
              && (exists i :: 0 <= i < |ss| && DailyInt(ss[i], m).Some? && DailyInt(ss[i], m).value <= v)
              && (exists j :: 0 <= j < |ss| && DailyInt(ss[j], m).Some? && v <= DailyInt(ss[j], m).value)
  {
    var l := IntList(TallyOf(ss), m);
    IntListPresent(ss, m);
    IntListMembers(ss, m);
    IntsAbsent(l, ss, m);
    assert AveragedInt(SummaryOf(ss), m) == AvgInt(l);
    if |l| > 0 {
      BetweenInts(l, ss, m, AvgInt(l).value);
    }
  }

  /**
   * The resting heart-rate minimum, average and maximum all come from the same daily values:
   * all three are absent together, the minimum is the least and the maximum the greatest daily
   * value, and the average lies between them.
   */
  lemma WeekRestingHr(ss: seq<DailySample>)
    ensures SummaryOf(ss).restingHrMin == MinInt(Present(IntColumn(ss, RestingHrOf)))
    ensures SummaryOf(ss).restingHrMax == MaxInt(Present(IntColumn(ss, RestingHrOf)))
    ensures SummaryOf(ss).restingHrAvg.None? <==> forall k :: 0 <= k < |ss| ==> ss[k].restingHr.None?
    ensures SummaryOf(ss).restingHrMin.None? <==> SummaryOf(ss).restingHrAvg.None?
    ensures SummaryOf(ss).restingHrMax.None? <==> SummaryOf(ss).restingHrAvg.None?
    ensures SummaryOf(ss).restingHrMin.Some? ==>
              && (exists k :: 0 <= k < |ss| && ss[k].restingHr == SummaryOf(ss).restingHrMin)
              && forall k :: 0 <= k < |ss| && ss[k].restingHr.Some? ==> SummaryOf(ss).restingHrMin.value <= ss[k].restingHr.value
    ensures SummaryOf(ss).restingHrMax.Some? ==>
              && (exists k :: 0 <= k < |ss| && ss[k].restingHr == SummaryOf(ss).restingHrMax)
              && forall k :: 0 <= k < |ss| && ss[k].restingHr.Some? ==> ss[k].restingHr.value <= SummaryOf(ss).restingHrMax.value
    ensures SummaryOf(ss).restingHrAvg.Some? ==>
              SummaryOf(ss).restingHrMin.value <= SummaryOf(ss).restingHrAvg.value <= SummaryOf(ss).restingHrMax.value
  {
    var l := TallyOf(ss).restingHrs;
    TallyCopies(ss);
    IntListPresent(ss, RestingHrOf);
    IntListMembers(ss, RestingHrOf);
    IntsAbsent(l, ss, RestingHrOf);
    if |l| > 0 {
      LeastInt(l, ss, RestingHrOf);
      GreatestInt(l, ss, RestingHrOf);
    }
  }

  /** The summary field that averages a decimal metric with `avgD`. */
  function AveragedReal(w: Summary7d, m: RealMetric): Option<real>
    requires m != HrvOf
  {
    match m
    case SpeedOf => w.walkSpeedAvgMph
    case StepLenOf => w.stepLenAvgIn
    case DoubleSupportOf => w.doubleSupportAvgPct
    case AsymmetryOf => w.asymmetryAvgPct
    case StairUpOf => w.stairUpAvgFtPerSec
    case StairDownOf => w.stairDownAvgFtPerSec
    case AudioOf => w.envAudioAvgDbA
    case Spo2Of => w.spo2AvgPct
  }

  /**
   * A weekly walking, stair, audio or SpO2 average is absent exactly when no day has the metric,
   * and otherwise lies between the lowest and the highest daily value.
   */
  lemma WeekRealAverage(ss: seq<DailySample>, m: RealMetric)
    requires m != HrvOf
    ensures AveragedReal(SummaryOf(ss), m) == AvgD(Present(RealColumn(ss, m)))
    ensures AveragedReal(SummaryOf(ss), m).None? <==> forall k :: 0 <= k < |ss| ==> DailyReal(ss[k], m).None?
    ensures AveragedReal(SummaryOf(ss), m).Some? ==>
              var v := AveragedReal(SummaryOf(ss), m).value;
              && (exists i :: 0 <= i < |ss| && DailyReal(ss[i], m).Some? && DailyReal(ss[i], m).value <= v)
              && (exists j :: 0 <= j < |ss| && DailyReal(ss[j], m).Some? && v <= DailyReal(ss[j], m).value)
  {
    var l := RealList(TallyOf(ss), m);
    RealListPresent(ss, m);
    RealListMembers(ss, m);
    RealsAbsent(l, ss, m);
    assert AveragedReal(SummaryOf(ss), m) == AvgD(l);
    if |l| > 0 {
      BetweenReals(l, ss, m, Mean(l));
    }
  }

  /** The weekly HRV median is absent exactly when no day has HRV, and otherwise lies between the lowest and highest daily HRV. */
  lemma WeekHrv(ss: seq<DailySample>)
    ensures SummaryOf(ss).hrvMedianMs == Median(Present(RealColumn(ss, HrvOf)))
    ensures SummaryOf(ss).hrvMedianMs.None? <==> forall k :: 0 <= k < |ss| ==> ss[k].hrvMs.None?
    ensures SummaryOf(ss).hrvMedianMs.Some? ==>
              var v := SummaryOf(ss).hrvMedianMs.value;
              && (exists i :: 0 <= i < |ss| && ss[i].hrvMs.Some? && ss[i].hrvMs.value <= v)
              && (exists j :: 0 <= j < |ss| && ss[j].hrvMs.Some? && v <= ss[j].hrvMs.value)
  {
    var l := TallyOf(ss).hrvs;
    RealListPresent(ss, HrvOf);
    RealListMembers(ss, HrvOf);
    RealsAbsent(l, ss, HrvOf);
    if |l| > 0 {
      BetweenReals(l, ss, HrvOf, Median(l).value);
    }
  }

  /** The weekly SpO2 minimum is the least daily SpO2, absent when no day has one, and never above the weekly average. */
  lemma WeekSpo2Min(ss: seq<DailySample>)
    ensures SummaryOf(ss).spo2MinPct == MinD(Present(RealColumn(ss, Spo2Of)))
    ensures SummaryOf(ss).spo2MinPct.None? <==> forall k :: 0 <= k < |ss| ==> ss[k].spo2Pct.None?
    ensures SummaryOf(ss).spo2MinPct.None? <==> SummaryOf(ss).spo2AvgPct.None?
    ensures SummaryOf(ss).spo2MinPct.Some? ==>
              && (exists k :: 0 <= k < |ss| && ss[k].spo2Pct == SummaryOf(ss).spo2MinPct)
              && (forall k :: 0 <= k < |ss| && ss[k].spo2Pct.Some? ==> SummaryOf(ss).spo2MinPct.value <= ss[k].spo2Pct.value)
              && SummaryOf(ss).spo2MinPct.value <= SummaryOf(ss).spo2AvgPct.value
  {
    var l := TallyOf(ss).spo2s;
    TallyCopies(ss);
    RealListPresent(ss, Spo2Of);
    RealListMembers(ss, Spo2Of);
    RealsAbsent(l, ss, Spo2Of);
    if |l| > 0 {
      LeastReal(l, ss, Spo2Of);
    }
  }

  /** The summary field that counts the days a goal was met. */
  function GoalCount(w: Summary7d, g: Goal): int {
    match g
    case StandGoal => w.standGoalDays
    case MoveGoal => w.moveGoalDays
  }

  /**
   * A weekly goal count is the number of days that met the goal: at most the number of days,
   * positive exactly when some day met it, and short of all days exactly when some day missed it.
   */
  lemma WeekGoalDays(ss: seq<DailySample>, g: Goal)
    ensures GoalCount(SummaryOf(ss), g) == Hits(ss, g)
    ensures 0 <= GoalCount(SummaryOf(ss), g) <= |ss|
    ensures GoalCount(SummaryOf(ss), g) > 0 <==> exists k :: 0 <= k < |ss| && Met(ss[k], g)
    ensures GoalCount(SummaryOf(ss), g) < |ss| <==> exists k :: 0 <= k < |ss| && !Met(ss[k], g)
  {
    TallyGoals(ss, g);
    HitsRange(ss, g);
  }

  /** The summary field that reports the weekly total of an amount. */
  function TotalOf(w: Summary7d, a: Amount): real {
    match a
    case ActiveEnergyOf => w.totalActiveEnergyKcal
    case RestingEnergyOf => w.totalRestingEnergyKcal
    case DistanceOf => w.totalDistanceMi
    case StandMinutesOf => w.totalStandHours
  }

  /** The unit a total is reported in: stand minutes become hours, the other amounts are kept as they are. */
  function Reported(a: Amount, total: real): real {
    if a == StandMinutesOf then Hours(total) else total
  }

  /** A weekly total is the sum of the daily amounts, in its reporting unit, rounded to hundredths. */
  lemma WeekTotal(ss: seq<DailySample>, a: Amount)
    ensures TotalOf(SummaryOf(ss), a) == Round2(Reported(a, Sum(AmountColumn(ss, a))))
  {
    TallyAmounts(ss, a);
  }

  /** The weekly step count is the exact sum of the daily step counts. */
  lemma WeekSteps(ss: seq<DailySample>)
    ensures SummaryOf(ss).totalSteps == SumInt(StepsColumn(ss))
  {
    TallySteps(ss);
  }

  /**
   * The average exercise minutes are per day of the window, days without exercise included:
   * 0 for no days, otherwise the rounded mean over all days, within half a hundredth of the
   * range of the daily values.
   */
  lemma WeekExercise(ss: seq<DailySample>)
    ensures ss == [] ==> SummaryOf(ss).avgExerciseMinPerDay == 0.0
    ensures ss != [] ==> SummaryOf(ss).avgExerciseMinPerDay == Round2(Sum(ExerciseColumn(ss)) / |ss| as real)
    ensures ss != [] ==>
              var v := SummaryOf(ss).avgExerciseMinPerDay;
              && (exists i :: 0 <= i < |ss| && ss[i].exerciseMin - 0.005 < v)
              && (exists j :: 0 <= j < |ss| && v <= ss[j].exerciseMin + 0.005)
  {
    var col := ExerciseColumn(ss);
    TallyExercise(ss);
    if ss != [] {
      var v := SummaryOf(ss).avgExerciseMinPerDay;
      var m := Mean(col);
      assert v == Round2(m);
      var lo, hi := MinReal(col), MaxReal(col);
      assert lo in col && hi in col;
      var i :| 0 <= i < |col| && col[i] == lo;
      var j :| 0 <= j < |col| && col[j] == hi;
      assert ss[i].exerciseMin - 0.005 < v && v <= ss[j].exerciseMin + 0.005;
    }
  }
}
