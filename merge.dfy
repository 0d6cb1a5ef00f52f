/**
 * `toDailySamples`: the rows of one date merged into a single `DailySample`. Amounts are summed
 * (blank counts 0), heart rates averaged and rounded over the cells present, the other rates
 * averaged over the cells present (0.0 when none is), and heart-rate variability reduced by its median.
 */
module Merge {
  import opened Wrappers
  import opened Stats
  import opened Model
  import opened Cells

  /** `m.get(key)`: the cell a decoded row holds for a field, if any. */
  function Cell(row: Row, f: Field): Option<string> {
    if f in row then Some(row[f]) else None
  }

  /** The cumulative cells of one row, as `safeDouble`/`safeLong` convert them. */
  datatype Amounts = Amounts(
    activeEnergy: real, restEnergy: real, distance: real, steps: int, standMin: real, flights: real,
    standHour: real)

  /** The heart-rate cells of one row, as `pushInt` converts them (`None` for a blank cell). */
  datatype HeartRateCells = HeartRateCells(
    hrMin: Option<int>, hrMax: Option<int>, hrAvg: Option<int>, restingHr: Option<int>, walkHr: Option<int>)

  /** The other rate cells of one row, as `pushD` converts them (`None` for a blank cell). */
  datatype RateCells = RateCells(
    hrv: Option<real>, spo2: Option<real>, audio: Option<real>, physEff: Option<real>,
    stairUp: Option<real>, stairDown: Option<real>, walkSpeed: Option<real>, stepLen: Option<real>,
    doubleSupp: Option<real>, asym: Option<real>, exerciseMin: Option<real>)

  /** What one row contributes to its date, once its cells are converted. */
  datatype Reading = Reading(amounts: Amounts, heartRates: HeartRateCells, rates: RateCells)

  function ReadAmounts(p: Parsers, m: Row): Result<Amounts, UploadError> {
    var ae :- SafeDouble(p, Cell(m, ActiveEnergy));
    var re :- SafeDouble(p, Cell(m, RestEnergy));
    var dist :- SafeDouble(p, Cell(m, DistanceMi));
    var steps :- SafeLong(p, Cell(m, Steps));
    var standMin :- SafeDouble(p, Cell(m, StandMin));
    var flights :- SafeDouble(p, Cell(m, Flights));
    var standHour :- SafeDouble(p, Cell(m, StandHour));
    Ok(Amounts(ae, re, dist, steps, standMin, flights, standHour))
  }

  function ReadHeartRates(p: Parsers, m: Row): Result<HeartRateCells, UploadError> {
    var hrMin :- CellInt(p, Cell(m, HrMin));
    var hrMax :- CellInt(p, Cell(m, HrMax));
    var hrAvg :- CellInt(p, Cell(m, HrAvg));
    var rhr :- CellInt(p, Cell(m, RestingHr));
    var walkHr :- CellInt(p, Cell(m, WalkHrAvg));
    Ok(HeartRateCells(hrMin, hrMax, hrAvg, rhr, walkHr))
  }

  function ReadRates(p: Parsers, m: Row): Result<RateCells, UploadError> {
    var hrv :- CellReal(p, Cell(m, HrvMs));
    var spo2 :- CellReal(p, Cell(m, Spo2));
    var audio :- CellReal(p, Cell(m, AudioDb));
    var peff :- CellReal(p, Cell(m, PhysEff));
    var stairU :- CellReal(p, Cell(m, StairUp));
    var stairD :- CellReal(p, Cell(m, StairDown));
    var speed :- CellReal(p, Cell(m, WalkSpeed));
    var stepLen :- CellReal(p, Cell(m, StepLenIn));
    var dblSupp :- CellReal(p, Cell(m, DoubleSupp));
    var asym :- CellReal(p, Cell(m, AsymPct));
    var exMin :- CellReal(p, Cell(m, ExerciseMin));
    Ok(RateCells(hrv, spo2, audio, peff, stairU, stairD, speed, stepLen, dblSupp, asym, exMin))
  }

  /**
   * The conversions of one iteration of the merge loop, in the order the source makes them: the
   * sums, the heart rates, then the other rates. The first cell that does not parse aborts the upload.
   */
  function ReadRow(p: Parsers, m: Row): Result<Reading, UploadError> {
    var amounts :- ReadAmounts(p, m);
    var heartRates :- ReadHeartRates(p, m);
    var rates :- ReadRates(p, m);
    Ok(Reading(amounts, heartRates, rates))
  }

  /** The readings of rows in order, or the error of the first row with a cell that does not parse. */
  function ReadRows(p: Parsers, rows: seq<Row>): (r: Result<seq<Reading>, UploadError>)
    ensures r.Ok? ==> |r.value| == |rows|
  {
    if rows == [] then Ok([])
    else
      var prior :- ReadRows(p, rows[..|rows| - 1]);
      var last :- ReadRow(p, rows[|rows| - 1]);
      Ok(prior + [last])
  }

  function AmountOf(a: Amounts, f: AmountField): real {
    if f == ActiveEnergy then a.activeEnergy
    else if f == RestEnergy then a.restEnergy
    else if f == DistanceMi then a.distance
    else if f == StandMin then a.standMin
    else if f == Flights then a.flights
    else a.standHour
  }

  function HeartRateOf(h: HeartRateCells, f: HeartRateField): Option<int> {
    if f == HrMin then h.hrMin
    else if f == HrMax then h.hrMax
    else if f == HrAvg then h.hrAvg
    else if f == RestingHr then h.restingHr
    else h.walkHr
  }

  function RateOf(r: RateCells, f: RateField): Option<real> {
    if f == HrvMs then r.hrv
    else if f == Spo2 then r.spo2
    else if f == AudioDb then r.audio
    else if f == PhysEff then r.physEff
    else if f == StairUp then r.stairUp
    else if f == StairDown then r.stairDown
    else if f == WalkSpeed then r.walkSpeed
    else if f == StepLenIn then r.stepLen
    else if f == DoubleSupp then r.doubleSupp
    else if f == AsymPct then r.asym
    else r.exerciseMin
  }

  /** The running sums and lists of the merge loop. */
  datatype Acc = Acc(
    ae: real, re: real, dist: real, steps: int, standMin: real, flights: real, standHour: real,
    hrMinL: seq<int>, hrMaxL: seq<int>, hrAvgL: seq<int>, rhrL: seq<int>, walkHrL: seq<int>,
    hrvL: seq<real>, spo2L: seq<real>, audioL: seq<real>, peffL: seq<real>, stairU: seq<real>,
    stairD: seq<real>, speedL: seq<real>, stepLenL: seq<real>, dblSuppL: seq<real>, asymL: seq<real>,
    exMinL: seq<real>)

  /** The sums and lists before the first row: zeros and empty lists. */
  const Start: Acc := Acc(0.0, 0.0, 0.0, 0, 0.0, 0.0, 0.0, [], [], [], [], [], [], [], [], [], [], [], [], [], [], [], [])

  /** One more reading: each sum grows by its amount, each list by the value present, if any. */
  function Step(acc: Acc, rd: Reading): Acc {
    var a, h, r := rd.amounts, rd.heartRates, rd.rates;
    Acc(
      acc.ae + a.activeEnergy, acc.re + a.restEnergy, acc.dist + a.distance, acc.steps + a.steps,
      acc.standMin + a.standMin, acc.flights + a.flights, acc.standHour + a.standHour,
      acc.hrMinL + AsSeq(h.hrMin), acc.hrMaxL + AsSeq(h.hrMax), acc.hrAvgL + AsSeq(h.hrAvg),
      acc.rhrL + AsSeq(h.restingHr), acc.walkHrL + AsSeq(h.walkHr),
      acc.hrvL + AsSeq(r.hrv), acc.spo2L + AsSeq(r.spo2), acc.audioL + AsSeq(r.audio),
      acc.peffL + AsSeq(r.physEff), acc.stairU + AsSeq(r.stairUp), acc.stairD + AsSeq(r.stairDown),
      acc.speedL + AsSeq(r.walkSpeed), acc.stepLenL + AsSeq(r.stepLen), acc.dblSuppL + AsSeq(r.doubleSupp),
      acc.asymL + AsSeq(r.asym), acc.exMinL + AsSeq(r.exerciseMin))
  }

  /** The sums and lists after the given readings, in order. */
  function AccOf(rds: seq<Reading>): Acc {
    if rds == [] then Start else Step(AccOf(rds[..|rds| - 1]), rds[|rds| - 1])
  }

  lemma AccOfSnoc(rds: seq<Reading>, rd: Reading)
    ensures AccOf(rds + [rd]) == Step(AccOf(rds), rd)
  {
    assert (rds + [rd])[..|rds|] == rds;
  }

  function SumOf(acc: Acc, f: AmountField): real {
    if f == ActiveEnergy then acc.ae
    else if f == RestEnergy then acc.re
    else if f == DistanceMi then acc.dist
    else if f == StandMin then acc.standMin
    else if f == Flights then acc.flights
    else acc.standHour
  }

  function HeartRateList(acc: Acc, f: HeartRateField): seq<int> {
    if f == HrMin then acc.hrMinL
    else if f == HrMax then acc.hrMaxL
    else if f == HrAvg then acc.hrAvgL
    else if f == RestingHr then acc.rhrL
    else acc.walkHrL
  }

  function RateList(acc: Acc, f: RateField): seq<real> {
    if f == HrvMs then acc.hrvL
    else if f == Spo2 then acc.spo2L
    else if f == AudioDb then acc.audioL
    else if f == PhysEff then acc.peffL
    else if f == StairUp then acc.stairU
    else if f == StairDown then acc.stairD
    else if f == WalkSpeed then acc.speedL
    else if f == StepLenIn then acc.stepLenL
    else if f == DoubleSupp then acc.dblSuppL
    else if f == AsymPct then acc.asymL
    else acc.exMinL
  }

  /** The `DailySample` built from the loop's sums and lists: `avg`, `avgInt` and `median` reduce the lists. */
  function Finish(date: Day, acc: Acc): DailySample {
    DailySample(
      date, acc.ae, Avg(acc.exMinL), acc.standHour, acc.standMin, Some(Avg(acc.spo2L)), Some(Avg(acc.audioL)),
      acc.flights, AvgInt(acc.hrMinL), AvgInt(acc.hrMaxL), AvgInt(acc.hrAvgL), Median(acc.hrvL),
      Some(Avg(acc.peffL)), acc.re, AvgInt(acc.rhrL), Some(Avg(acc.stairD)), Some(Avg(acc.stairU)),
      acc.steps, acc.dist, Some(Avg(acc.asymL)), Some(Avg(acc.dblSuppL)), AvgInt(acc.walkHrL),
      Some(Avg(acc.speedL)), Some(Avg(acc.stepLenL)))
  }

  /**
   * The merge of one date's rows: the date parsed from the first row, then every row's cells;
   * the first failure is the error.
   */
  function Merged(p: Parsers, raw: seq<Row>): Result<DailySample, UploadError>
    requires |raw| > 0
  {
    var date :- ParseDate(p, Cell(raw[0], Date));
    var rds :- ReadRows(p, raw);
    Ok(Finish(date, AccOf(rds)))
  }

  /** Once a prefix of the rows fails, reading all of them fails with the same error. */
  lemma {:induction false} ReadRowsErrPersists(p: Parsers, rows: seq<Row>, n: nat)
    requires n <= |rows| && ReadRows(p, rows[..n]).Err?
    ensures ReadRows(p, rows) == ReadRows(p, rows[..n])
    decreases |rows| - n
  {
    if n < |rows| {
      assert rows[..n + 1][..n] == rows[..n];
      ReadRowsErrPersists(p, rows, n + 1);
    } else {
      assert rows[..n] == rows;
    }
  }

  /** One more row read: the readings of the longer prefix, and the sums and lists after it. */
  lemma ReadRowsStep(p: Parsers, raw: seq<Row>, i: nat, done: seq<Reading>, rd: Reading)
    requires i < |raw| && ReadRows(p, raw[..i]) == Ok(done) && ReadRow(p, raw[i]) == Ok(rd)
    ensures ReadRows(p, raw[..i + 1]) == Ok(done + [rd])
    ensures AccOf(done + [rd]) == Step(AccOf(done), rd)
  {
    assert raw[..i + 1][..i] == raw[..i];
    AccOfSnoc(done, rd);
  }

  /**
   * `toDailySamples`: one pass over the rows with running sums and lists; the date comes from the
   * first row. The merged sample is the one `Merged` describes.
   */
  method MergeDay(p: Parsers, raw: seq<Row>) returns (r: Result<DailySample, UploadError>)
    requires |raw| > 0
    ensures r == Merged(p, raw)
  {
    var acc := Start;
    var date: Option<Day> := None;
    ghost var done: seq<Reading> := [];
    for i := 0 to |raw|
      invariant ReadRows(p, raw[..i]) == Ok(done)
      invariant acc == AccOf(done)
      invariant date.None? <==> i == 0
      invariant date.Some? ==> ParseDate(p, Cell(raw[0], Date)) == Ok(date.value)
    {
      var m := raw[i];
      if date.None? {
        var d := ParseDate(p, Cell(m, Date));
        if d.Err? {
          assert Merged(p, raw) == Err(d.error);
          return Err(d.error);
        }
        date := Some(d.value);
      }
      var rd := ReadRow(p, m);
      if rd.Err? {
        assert raw[..i + 1][..i] == raw[..i];
        ReadRowsErrPersists(p, raw, i + 1);
        assert ReadRows(p, raw) == Err(rd.error);
        return Err(rd.error);
      }
      ReadRowsStep(p, raw, i, done, rd.value);
      acc := Step(acc, rd.value);
      done := done + [rd.value];
    }
    assert raw[..|raw|] == raw;
    assert ReadRows(p, raw) == Ok(done);
    return Ok(Finish(date.value, acc));
  }

  // ---- what the merged sample says about the rows of its date ----

  /** Every cell of the row that the merge converts parses (blank cells always do). */
  predicate CellsParse(p: Parsers, m: Row) {
    && (forall f: AmountField :: SafeDouble(p, Cell(m, f)).Ok?)
    && SafeLong(p, Cell(m, Steps)).Ok?
    && (forall f: HeartRateField :: CellInt(p, Cell(m, f)).Ok?)
    && (forall f: RateField :: CellReal(p, Cell(m, f)).Ok?)
  }

  /** The sums of a row that converts: each is its cell's `safeDouble` value. */
  lemma ReadAmountsCell(p: Parsers, m: Row, f: AmountField)
    requires ReadAmounts(p, m).Ok?
    ensures SafeDouble(p, Cell(m, f)) == Ok(AmountOf(ReadAmounts(p, m).value, f))
  {
  }

  /** The step count of a row that converts is its cell's `safeLong` value. */
  lemma ReadAmountsSteps(p: Parsers, m: Row)
    requires ReadAmounts(p, m).Ok?
    ensures SafeLong(p, Cell(m, Steps)) == Ok(ReadAmounts(p, m).value.steps)
  {
  }

  /** The sums of a row convert exactly when each of their cells does. */
  lemma ReadAmountsCells(p: Parsers, m: Row)
    ensures ReadAmounts(p, m).Ok? <==> (forall f: AmountField :: SafeDouble(p, Cell(m, f)).Ok?) && SafeLong(p, Cell(m, Steps)).Ok?
  {
    if ReadAmounts(p, m).Ok? {
      forall f: AmountField ensures SafeDouble(p, Cell(m, f)).Ok? {
        ReadAmountsCell(p, m, f);
      }
      ReadAmountsSteps(p, m);
    }
  }

  /** The heart rates of a row that converts: each is its cell's `pushInt` value. */
  lemma ReadHeartRatesCell(p: Parsers, m: Row, f: HeartRateField)
    requires ReadHeartRates(p, m).Ok?
    ensures CellInt(p, Cell(m, f)) == Ok(HeartRateOf(ReadHeartRates(p, m).value, f))
  {
  }

  /** The heart rates of a row convert exactly when each of their cells does. */
  lemma ReadHeartRatesCells(p: Parsers, m: Row)
    ensures ReadHeartRates(p, m).Ok? <==> forall f: HeartRateField :: CellInt(p, Cell(m, f)).Ok?
  {
    if ReadHeartRates(p, m).Ok? {
      forall f: HeartRateField ensures CellInt(p, Cell(m, f)).Ok? {
        ReadHeartRatesCell(p, m, f);
      }
    }
  }

  /** The other rates of a row that converts: each is its cell's `pushD` value. */
  lemma ReadRatesCell(p: Parsers, m: Row, f: RateField)
    requires ReadRates(p, m).Ok?
    ensures CellReal(p, Cell(m, f)) == Ok(RateOf(ReadRates(p, m).value, f))
  {
    var hrv := CellReal(p, Cell(m, HrvMs));
    var spo2 := CellReal(p, Cell(m, Spo2));
    var audio := CellReal(p, Cell(m, AudioDb));
    var peff := CellReal(p, Cell(m, PhysEff));
    var stairU := CellReal(p, Cell(m, StairUp));
    var stairD := CellReal(p, Cell(m, StairDown));
    assert hrv.Ok? && spo2.Ok? && audio.Ok? && peff.Ok? && stairU.Ok? && stairD.Ok?;
  }

  /** The other rates of a row convert exactly when each of their cells does. */
  lemma ReadRatesCells(p: Parsers, m: Row)
    ensures ReadRates(p, m).Ok? <==> forall f: RateField :: CellReal(p, Cell(m, f)).Ok?
  {
    if ReadRates(p, m).Ok? {
      forall f: RateField ensures CellReal(p, Cell(m, f)).Ok? {
        ReadRatesCell(p, m, f);
      }
    }
    if forall f: RateField :: CellReal(p, Cell(m, f)).Ok? {
      assert CellReal(p, Cell(m, HrvMs)).Ok? && CellReal(p, Cell(m, Spo2)).Ok? && CellReal(p, Cell(m, AudioDb)).Ok?;
      assert CellReal(p, Cell(m, PhysEff)).Ok? && CellReal(p, Cell(m, StairUp)).Ok? && CellReal(p, Cell(m, StairDown)).Ok?;
      assert CellReal(p, Cell(m, WalkSpeed)).Ok? && CellReal(p, Cell(m, StepLenIn)).Ok? && CellReal(p, Cell(m, DoubleSupp)).Ok?;
      assert CellReal(p, Cell(m, AsymPct)).Ok? && CellReal(p, Cell(m, ExerciseMin)).Ok?;
    }
  }

  /** Reading a row converts each of its cells: the row fails exactly when one of them does. */
  lemma ReadRowCells(p: Parsers, m: Row)
    ensures ReadRow(p, m).Ok? <==> CellsParse(p, m)
  {
    ReadAmountsCells(p, m);
    ReadHeartRatesCells(p, m);
    ReadRatesCells(p, m);
  }

  /** Reading the rows reads each one, in order; it fails exactly when some row does. */
  lemma {:induction false} ReadRowsEach(p: Parsers, rows: seq<Row>)
    ensures ReadRows(p, rows).Ok? <==> forall k :: 0 <= k < |rows| ==> ReadRow(p, rows[k]).Ok?
    ensures ReadRows(p, rows).Ok? ==> forall k :: 0 <= k < |rows| ==> ReadRows(p, rows).value[k] == ReadRow(p, rows[k]).value
  {
    if rows != [] {
      var init := rows[..|rows| - 1];
      ReadRowsEach(p, init);
      assert forall k :: 0 <= k < |init| ==> init[k] == rows[k];
    }
  }

  lemma StepAmount(acc: Acc, rd: Reading, f: AmountField)
    ensures SumOf(Step(acc, rd), f) == SumOf(acc, f) + AmountOf(rd.amounts, f)
  {
  }

  lemma StepHeartRate(acc: Acc, rd: Reading, f: HeartRateField)
    ensures HeartRateList(Step(acc, rd), f) == HeartRateList(acc, f) + AsSeq(HeartRateOf(rd.heartRates, f))
  {
  }

  lemma StepRate(acc: Acc, rd: Reading, f: RateField)
    ensures RateList(Step(acc, rd), f) == RateList(acc, f) + AsSeq(RateOf(rd.rates, f))
  {
  }

  /** Each field of a row's reading is its cell's converted value. */
  lemma ReadRowAmount(p: Parsers, m: Row, f: AmountField)
    requires ReadRow(p, m).Ok?
    ensures SafeDouble(p, Cell(m, f)) == Ok(AmountOf(ReadRow(p, m).value.amounts, f))
  {
    ReadAmountsCell(p, m, f);
  }

  lemma ReadRowSteps(p: Parsers, m: Row)
    requires ReadRow(p, m).Ok?
    ensures SafeLong(p, Cell(m, Steps)) == Ok(ReadRow(p, m).value.amounts.steps)
  {
    ReadAmountsSteps(p, m);
  }

  lemma ReadRowHeartRate(p: Parsers, m: Row, f: HeartRateField)
    requires ReadRow(p, m).Ok?
    ensures CellInt(p, Cell(m, f)) == Ok(HeartRateOf(ReadRow(p, m).value.heartRates, f))
  {
    ReadHeartRatesCell(p, m, f);
  }

  lemma ReadRowRate(p: Parsers, m: Row, f: RateField)
    requires ReadRow(p, m).Ok?
    ensures CellReal(p, Cell(m, f)) == Ok(RateOf(ReadRow(p, m).value.rates, f))
  {
    ReadRatesCell(p, m, f);
  }

  /** The sum `safeDouble` makes of a field's cells, over rows whose cells all parse. */
  function CellSum(p: Parsers, rows: seq<Row>, f: AmountField): real
    requires forall k :: 0 <= k < |rows| ==> SafeDouble(p, Cell(rows[k], f)).Ok?
  {
    if rows == [] then 0.0
    else CellSum(p, rows[..|rows| - 1], f) + SafeDouble(p, Cell(rows[|rows| - 1], f)).value
  }

  /** The sum `safeLong` makes of the step cells, over rows whose cells all parse. */
  function StepSum(p: Parsers, rows: seq<Row>): int
    requires forall k :: 0 <= k < |rows| ==> SafeLong(p, Cell(rows[k], Steps)).Ok?
  {
    if rows == [] then 0
    else StepSum(p, rows[..|rows| - 1]) + SafeLong(p, Cell(rows[|rows| - 1], Steps)).value
  }

  /** The total of an amount over readings, in order. */
  function ReadingSum(rds: seq<Reading>, f: AmountField): real {
    if rds == [] then 0.0 else ReadingSum(rds[..|rds| - 1], f) + AmountOf(rds[|rds| - 1].amounts, f)
  }

  function ReadingSteps(rds: seq<Reading>): int {
    if rds == [] then 0 else ReadingSteps(rds[..|rds| - 1]) + rds[|rds| - 1].amounts.steps
  }

  /** A running sum is the total of its amount over the readings so far. */
  lemma {:induction false} AccOfSum(rds: seq<Reading>, f: AmountField)
    ensures SumOf(AccOf(rds), f) == ReadingSum(rds, f)
  {
    if rds != [] {
      AccOfSum(rds[..|rds| - 1], f);
      StepAmount(AccOf(rds[..|rds| - 1]), rds[|rds| - 1], f);
    }
  }

  lemma {:induction false} AccOfSteps(rds: seq<Reading>)
    ensures AccOf(rds).steps == ReadingSteps(rds)
  {
    if rds != [] {
      AccOfSteps(rds[..|rds| - 1]);
    }
  }

  function HeartRateColumn(rds: seq<Reading>, f: HeartRateField): (col: seq<Option<int>>)
    ensures |col| == |rds| && forall k :: 0 <= k < |rds| ==> col[k] == HeartRateOf(rds[k].heartRates, f)
  {
    if rds == [] then []
    else
      var init := rds[..|rds| - 1];
      assert forall k :: 0 <= k < |init| ==> init[k] == rds[k];
      HeartRateColumn(init, f) + [HeartRateOf(rds[|rds| - 1].heartRates, f)]
  }

  function RateColumn(rds: seq<Reading>, f: RateField): (col: seq<Option<real>>)
    ensures |col| == |rds| && forall k :: 0 <= k < |rds| ==> col[k] == RateOf(rds[k].rates, f)
  {
    if rds == [] then []
    else
      var init := rds[..|rds| - 1];
      assert forall k :: 0 <= k < |init| ==> init[k] == rds[k];
      RateColumn(init, f) + [RateOf(rds[|rds| - 1].rates, f)]
  }

  /** A heart-rate list holds the values the readings have for it, in order. */
  lemma {:induction false} AccOfHeartRates(rds: seq<Reading>, f: HeartRateField)
    ensures HeartRateList(AccOf(rds), f) == Present(HeartRateColumn(rds, f))
  {
    if rds != [] {
      var init := rds[..|rds| - 1];
      AccOfHeartRates(init, f);
      StepHeartRate(AccOf(init), rds[|rds| - 1], f);
      assert HeartRateColumn(rds, f)[..|init|] == HeartRateColumn(init, f);
    }
  }

  /** A rate list holds the values the readings have for it, in order. */
  lemma {:induction false} AccOfRates(rds: seq<Reading>, f: RateField)
    ensures RateList(AccOf(rds), f) == Present(RateColumn(rds, f))
  {
    if rds != [] {
      var init := rds[..|rds| - 1];
      AccOfRates(init, f);
      StepRate(AccOf(init), rds[|rds| - 1], f);
      assert RateColumn(rds, f)[..|init|] == RateColumn(init, f);
    }
  }

  /** Readings that agree cell by cell with the rows total what the cells total. */
  lemma {:induction false} CellSumReadings(p: Parsers, rows: seq<Row>, rds: seq<Reading>, f: AmountField)
    requires |rds| == |rows|
    requires forall k :: 0 <= k < |rows| ==> SafeDouble(p, Cell(rows[k], f)) == Ok(AmountOf(rds[k].amounts, f))
    ensures CellSum(p, rows, f) == ReadingSum(rds, f)
  {
    if rows != [] {
      var init, rinit := rows[..|rows| - 1], rds[..|rds| - 1];
      assert forall k :: 0 <= k < |init| ==> init[k] == rows[k] && rinit[k] == rds[k];
      CellSumReadings(p, init, rinit, f);
    }
  }

  lemma {:induction false} StepSumReadings(p: Parsers, rows: seq<Row>, rds: seq<Reading>)
    requires |rds| == |rows|
    requires forall k :: 0 <= k < |rows| ==> SafeLong(p, Cell(rows[k], Steps)) == Ok(rds[k].amounts.steps)
    ensures StepSum(p, rows) == ReadingSteps(rds)
  {
    if rows != [] {
      var init, rinit := rows[..|rows| - 1], rds[..|rds| - 1];
      assert forall k :: 0 <= k < |init| ==> init[k] == rows[k] && rinit[k] == rds[k];
      StepSumReadings(p, init, rinit);
    }
  }

  function DayAmount(s: DailySample, f: AmountField): real {
    if f == ActiveEnergy then s.activeEnergyKcal
    else if f == RestEnergy then s.restingEnergyKcal
    else if f == DistanceMi then s.distanceMi
    else if f == StandMin then s.standMinutes
    else if f == Flights then s.flightsClimbed
    else s.standHourCount
  }

  function DayHeartRate(s: DailySample, f: HeartRateField): Option<int> {
    if f == HrMin then s.hrMin
    else if f == HrMax then s.hrMax
    else if f == HrAvg then s.hrAvg
    else if f == RestingHr then s.restingHr
    else s.walkHrAvg
  }

  /** The readings of rows that all read are the rows' own readings, one by one. */
  lemma ReadingsOfRows(p: Parsers, rows: seq<Row>)
    requires ReadRows(p, rows).Ok?
    ensures forall k :: 0 <= k < |rows| ==> ReadRow(p, rows[k]) == Ok(ReadRows(p, rows).value[k])
  {
    ReadRowsEach(p, rows);
  }

  /** A merged date fails exactly when the first row's date or some cell does not parse; its date is the first row's. */
  lemma MergedOk(p: Parsers, raw: seq<Row>)
    requires |raw| > 0
    ensures Merged(p, raw).Ok? <==>
              ParseDate(p, Cell(raw[0], Date)).Ok? && forall k :: 0 <= k < |raw| ==> ReadRow(p, raw[k]).Ok?
    ensures Merged(p, raw).Ok? ==> Merged(p, raw).value.date == ParseDate(p, Cell(raw[0], Date)).value
  {
    ReadRowsEach(p, raw);
  }

  /** Each cumulative field of a merged date is the sum of that field's cells, a blank cell counting 0. */
  lemma MergedAmount(p: Parsers, raw: seq<Row>, f: AmountField)
    requires |raw| > 0 && Merged(p, raw).Ok?
    ensures forall k :: 0 <= k < |raw| ==> SafeDouble(p, Cell(raw[k], f)).Ok?
    ensures DayAmount(Merged(p, raw).value, f) == CellSum(p, raw, f)
  {
    var rds := ReadRows(p, raw).value;
    ReadingsOfRows(p, raw);
    forall k | 0 <= k < |raw| ensures SafeDouble(p, Cell(raw[k], f)) == Ok(AmountOf(rds[k].amounts, f)) {
      ReadRowAmount(p, raw[k], f);
    }
    CellSumReadings(p, raw, rds, f);
    AccOfSum(rds, f);
  }

  /** The step count of a merged date is the sum of the step cells, a blank cell counting 0. */
  lemma MergedSteps(p: Parsers, raw: seq<Row>)
    requires |raw| > 0 && Merged(p, raw).Ok?
    ensures forall k :: 0 <= k < |raw| ==> SafeLong(p, Cell(raw[k], Steps)).Ok?
    ensures Merged(p, raw).value.steps == StepSum(p, raw)
  {
    var rds := ReadRows(p, raw).value;
    ReadingsOfRows(p, raw);
    forall k | 0 <= k < |raw| ensures SafeLong(p, Cell(raw[k], Steps)) == Ok(rds[k].amounts.steps) {
      ReadRowSteps(p, raw[k]);
    }
    StepSumReadings(p, raw, rds);
    AccOfSteps(rds);
  }

  /** `pushInt`'s values for a field, row by row (`None` for a blank cell). */
  function CellInts(p: Parsers, rows: seq<Row>, f: HeartRateField): seq<Option<int>>
    requires forall k :: 0 <= k < |rows| ==> CellInt(p, Cell(rows[k], f)).Ok?
  {
    seq(|rows|, k requires 0 <= k < |rows| => CellInt(p, Cell(rows[k], f)).value)
  }

  /** `pushD`'s values for a field, row by row (`None` for a blank cell). */
  function CellReals(p: Parsers, rows: seq<Row>, f: RateField): seq<Option<real>>
    requires forall k :: 0 <= k < |rows| ==> CellReal(p, Cell(rows[k], f)).Ok?
  {
    seq(|rows|, k requires 0 <= k < |rows| => CellReal(p, Cell(rows[k], f)).value)
  }

  /** Readings that agree cell by cell with the rows have the rows' heart-rate values. */
  lemma HeartRateColumnOfCells(p: Parsers, rows: seq<Row>, rds: seq<Reading>, f: HeartRateField)
    requires |rds| == |rows|
    requires forall k :: 0 <= k < |rows| ==> CellInt(p, Cell(rows[k], f)) == Ok(HeartRateOf(rds[k].heartRates, f))
    ensures CellInts(p, rows, f) == HeartRateColumn(rds, f)
  {
  }

  /** Readings that agree cell by cell with the rows have the rows' rate values. */
  lemma RateColumnOfCells(p: Parsers, rows: seq<Row>, rds: seq<Reading>, f: RateField)
    requires |rds| == |rows|
    requires forall k :: 0 <= k < |rows| ==> CellReal(p, Cell(rows[k], f)) == Ok(RateOf(rds[k].rates, f))
    ensures CellReals(p, rows, f) == RateColumn(rds, f)
  {
  }

  lemma FinishHeartRate(date: Day, rds: seq<Reading>, f: HeartRateField)
    ensures DayHeartRate(Finish(date, AccOf(rds)), f) == AvgInt(Present(HeartRateColumn(rds, f)))
  {
    AccOfHeartRates(rds, f);
  }

  lemma FinishHrv(date: Day, rds: seq<Reading>)
    ensures Finish(date, AccOf(rds)).hrvMs == Median(Present(RateColumn(rds, HrvMs)))
  {
    AccOfRates(rds, HrvMs);
  }

  lemma FinishAverage(date: Day, rds: seq<Reading>, f: AveragedField)
    ensures DayAverage(Finish(date, AccOf(rds)), f) == Some(Avg(Present(RateColumn(rds, f))))
  {
    AccOfRates(rds, f);
  }

  /** No row contributes a heart-rate value exactly when every row leaves the cell blank. */
  lemma CellIntsBlank(p: Parsers, rows: seq<Row>, f: HeartRateField)
    requires forall k :: 0 <= k < |rows| ==> CellInt(p, Cell(rows[k], f)).Ok?
    ensures Present(CellInts(p, rows, f)) == [] <==> forall k :: 0 <= k < |rows| ==> IsBlank(Cell(rows[k], f))
  {
    var xs := CellInts(p, rows, f);
    PresentEmpty(xs);
    assert forall k :: 0 <= k < |rows| ==> (xs[k].None? <==> IsBlank(Cell(rows[k], f)));
  }

  /** No row contributes a rate value exactly when every row leaves the cell blank. */
  lemma CellRealsBlank(p: Parsers, rows: seq<Row>, f: RateField)
    requires forall k :: 0 <= k < |rows| ==> CellReal(p, Cell(rows[k], f)).Ok?
    ensures Present(CellReals(p, rows, f)) == [] <==> forall k :: 0 <= k < |rows| ==> IsBlank(Cell(rows[k], f))
  {
    var xs := CellReals(p, rows, f);
    PresentEmpty(xs);
    assert forall k :: 0 <= k < |rows| ==> (xs[k].None? <==> IsBlank(Cell(rows[k], f)));
  }

  /**
   * A heart-rate field of a merged date is `avgInt` of the rounded values its rows have for it,
   * and so is null exactly when every row leaves its cell blank.
   */
  lemma MergedHeartRate(p: Parsers, raw: seq<Row>, f: HeartRateField)
    requires |raw| > 0 && Merged(p, raw).Ok?
    ensures forall k :: 0 <= k < |raw| ==> CellInt(p, Cell(raw[k], f)).Ok?
    ensures DayHeartRate(Merged(p, raw).value, f) == AvgInt(Present(CellInts(p, raw, f)))
    ensures DayHeartRate(Merged(p, raw).value, f).None? <==> forall k :: 0 <= k < |raw| ==> IsBlank(Cell(raw[k], f))
  {
    var rds := ReadRows(p, raw).value;
    ReadingsOfRows(p, raw);
    forall k | 0 <= k < |raw| ensures CellInt(p, Cell(raw[k], f)) == Ok(HeartRateOf(rds[k].heartRates, f)) {
      ReadRowHeartRate(p, raw[k], f);
    }
    HeartRateColumnOfCells(p, raw, rds, f);
    FinishHeartRate(ParseDate(p, Cell(raw[0], Date)).value, rds, f);
    CellIntsBlank(p, raw, f);
  }

  /** Heart-rate variability of a merged date is the median of its rows' values, null exactly when every row leaves it blank. */
  lemma MergedHrv(p: Parsers, raw: seq<Row>)
    requires |raw| > 0 && Merged(p, raw).Ok?
    ensures forall k :: 0 <= k < |raw| ==> CellReal(p, Cell(raw[k], HrvMs)).Ok?
    ensures Merged(p, raw).value.hrvMs == Median(Present(CellReals(p, raw, HrvMs)))
    ensures Merged(p, raw).value.hrvMs.None? <==> forall k :: 0 <= k < |raw| ==> IsBlank(Cell(raw[k], HrvMs))
  {
    var rds := ReadRows(p, raw).value;
    ReadingsOfRows(p, raw);
    forall k | 0 <= k < |raw| ensures CellReal(p, Cell(raw[k], HrvMs)) == Ok(RateOf(rds[k].rates, HrvMs)) {
      ReadRowRate(p, raw[k], HrvMs);
    }
    RateColumnOfCells(p, raw, rds, HrvMs);
    FinishHrv(ParseDate(p, Cell(raw[0], Date)).value, rds);
    CellRealsBlank(p, raw, HrvMs);
  }

  /** The rates `avg` reduces: every one but heart-rate variability. */
  type AveragedField = f: RateField | f != HrvMs witness Spo2

  /** The merged value of an averaged rate; exercise minutes is the one stored without `Optional`. */
  function DayAverage(s: DailySample, f: AveragedField): Option<real> {
    if f == Spo2 then s.spo2Pct
    else if f == AudioDb then s.envAudioDbA
    else if f == PhysEff then s.physicalEffortKcalPerHrPerKg
    else if f == StairUp then s.stairUpFtPerSec
    else if f == StairDown then s.stairDownFtPerSec
    else if f == WalkSpeed then s.walkSpeedMph
    else if f == StepLenIn then s.walkStepLenIn
    else if f == DoubleSupp then s.walkDoubleSupportPct
    else if f == AsymPct then s.walkAsymPct
    else Some(s.exerciseMin)
  }

  /**
   * Every averaged rate of a merged date is present, and is the mean of the values its rows have
   * for it, or 0.0 when every row leaves it blank.
   */
  lemma MergedAverage(p: Parsers, raw: seq<Row>, f: AveragedField)
    requires |raw| > 0 && Merged(p, raw).Ok?
    ensures forall k :: 0 <= k < |raw| ==> CellReal(p, Cell(raw[k], f)).Ok?
    ensures DayAverage(Merged(p, raw).value, f) == Some(Avg(Present(CellReals(p, raw, f))))
  {
    var rds := ReadRows(p, raw).value;
    ReadingsOfRows(p, raw);
    forall k | 0 <= k < |raw| ensures CellReal(p, Cell(raw[k], f)) == Ok(RateOf(rds[k].rates, f)) {
      ReadRowRate(p, raw[k], f);
    }
    RateColumnOfCells(p, raw, rds, f);
    FinishAverage(ParseDate(p, Cell(raw[0], Date)).value, rds, f);
  }
}
