/**
 * The records of the wellness service: the canonical cell keys a decoded row uses,
 * `DailySample`, `Summary7d`, and the ways an upload can fail.
 */
module Model {
  import opened Wrappers

  /** A calendar date, as a day number (the next day is one more). */
  type Day = int

  /** A set of dates that is not empty has a member to pick. */
  lemma SomeDay(days: set<Day>)
    requires days != {}
    ensures exists d :: d in days
  {
    if forall d :: d !in days {
      assert false;
    }
  }

  /**
   * The canonical keys of a decoded row (`"date"`, `"activeEnergy"`, ...), in the order
   * the service resolves and copies them.
   */
  datatype Field =
    | Date | ActiveEnergy | ExerciseMin | StandHour | StandMin | Spo2 | AudioDb | Flights
    | HrMin | HrMax | HrAvg | HrvMs | PhysEff | RestEnergy | RestingHr | StairDown | StairUp
    | Steps | DistanceMi | AsymPct | DoubleSupp | WalkHrAvg | WalkSpeed | StepLenIn

  /** Fields merged by summation, blank cells counting 0 (`safeDouble`); steps are summed as `long`. */
  type AmountField = f: Field | f == ActiveEnergy || f == RestEnergy || f == DistanceMi || f == StandMin || f == Flights || f == StandHour
    witness ActiveEnergy

  /** Fields merged by `avgInt` over present cells, each cell rounded first (`pushInt`). */
  type HeartRateField = f: Field | f == HrMin || f == HrMax || f == HrAvg || f == RestingHr || f == WalkHrAvg
    witness HrAvg

  /** Fields collected by `pushD` over present cells, then merged by `avg` (or `median` for HRV). */
  type RateField = f: Field |
    || f == HrvMs || f == Spo2 || f == AudioDb || f == PhysEff || f == StairUp || f == StairDown
    || f == WalkSpeed || f == StepLenIn || f == DoubleSupp || f == AsymPct || f == ExerciseMin
    witness HrvMs

  /** A decoded row: canonical key to the raw cell text; a key is absent when its column is not resolved. */
  type Row = map<Field, string>

  /** One calendar date's merged metrics (`DailySample`); boxed Java fields are `Option`s. */
  datatype DailySample = DailySample(
    date: Day,
    activeEnergyKcal: real,
    exerciseMin: real,
    standHourCount: real,
    standMinutes: real,
    spo2Pct: Option<real>,
    envAudioDbA: Option<real>,
    flightsClimbed: real,
    hrMin: Option<int>,
    hrMax: Option<int>,
    hrAvg: Option<int>,
    hrvMs: Option<real>,
    physicalEffortKcalPerHrPerKg: Option<real>,
    restingEnergyKcal: real,
    restingHr: Option<int>,
    stairDownFtPerSec: Option<real>,
    stairUpFtPerSec: Option<real>,
    steps: int,
    distanceMi: real,
    walkAsymPct: Option<real>,
    walkDoubleSupportPct: Option<real>,
    walkHrAvg: Option<int>,
    walkSpeedMph: Option<real>,
    walkStepLenIn: Option<real>)

  /** The trailing seven-day summary (`Summary7d`). */
  datatype Summary7d = Summary7d(
    totalActiveEnergyKcal: real,
    totalRestingEnergyKcal: real,
    avgExerciseMinPerDay: real,
    totalStandHours: real,
    standGoalDays: int,
    moveGoalDays: int,
    totalDistanceMi: real,
    totalSteps: int,
    hrAvg: Option<int>,
    hrMin: Option<int>,
    hrMax: Option<int>,
    restingHrAvg: Option<int>,
    restingHrMin: Option<int>,
    restingHrMax: Option<int>,
    hrvMedianMs: Option<real>,
    walkHrAvg: Option<int>,
    walkSpeedAvgMph: Option<real>,
    stepLenAvgIn: Option<real>,
    doubleSupportAvgPct: Option<real>,
    asymmetryAvgPct: Option<real>,
    stairUpAvgFtPerSec: Option<real>,
    stairDownAvgFtPerSec: Option<real>,
    envAudioAvgDbA: Option<real>,
    spo2AvgPct: Option<real>,
    spo2MinPct: Option<real>)

  /** The exceptions that abort an upload. */
  datatype UploadError =
    | BlankHeader(header: seq<string>)     // CSVParser: a header name is missing
    | DuplicateHeader(key: string)          // Collectors.toMap: two headers normalise alike
    | MissingColumn(aliases: seq<string>)   // req: no header matches any alias
    | ColumnOutOfRange(index: nat, length: nat)  // CSVRecord.get on a record shorter than the header
    | BadNumber(text: string)               // Double.parseDouble / Long.parseLong
    | BadDate(text: string)                 // LocalDate.parse, after every format failed
    | NoData                                // "No data rows."
}
