/**
 * Cell conversions of HealthService: `safeDouble`/`safeLong` (blank counts 0), `pushInt`/`pushD`
 * (blank is skipped) and `parseDate` (three patterns, then a last-resort parse).
 */
module Cells {
  import opened Wrappers
  import opened Text
  import opened Stats
  import opened Model

  /**
   * The library conversions the service calls: `Double.parseDouble`, `Long.parseLong`, the
   * `yyyy-MM-dd`, `M/d/yy` and `yyyy/M/d` formatters and the default `LocalDate.parse`.
   * Each is partial: `None` stands for the exception it throws.
   */
  datatype Parsers = Parsers(
    parseDouble: string -> Option<real>,
    parseLong: string -> Option<int>,
    isoDate: string -> Option<Day>,
    shortDate: string -> Option<Day>,
    slashDate: string -> Option<Day>,
    defaultDate: string -> Option<Day>)

  /** A cell that is absent from the row or holds only whitespace. */
  predicate IsBlank(cell: Option<string>) {
    cell.None? || Trim(cell.value) == []
  }

  /** The trimmed text of a cell that is not blank. */
  function CellText(cell: Option<string>): string
    requires !IsBlank(cell)
  {
    Trim(cell.value)
  }

  /** `Double.parseDouble` on the trimmed text, its failure reported with that text. */
  function ReadReal(p: Parsers, cell: Option<string>): Result<real, UploadError>
    requires !IsBlank(cell)
  {
    match p.parseDouble(CellText(cell))
    case Some(v) => Ok(v)
    case None => Err(BadNumber(CellText(cell)))
  }

  /** `safeDouble`: a blank cell counts 0.0, any other cell is parsed. */
  function SafeDouble(p: Parsers, cell: Option<string>): (r: Result<real, UploadError>)
    ensures IsBlank(cell) ==> r == Ok(0.0)
    ensures !IsBlank(cell) ==> r == ReadReal(p, cell)
  {
    if IsBlank(cell) then Ok(0.0) else ReadReal(p, cell)
  }

  /** `safeLong`: a blank cell counts 0, any other cell is parsed as a whole number. */
  function SafeLong(p: Parsers, cell: Option<string>): (r: Result<int, UploadError>)
    ensures IsBlank(cell) ==> r == Ok(0)
    ensures !IsBlank(cell) ==> (r.Ok? <==> p.parseLong(CellText(cell)).Some?)
    ensures !IsBlank(cell) && r.Ok? ==> r.value == p.parseLong(CellText(cell)).value
    ensures r.Err? ==> !IsBlank(cell) && r.error == BadNumber(CellText(cell))
  {
    if IsBlank(cell) then Ok(0)
    else match p.parseLong(CellText(cell))
      case Some(v) => Ok(v)
      case None => Err(BadNumber(CellText(cell)))
  }

  /** The value `pushD` appends for a cell: none for a blank cell, else the parsed number. */
  function CellReal(p: Parsers, cell: Option<string>): (r: Result<Option<real>, UploadError>)
    ensures r.Ok? && r.value.None? <==> IsBlank(cell)
  {
    if IsBlank(cell) then Ok(None)
    else
      var v :- ReadReal(p, cell);
      Ok(Some(v))
  }

  /** The value `pushInt` appends for a cell: none for a blank cell, else the parsed number rounded half-up. */
  function CellInt(p: Parsers, cell: Option<string>): (r: Result<Option<int>, UploadError>)
    ensures r.Ok? && r.value.None? <==> IsBlank(cell)
  {
    if IsBlank(cell) then Ok(None)
    else
      var v :- ReadReal(p, cell);
      Ok(Some(Round(v)))
  }

  /**
   * The two treatments of one cell agree: a blank cell adds 0 to a sum and nothing to a list;
   * any other cell adds the same parsed number to both, or makes both fail alike.
   */
  lemma SumAndListAgree(p: Parsers, cell: Option<string>)
    ensures SafeDouble(p, cell).Ok? <==> CellReal(p, cell).Ok?
    ensures CellReal(p, cell) == Ok(None) ==> SafeDouble(p, cell) == Ok(0.0)
    ensures forall v :: CellReal(p, cell) == Ok(Some(v)) ==> SafeDouble(p, cell) == Ok(v)
    ensures CellReal(p, cell).Err? ==> SafeDouble(p, cell).error == CellReal(p, cell).error
  {
  }

  /** `pushInt` rounds what `pushD` would append: the whole number nearest it, halves going up. */
  lemma CellIntRounds(p: Parsers, cell: Option<string>)
    ensures CellInt(p, cell).Ok? <==> CellReal(p, cell).Ok?
    ensures CellInt(p, cell).Ok? ==> (CellInt(p, cell).value.Some? <==> CellReal(p, cell).value.Some?)
    ensures CellInt(p, cell).Ok? && CellInt(p, cell).value.Some? ==>
              var x := CellReal(p, cell).value.value;
              var n := CellInt(p, cell).value.value;
              x - 0.5 < n as real <= x + 0.5
  {
  }

  /**
   * `pushD`: the list gains the cell's number, unless the cell is blank, in which case it is
   * left as it was.
   */
  method PushD(list: seq<real>, p: Parsers, cell: Option<string>) returns (r: Result<seq<real>, UploadError>)
    ensures IsBlank(cell) ==> r == Ok(list)
    ensures !IsBlank(cell) ==> (r.Ok? <==> p.parseDouble(CellText(cell)).Some?)
    ensures !IsBlank(cell) && r.Ok? ==> r.value == list + [p.parseDouble(CellText(cell)).value]
    ensures r.Err? ==> !IsBlank(cell) && r.error == BadNumber(CellText(cell))
    ensures r.Ok? ==> r.value == list + AsSeq(CellReal(p, cell).value)
  {
    if cell.None? {
      return Ok(list);
    }
    var t := Trim(cell.value);
    if t == [] {
      return Ok(list);
    }
    var v := p.parseDouble(t);
    if v.None? {
      return Err(BadNumber(t));
    }
    return Ok(list + [v.value]);
  }

  /**
   * `pushInt`: the list gains the cell's number rounded half-up, unless the cell is blank, in
   * which case it is left as it was.
   */
  method PushInt(list: seq<int>, p: Parsers, cell: Option<string>) returns (r: Result<seq<int>, UploadError>)
    ensures IsBlank(cell) ==> r == Ok(list)
    ensures !IsBlank(cell) ==> (r.Ok? <==> p.parseDouble(CellText(cell)).Some?)
    ensures !IsBlank(cell) && r.Ok? ==> |r.value| == |list| + 1 && r.value[..|list|] == list
    ensures !IsBlank(cell) && r.Ok? ==>
              var x := p.parseDouble(CellText(cell)).value;
              x - 0.5 < r.value[|list|] as real <= x + 0.5
    ensures r.Err? ==> !IsBlank(cell) && r.error == BadNumber(CellText(cell))
    ensures r.Ok? ==> r.value == list + AsSeq(CellInt(p, cell).value)
  {
    if cell.None? {
      return Ok(list);
    }
    var t := Trim(cell.value);
    if t == [] {
      return Ok(list);
    }
    var v := p.parseDouble(t);
    if v.None? {
      return Err(BadNumber(t));
    }
    return Ok(list + [Round(v.value)]);
  }

  /** The text `parseDate` works on: the trimmed cell, or the empty text for a missing cell. */
  function DateText(raw: Option<string>): string {
    if raw.None? then "" else Trim(raw.value)
  }

  /** The date formats in the order `parseDate` tries them. */
  function DateFormats(p: Parsers): seq<string -> Option<Day>> {
    [p.isoDate, p.shortDate, p.slashDate, p.defaultDate]
  }

  /** The answer of the first format that accepts the text, if any. */
  function FirstAccepted(formats: seq<string -> Option<Day>>, v: string): (r: Option<Day>)
    ensures r.None? <==> forall i :: 0 <= i < |formats| ==> formats[i](v).None?
    ensures r.Some? ==> exists i :: 0 <= i < |formats| && formats[i](v) == r && forall k :: 0 <= k < i ==> formats[k](v).None?
  {
    if formats == [] then None
    else if formats[0](v).Some? then formats[0](v)
    else
      var r := FirstAccepted(formats[1..], v);
      assert forall i :: 1 <= i < |formats| ==> formats[1..][i - 1] == formats[i];
      r
  }

  /**
   * `parseDate`: the trimmed text is tried against `yyyy-MM-dd`, `M/d/yy` and `yyyy/M/d` in that
   * order, then against the default ISO parse, whose failure is the error the upload reports.
   */
  function ParseDate(p: Parsers, raw: Option<string>): (r: Result<Day, UploadError>)
  {
    var v := DateText(raw);
    if p.isoDate(v).Some? then Ok(p.isoDate(v).value)
    else if p.shortDate(v).Some? then Ok(p.shortDate(v).value)
    else if p.slashDate(v).Some? then Ok(p.slashDate(v).value)
    else if p.defaultDate(v).Some? then Ok(p.defaultDate(v).value)
    else Err(BadDate(v))
  }

  /**
   * The first format that accepts the trimmed text decides the date, and the date fails only when
   * all four reject it. Surrounding whitespace never matters.
   */
  lemma ParseDateFirstWins(p: Parsers, raw: Option<string>)
    ensures ParseDate(p, raw).Ok? <==> FirstAccepted(DateFormats(p), DateText(raw)).Some?
    ensures ParseDate(p, raw).Ok? ==> ParseDate(p, raw).value == FirstAccepted(DateFormats(p), DateText(raw)).value
    ensures ParseDate(p, raw).Err? ==> ParseDate(p, raw).error == BadDate(DateText(raw))
    ensures raw.Some? ==> ParseDate(p, raw) == ParseDate(p, Some(Trim(raw.value)))
  {
    var fs := DateFormats(p);
    var v := DateText(raw);
    assert fs[0] == p.isoDate && fs[1] == p.shortDate && fs[2] == p.slashDate && fs[3] == p.defaultDate;
    if raw.Some? {
      TrimShape(raw.value);
      TrimShape(Trim(raw.value));
    }
  }
}
