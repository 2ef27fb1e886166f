/**
 * `transform_forecast`: one `air_quality` row per feed entry, in feed order.
 * The script raises on the first entry it cannot convert, so the whole
 * transformation fails with that entry's error.
 */
module Transform {
  import opened Wrappers
  import opened Dates
  import opened DateExtraction
  import TextCleaning

  /**
   * One object of the feed's `currentForecast` list. `None` stands for a key
   * that is absent or holds JSON `null`.
   */
  datatype Entry = Entry(
    forecastId: Option<string>,      // "forecastID"
    subId: Option<string>,           // "$id"
    forecastType: Option<string>,    // "forecastType"
    forecastBand: Option<string>,    // "forecastBand"
    forecastSummary: Option<string>, // "forecastSummary"
    toDate: Option<string>,          // "toDate"
    no2Band: Option<string>,         // "nO2Band"
    o3Band: Option<string>,          // "o3Band"
    pm10Band: Option<string>,        // "pM10Band"
    pm25Band: Option<string>,        // "pM25Band"
    so2Band: Option<string>,         // "sO2Band"
    forecastText: Option<string>)    // "forecastText"

  /** A row of the `air_quality` table; `id` is its primary key. */
  datatype Row = Row(
    id: string,
    forecastId: string,
    forecastType: Option<string>,
    band: Option<string>,
    summary: Option<string>,
    forecastDate: Date,
    endDate: Date,
    no2Band: Option<string>,
    o3Band: Option<string>,
    pm10Band: Option<string>,
    pm25Band: Option<string>,
    so2Band: Option<string>,
    text: Option<string>)

  /** Why an entry could not become a row (the exception the script dies of). */
  datatype TransformError =
    | MissingKey                      // `None + "_"` raises TypeError
    | NoDateInSummary                 // `extract_date` gave None, `.date()` raises
    | BadForecastDate(token: string)  // strptime "%d %B %Y" raised ValueError
    | BadEndDate                      // strptime of `toDate` raised

  /** The synthesized primary key `forecastID + "_" + $id`. */
  function RowId(forecastId: string, subId: string): (id: string)
    ensures |id| == |forecastId| + 1 + |subId|
    ensures id[..|forecastId|] == forecastId && id[|forecastId|] == '_' && id[|forecastId| + 1..] == subId
  {
    forecastId + "_" + subId
  }

  /** Under one `forecastID`, two keys are equal exactly when the `$id`s are. */
  lemma RowIdInjective(forecastId: string, a: string, b: string)
    ensures RowId(forecastId, a) == RowId(forecastId, b) <==> a == b
  {
    if RowId(forecastId, a) == RowId(forecastId, b) {
      assert a == RowId(forecastId, a)[|forecastId| + 1..];
    }
  }

  /** The `forecast_date` column: `extract_date(day.get("forecastSummary", ""))`. */
  function ForecastDate(summary: Option<string>, year: nat): (r: Result<Date, TransformError>)
    ensures r.Ok? ==> ValidDate(r.value)
    ensures r == Err(NoDateInSummary) <==> summary.None? || ExtractDate(summary.value, year).NoToken?
    ensures r.Ok? <==> summary.Some? && ExtractDate(summary.value, year).Extracted?
    ensures r.Ok? ==> r.value == ExtractDate(summary.value, year).date
    ensures summary.Some? && ExtractDate(summary.value, year).Unparseable? ==>
              r == Err(BadForecastDate(ExtractDate(summary.value, year).token))
  {
    if summary.None? then Err(NoDateInSummary)
    else match ExtractDate(summary.value, year)
      case NoToken => Err(NoDateInSummary)
      case Unparseable(token) => Err(BadForecastDate(token))
      case Extracted(d) => Ok(d)
  }

  /** The `end_date` column: the date part of `toDate` read as `%Y-%m-%dT%H:%M:%SZ`. */
  function EndDate(toDate: Option<string>): (r: Result<Date, TransformError>)
    ensures r.Ok? <==> toDate.Some? && ParseIsoUtc(toDate.value).Some?
    ensures r.Ok? ==> ValidDate(r.value) && r.value == ParseIsoUtc(toDate.value).value.date
  {
    if toDate.None? then Err(BadEndDate)
    else match ParseIsoUtc(toDate.value)
      case None => Err(BadEndDate)
      case Some(t) => Ok(t.date)
  }

  /** A `toDate` written in the feed's format gives back its own date. */
  lemma EndDateOfFormatted(t: DateTime)
    requires ValidDateTime(t)
    ensures EndDate(Some(FormatIsoUtc(t))) == Ok(t.date)
  {
    ParseIsoUtcRoundTrip(t);
  }

  /**
   * The dictionary the loop body of `transform_forecast` builds for one
   * entry, or the error its evaluation raises first (the key on line 71,
   * then the forecast date, then the end date).
   */
  function TransformEntry(e: Entry, year: nat, unescape: string -> string): (r: Result<Row, TransformError>)
    ensures r.Ok? <==> e.forecastId.Some? && e.subId.Some?
                       && ForecastDate(e.forecastSummary, year).Ok? && EndDate(e.toDate).Ok?
    ensures r.Err? ==> r.error == (if e.forecastId.None? || e.subId.None? then MissingKey
                                   else if ForecastDate(e.forecastSummary, year).Err?
                                   then ForecastDate(e.forecastSummary, year).error
                                   else BadEndDate)
    ensures r.Ok? ==> && r.value.id == RowId(e.forecastId.value, e.subId.value)
                      && r.value.forecastId == e.forecastId.value
                      && r.value.forecastType == e.forecastType && r.value.band == e.forecastBand
                      && r.value.no2Band == e.no2Band && r.value.o3Band == e.o3Band
                      && r.value.pm10Band == e.pm10Band && r.value.pm25Band == e.pm25Band
                      && r.value.so2Band == e.so2Band
                      && r.value.summary == TextCleaning.CleanText(e.forecastSummary, unescape)
                      && r.value.text == TextCleaning.CleanText(e.forecastText, unescape)
                      && r.value.forecastDate == ForecastDate(e.forecastSummary, year).value
                      && r.value.endDate == EndDate(e.toDate).value
    ensures r.Ok? ==> ValidDate(r.value.forecastDate) && ValidDate(r.value.endDate)
  {
    if e.forecastId.None? || e.subId.None? then Err(MissingKey)
    else match (ForecastDate(e.forecastSummary, year), EndDate(e.toDate))
      case (Err(err), _) => Err(err)
      case (_, Err(err)) => Err(err)
      case (Ok(forecastDate), Ok(endDate)) =>
      Ok(Row(
        id := RowId(e.forecastId.value, e.subId.value),
        forecastId := e.forecastId.value,
        forecastType := e.forecastType,
        band := e.forecastBand,
        summary := TextCleaning.CleanText(e.forecastSummary, unescape),
        forecastDate := forecastDate,
        endDate := endDate,
        no2Band := e.no2Band,
        o3Band := e.o3Band,
        pm10Band := e.pm10Band,
        pm25Band := e.pm25Band,
        so2Band := e.so2Band,
        text := TextCleaning.CleanText(e.forecastText, unescape)))
  }

  /**
   * A row's forecast date is the leftmost `\d{1,2} \w+` match of the raw
   * summary read as a date of the run's year: its digits give the day and
   * its word the month.
   */
  lemma ForecastDateOfFirstToken(e: Entry, year: nat, unescape: string -> string)
    requires TransformEntry(e, year, unescape).Ok?
    ensures e.forecastSummary.Some? && FindToken(e.forecastSummary.value, 0).Some?
    ensures TransformEntry(e, year, unescape).value.forecastDate
            == FirstTokenDate(e.forecastSummary.value, year)
    ensures TransformEntry(e, year, unescape).value.forecastDate.year == year
  {
    assert ForecastDate(e.forecastSummary, year).Ok?;
    ExtractedDateOfFirstToken(e.forecastSummary.value, year);
  }

  /**
   * Two entries of one forecast get the same key exactly when their `$id`s
   * are equal; such rows overwrite each other in the table.
   */
  lemma RowIdsCollideOnlyOnSubId(e1: Entry, e2: Entry, year: nat, unescape: string -> string)
    requires TransformEntry(e1, year, unescape).Ok? && TransformEntry(e2, year, unescape).Ok?
    requires e1.forecastId == e2.forecastId
    ensures TransformEntry(e1, year, unescape).value.id == TransformEntry(e2, year, unescape).value.id
            <==> e1.subId == e2.subId
  {
    RowIdInjective(e1.forecastId.value, e1.subId.value, e2.subId.value);
  }

  /**
   * The loop body of `transform_forecast` for a run in year `year`, as a
   * function value: the conversion `TransformAll` applies to each entry.
   */
  function Converter(year: nat, unescape: string -> string): (convert: Entry -> Result<Row, TransformError>)
    ensures forall e :: convert(e) == TransformEntry(e, year, unescape)
  {
    e => TransformEntry(e, year, unescape)
  }

  /**
   * What `transform_forecast(forecast)` evaluates to when each entry is
   * converted by `convert`: the rows of all entries in order, or the error
   * of the first entry that fails.
   */
  function TransformAll(entries: seq<Entry>, convert: Entry -> Result<Row, TransformError>): (r: Result<seq<Row>, TransformError>)
    decreases |entries|
  {
    if entries == [] then Ok([])
    else match convert(entries[0])
      case Err(e) => Err(e)
      case Ok(row) => Prepend([row], TransformAll(entries[1..], convert))
  }

  /** Entry `i` is the first one that cannot be converted. */
  ghost predicate FirstFailure(entries: seq<Entry>, i: int, convert: Entry -> Result<Row, TransformError>) {
    && 0 <= i < |entries|
    && convert(entries[i]).Err?
    && forall j :: 0 <= j < i ==> convert(entries[j]).Ok?
  }

  /**
   * The transformation succeeds exactly when every entry does, and then
   * gives one row per entry, in input order; otherwise it fails with the
   * error of the first failing entry.
   */
  lemma {:induction false} TransformAllRows(entries: seq<Entry>, convert: Entry -> Result<Row, TransformError>)
    ensures var r := TransformAll(entries, convert);
      && (r.Ok? <==> forall i :: 0 <= i < |entries| ==> convert(entries[i]).Ok?)
      && (r.Ok? ==> |r.value| == |entries|
                    && forall i :: 0 <= i < |entries| ==> r.value[i] == convert(entries[i]).value)
      && (r.Err? ==> exists i :: FirstFailure(entries, i, convert) && r.error == convert(entries[i]).error)
    decreases |entries|
  {
    if entries != [] {
      var tail := entries[1..];
      TransformAllRows(tail, convert);
      if convert(entries[0]).Err? {
        assert FirstFailure(entries, 0, convert);
      } else {
        forall i | 0 < i < |entries| ensures entries[i] == tail[i - 1] { }
        var rest := TransformAll(tail, convert);
        if rest.Err? {
          var k :| FirstFailure(tail, k, convert) && rest.error == convert(tail[k]).error;
          assert FirstFailure(entries, k + 1, convert);
        }
      }
    }
  }

  /**
   * `transform_forecast(forecast)`: the `for` loop that appends one row per
   * entry, `convert` being its body. The first entry that raises ends it.
   */
  method TransformForecast(entries: seq<Entry>, convert: Entry -> Result<Row, TransformError>)
    returns (r: Result<seq<Row>, TransformError>)
    ensures r == TransformAll(entries, convert)
  {
    var rows: seq<Row> := [];
    var i := 0;
    assert entries[0..] == entries;
    while i < |entries|
      invariant 0 <= i <= |entries|
      invariant TransformAll(entries, convert) == Prepend(rows, TransformAll(entries[i..], convert))
    {
      var row := convert(entries[i]);
      assert entries[i..][0] == entries[i] && entries[i..][1..] == entries[i + 1..];
      if row.Err? {
        return Err(row.error);
      }
      ghost var rest := TransformAll(entries[i + 1..], convert);
      assert rest.Ok? ==> rows + ([row.value] + rest.value) == (rows + [row.value]) + rest.value;
      rows := rows + [row.value];
      i := i + 1;
    }
    assert entries[i..] == [] && rows + [] == rows;
    return Ok(rows);
  }

  /** `rows` in front of the rows of `r`, or the error of `r`. */
  function Prepend(rows: seq<Row>, r: Result<seq<Row>, TransformError>): (p: Result<seq<Row>, TransformError>)
    ensures p.Ok? <==> r.Ok?
    ensures p.Err? ==> p == r
    ensures p.Ok? ==> |p.value| == |rows| + |r.value| && p.value[..|rows|] == rows && p.value[|rows|..] == r.value
  {
    if r.Err? then r else Ok(rows + r.value)
  }
}
