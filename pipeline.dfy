/**
 * One run of the script: the fetched forecast list is checked, transformed
 * and upserted, and the transaction is committed only when every step got
 * through. The network fetch itself is a parameter: `None` for the request
 * or JSON errors it reports, otherwise the `currentForecast` list.
 */
module Pipeline {
  import opened Wrappers
  import opened Transform
  import opened Loading

  /** How a run ends. */
  datatype Outcome =
    | FetchFailed                               // "Failed to retrieve data.", exit(1)
    | TransformFailed(error: TransformError)    // uncaught exception in transform_forecast
    | Loaded(rows: seq<Row>)                    // rows upserted and committed

  /** The gate `if forecast_data:` lets through only a non-empty list. */
  predicate FetchSucceeded(fetched: Option<seq<Entry>>) {
    fetched.Some? && fetched.value != []
  }

  /** The process exit status of a run: 0 only when the rows were loaded. */
  function ExitStatus(outcome: Outcome): (status: int)
    ensures status == 0 <==> outcome.Loaded?
  {
    if outcome.Loaded? then 0 else 1
  }

  /**
   * The script from the fetch on. The table is committed only after all
   * rows are upserted; any earlier failure leaves it as it was.
   */
  method RunPipeline(fetched: Option<seq<Entry>>, year: nat, unescape: string -> string, table: AirQualityTable)
    returns (outcome: Outcome)
    requires table.Valid() && table.pending == table.committed
    modifies table
    ensures table.Valid() && table.pending == table.committed
    ensures outcome.FetchFailed? <==> !FetchSucceeded(fetched)
    ensures outcome.TransformFailed? <==>
              FetchSucceeded(fetched) && TransformAll(fetched.value, Converter(year, unescape)).Err?
    ensures outcome.TransformFailed? ==>
              outcome.error == TransformAll(fetched.value, Converter(year, unescape)).error
    ensures outcome.Loaded? ==>
              outcome.rows == TransformAll(fetched.value, Converter(year, unescape)).value
    ensures outcome.Loaded? ==> table.committed == ApplyBatch(old(table.committed), outcome.rows)
    ensures !outcome.Loaded? ==> table.committed == old(table.committed)
  {
    if !FetchSucceeded(fetched) {
      table.Close();
      return FetchFailed;
    }
    var transformed := TransformForecast(fetched.value, Converter(year, unescape));
    if transformed.Err? {
      table.Close();
      return TransformFailed(transformed.error);
    }
    LoadRows(table, transformed.value);
    table.Commit();
    table.Close();
    return Loaded(transformed.value);
  }

  /**
   * A successful run stores one row per entry under its `forecastID_$id`
   * key, each forecast date in the run's year: the committed table holds,
   * for every entry whose key no later entry reuses, exactly that entry's row.
   */
  lemma LoadedRowsStored(entries: seq<Entry>, year: nat, unescape: string -> string,
                         before: map<string, Row>, i: int)
    requires TransformAll(entries, Converter(year, unescape)).Ok?
    requires 0 <= i < |entries|
    ensures var rows := TransformAll(entries, Converter(year, unescape)).value;
            |rows| == |entries| && Ok(rows[i]) == TransformEntry(entries[i], year, unescape)
            && rows[i].forecastDate.year == year
            && rows[i].id == RowId(entries[i].forecastId.value, entries[i].subId.value)
            && (LastWithId(rows, i) ==> ApplyBatch(before, rows)[rows[i].id] == rows[i])
  {
    var convert := Converter(year, unescape);
    TransformAllRows(entries, convert);
    assert convert(entries[i]).Ok?;
    ForecastDateOfFirstToken(entries[i], year, unescape);
    var rows := TransformAll(entries, convert).value;
    if LastWithId(rows, i) {
      ApplyBatchLastWins(before, rows, i);
    }
  }
}
