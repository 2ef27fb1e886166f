# TfL air-quality ETL pipeline, modelled in Dafny

The script `scripts/tfl_pipeline.py` fetches the Transport for London
air-quality forecast feed. It turns every forecast entry into a row of the
`air_quality` table and upserts the rows into PostgreSQL in one transaction.
This project models its logic:

- `clean_text` (`text.dfy`, module `TextCleaning`): HTML entities are decoded,
  `<br/>` becomes a newline and both ends are stripped. Missing or empty text
  gives `None`.
- `extract_date` (`extract.dfy`, module `DateExtraction`): the leftmost
  match of `\d{1,2} \w+` is taken, the current year is appended, and the text
  is parsed with `"%d %B %Y"`.
- The two `datetime.strptime` formats (`dates.dfy`, module `Dates`):
  `"%d %B %Y"` and `"%Y-%m-%dT%H:%M:%SZ"`. Each follows the regular expression
  CPython builds for its directives, and then the calendar checks of
  `datetime`.
- `transform_forecast` (`transform.dfy`, module `Transform`): one row per
  entry, in feed order, with the key `forecastID + "_" + $id`. The first entry
  whose evaluation raises ends the run.
- The load loop and its commit (`load.dfy`, module `Loading`). The table is
  a class whose `committed` map is what other sessions see, and whose
  `pending` map is the open transaction. `INSERT ... ON CONFLICT (id) DO
  UPDATE` becomes a map update.
- The run itself (`pipeline.dfy`, module `Pipeline`): the gate on the fetch
  result, then transform, load, commit and close.

`html.unescape` is a parameter `unescape: string -> string`, and so is the
year `datetime.today().year`. The fetch's outcome is a parameter too:
`None` for the request and JSON errors it reports, otherwise the
`currentForecast` list. A feed value is `None` when the key is absent or
holds `null`.

The transformation is written once as `TransformAll(entries, convert)`, over
the loop body `convert`. A run passes `Converter(year, unescape)`, which
applies `TransformEntry` to each entry.

What the script does at its edges:

- It raises on the first bad entry, so the whole transformation fails and
  nothing is loaded. No entry is skipped.
- The load always overwrites on conflict. The script has no insert-only mode.
- `clean_text` returns `None` for missing or empty text.

## Model

| member | source | states |
|---|---|---|
| TextCleaning.CleanText | scripts/tfl_pipeline.py:50-56 | `None` exactly when the input is missing or empty. Otherwise the result is the normalized text of the unescaped input: it contains no `<br/>` and has no whitespace at either end |
| TextCleaning.ReplaceBreaks | scripts/tfl_pipeline.py:55 | `replace("<br/>", "\n")` changes nothing in a text without `<br/>` |
| TextCleaning.ReplaceBreaksRemovesTags | scripts/tfl_pipeline.py:55 | no `<br/>` is left after the replacement, not even one formed across a replaced tag |
| TextCleaning.ReplacedPrefixWithoutNewline | scripts/tfl_pipeline.py:55 | a newline-free prefix of the replaced text was already a prefix of the input |
| TextCleaning.StripStart | scripts/tfl_pipeline.py:55 | `lstrip` removes a prefix made only of whitespace, and the result does not start with whitespace |
| TextCleaning.StripEnd | scripts/tfl_pipeline.py:55 | `rstrip` removes a suffix made only of whitespace, and the result does not end with whitespace |
| TextCleaning.Strip | scripts/tfl_pipeline.py:55 | `strip()` returns a slice of its input with only whitespace outside it, and neither end of that slice is whitespace |
| TextCleaning.Normalize | scripts/tfl_pipeline.py:55 | replace-then-strip leaves no `<br/>` and no whitespace at either end |
| TextCleaning.NormalizeRemovesTags | scripts/tfl_pipeline.py:55 | stripping the replaced text keeps it free of `<br/>` |
| TextCleaning.StripTrimmed | scripts/tfl_pipeline.py:55 | stripping a text that is already trimmed returns it unchanged |
| TextCleaning.NormalizeIdempotent | scripts/tfl_pipeline.py:55 | applying replace-then-strip twice gives the same text as applying it once |
| Dates.DaysInMonth | scripts/tfl_pipeline.py:63 | every month has 28 to 31 days in the Gregorian calendar |
| Dates.DigitChar | scripts/tfl_pipeline.py:62 | the digit character of `n < 10` is a digit worth `n` |
| Dates.NatToDecimal | scripts/tfl_pipeline.py:62 | `str(year)` is a non-empty digit string whose value is the year and which has no leading zero |
| Dates.NatToDecimalFits | scripts/tfl_pipeline.py:62 | `str(n)` has at most `k` digits exactly when `k >= 1` and `n < 10^k` |
| Dates.NatToDecimalLength | scripts/tfl_pipeline.py:62-63 | `str(year)` has the four digits `%Y` requires exactly when the year is between 1000 and 9999 |
| Dates.DigitRunEnd | scripts/tfl_pipeline.py:63 | the digit run at `i` is all digits and is followed by a non-digit or the end of the text |
| Dates.SpaceRunEnd | scripts/tfl_pipeline.py:63 | the whitespace a blank of the format consumes is maximal and is all whitespace |
| Dates.NumberField | scripts/tfl_pipeline.py:77 | a numeric directive reads at least one character and yields a value inside its range |
| Dates.DayField | scripts/tfl_pipeline.py:63 | `%d` reads a day from 1 to 31 |
| Dates.Literal | scripts/tfl_pipeline.py:77 | a literal format character consumes exactly one input character, the one after it, when the two agree ignoring case |
| Dates.LiteralIgnoresCase | scripts/tfl_pipeline.py:77 | under `re.IGNORECASE` a non-letter literal matches only itself, and an ASCII letter matches itself or the same letter in the other case |
| Dates.MonthField | scripts/tfl_pipeline.py:63 | `%B` reads a month number from 1 to 12, and the index after it lies just past that month's name |
| Dates.MonthFieldFinds | scripts/tfl_pipeline.py:63 | `%B` reads the first month whose name occurs at the position, ignoring case, and fails only when no month name occurs there |
| Dates.ParseDayMonthYear | scripts/tfl_pipeline.py:63 | a successful `strptime(..., "%d %B %Y")` gives a date that `datetime` accepts |
| Dates.ParseMonthYear | scripts/tfl_pipeline.py:63 | the `%B %Y` stage only gives dates that exist |
| Dates.ParseYear | scripts/tfl_pipeline.py:63 | the final `%Y` stage only gives dates that exist |
| Dates.ParseIsoUtc | scripts/tfl_pipeline.py:77 | a successful `strptime(..., "%Y-%m-%dT%H:%M:%SZ")` gives a valid date and time |
| Dates.Pad2 | scripts/tfl_pipeline.py:77 | two zero-padded digits whose value is `n` |
| Dates.Pad4 | scripts/tfl_pipeline.py:77 | four zero-padded digits whose value is `n` |
| Dates.FormatIsoUtc | scripts/tfl_pipeline.py:77 | a `toDate` timestamp has 20 characters |
| Dates.DigitsAt | scripts/tfl_pipeline.py:77 | a numeric directive over digits followed by a non-digit reads exactly those digits and their value |
| Dates.NumberFieldReads | scripts/tfl_pipeline.py:77 | a numeric directive over in-range digits returns their value and the index after them |
| Dates.FormatIsoUtcLayout | scripts/tfl_pipeline.py:77 | each field of a formatted timestamp sits at a fixed offset |
| Dates.ParseIsoUtcRoundTrip | scripts/tfl_pipeline.py:77 | parsing a timestamp in the feed's format gives back the same date and time |
| DateExtraction.DayWidthAt | scripts/tfl_pipeline.py:59 | `\d{1,2}` is greedy: two digits when two digits and a blank and a word character follow, otherwise one, otherwise no match |
| DateExtraction.WordEnd | scripts/tfl_pipeline.py:59 | `\w+` takes the longest run of word characters |
| DateExtraction.FindToken | scripts/tfl_pipeline.py:59 | `re.search` finds the leftmost match, and none exactly when no position starts one |
| DateExtraction.ExtractDate | scripts/tfl_pipeline.py:58-64 | a date that `extract_date` returns is a real calendar date |
| DateExtraction.ExtractDateNoToken | scripts/tfl_pipeline.py:59-64 | `extract_date` returns `None` exactly when the summary contains no `\d{1,2} \w+` match |
| DateExtraction.ExtractDateOfFirstToken | scripts/tfl_pipeline.py:59-63 | only the leftmost match is tried. Its digits give the day, its word gives the month and the supplied year gives the year. The result is that date when the word is a full month name, the year has four digits and the date exists. Otherwise strptime raises on that match, and no later match is tried. So `"2025 June"` gives day 25, and `"31 February"` raises |
| DateExtraction.ExtractedDateOfFirstToken | scripts/tfl_pipeline.py:59-63 | a date `extract_date` returns always comes from the leftmost match |
| DateExtraction.TokenPieces | scripts/tfl_pipeline.py:59-62 | the matched text is the day digits, one blank and the word |
| DateExtraction.MonthOfFrom | scripts/tfl_pipeline.py:63 | the month a word names is the first month from `from` that the word names, ignoring case, or 0 when it names none |
| DateExtraction.MonthOf | scripts/tfl_pipeline.py:63 | a word names a month exactly when the result is not 0, and then it names that month |
| DateExtraction.MonthNamesPrefixFree | scripts/tfl_pipeline.py:63 | no month name is a prefix of another, so at most one alternative of `%B` can match at a position |
| DateExtraction.MonthMatchInWord | scripts/tfl_pipeline.py:63 | a month name `%B` finds inside a blank-terminated word is a prefix of that word, or the whole word |
| DateExtraction.MonthFieldOnMonthWord | scripts/tfl_pipeline.py:63 | when the word is a full month name, `%B` reads that month and the whole word |
| DateExtraction.NamedWordMonth | scripts/tfl_pipeline.py:63 | the only month name that is a prefix of a month's full name is that month's own name |
| DateExtraction.MonthFieldOnOtherWord | scripts/tfl_pipeline.py:63 | when the word is not a month name, whatever `%B` reads is followed by a non-blank, so the parse fails |
| DateExtraction.ParseYearOnDigits | scripts/tfl_pipeline.py:62-63 | the `%Y` stage over the appended year digits succeeds exactly when there are four of them and the date exists |
| DateExtraction.ParseMonthYearOnToken | scripts/tfl_pipeline.py:62-63 | the `%B %Y` stage over `word + " " + year` succeeds exactly when the word is a month name, the year has four digits and the date exists |
| DateExtraction.ParseDayMonthYearOnPieces | scripts/tfl_pipeline.py:62-63 | `"%d %B %Y"` over a text laid out as day, blank, word, blank, year gives that date, or fails when it does not exist |
| DateExtraction.ParseTokenText | scripts/tfl_pipeline.py:62-63 | `strptime(match + " " + year, "%d %B %Y")` succeeds exactly when the word is a full month name, the year has four digits and the date exists, and then gives that day, month and year |
| Transform.RowId | scripts/tfl_pipeline.py:71 | the key is the `forecastID`, an underscore and the `$id`, each at its own position |
| Transform.RowIdInjective | scripts/tfl_pipeline.py:71 | under one `forecastID`, two keys are equal exactly when the `$id`s are |
| Transform.ForecastDate | scripts/tfl_pipeline.py:76 | `forecast_date` fails with "no date" exactly when the summary is missing or has no match. It fails with the match text when `extract_date` raises on that match. It succeeds exactly when `extract_date` returns a date, and then it is that date, which exists |
| Transform.EndDate | scripts/tfl_pipeline.py:77 | `end_date` succeeds exactly when `toDate` is present and parses, and is then the date part of the parsed timestamp |
| Transform.EndDateOfFormatted | scripts/tfl_pipeline.py:77 | a `toDate` written in the feed's format gives back its own date |
| Transform.TransformEntry | scripts/tfl_pipeline.py:70-84 | an entry becomes a row exactly when both keys are present and both dates parse. Otherwise the error is the first one raised, in the order key, forecast date, end date. The row has the synthesized key, the verbatim `forecastID`, type, band and five pollutant bands, the `clean_text` of summary and text, and both dates |
| Transform.ForecastDateOfFirstToken | scripts/tfl_pipeline.py:76 | every row's forecast date is the leftmost `\d{1,2} \w+` match of the raw summary read as a date: its digits give the day, its word the month, and the year is the one the run was given |
| Transform.RowIdsCollideOnlyOnSubId | scripts/tfl_pipeline.py:69-71 | two entries of one forecast get the same key exactly when their `$id`s are equal |
| Transform.TransformAllRows | scripts/tfl_pipeline.py:66-86 | the transformation succeeds exactly when every entry does. It then gives one row per entry, in input order. Otherwise it fails with the error of the first failing entry |
| Transform.TransformForecast | scripts/tfl_pipeline.py:66-86 | the append loop computes `TransformAll` |
| Transform.Prepend | scripts/tfl_pipeline.py:70 | rows gathered so far go in front of the remaining rows, and an error passes through unchanged |
| Loading.Ids | scripts/tfl_pipeline.py:92-110 | the keys a batch writes are exactly the keys of its rows |
| Loading.ApplyBatch | scripts/tfl_pipeline.py:92-110 | after the upserts, the table's keys are the old keys plus the batch's keys, so no key is removed |
| Loading.ApplyBatchFrame | scripts/tfl_pipeline.py:92-110 | a key the batch does not write keeps its old row, or stays absent |
| Loading.ApplyBatchLastWins | scripts/tfl_pipeline.py:92-110 | a key the batch writes holds the last batch row with that key |
| Loading.ApplyBatchKeyedById | scripts/tfl_pipeline.py:92-110 | every stored row stays under its own key |
| Loading.ApplyBatchConcat | scripts/tfl_pipeline.py:92-110 | upserting `a` and then `b` is the same as upserting `a + b` |
| Loading.ApplyBatchOverwrites | scripts/tfl_pipeline.py:92-110 | what the batch leaves under a key it writes does not depend on the earlier table |
| Loading.ApplyBatchIdempotent | scripts/tfl_pipeline.py:92-110 | loading the same batch a second time leaves the table unchanged |
| Loading.AirQualityTable.constructor | scripts/tfl_pipeline.py:15-16 | a fresh connection sees the stored rows and has no open changes |
| Loading.AirQualityTable.Upsert | scripts/tfl_pipeline.py:93-110 | one upsert replaces the row under its key inside the open transaction, and leaves the committed state alone |
| Loading.AirQualityTable.Commit | scripts/tfl_pipeline.py:112 | the commit makes the open changes visible |
| Loading.AirQualityTable.Close | scripts/tfl_pipeline.py:113 | closing discards changes that were not committed |
| Loading.LoadRows | scripts/tfl_pipeline.py:92-110 | the row loop leaves `ApplyBatch` of the batch in the transaction and commits nothing |
| Pipeline.ExitStatus | scripts/tfl_pipeline.py:46 | a run exits with status 0 exactly when its rows were loaded |
| Pipeline.RunPipeline | scripts/tfl_pipeline.py:39-113 | a missing or empty fetch result stops the run before the transform. A failing transformation stops it before the load. Both leave the table untouched. Otherwise the committed table is the old one with the transformed rows upserted in order |
| Pipeline.LoadedRowsStored | scripts/tfl_pipeline.py:66-112 | after a successful transformation, row `i` is entry `i`'s row, keyed `forecastID_$id`, and its forecast date lies in the run's year. When no later row reuses its key, the loaded table holds exactly that row under it |

## Left out

- `app.py`: HTTP routes, read queries and the language-model call, with no pipeline logic.
- The body of `fetch_forecast_data` (network GET, JSON decoding, error printing): only its outcome is modelled, as an optional list of entries.
- `html.unescape`'s entity table: it is the parameter `unescape`.
- `datetime.today()`: the year is a parameter.
- Regex `\d` and `\w`, and case-insensitive matching, are modelled for ASCII only. Python also accepts non-ASCII digits, letters and case variants, such as `ſ` matching `s`.
- Locales: `%B` is modelled with English month names only.
- psycopg2: the connection, cursor and SQL text are replaced by an in-memory table. Database errors during the load and the rollback they cause are not modelled, because the source does not handle them.
- The polars DataFrame is a sequence of rows. Polars' column typing is not modelled.
- Status printing.
- Non-string JSON values in the feed. Every field is a string or absent.
- Transform.ForecastDate: a missing `forecastSummary` key (read as `""`) and an explicit `null` raise different Python exceptions. Both are the single error `NoDateInSummary`.
- Transform.TransformEntry: every exception is one `TransformError` value; the exception's message is not modelled.
- Transform.RowIdInjective: keys from different `forecastID`s can collide. For example, `"F_1"` with `$id` `"2"` and `"F"` with `$id` `"1_2"` both give `F_1_2`. Only the single-forecast case is stated.
- DateExtraction.ExtractDate: its contract states only that an extracted date exists. What it extracts is stated in the lemmas `ExtractDateNoToken` and `ExtractDateOfFirstToken`.
