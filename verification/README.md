# AQI prediction pipeline: a verified model of its data handling

This project models in Dafny the data handling of an air-quality (AQI)
prediction pipeline for three Pakistani cities, Karachi, Islamabad and Lahore.
The original system is a set of Python/pandas scripts. The model covers four
parts:

- **Historical backfill** (`backfill_data.py`, `combined_backfill.py`).
  - For each city in turn, the air-quality response and the weather response
    are inner-joined on the hour.
  - Rows with any missing reading are dropped.
  - The calendar columns `dayofweek` (Monday = 0), `hour` and `month` are
    derived from the timestamp, and each row is tagged with the city code.
  - The city tables are then concatenated.
  - The incremental script upserts the batch into the stored history. It first
    removes every old row whose (time, city) key the batch carries, then
    appends the batch. With no history yet it bootstraps from the batch, and
    with no city table at all it writes nothing.
  - The combined script writes the concatenation directly.
- **Prediction feature assembly** (`predict.py`). Both forecast requests must
  answer 200. The frames are joined on time and sorted, the `us_aqi` target is
  dropped and the calendar columns are added. The model's outputs are paired
  with the feature rows' timestamps.
- **Dashboard helpers** (`app.py`):
  - the two six-band AQI classifiers (label and cell style);
  - the city code/name dictionaries and the city filter;
  - the hazard warning on the latest prediction;
  - the column drop and reorder of the prediction table.

Files, one module each:

| file | module | contents |
|---|---|---|
| wrappers.dfy | Wrappers | `Option`, `Result` |
| seqs.dfy | Seqs | order-preserving `Filter`, `Concat` of tables, subsequence, distinctness |
| calendar.dfy | Calendar | hour-resolution `Timestamp`, day count from 1970-01-01, weekday (Monday = 0), calendar fields, chronological order |
| series.dfy | Series | hourly samples, stable sort by time, inner join on time |
| records.dfy | Records | readings (each may be missing), HTTP response, stored observation, (time, city) key |
| cities.dfy | Cities | the city list and the two dictionaries |
| merger.dfy | Merger | one city's merged table |
| history.dfy | History | the deduplicating upsert and its keyed-store reading |
| backfill.dfy | Backfill | the per-city loop and both scripts' outcomes |
| columns.dfy | Columns | column names, the feature columns, the dashboard table's columns |
| prediction.dfy | Prediction | the feature frame and the prediction pairing |
| dashboard.dfy | Dashboard | AQI bands, city filter, hazard warning |
| scenarios.dfy | Scenarios | worked examples on concrete frames |

Reading values are opaque `Option<real>`s. Only whether a value is present
matters to the merge.

Column names are a datatype with one constructor per name the scripts use,
plus `Other(name)` for any other name. The `Column` type admits `Other(name)`
only for names outside that vocabulary, so, as in pandas, a column is
identified by its name (`Columns.NameInjective`).

The network is replaced by parameters:

- a `CityRun` holds one city's air-quality response (status and body) and the
  weather client's frame, or `None` where that client raised;
- the stored history is an `Option` (no file, or its rows);
- the regression model is a function parameter `seq<FeatureRow> -> seq<real>`.

Where the scripts raise, the model returns an error value:

- the weather client raising ends the run with `Aborted(WeatherClientRaised)`;
- `pd.concat([])` in the combined script ends it with
  `Aborted(NoObjectsToConcatenate)`;
- a failed forecast request gives `Failure(AirQualityRequestFailed)` or
  `Failure(WeatherRequestFailed)`;
- a dictionary `KeyError` gives `None` or `Failure`;
- `iloc[-1]` on an empty frame gives `None`.

Three behaviours of the code a reader might not expect:

- **The no-data guard.** `backfill_data.py:97-99` tests the list of per-city
  tables, not the number of rows. A city whose air-quality request answers 200
  but whose merge is empty still adds an (empty) table, so the run writes. The
  model follows the code. `Backfill.EmptyBatchRewritesHistory` shows what is
  written then: with a history file, the file is rewritten unchanged; without
  one, an empty history file is created.
- **Weather failures.** Only a non-200 air-quality response is skipped
  (`backfill_data.py:39-41`, `combined_backfill.py:43-45`). The weather fetch
  goes through a client that raises on failure, which ends the whole run.
- **Column names.** `predict.py:73-76` writes a file with columns
  `timestamp, predicted_us_aqi`. `app.py` reads `time` (line 11) and filters
  on `city` (line 18), and neither column is in that file, so reading the
  file already fails at line 11. `Columns.ForecastFileLacksTime` shows that
  the table step (lines 76-81) would fail too, reporting `time` missing: a
  second failure, hidden by the first. The dashboard evidently expects a richer, multi-city forecast file that
  the script as given does not produce. The model keeps both sides as written.

## Model

| member | source | states |
|---|---|---|
| Series.SortByTime | backfill_data.py:45-46 | the sorted frame is ascending by time and is a permutation (same multiset, same length) of the input |
| Series.Insert | backfill_data.py:46 | inserting into an ascending frame keeps it ascending and adds exactly the one row |
| Series.SortKeepsTimes | combined_backfill.py:49-50 | sorting neither adds nor loses an hour, and keeps hours unique |
| Series.SortSortedIsIdentity | backfill_data.py:84 | an already ascending frame is left unchanged by the sort |
| Series.Matches | backfill_data.py:87 | the joined rows of one left row pair it with right rows, and every right row of its hour appears |
| Series.Join | backfill_data.py:87 | every joined row pairs a left row and a right row; every same-hour pair of rows appears |
| Series.JoinTimes | backfill_data.py:87 | the hours of the inner join are exactly the hours common to both frames |
| Series.JoinSorted | combined_backfill.py:90 | joining an ascending left frame gives an ascending result |
| Series.JoinUnique | combined_backfill.py:90 | frames without repeated hours join to a frame without repeated hours |
| Series.MatchesAtMostOne | combined_backfill.py:90 | with unique right hours a left row has at most one partner |
| Series.UniqueTimesCount | predict.py:55 | a frame without repeated hours has as many distinct hours as rows |
| Calendar.CalendarOf | backfill_data.py:89-91 | dayofweek in 0..6, hour in 0..23, month in 1..12, and hour and month equal the timestamp's |
| Calendar.DayOfWeek | backfill_data.py:89 | the weekday number lies in 0..6 |
| Calendar.WeekdayAnchors | generate_features.py:11 | Monday = 0: 2024-01-01 (a Monday) gets 0 and 1970-01-01 (a Thursday) gets 3 |
| Calendar.NextDayCountsOne | backfill_data.py:89 | the day count behind the weekday grows by exactly one from each valid date to the next, across month, year and leap-day boundaries |
| Calendar.NextDayAdvancesWeekday | combined_backfill.py:93 | the weekday of the next day is the next weekday, Sunday (6) wrapping to Monday (0) |
| Calendar.DaysInMonth | backfill_data.py:43 | months have 28 to 31 days, and 29 only for February of a Gregorian leap year |
| Calendar.YearStep | backfill_data.py:89 | a March-based year has 366 days exactly when its February falls in a leap year |
| Calendar.LeapStep | backfill_data.py:89 | within a 400-year era the day count adds the leap day exactly in leap years |
| Calendar.BeforeIsStrictTotalOrder | backfill_data.py:46 | the chronological order on timestamps is a strict total order |
| Merger.Tag | backfill_data.py:89-92 | the stored row is keyed by its hour and the city, is complete exactly when the joined row has no missing reading, and carries its hour's calendar fields |
| Merger.TagAll | backfill_data.py:89-92 | one stored row per joined row, in order, each tagged with the city |
| Merger.MergeCity | backfill_data.py:87-92 | every row of a city's table carries that city's code, has every reading present, carries the calendar fields of its own hour (in range), and the table ascends in time |
| Merger.MergeCityRows | backfill_data.py:87-92 | a row is in the table exactly when it has the city's code, its hour's calendar fields, complete readings, and its readings are an air-quality row and a weather row of that hour |
| Merger.MergeCityUnique | combined_backfill.py:90-97 | responses without repeated hours give a table without repeated (time, city) keys |
| Merger.MergeCityEmpty | combined_backfill.py:90-91 | an empty response on either side gives an empty table |
| Merger.FilterKeepsOrder | backfill_data.py:88 | dropping rows keeps an ascending frame ascending |
| Merger.FilterUnique | combined_backfill.py:91 | dropping rows keeps hours unique |
| Merger.SourcedRowIsMerged | backfill_data.py:87-92 | any complete same-hour pair of readings reaches the table, tagged |
| Merger.MergedRowHasSources | backfill_data.py:87-92 | every table row comes from an air-quality row and a weather row of its hour |
| Cities.CityName | app.py:14 | the code-to-name dictionary answers exactly for codes 0, 1, 2 |
| Cities.CityCode | app.py:15 | the name-to-code dictionary answers exactly for the three city names |
| Cities.CityMapsInverse | app.py:14-15 | the two dictionaries are mutual inverses |
| Cities.CityInfoAgreesWithCityMap | backfill_data.py:11-15 | the backfill's city list uses distinct codes, each mapped by the dashboard to that city's name |
| History.RemoveKeys | backfill_data.py:113-114 | no remaining old row carries a key of the batch |
| History.RemoveKeysKeys | backfill_data.py:114 | removing the batch's keys removes exactly those keys from the old table |
| History.Upsert | backfill_data.py:111-116 | the batch is the tail of the result; every earlier row is an old row whose key the batch lacks; every such old row is kept; the result's keys are the union |
| History.UpsertKeepsOrder | backfill_data.py:114-116 | the kept old rows keep their relative order |
| History.UpsertLastWriterWins | backfill_data.py:113-116 | every result row with a batch key is a batch row |
| History.UpsertIsMapUnion | backfill_data.py:111-116 | read as key-to-last-row maps, the result is the old map overridden by the batch's map |
| History.UpsertIdempotent | backfill_data.py:111-116 | upserting the same batch twice equals upserting it once |
| History.UpsertUnique | backfill_data.py:113-116 | with unique keys on both sides the result has unique keys and length old - overlap + batch |
| History.RemoveKeysCount | backfill_data.py:114 | with unique keys, removal drops exactly the overlapping rows |
| Backfill.Answered | backfill_data.py:38-41 | a city is processed exactly when its air-quality request answered 200 |
| Backfill.CollectCities | backfill_data.py:22-93 | the loop succeeds exactly when every answered city got a weather frame; a failure names an answered city whose weather client raised |
| Backfill.CollectedTables | combined_backfill.py:27-98 | on success there is one table per answered city, in processing order, each that city's merged table |
| Backfill.Store | backfill_data.py:107-118 | with no history the batch is saved; otherwise the saved keyed store is the old one overridden by the batch |
| Backfill.IncrementalBackfill | backfill_data.py:96-122 | the run reports no new data exactly when no city answered, and aborts exactly when the loop failed; when it saves, the table is the concatenated city tables if there was no history, and otherwise its (time, city) key-to-row map is the history's map overridden by the batch's, and its key set is the union of the two |
| Backfill.CombinedBackfill | combined_backfill.py:100-103 | never reports "no data": with no answered city the concatenation raises |
| Backfill.CombinedTable | combined_backfill.py:100-101 | a saved combined file is the city tables concatenated in processing order, and its length is the sum of their lengths |
| Seqs.ConcatPosition | combined_backfill.py:101 | row k of the i-th table sits in the concatenation at the earlier tables' total length plus k |
| Seqs.ConcatSplit | backfill_data.py:100 | concatenating two runs of tables equals concatenating their concatenations |
| Backfill.NoAnsweredCityKeepsHistory | backfill_data.py:97-99 | with no answered city the history file is unchanged and the combined script aborts |
| Backfill.EmptyBatchRewritesHistory | backfill_data.py:97-118 | answered cities with empty tables still cause a write: with a history file, the file is rewritten unchanged; without one, an empty history file is created |
| Backfill.BootstrapAgreesWithCombined | backfill_data.py:117-118 | without a history file the incremental script saves exactly what the combined script saves |
| Backfill.IncrementalIdempotent | backfill_data.py:111-116 | re-running with the same responses over the saved table saves the same table |
| Backfill.SkippedCityContributesNothing | combined_backfill.py:43-45 | a city whose air-quality request failed has no row in the batch |
| Backfill.SavedTableHasUniqueKeys | backfill_data.py:100-116 | with distinct city codes, answered cities' responses without repeated hours and a history with unique keys, the saved table has unique keys |
| Backfill.BatchUnique | backfill_data.py:100 | the concatenated batch has unique keys and every row's city is one of the loop's cities |
| Columns.ReadColumn | app.py:10 | a header is read as the column whose name it is |
| Columns.NameInjective | predict.py:61 | two columns are the same column exactly when their names are equal, as pandas identifies columns by name |
| Columns.DropColumns | predict.py:61-62 | a column survives a drop exactly when it was present and is not listed |
| Columns.SetColumn | predict.py:65-67 | assigning a column keeps existing columns in place and adds the column exactly when absent |
| Columns.DropColumnsOrder | app.py:78 | the surviving columns keep their order and stay free of repeats |
| Columns.MergeColumns | predict.py:55 | the merged frame starts with the left frame's columns; a column is in it exactly when it is a left column or a right column other than the key |
| Columns.FeatureColumns | predict.py:57-67 | a column is a feature exactly when it is a data column other than `time` and `us_aqi`, or a calendar column; neither `time` nor `us_aqi` is ever a feature |
| Columns.AddCalendar | predict.py:65-67 | the calendar assignments keep existing columns in place, add exactly dayofweek, hour and month, and keep names free of repeats |
| Columns.FeatureColumnsKept | predict.py:57-67 | whether or not `us_aqi` was present, the features are the frame's columns other than time and `us_aqi`, with the three calendar columns assigned after them |
| Columns.FeatureColumnsOrder | predict.py:57-67 | the kept data columns lead, in their original order; distinct names stay distinct |
| Columns.MergeOnLeadingKey | predict.py:55 | merging on the right frame's leading key appends the right frame's other columns |
| Columns.FeatureColumnsOfRawFrame | predict.py:55-67 | a frame of time, target and other data columns yields those data columns followed by dayofweek, hour and month |
| Columns.MergedPredictColumns | predict.py:13-37 | merging the air-quality request's columns with the weather request's on `time` gives time, target, the six pollutants and the five weather variables |
| Columns.PredictFeatureColumns | predict.py:13-67 | from the two requests' columns, merged on `time` and through the feature step, the model sees the six pollutants, the five weather variables, then dayofweek, hour and month |
| Columns.DisplayColumns | app.py:76-81 | a selected table leads with time, prediction and level; a failure names only leading columns the frame lacks, at least one |
| Columns.DashboardColumns | app.py:73-81 | the table step succeeds exactly when `time` and `predicted_us_aqi` are present; without `predicted_us_aqi` it fails on that column first, when `AQI Level` is computed |
| Columns.DisplayColumnsFails | app.py:76-81 | the selection fails exactly when a leading column is absent, and reports exactly the absent ones |
| Columns.DisplayColumnsSpec | app.py:76-81 | the table leads with time, prediction and level, holds no dropped column, and keeps every other column in order |
| Columns.DisplayColumnsDistinct | app.py:80-81 | distinct input names give distinct table columns |
| Columns.ForecastFileLacksTime | predict.py:73-76 | over the prediction script's file the table step would fail, reporting `time` missing (a failure that the earlier one at `app.py:11` hides) |
| Prediction.Featurize | predict.py:61-67 | a feature row keeps its hour, the pollutants and the weather, and carries that hour's calendar fields (weekday in 0..6) |
| Prediction.FeaturizeIgnoresTarget | predict.py:61-62 | two joined rows that differ only in `us_aqi` give the same feature row: the target never reaches the model |
| Prediction.Features | predict.py:55-67 | one feature row per joined row (no row dropped), ascending in time, with its hour's calendar fields in range |
| Prediction.FeaturesCommonHours | predict.py:55 | the feature rows cover exactly the hours both responses have |
| Prediction.FeatureRowSourced | predict.py:55-62 | each feature row carries the pollutants and weather of a same-hour row of each response |
| Prediction.SourcedFeatureRow | predict.py:55 | every same-hour pair of response rows gives its feature row |
| Prediction.FeaturesOnePerHour | predict.py:55-58 | with unique hours in both responses there is one feature row per common hour |
| Prediction.Predict | predict.py:44-48 | an unsuccessful air-quality response is reported first, then an unsuccessful weather response |
| Prediction.PredictPairs | predict.py:70-76 | a forecast exists exactly when both requests answered and the model gave one value per row; the i-th timestamp carries the i-th prediction |
| Prediction.ForecastHours | predict.py:56-76 | the forecast's timestamps ascend and are exactly the common hours |
| Dashboard.BandOf | app.py:25-31 | the reference category is the number of inclusive upper ends (50, 100, 150, 200, 300) the value exceeds |
| Dashboard.GetAqiColor | app.py:25-31 | the label is the label of the reference category of the value |
| Dashboard.HighlightAqi | app.py:33-39 | the cell style is the style of the reference category of the value |
| Dashboard.BandIntervals | app.py:25-31 | each category is the interval between consecutive upper ends, upper end included; above 300 is Hazardous |
| Dashboard.BandMonotone | app.py:25-31 | a higher value never gets a milder category |
| Dashboard.LabelsAndStylesDistinct | app.py:25-39 | the six labels are pairwise different, and so are the six styles |
| Dashboard.LabelAndStyleAgree | app.py:25-39 | two values get the same label exactly when they get the same style |
| Dashboard.CityRows | app.py:18 | a row is kept exactly when it is in the frame and carries the code |
| Dashboard.SelectCity | app.py:15-18 | selection succeeds exactly when the name is in the name-to-code dictionary, yields exactly the rows with that code, and otherwise fails naming the key |
| Dashboard.SelectCityRows | app.py:14-18 | selection succeeds for the three names and yields exactly that city's rows, in file order, each with the multiplicity it has in the file |
| Dashboard.LatestAqi | app.py:52 | the latest value exists exactly when the city's frame is non-empty, and is then the last row's `predicted_us_aqi` |
| Dashboard.HazardWarning | app.py:52-56 | the warning can be decided exactly when the frame is non-empty, and fires exactly when the latest value's category is Unhealthy or worse |
| Scenarios.MergeScenario | backfill_data.py:87-92 | air-quality hours 0-2 joined with weather hours 1-3 on Monday 2024-01-01 give exactly the two rows for hours 1 and 2, tagged (0, hour, 1) |
| Scenarios.UpsertScenario | backfill_data.py:113-116 | a stored reading of AQI 50 replaced by 55 for the same hour and city leaves one row, the new one |
| Scenarios.FailedOnlyCityScenario | backfill_data.py:38-99 | the only city answering 500 writes nothing incrementally and aborts the combined run |

## Left out

- HTTP requests, the Open-Meteo client, its retry and backoff, and the
  `requests_cache` session are network I/O. Their results are parameters. A
  `requests.get` that raises (a connection error or timeout,
  `backfill_data.py:38`, `combined_backfill.py:42`, `predict.py:40-41`) ends
  the script before any status check; that path is not modelled.
- The conversion of the weather client's response into a date range, the
  parsing of timestamps and the stripping of time zones are pandas internals.
  Timestamps are an abstract valid date-hour, and the model joins on equal
  hours as the code does. In the running system the two sides differ: the
  weather times are UTC wall-clock hours (UTC seconds with the zone stripped),
  while the air-quality times are local Asia/Karachi hours (UTC+5, the zone of
  all three cities). The join therefore pairs each air-quality reading with the
  weather of five hours later. The model does not represent that offset.
- CSV reading and writing and `os.makedirs` are file I/O. The stored history
  is a parameter, and a malformed history file is not modelled.
- `model.py` (training and metrics), `testing.py` (an exploratory script) and
  `generate_features.py` are not part of this model. The last one's only new
  feature is a float ratio; only its Monday = 0 convention is used here.
- Streamlit, matplotlib, seaborn and plotly rendering are UI. So are the
  correlation heatmap, the SHAP image lookup and the EDA feature lists.
- Numeric reading values are opaque. The dashboard's rounding to one decimal
  and its format precision are not modelled.
- The regression model is a function parameter. Its own input checks, such as
  rejecting an empty or NaN-holding frame, are part of that parameter.
- Pandas' `sort_index` uses an unstable quicksort. The model sorts stably, so
  two rows of the same hour may come out in another order than pandas would
  give.
- Column-name suffixing (`_x`, `_y`) on a merge of frames that share a
  non-key column is not modelled. The frames here share only `time`.
- Calendar.Timestamp: years are unbounded, not limited to the range of pandas'
  nanosecond timestamps.
- Dashboard.GetAqiColor: a NaN prediction (every comparison false, so
  Hazardous) has no counterpart, because reals have no NaN.
- Dashboard.SelectCity: the select box offers only the three names, so its
  KeyError branch cannot be reached in the app.
- Columns.DisplayColumns: each column name is taken to occur once. Pandas
  would return every column that has a selected name.
- Columns.DropColumns: a listed name that is absent is ignored, where pandas
  would raise a KeyError. The scripts never drop an absent column, because
  `predict.py:61` and `app.py:78` check presence first.
- Prediction.Predict: its own contract covers only the order of the error
  checks. `Prediction.PredictPairs` and `Prediction.ForecastHours` state the
  success case.
- Backfill.CollectCities: a KeyError on a malformed air-quality body (a
  missing `hourly` block) is not modelled. The body is taken to be a parsed
  frame.
