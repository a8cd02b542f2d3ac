# Water-quality dashboard data processor: a Dafny model

This project models the `DataProcessor` of a water-quality
dashboard. The processor takes a raw batch of sensor readings. Each row has a
timestamp text, a flow indicator (`FlowInd`), total dissolved solids (`TDS`),
`pH` and `Depth`. It does four things:

- It parses each timestamp with six explicit date formats, tried in order,
  and then with a flexible parser.
- It cleans the batch. Rows whose timestamp does not parse are dropped. The
  measurements are coerced to numbers. Gaps are filled forward, then
  backward, then with defaults. Out-of-range values are reset. Values are
  rounded for display. The rows are sorted by time.
- It computes the dashboard statistics: the record count, the latest
  reading, and the rounded averages.
- It resamples a cleaned dataset into fixed time buckets, hourly by
  default, with per-bucket rounded means.

Modules, one per concern:

| file | module | what |
|---|---|---|
| options.dfy | `Options` | `Option` |
| timestamps.dfy | `Timestamps` | date formats, `_parse_timestamp`, timestamp-column conversion |
| readings.dfy | `Readings` | measures, defaults, admissible ranges, the cleaned row type |
| gap_fill.dfy | `GapFill` | forward fill, back fill and defaults, against reference definitions |
| validation.dfy | `Validation` | the range checks |
| rounding.dfy | `Rounding` | round-half-to-even to 0 or 2 decimals |
| preprocess.dfy | `Preprocess` | `preprocess_data`, the whole pipeline |
| statistics.dfy | `Statistics` | `get_statistics` |
| aggregation.dfy | `Aggregation` | `aggregate_data` |
| pipeline.dfy | `Pipeline` | what statistics and aggregation inherit from cleaning |

Form:

- `preprocess_data` and `_parse_timestamp` are methods with loops, as in
  the source.
  - `ParseTimestamp` tries the formats in a loop with early return.
  - `ConvertTimestamps` takes the vectorised first-format path, or else
    builds the column row by row.
  - `ConvertNumericColumns` and `FillColumns` update a map of columns in
    the source's column order.
  - Each of these methods is proved against a specification function:
    `ParsedTime`, `CoercedColumn`, `ForwardFill`/`BackFill` and `Cleaned`.
- `get_statistics` and `aggregate_data` are pure functions with lemmas.

The external libraries are parameters:

- date parsing: `Parsers.withFormat` for one format, `Parsers.flexible` for
  the flexible parser;
- numeric coercion: `Coercion`.

So every property holds for every parser that yields a time in whole
seconds or nothing, and for every coercion that yields a number or nothing.
Timestamps are integers (seconds), and measurements are mathematical reals.

Three behaviours of the code that are easy to misread:

- **Every timestamp fails to parse.** The code returns an empty dataset,
  not `None`: the rows are dropped and processing carries on.
  `Preprocess.NoParsedTimestampGivesEmptyDataset` states this.
- **Order of the fill.** Gaps are filled in the surviving input order,
  before the sort, not in timestamp order.
- **Missing timestamp column.** The batch yields `None`: the lookup raises
  inside the guarded block and the handler returns `None`.

## Model

| member | source | states |
|---|---|---|
| Timestamps.ParseTimestamp | data_processor.py:22-34 | The result is the first format, in list order, that parses the text; failing all six, the flexible parser's result; `None` only when all seven fail. |
| Timestamps.ParsedTimeIsFirstSuccess | data_processor.py:13-34 | The parsed time is the first successful format's result. If all six formats fail, it is the flexible parser's result. It is absent exactly when every format and the flexible parser fail. |
| Timestamps.FirstMatch | data_processor.py:24-28 | A result comes from one of the formats; no result means every format failed. `FirstMatchIsEarliest` adds that it is the earliest success. |
| Timestamps.ParsedTime | data_processor.py:22-34 | A result comes from one of the six formats or from the flexible parser; no result means all seven failed. `ParsedTimeIsFirstSuccess` pins which one. |
| Timestamps.ParseColumnWith | data_processor.py:51 | A whole-column result has one entry per cell, each that cell's parse under the format; no result means some cell does not parse under it. |
| Timestamps.FirstMatchIsEarliest | data_processor.py:24-28 | Trying formats in order gives nothing iff every format fails, and otherwise the result of the earliest format that succeeds. |
| Timestamps.FirstFormatColumnAgrees | data_processor.py:49-64 | When the whole column parses with the first format, the vectorised result equals the per-row multi-format result at every row. |
| Timestamps.ConvertTimestamps | data_processor.py:48-64 | The converted column has one entry per row, and entry i is the per-row parse of cell i, on either code path. |
| Preprocess.ParsedIndices | data_processor.py:66-70 | The kept positions are in bounds, hold a parsed timestamp, and strictly ascend. |
| Preprocess.ParsedIndicesComplete | data_processor.py:66-70 | Every position whose timestamp parsed is kept. |
| Preprocess.KeepParsedAt | data_processor.py:70 | Dropping keeps one cell per parsed position: the cell at that position, in original order. |
| Preprocess.KeepParsed | data_processor.py:70 | One cell per parsed timestamp; `KeepParsedAt` gives each cell. |
| Preprocess.Coerce | data_processor.py:80 | One value per cell; `CoercedColumnAt` gives each value. |
| Preprocess.CoercedColumn | data_processor.py:76-93 | One value per kept row; `CoercedColumnAt` gives each value, from the source column or missing when it is absent. |
| Preprocess.CoercedColumnAt | data_processor.py:72-93 | A kept row's measurement is the coercion of its own source cell; a measure whose source column is absent is missing in every row. |
| Preprocess.ConvertNumericColumns | data_processor.py:73-93 | After the loop over the four source columns, every measure holds its coerced kept column, or all-missing when its source is absent. |
| Preprocess.FillColumns | data_processor.py:95-97 | After the loop over tds, ph, depth, flow, every column is its forward fill followed by its back fill. |
| GapFill.ForwardFill | data_processor.py:97 | One entry per row; `ForwardFillAt` gives each value. |
| GapFill.BackFill | data_processor.py:97 | One entry per row; `BackFillAt` gives each value. |
| GapFill.WithDefault | data_processor.py:99-103 | One value per row; `FillGapsAt` gives each value. |
| GapFill.FillGaps | data_processor.py:95-103 | One value per row; `FillGapsAt` gives each value. |
| GapFill.ForwardFillAt | data_processor.py:97 | The forward fill at i is the last present value at or before i. |
| GapFill.BackFillAt | data_processor.py:97 | The back fill at i is the first present value at or after i. |
| GapFill.FillGapsAt | data_processor.py:95-103 | Forward fill, back fill and default together give, at i, the last present value at or before i, else the first one after i, else the default. |
| GapFill.FillKeepsPresent | data_processor.py:95-103 | A present value is never changed by filling. |
| GapFill.FillTakesNearestEarlier | data_processor.py:97 | A gap takes the nearest earlier present value. |
| GapFill.FillTakesNearestLater | data_processor.py:97 | A gap before the first present value takes that value. |
| GapFill.FillDefaultsEmptyColumn | data_processor.py:99-103 | A column with no present value becomes the default everywhere (pH 7, others 0). |
| GapFill.FillExample | data_processor.py:95-103 | `[_, _, 5, _]` fills to `[5, 5, 5, 5]`. |
| Validation.ClipValue | data_processor.py:105-110 | The result is always in range (pH in [0, 14], others non-negative). An in-range value is kept. An out-of-range value becomes the default (7 for pH, 0 otherwise), not the nearest bound. |
| Validation.ClipColumn | data_processor.py:105-110 | Every value of the checked column is in range; an in-range value is kept and an out-of-range one becomes the measurement's default. |
| Rounding.RoundColumn | data_processor.py:112-116 | Every value of the rounded column is on its measurement's grid (tds whole, the others 2 decimals), within half a grid step of the original, and still in range if it was. |
| Rounding.RoundHalfEven | data_processor.py:112-116 | The chosen integer is within one half of the value. |
| Rounding.RoundTo | data_processor.py:113-116 | The rounded value is a multiple of 10^-places; `RoundToIsNearest` and `RoundTiesToEven` give which one. |
| Rounding.RoundToOnGrid | data_processor.py:112-116 | A rounded value is a multiple of 10^-places. |
| Rounding.RoundToIsNearest | data_processor.py:112-116 | Rounding moves a value by at most half a grid step. |
| Rounding.RoundToFixesGrid | data_processor.py:112-116 | A value already on the grid is unchanged. |
| Rounding.RoundToIdempotent | data_processor.py:112-116 | Rounding twice equals rounding once. |
| Rounding.RoundToMonotone | data_processor.py:112-116 | Rounding preserves order. |
| Rounding.RoundKeepsRange | data_processor.py:105-116 | Rounding an in-range value (tds to 0 decimals, others to 2) keeps it in range. |
| Rounding.RoundTiesToEven | data_processor.py:112-116 | 2.5 rounds to 2, 3.5 to 4 and 7.125 to 7.12 (ties go to even), and 6.996 rounds to 7.0. |
| Preprocess.CleanColumn | data_processor.py:95-116 | One value per row, each in range and on its display grid; `CleanedRows` and `FillGapsAt` give each value. |
| Preprocess.Cleaned | data_processor.py:48-116 | One row per parsed timestamp; `CleanedRows` gives each row. |
| Preprocess.CleanColumnValid | data_processor.py:95-116 | Every cleaned value is in range and on its display grid. |
| Preprocess.CleanColumnKeepsCleanValue | data_processor.py:95-116 | A present value already in range and on its grid passes through cleaning unchanged. |
| Preprocess.CleanColumnIdempotent | data_processor.py:95-116 | Cleaning an already cleaned column changes nothing. |
| Preprocess.CleanedRows | data_processor.py:48-116 | There is one cleaned row per parsed timestamp, and every parsed position is kept. Each row carries its parsed time and its own cleaned measurements. |
| Preprocess.CleanedRowsAreClean | data_processor.py:95-116 | Every cleaned row has all four measurements in range and on grid. |
| Preprocess.NoParsedTimestampGivesEmptyDataset | data_processor.py:66-70 | When no timestamp parses, the result is the empty dataset. |
| Preprocess.InsertByTime | data_processor.py:123-124 | Insertion adds exactly one copy of the row. |
| Preprocess.InsertKeepsSorted | data_processor.py:123-124 | Inserting into a time-sorted sequence keeps it sorted. |
| Preprocess.SortByTime | data_processor.py:123-124 | The result is sorted by timestamp and is a permutation of the input. |
| Preprocess.PreprocessData | data_processor.py:36-139 | The result is `None` iff there is no batch, the batch is empty, or it has no timestamp column. Otherwise it is sorted by time and is a permutation of the cleaned rows, one per parsed timestamp, every row in range and on grid. |
| Statistics.Latest | data_processor.py:176 | The latest reading is attained by some row and is not before any row. |
| Statistics.GetStatistics | data_processor.py:161-183 | An empty dataset gives the all-zero record with no latest reading. Otherwise the count is the number of rows and the latest reading is the maximum timestamp. |
| Statistics.MeanOf | data_processor.py:177-180 | The mean times the number of rows is the column sum. |
| Statistics.SumOfPermutation | data_processor.py:177-180 | A column sum does not depend on row order. |
| Statistics.MeanOfInRange | data_processor.py:177-180 | The mean of in-range values is in range. |
| Statistics.AveragesAreRoundedMeans | data_processor.py:177-180 | Each reported average is the column mean rounded to 2 decimals, and lies on the 2-decimal grid. |
| Statistics.AveragesInRange | data_processor.py:177-180 | If every row is in range, every reported average is in range. |
| Statistics.StatisticsIgnoreOrder | data_processor.py:161-194 | Reordering the rows does not change the statistics. |
| Statistics.AveragePhExample | data_processor.py:177 | pH readings 6, 7, 8 give an average pH of 7.0. |
| Aggregation.BucketStart | data_processor.py:147-148 | A bucket start is a multiple of the period, at or before the timestamp and less than one period before it. |
| Aggregation.BucketStartMonotone | data_processor.py:147-148 | A later timestamp never falls into an earlier bucket. |
| Aggregation.BucketStartExamples | data_processor.py:141-148 | With hourly buckets, 5400 s falls in the hour starting at 3600 and 3600 s in its own hour; one second before the epoch falls in the hour starting at -3600. |
| Aggregation.Aggregate | data_processor.py:141-145 | The result is `None` exactly for a missing or an empty dataset. |
| Aggregation.AggregateAscending | data_processor.py:147-155 | The output bucket starts strictly ascend. |
| Aggregation.AggregateCovers | data_processor.py:147-155 | Every input row's bucket appears in the output. |
| Aggregation.AggregateMeans | data_processor.py:147-155 | Every output row is the start of some input row's bucket and the 2-decimal rounded means of all input rows in that bucket, whatever their order. |
| Aggregation.AggregateKeepsRange | data_processor.py:148-153 | Aggregating in-range rows gives in-range means on the 2-decimal grid. |
| Aggregation.AggregateExample | data_processor.py:141-155 | Three rows out of order in two hours give two rows in hour order; the first averages the two readings of hour zero. |
| Aggregation.InBucket | data_processor.py:147-153 | At most as many rows as the dataset; `InBucketMember` and `InBucketPermutation` give which rows. |
| Aggregation.MeanRow | data_processor.py:148-153 | The row is labelled with the bucket start and every mean is on the 2-decimal grid; `AggregateMeans` and `AggregateKeepsRange` relate it to the bucket's rows. |
| Aggregation.GroupRuns | data_processor.py:147-153 | Every group is non-empty; `GroupRunsAscending` and `GroupRunsCovers` give the order and coverage of the groups. |
| Aggregation.InBucketPermutation | data_processor.py:147-153 | The rows of a bucket are the same multiset whatever the order of the dataset. |
| Aggregation.GroupRunsAscending | data_processor.py:147-153 | Grouping rows whose labels never decrease gives strictly ascending group labels. |
| Aggregation.GroupRunsCovers | data_processor.py:147-153 | Every row's label is the label of some group. |
| Pipeline.PreprocessedStatistics | data_processor.py:36-183 | The statistics of any preprocessed batch equal those of the cleaned rows, and every average is in its measurement's range. |
| Pipeline.PreprocessedAggregate | data_processor.py:36-159 | Aggregating any reordering of a batch's cleaned rows gives `None` exactly when no timestamp parsed, and otherwise means in each measurement's range. |

## Left out

- Date and time library semantics. The six format strings are kept as
  data. Parsing with a format, and the flexible parser, are function
  parameters, so any behaviour of pandas' parsers is covered. Readings
  carry integer seconds, not pandas timestamps.
- A parser that returns NaT without raising, and parse results with
  sub-second precision or a time zone, are outside the parser parameters.
- An exception other than `ValueError` raised by the vectorised
  first-format conversion is not modelled. Line 52 does not catch it, so
  lines 135-139 would return `None` for the whole batch.
- The `TypeError` branch of the format loop, and any exception inside a
  parser. A parser that raises is modelled as one that returns nothing.
- Missing (None/NaN) cells in the timestamp column are not a separate case.
  They are modelled as text that no parser accepts, and both code paths drop
  those rows.
- PreprocessData: the regex-cleaning fallback for a column that `to_numeric`
  rejects is not modelled. With `errors='coerce'` that call does not raise,
  so the modelled coercion is the only path taken.
- Floating point: measurements are exact reals. numpy's rounding of a binary
  double can differ from exact half-to-even rounding by one grid step on
  values that are not exactly representable.
- The result table is modelled as rows of exactly the four measurements and
  the timestamp. Extra input columns, which pandas passes through, are not
  modelled. Neither are the dropping of the original source columns and the
  DataFrame index.
- PreprocessData, Preprocess.SortByTime: pandas' default sort is not
  stable, so the contract fixes only sortedness and the multiset of rows, not
  the order of rows with equal timestamps. The model sorts by insertion.
- Logging, and the exception handlers that only log and return `None`,
  except the missing timestamp column, which is modelled.
- Statistics.GetStatistics: a `None` argument reaches the exception handler
  and yields the same all-zero record. The model's argument is always a
  dataset, because the dashboard never passes `None`. Its current dataset
  starts as an empty frame (app.py:29) and is replaced only by a result of
  preprocessing that is not `None` (app.py:41-44).
- Aggregation.Aggregate: pandas `resample` also emits the empty buckets
  between occupied ones, with missing means. The model emits only the
  occupied buckets.
- Aggregation.Aggregate: only fixed-width frequencies given in seconds are
  modelled, aligned to the epoch. Calendar frequencies such as months are
  not. pandas' default `origin='start_day'` aligns bins to midnight of the
  first day, which agrees with epoch alignment only for periods that divide
  a day (such as the default hour).
- data_fetcher.py (the HTTP client) and app.py (the dashboard UI) are not
  part of this model.
