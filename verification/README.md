# finance_metrics decision rules in Dafny

This project models the pure decision rules of the `finance_metrics` / `data_helper` Python
package and proves properties about them. Everything else in the package (the data fetching) is
outside the model.

- **`CustomMetrics`** (`custom_metrics.dfy`) covers four rules from `src/finance_metrics/custom_metrics.py`:
  - the clipped 0-100 rescale against bounds taken from a calibration series (`_normalize_to_scale`);
  - the ordered four-threshold cascade that labels a value (`_generate_signal`);
  - the statistical summary of a series (`_calculate_stats`);
  - the bullish/bearish shares of the deviation index (`get_deviation_stats`).
- **`MaskSignal`** (`mask_signal.dfy`) is the second labelling rule, from
  `src/data_helper/integrate_with_custom_metrics.py`. Five boolean masks are assigned in order onto an
  empty label series, and later masks overwrite earlier ones. The module compares this rule with the
  cascade.
- **`VixSentiment`** (`vix_sentiment.dfy`) holds the VIX label, the score and the interpretation of
  the latest close, from `src/data_helper/vix_sentiment.py`.
- **`PutCallRatio`** (`put_call_ratio.dfy`) covers the options-snapshot side of
  `src/data_helper/put_call_ratio_api.py`:
  - the per-type accumulation loop;
  - the ratio that is undefined without calls;
  - the five-bucket reading of a ratio;
  - the batch result map and the comparison table.
- **`FlatFiles`** (`flat_files.dfy`) covers the string and column logic of
  `src/data_helper/massive_flatfiles.py`:
  - prefix alias resolution and the date-filter listing prefix;
  - object keys for a trading date;
  - local and decompressed file paths;
  - the put/call ratio computed from a loaded CSV frame.
- **`CalendarDate`** (`calendar_date.dfy`) models `datetime.strptime(date, "%Y-%m-%d")`, which decides
  whether a date string yields a key, and the ISO rendering of a date.
- **`Text`** (`text.dfy`) holds the string operations the source relies on: `str.split`, `split(...)[-1]`,
  ASCII `str.lower`, `str(n)` and `f"{n:02d}"`.
- **`Wrappers`** (`wrappers.dfy`) defines `Option` and `Result`.

Numbers are Dafny `real`s. Counts and volumes from the REST snapshot are `int`s. A missing value
(pandas NaN, Python `None`) is `Option.None`. An exception is a `Result.Failure` that carries a
description of the error. The fetched data comes in as a parameter:
- series of closes or deviations are plain sequences;
- a snapshot is a sequence of contract records;
- the REST client is a function `Fetch` from symbol and filter to contracts or an error;
- downloading and reading a CSV is a function `load` from object key to a `Frame`.

Behaviour of the code worth noting:
- `_generate_signal` in `custom_metrics.py` is the cascade (`>= strong_bullish`, `>= bullish`,
  `<= strong_bearish`, else Bearish). The deviation index thresholds `(-0.05, 0, 0, 0.05)` therefore
  label the value `0` **Bullish**, not Bearish (`CustomMetrics.DeviationSignalExamples`). The
  inclusive-ascending bucketing that would give Bearish is the mask rule of
  `integrate_with_custom_metrics.py`, modelled separately.
- An empty calibration series (after dropping missing values) raises no error in the code. The
  bounds become NaN and every normalised value is missing. `CustomMetrics.CalibrationBounds` returns
  `None` and `CustomMetrics.NormalizeToScale` then yields an all-missing series.
- Coinciding bounds are not guarded in the code. Float division gives +inf, -inf or NaN, which
  `clip(0, 100)` turns into 100, 0 or leaves missing. `CustomMetrics.Scale` models exactly that
  outcome rather than a requirement on the caller. The properties that need proper bounds
  (`ScaleInverse`, `ScaleEnds`, `ScaleMonotone`) state `lower < upper` as their hypothesis.
- A contract type that is present but `None` makes `.lower()` raise in `get_put_call_ratio`. The
  whole symbol then fails, and in a batch it gets an error entry (`PutCallRatio.Accumulate`).
- The file-based ratio is undefined only when the call volume is exactly zero. The snapshot ratio is
  undefined whenever the call volume is not positive (`FlatFiles.RatioRulesDiffer`).
- The date keys print the year unpadded (`f"{dt.year}"`) but copy the date text verbatim into the
  file name. A year below 1000 therefore yields `.../999/01/0999-01-05.csv.gz`
  (`FlatFiles.ShortYearKey`). For four-digit ISO dates the key lies under the listing prefix of
  that month (`FlatFiles.KeyUnderListingPrefix`).

## Model

| member | source | states |
|---|---|---|
| CustomMetrics.DropMissing | src/finance_metrics/custom_metrics.py:84 | `dropna()` keeps exactly the present values and is empty iff every entry is missing |
| CustomMetrics.DropMissingAppend | src/finance_metrics/custom_metrics.py:84 | `dropna()` of a concatenation is the concatenation of the parts' `dropna()`; with a one-entry series keeping a present value and dropping a missing one (`DropMissingUnit`), this fixes the order and repetitions of the kept values |
| CustomMetrics.PresentCountAndSum | src/finance_metrics/custom_metrics.py:140-153 | the length and sum of `dropna()` are the number and sum of the present entries of the series |
| CustomMetrics.PresentSignCounts | src/finance_metrics/custom_metrics.py:464-474 | the positive and negative counts of `dropna()` are the numbers of present positive and present negative entries |
| CustomMetrics.Scale | src/finance_metrics/custom_metrics.py:94-97 | the rescaled value always lies in [0, 100]; it is missing exactly when the bounds coincide and the value equals them (NaN from 0/0) |
| CustomMetrics.ScaleInverse | src/finance_metrics/custom_metrics.py:94-97 | between proper bounds nothing is clipped, and the result maps back to the input: lower + r(upper - lower)/100 = v |
| CustomMetrics.ScaleEnds | src/finance_metrics/custom_metrics.py:94-97 | the lower bound maps to 0, the upper to 100, and values beyond a bound clip to that end |
| CustomMetrics.ScaleMonotone | src/finance_metrics/custom_metrics.py:94-97 | for fixed proper bounds the rescale is non-decreasing |
| CustomMetrics.ScaleIdempotent | src/finance_metrics/custom_metrics.py:94-97 | rescaling a rescaled value against (0, 100) changes nothing |
| CustomMetrics.NormalizeValues | src/finance_metrics/custom_metrics.py:94-97 | same length as the input, missing stays missing, every present output is in [0, 100] |
| CustomMetrics.NormalizeLocal | src/finance_metrics/custom_metrics.py:94-97 | normalisation is element-wise: changing one input changes only that output |
| CustomMetrics.CalibrationBounds | src/finance_metrics/custom_metrics.py:84-91 | bounds are missing iff the calibration has no present value; with percentiles, the bounds are the quantiles at `lower/100` and `upper/100` of the calibration's present values in order; min/max bounds are ordered, are calibration values and enclose every calibration value |
| CustomMetrics.PercentileBoundsOrdered | src/finance_metrics/custom_metrics.py:86-88 | with a monotone quantile and lower_percentile <= upper_percentile the percentile bounds are ordered |
| CustomMetrics.CalibrationValuesUnclipped | src/finance_metrics/custom_metrics.py:84-97 | with min/max bounds every calibration value normalises to its exact relative position, unclipped (missing for a constant series) |
| CustomMetrics.NormalizeToScale | src/finance_metrics/custom_metrics.py:63-97 | same length, missing stays missing, outputs in [0, 100]; each output is `NormalizeOne` of its value against the `CalibrationBounds` of the calibration series, so no value's result depends on another value; an all-missing calibration gives an all-missing result; with min/max bounds, a present value that comes out missing equals every calibration value |
| CustomMetrics.CascadeSignal | src/finance_metrics/custom_metrics.py:116-126 | missing iff "Insufficient Data"; each of the four labels holds exactly on its region of the ordered checks (>= t4, >= t3, <= t1, otherwise) |
| CustomMetrics.CascadeIgnoresSecondThreshold | src/finance_metrics/custom_metrics.py:114-126 | the label never depends on the second ("bearish") threshold |
| CustomMetrics.CascadeMonotone | src/finance_metrics/custom_metrics.py:116-126 | a larger value never gets a more bearish label, whatever the thresholds |
| CustomMetrics.DeviationSignalExamples | src/finance_metrics/custom_metrics.py:196-198 | thresholds (-0.05, 0, 0, 0.05): 0 Bullish, -0.05 Strong Bearish, -0.01 Bearish, 0.05 Strong Bullish, -0.10 Strong Bearish, 0.02 Bullish |
| CustomMetrics.NormalizedSignalExamples | src/finance_metrics/custom_metrics.py:246-249 | thresholds (30, 50, 50, 70): 30 Strong Bearish, 40 Bearish, 50 Bullish, 70 Strong Bullish |
| CustomMetrics.GenerateSignals | src/finance_metrics/custom_metrics.py:116-128 | one label per value, and each label is the threshold cascade (`CascadeSignal`) applied to that value alone; "Insufficient Data" exactly at missing values, labels ordered like the values |
| CustomMetrics.CalculateStats | src/finance_metrics/custom_metrics.py:130-159 | all-None iff nothing is present; otherwise the mean is the sum of the present values over their number, min <= mean <= max, min and max are present values enclosing all others, current is the last present value |
| CustomMetrics.MeanOfPresent | src/finance_metrics/custom_metrics.py:140-153 | the mean of `dropna()` is the sum of the present entries over their number |
| CustomMetrics.StatsOfPresent | src/finance_metrics/custom_metrics.py:140-159 | the mean, min, max and last of `dropna()` satisfy the summary's bounds and the last is the last present entry |
| CustomMetrics.LastPresent | src/finance_metrics/custom_metrics.py:158 | `valid_data.iloc[-1]` is the entry after which nothing is present |
| CustomMetrics.CountsPartition | src/finance_metrics/custom_metrics.py:464-474 | every deviation is counted as positive, negative or zero, exactly once |
| CustomMetrics.ShareBounds | src/finance_metrics/custom_metrics.py:465-474 | two disjoint counts as percentages stay within [0, 100], sum to at most 100, and reach 100 iff they cover all values |
| CustomMetrics.DeviationPercentages | src/finance_metrics/custom_metrics.py:464-474 | with present values the bullish (bearish) share is the number of present positive (negative) deviations over the number of present ones, times 100; both shares in [0, 100], sum at most 100, both 0 with no present value; they sum to 100 iff no present deviation is zero |
| CustomMetrics.DeviationStats | src/finance_metrics/custom_metrics.py:445-476 | the summary's statistics are `CalculateStats` of the deviations and its shares are `DeviationPercentages` of them; no present value gives zero shares; all-positive deviations are 100% bullish, all-negative 100% bearish |
| CustomMetrics.SharesOfSignedSeries | src/finance_metrics/custom_metrics.py:464-474 | a series whose minimum is positive (maximum negative) is 100% bullish (bearish) |
| MaskSignal.Masks | src/data_helper/integrate_with_custom_metrics.py:47-51 | the five masks of the source, in assignment order |
| MaskSignal.MaskSignal | src/data_helper/integrate_with_custom_metrics.py:43-51 | missing stays unassigned (never "Insufficient Data"); > t3 is Strong Bullish; with ordered thresholds <= t1, (t1, t2], (t2, t3] give Strong Bearish, Bearish, Bullish |
| MaskSignal.MaskSignalIsAssign | src/data_helper/integrate_with_custom_metrics.py:43-51 | the rule is the sequential assignment of the five masks onto an empty label |
| MaskSignal.AssignIsLastSelecting | src/data_helper/integrate_with_custom_metrics.py:47-51 | sequential masked assignment leaves the label of the last selecting mask, or the initial label if none selects |
| MaskSignal.LastMaskWins | src/data_helper/integrate_with_custom_metrics.py:47-51 | for arbitrary thresholds the final label is that of the last mask in source order that selects the value |
| MaskSignal.MasksPartition | src/data_helper/integrate_with_custom_metrics.py:47-51 | with t1 <= t2 <= t3 <= t4 exactly one mask selects each present value |
| MaskSignal.MaskIgnoresFourth | src/data_helper/integrate_with_custom_metrics.py:50-51 | values above t4 fall in the (t3, t4] bucket, so t4 does not matter as long as it is >= t3 |
| MaskSignal.AgreesWithCascade | src/data_helper/integrate_with_custom_metrics.py:47-51 | the mask rule with (a, c, d, e) and the cascade with (a, _, c, d) agree on every value except c and d |
| MaskSignal.DisagreesOnCutPoints | src/data_helper/integrate_with_custom_metrics.py:48-50 | at c and d the cascade picks the upper bucket and the masks the lower one |
| MaskSignal.VixThresholdExamples | src/data_helper/integrate_with_custom_metrics.py:90-93 | raw (12, 15, 20, 30) and normalised (30, 50, 70, 85) VIX thresholds at their cut points, and everything above t3 Strong Bullish |
| MaskSignal.MaskSignals | src/data_helper/integrate_with_custom_metrics.py:43-53 | the label series has the input's length and each label is `MaskSignal` of its value alone; missing inputs stay unlabelled, and with ordered thresholds exactly those |
| VixSentiment.SentimentOf | src/data_helper/vix_sentiment.py:122-135 | Unknown iff missing; Extreme Fear iff > 30; Fear iff in (20, 30]; Neutral iff in (15, 20]; Complacent iff in (12, 15]; Extreme Complacency iff <= 12 |
| VixSentiment.ScoreOf | src/data_helper/vix_sentiment.py:137-160 | the score is in -2..2 and 0 for a missing value |
| VixSentiment.SentimentMatchesScore | src/data_helper/vix_sentiment.py:28-34 | for a present value label and score determine each other, since the named thresholds equal the score's cut points |
| VixSentiment.ScoreNonIncreasing | src/data_helper/vix_sentiment.py:151-160 | the score is non-increasing in the VIX value |
| VixSentiment.CutPointsAreStrict | src/data_helper/vix_sentiment.py:126-135 | 30 is Fear, 20 Neutral, 15 Complacent, 12 Extreme Complacency |
| VixSentiment.InterpretationMatchesSentiment | src/data_helper/vix_sentiment.py:189-209 | for a present value the interpretation follows the label, both complacency labels sharing one text |
| VixSentiment.InterpretationOf | src/data_helper/vix_sentiment.py:189-209 | extreme fear iff > 30, elevated fear iff in (20, 30], neutral iff in (15, 20], complacency iff <= 15 or missing |
| VixSentiment.MissingCloseReadsAsComplacency | src/data_helper/vix_sentiment.py:182-209 | a missing close is Unknown with score 0 but gets the complacency interpretation |
| VixSentiment.CalculateSentiment | src/data_helper/vix_sentiment.py:102-112 | one row per close, carrying the close and its label; Unknown exactly at missing closes; the score is the label's score |
| VixSentiment.CurrentSentiment | src/data_helper/vix_sentiment.py:174-211 | an error exactly when there is no data; otherwise the reading of the last close: its label, its interpretation, and the score of that label |
| PutCallRatio.OtherTypesIgnored | src/data_helper/put_call_ratio_api.py:141-147 | contracts of neither kind add nothing to either sum |
| PutCallRatio.Tally | src/data_helper/put_call_ratio_api.py:114-149 | the accumulation loop as a fold over the contracts: fails with the `NoneType` error iff some contract type is None; otherwise the per-type sums of volume and open interest and both counters equal to the number of contracts |
| PutCallRatio.Accumulate | src/data_helper/put_call_ratio_api.py:114-149 | the loop computes the fold `Tally`; so it fails exactly when some contract type is None, and otherwise gives the per-type sums of volume and open interest (missing counts 0) with both counters equal to the number of contracts |
| PutCallRatio.Ratio | src/data_helper/put_call_ratio_api.py:151-160 | undefined iff the call figure is <= 0; otherwise r * call = put |
| PutCallRatio.RequestFilter | src/data_helper/put_call_ratio_api.py:98-99 | the expiration filter is sent iff it is a non-empty string |
| PutCallRatio.GetPutCallRatio | src/data_helper/put_call_ratio_api.py:98-175 | a failing fetch becomes the wrapped error; after a successful fetch it fails, with the `NoneType` error, iff some contract type is None; a report carries the symbol, the per-type sums, the counts, the filter and both ratios by the ratio rule |
| PutCallRatio.InterpretRatio | src/data_helper/put_call_ratio_api.py:206-219 | never Unknown; Very Bearish iff > 1.3; Bearish iff in (1.0, 1.3]; Neutral iff in (0.7, 1.0]; Bullish iff in (0.5, 0.7]; Very Bullish iff <= 0.5 |
| PutCallRatio.InterpretRatioAntitone | src/data_helper/put_call_ratio_api.py:208-217 | a higher ratio never reads more bullish |
| PutCallRatio.InterpretRatioCutPoints | src/data_helper/put_call_ratio_api.py:208-217 | 1.3 Bearish, 1.0 Neutral, 0.7 Bullish, 0.5 Very Bullish |
| PutCallRatio.CompareSentiment | src/data_helper/put_call_ratio_api.py:287-300 | Unknown iff the volume ratio is None |
| PutCallRatio.CompareAgreesWithInterpret | src/data_helper/put_call_ratio_api.py:287-300 | the comparison table's sentiment equals `_interpret_ratio` for every ratio |
| PutCallRatio.EntryFor | src/data_helper/put_call_ratio_api.py:243-248 | a symbol gets an error entry iff its request fails |
| PutCallRatio.GetMultipleSymbols | src/data_helper/put_call_ratio_api.py:240-250 | the keys are exactly the input symbols; each value is the symbol's report or its error text, independent of the other symbols |
| PutCallRatio.Distinct | src/data_helper/put_call_ratio_api.py:276 | dictionary keys: the same elements as the input, without repetition, ordered by their first occurrence in the input |
| PutCallRatio.ComparisonRows | src/data_helper/put_call_ratio_api.py:276-302 | one row per key in order; error rows show the first 20 characters of the error, other rows the sentiment of the volume ratio |
| PutCallRatio.CompareSymbols | src/data_helper/put_call_ratio_api.py:268-302 | one row per distinct symbol, every symbol has a row, rows ordered by the symbols' first occurrence; an error row iff that symbol's request fails, showing the first 20 characters of its error; otherwise the report's two ratios and the `_interpret_ratio` sentiment of the volume ratio (Unknown without one) |
| Text.Lower | src/data_helper/put_call_ratio_api.py:129 | ASCII lower-casing: same length, no upper-case letter left, other characters unchanged |
| Text.Split | src/data_helper/massive_flatfiles.py:111 | `str.split` on one character: separator-free pieces whose join is the input, two or more iff the separator occurs |
| Text.SplitJoin | src/data_helper/massive_flatfiles.py:111 | splitting a join of separator-free parts returns the parts |
| Text.LastSegment | src/data_helper/massive_flatfiles.py:154 | `split("/")[-1]` is the separator-free suffix after the last separator, or the whole string without one |
| Text.NatToString | src/data_helper/massive_flatfiles.py:235 | `f"{n}"` is a digit string without leading zero spelling n |
| Text.NatToStringOfDigits | src/data_helper/massive_flatfiles.py:235 | a digit string without leading zero is the rendering of its value |
| Text.Pad2 | src/data_helper/massive_flatfiles.py:236 | `f"{n:02d}"` is two digits spelling n |
| CalendarDate.DaysInMonth | src/data_helper/massive_flatfiles.py:233 | 28 to 31 days; February has 29 in a leap year and 28 otherwise; months 4, 6, 9, 11 have exactly 30; the others have 31 |
| CalendarDate.TokenValue | src/data_helper/massive_flatfiles.py:233 | a month token spells 1..12, a day token 1..31, a blank-free token its digit value |
| CalendarDate.ParseDate | src/data_helper/massive_flatfiles.py:233 | an accepted date is valid, 8 to 10 characters, four year digits spelling its year then a dash, has a second dash after that one, and contains no slash |
| CalendarDate.ParseFormatted | src/data_helper/massive_flatfiles.py:233 | every valid date's ISO rendering parses back to that date |
| CalendarDate.ParsedTenCharsAreCanonical | src/data_helper/massive_flatfiles.py:233 | a blank-free ten-character date that parses is the ISO rendering of its value |
| CalendarDate.ParseDashed | src/data_helper/massive_flatfiles.py:233 | a dashed string with four year digits parses iff its month and day are tokens and the date is valid |
| CalendarDate.ParsesUnpaddedFields | src/data_helper/massive_flatfiles.py:233 | `2024-1-5` is accepted as 5 January 2024 |
| CalendarDate.ParsesBlankPaddedDay | src/data_helper/massive_flatfiles.py:233 | `2024-01- 5` is accepted as 5 January 2024 |
| CalendarDate.RejectsMissingLeapDay | src/data_helper/massive_flatfiles.py:233 | `2023-02-29` is rejected |
| CalendarDate.RejectsMonthThirteen | src/data_helper/massive_flatfiles.py:233 | `2024-13-01` is rejected |
| CalendarDate.RejectsYearZero | src/data_helper/massive_flatfiles.py:233 | `0000-01-01` is rejected |
| CalendarDate.RejectsSlashes | src/data_helper/massive_flatfiles.py:233 | `2024/11/05` is rejected |
| FlatFiles.Lookup | src/data_helper/massive_flatfiles.py:105-106 | no value iff no entry has the key; otherwise the value of the first entry with that key |
| FlatFiles.AliasesAreNotPaths | src/data_helper/massive_flatfiles.py:39-54 | every alias is slash-free and every prefix contains a slash |
| FlatFiles.ResolvePrefix | src/data_helper/massive_flatfiles.py:104-106 | an alias becomes its mapped prefix, anything else passes through unchanged |
| FlatFiles.ResolveIdempotent | src/data_helper/massive_flatfiles.py:104-106 | resolving an already resolved prefix changes nothing |
| FlatFiles.WithDateFilter | src/data_helper/massive_flatfiles.py:108-113 | the prefix is extended iff the filter is given and contains a dash, and then only by a dash-free `/...` tail |
| FlatFiles.DateFilterOfParts | src/data_helper/massive_flatfiles.py:109-113 | a filter `<y>-<m>[-...]` appends exactly `/<y>/<m>` |
| FlatFiles.ListingPrefixExample | src/data_helper/massive_flatfiles.py:102-113 | `options_trades` with `2024-11` lists `us_options_opra/trades_v1/2024/11` |
| FlatFiles.DatasetRootIsAliasPrefix | src/data_helper/massive_flatfiles.py:44-47 | the hard-coded per-date roots are the prefixes of the `options_trades` and `options_daily_agg` aliases |
| FlatFiles.DateKey | src/data_helper/massive_flatfiles.py:234-237 | the key starts with `<root>/` and its last segment is `<date>.csv.gz` |
| FlatFiles.ObjectKeyForDate | src/data_helper/massive_flatfiles.py:232-237 | fails exactly when `strptime` rejects the date; otherwise a key under the dataset root whose file name is `<date>.csv.gz` |
| FlatFiles.KeyOfParsedDate | src/data_helper/massive_flatfiles.py:268-272 | an accepted date's key is `<root>/<year>/<month:02>/<date>.csv.gz` |
| FlatFiles.KeyUnderListingPrefix | src/data_helper/massive_flatfiles.py:233-237 | for ISO dates with a four-digit year the key is the month's listing prefix plus the file name |
| FlatFiles.ShortYearKey | src/data_helper/massive_flatfiles.py:233-237 | `0999-01-05` gives `us_options_opra/trades_v1/999/01/0999-01-05.csv.gz` |
| FlatFiles.LocalPath | src/data_helper/massive_flatfiles.py:152-154 | a given local path is used as is; the default is the slash-free suffix of the key that follows its last slash, or the whole key when it has no slash |
| FlatFiles.DownloadedPath | src/data_helper/massive_flatfiles.py:163-173 | with decompression on and a `.gz` path, the result plus `.gz` is the local path; otherwise the local path itself |
| FlatFiles.DownloadedDateFile | src/data_helper/massive_flatfiles.py:152-173 | a date's file downloads to `<date>.csv`, or stays `<date>.csv.gz` without decompression |
| FlatFiles.FirstPresent | src/data_helper/massive_flatfiles.py:321-325 | the first candidate that is a column, none iff no candidate is |
| FlatFiles.FilterUnderlying | src/data_helper/massive_flatfiles.py:312 | keeps exactly the rows whose `underlying_symbol` is the symbol, each kept row taken from the input |
| FlatFiles.FilterUnderlyingAppend | src/data_helper/massive_flatfiles.py:312 | filtering distributes over concatenation; with a single row kept iff it carries the symbol (`FilterUnderlyingUnit`), this fixes the kept rows, their order and their repetitions |
| FlatFiles.SideVolume | src/data_helper/massive_flatfiles.py:333-334 | fails, with a non-numeric volume, iff a row on the side has text in the volume column; otherwise the sum of the numbers in the volume column of the rows on the side (blank cells skipped), 0 when no row is on the side |
| FlatFiles.SideNumbersAppend | src/data_helper/massive_flatfiles.py:333-334 | the on-side volume numbers of two row blocks are those of each block in turn |
| FlatFiles.SideVolumeAppend | src/data_helper/massive_flatfiles.py:333-334 | the sum over two row blocks is the sum of their sums |
| FlatFiles.SideMatchIgnoresCase | src/data_helper/massive_flatfiles.py:333-334 | a type cell matches iff its lower-cased form does |
| FlatFiles.FileRatio | src/data_helper/massive_flatfiles.py:336-340 | no ratio iff the call volume is 0; otherwise r * call = put |
| FlatFiles.RatioRulesDiffer | src/data_helper/massive_flatfiles.py:337-340 | the file rule and the snapshot rule differ exactly on negative call volumes and agree on positive ones |
| FlatFiles.SelectRows | src/data_helper/massive_flatfiles.py:309-317 | rows are filtered only for a non-empty symbol and an existing column, and are then exactly the filtered frame rows, all carrying the symbol; otherwise all frame rows |
| FlatFiles.ReportSymbol | src/data_helper/massive_flatfiles.py:344 | `ALL` iff no symbol, an empty one or `ALL` was given; otherwise the given symbol |
| FlatFiles.RatioOfRows | src/data_helper/massive_flatfiles.py:333-348 | over given rows and columns: fails, with a non-numeric volume, iff a put or call row has text volume; otherwise the sums of the numbers on each side and their ratio by the file rule |
| FlatFiles.RatioFromFrame | src/data_helper/massive_flatfiles.py:309-348 | no type column and a missing volume column are errors; with both columns it fails iff a put or call row of the selected rows has text volume; a report carries the date, the symbol, the put and call volumes as the sums of the numbers on each side of the first type column found, and the ratio by the file rule (`FileRatio`: undefined iff calls are 0, otherwise r * call = put) |
| FlatFiles.PutCallRatioFromFile | src/data_helper/massive_flatfiles.py:301-348 | a rejected date fails with that date; otherwise the ratio of the frame loaded from the dataset's key for that date |
| FlatFiles.MissingUnderlyingColumnIgnoresSymbol | src/data_helper/massive_flatfiles.py:310-317 | without an `underlying_symbol` column the volumes and ratio do not depend on the symbol asked for |

## Left out

- Data fetching is external I/O and is replaced by input sequences and by the `Fetch` and `load` parameters. This covers yfinance downloads, the REST snapshot client, boto3 listing, pagination and `max_results`, `download_file`'s transfer, and reading `.env`.
- gzip decompression, `mkdir` and `os.remove` are file-system effects. Only the path strings they use are modelled.
- The pandas quantile is a function parameter `Quantile`, because its interpolation lives in pandas. Percentile bounds are ordered only under the assumption that it is monotone.
- `rolling().mean()` for the SMA, the deviation formula, `rank(pct=True)` with its `round(1)`, and `resample("W")` are pandas computations whose results enter the model as given series.
- CustomMetrics.CalculateStats: the median and standard deviation are not modelled, because their tie and `ddof` conventions live in pandas. Only mean, min, max and current are stated.
- VixSentiment.CurrentSentiment: `round(vix, 2)` and the formatted date of the reading are not modelled. The reading carries the unrounded close.
- `_interpret_ratio` only prints its label. The model returns the label instead.
- Floating point is modelled by exact reals. Rounding in `/` and `* 100` is not represented.
- Timestamps from `datetime.now()` are nondeterministic and are left out of the reports.
- All `print` output is left out, along with the example and test scripts and `explore_file_structure`.
- The `NotImplementedError` placeholder metrics and the weekly wrapper of the deviation index are left out, because they contain no decision logic.
- `load_file_to_dataframe`'s `nrows` limit is not modelled. The frame given by `load` is the whole file.
- FlatFiles.RatioFromFrame: a type column that is not of string dtype makes pandas raise on `.str` before any row is read. This error is not modelled, and the model lets such cells match no side.
- FlatFiles.RatioFromFrame: text volumes are modelled as an error, which is stricter than the code. pandas reads a volume column that holds any text as all strings. `.sum()` then concatenates the strings of each side instead of failing. The `TypeError` comes only from `put_volume / call_volume` (massive_flatfiles.py:340). So when no call row is selected, the code returns a report with a text put volume and no ratio. The model has no text-valued sums: it fails with `NonNumericVolume` as soon as a selected row on either side has text in the volume column, also in that case.
- CalendarDate.ParseDate: only ASCII digits are accepted, and the Unicode digits Python's `\d` also matches are not. `%Y` is modelled as exactly four digits, as `strptime` requires for every year it can represent.
- Text.Lower: only ASCII letters are lower-cased. Python's full Unicode case mapping is not modelled.
- The credential check in the flat-file client's constructor is left out, because it reads the environment.
