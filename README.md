# WaterReadings: meter normalization and main-versus-secondary aggregation

This project models the two computing parts of `app.py` in the WaterReadings
scripts. It leaves out the CSV loading and the charts.

- **Normalizer** (`normalizer.dfy`, `read_remote_readings`). It takes one
  meter's parsed samples `(minute, Reading, Amount)` and builds one row for
  each minute from the first sample to the last.
  - At a sample's own minute, the row keeps the sample's values. This is what
    `asfreq` does.
  - Any other minute is filled by time-weighted linear interpolation between
    the two samples around it (`interpolate(method='time')`).
  - Each row is tagged with the meter's label and with its `Type`. The type is
    `Main` for the label `All Buildings` and `Secondary` for every other label.
  - `FlowRateM3PerMinute` is the first difference of `Reading`, with 0 in the
    first row.

  The source changes one DataFrame step by step. The model is therefore a
  method, `Normalize`, that fills an array of rows in two loops. The first loop
  resamples and interpolates. The second fills the flow column. The method is
  proved against the predicate `IsNormalized`, which is built on the recursive
  reference function `ValueAt`.
- **Aggregation** (`aggregation.dfy`, the non-plotting half of
  `plot_all_days_histogram`). It works in five steps, all modelled as
  functions over sequences:
  1. Concatenate the five meters' series in the order `6, 8, 10, 12, All`.
  2. Sum every numeric column per (minute, Type).
  3. At each minute, subtract the Secondary totals from the Main totals. A
     minute that only one class has gives NaN, modelled as `None`.
  4. Tag each minute with its calendar day.
  5. Sum per day. NaN adds nothing, so a day that has only NaN sums to 0.

  The comment at app.py:51 and the chart title at app.py:56 say "hourly", but
  the code groups by `.date`. The model follows the code and sums by day.

Timestamps are whole minutes counted from a midnight epoch, so the calendar
day of minute `t` is `t / 1440` (floor division). Readings and amounts are
exact `real`s. `wrappers.dfy` holds the `Option` and `Result` types.

## Model

| member | source | states |
|---|---|---|
| Normalizer.TypeOf | app.py:21 | The Type is Main exactly when the label is `All Buildings`, and Secondary for every other label. |
| Normalizer.Interpolate | app.py:19-20 | The interpolated point lies on the line through the two samples: (v - v0)·(t1 - t0) = (v1 - v0)·(t - t0). It is exact at both end minutes. |
| Normalizer.ValueAt | app.py:18-20 | The reference value of resampling plus time interpolation at a minute. It keeps the first and the last sample's values at the ends of the span; `ValueAtSample` and `ValueAtSegment` fix its value at every sample minute and inside every gap. |
| Normalizer.ValuesAt | app.py:18-20 | One grid minute: moves the sample cursor to the last sample at or before t (the next sample, if any, is after t). Returns exactly the reference values `ValueAt` of Reading and Amount at t. |
| Normalizer.Normalize | app.py:7-34 | The rows returned satisfy `IsNormalized`: there are last - first + 1 rows. Row i is at minute first + i and carries the caller's label and `TypeOf(label)`. Its Reading and Amount are the interpolated values at that minute. Flow is 0 in row 0 and Reading[i] - Reading[i-1] after that. |
| Normalizer.ValueAtSegment | app.py:19-20 | At any minute t with s[k] ≤ t < s[k+1], the series is the time-weighted interpolation between samples k and k+1. |
| Normalizer.ValueAtSample | app.py:18-20 | At every sample minute, the series holds that sample's value unchanged. |
| Normalizer.InterpolateBetween | app.py:19-20 | An interpolated value lies between its two bounding sample values, whichever of the two is larger. |
| Normalizer.InterpolateGrows | app.py:19 | Interpolating towards a larger sample gives a value that grows with time. |
| Normalizer.ValueAtBetween | app.py:18-20 | Every grid value, at a sample minute or in a gap, lies between the two consecutive samples that bound it. |
| Normalizer.ValueAtStep | app.py:18-19 | With non-decreasing samples, the grid value never drops from one minute to the next. |
| Normalizer.ValueAtMonotone | app.py:18-19 | Non-decreasing samples give a non-decreasing grid series over any two minutes. |
| Normalizer.NormalizedIsUnique | app.py:7-34 | Only one series satisfies `IsNormalized` for given samples and label. Normalizing the same input twice therefore gives the same series. |
| Normalizer.NormalizedKeepsSamples | app.py:18-20 | The row at each sample minute lies in the series and holds that sample's Reading and Amount. |
| Normalizer.NormalizedFlowNonNegative | app.py:19-24 | If the sample readings never decrease, no row of the series has a negative flow. |
| Normalizer.FlowTelescopes | app.py:24 | A first-difference column, with 0 first, sums to the last reading minus the first. |
| Normalizer.NormalizedFlowTotal | app.py:18-24 | The flows of a normalized series sum to the last sample's reading minus the first sample's reading. |
| Normalizer.ThreeMinuteScenario | app.py:18-24 | Readings 100 at 00:00 and 106 at 00:02 give three rows, with readings 100, 103, 106 and flows 0, 3, 3. |
| Normalizer.TimeWeightedScenario | app.py:19 | Readings 10 at minute 0 and 20 at minute 10 give 13 at minute 3. The weighting is by elapsed time, not by row count. |
| Aggregation.Gather | app.py:40-43 | The series are returned in key order exactly when every key is present. Otherwise the result is a KeyError naming the first missing key. |
| Aggregation.Concat | app.py:43 | A row is in the concatenation exactly when it is in one of the series, and the concatenation has as many rows as all the series together. |
| Aggregation.MinuteDiff | app.py:47-49 | Main - Secondary at a minute is present exactly when both classes have that minute, and is NaN otherwise. |
| Aggregation.GroupTotal | app.py:45 | One cell of `groupby(level=['Date','Type']).sum()`. A key with no row sums to 0; `ClassTotalOfNormalized` shows the cell is the sum over the meters of that class that have the minute. |
| Aggregation.DiffOver | app.py:52-53 | The sum of the minute differences over a range of minutes, a missing (NaN) minute adding nothing, so a range with only NaN sums to 0. `DiffOverIsSplit` and `SplitIsSigned` give its value as a signed row sum. |
| Aggregation.DaySum | app.py:52-53 | One day's entry of `groupby('Day').sum()`. A day on which no minute has both classes sums to 0; `DaySumIsSigned` and `DailyOfMeaning` show it is the day's Main rows minus its Secondary rows, over the minutes both classes have. |
| Aggregation.MinuteDiffValue | app.py:47-49 | Where both classes have minute t, main - secondary there is the sum of that minute's Main rows minus its Secondary rows. |
| Aggregation.Day | app.py:52 | The day of minute t is the d with 1440·d ≤ t < 1440·d + 1440. |
| Aggregation.DailyOf | app.py:45-53 | The result is a KeyError for Main when no Main row exists. Otherwise it is a KeyError for Secondary when no Secondary row exists. Otherwise the daily frame has an entry for exactly the days that have a row. |
| Aggregation.DailyDifference | app.py:37-53 | The aggregation raises a missing-key error exactly when some file key is absent, and the error names an absent file key. |
| Aggregation.DailyDifferenceOfFiveMeters | app.py:40-53 | With all five keys present, the aggregation is applied to the series of 6, 8, 10, 12 and All, concatenated in that order. |
| Aggregation.ConcatFive | app.py:43 | Concatenating five series puts them one after the other. |
| Aggregation.GroupTotalAppend | app.py:43-45 | A (minute, Type) total over two concatenated frames is the sum of the two frames' totals. |
| Aggregation.GroupTotalConcat | app.py:43-45 | A (minute, Type) total over the concatenation is the sum, over the meters, of each meter's total. |
| Aggregation.GridGroupTotal | app.py:45 | In a one-class series with one row per minute, a (minute, Type) total is the row at that minute. It is 0 for another class or for a minute outside the series. |
| Aggregation.NormalizedGroupTotal | app.py:45 | A normalized meter adds its own row at minute t to its own class only, and adds nothing outside its span. |
| Aggregation.ClassTotalOfNormalized | app.py:43-45 | Over normalized meters, the (minute, Type) total is the sum of that column over the meters of that class whose span covers the minute. |
| Aggregation.DiffOverIsSplit | app.py:49-53 | The sum of the minute differences over a range of minutes counts only the minutes that both classes have. |
| Aggregation.SplitDiffCons | app.py:49-53 | One more row adds its signed value once, at its own minute, when both classes have that minute. |
| Aggregation.SplitIsSigned | app.py:49-53 | Summing the differences minute by minute gives the same result as summing row by row, with Main rows added and Secondary rows subtracted. |
| Aggregation.DaySumIsSigned | app.py:49-53 | A day's difference is the sum of that day's Main rows minus its Secondary rows, over the minutes that both classes have. |
| Aggregation.DailyOfMeaning | app.py:45-53 | When both classes have rows, every day that has a row gets an entry in the daily frame. That entry is the signed row sum for Reading, Amount and FlowRateM3PerMinute. |

## Left out

- CSV reading and the day-first date parsing (app.py:9-14) are not modelled. The model starts from already-parsed samples, so a missing file or an unparseable field cannot occur in it.
- Normalize: requires at least one sample, with strictly increasing minutes. The source never deduplicates and never checks for an empty file (app.py:17-18), so duplicate or empty input is a precondition here, not a modelled error. Out-of-order input is also a precondition: `resample` sorts the index itself, but the model takes samples already sorted and leaves that sort out.
- Sub-minute timestamps are not modelled: minutes are integers. In the source, `asfreq` would drop such a sample's values.
- Missing values in the CSV are not modelled: sample values are `real`s. Pandas would interpolate across such a value.
- Normalize: the source assigns the columns in a fixed order: Reading, Amount, Type, FlowRateM3PerMinute, Meter. The model writes Type and Meter in the same loop as Reading and Amount. The resulting rows are the same.
- The `(Date, Meter, Type)` multi-index (app.py:31-32, 47-48) is modelled as plain row fields. The index mechanics (`reset_index`, `set_index`, `droplevel`) are left out.
- Floating-point rounding is left out. Values are exact reals, equal to pandas' results only up to rounding.
- The plotting (app.py:54-61, 74) is presentation only.
- The module-level loading of fixed file paths (app.py:64-72) is configuration and I/O. The labels it uses appear only as the constant `AllBuildings` and the key list `FileKeys`.
- The unused `which` import (app.py:1) is left out. So is the default label `"Unknown"` (app.py:7), because every caller passes a label.
