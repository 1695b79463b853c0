# Forecast evaluator of AutoGluon-TimeSeries, modelled in Dafny

This project models `TimeSeriesEvaluator`, the forecast-accuracy evaluator of
AutoGluon-TimeSeries, and proves properties of that model. The evaluator, together
with the per-item metric functions beside it, scores a forecast against the truth with
one of six metrics:

- MASE;
- MAPE;
- sMAPE;
- mean weighted quantile loss (`mean_wQuantileLoss`);
- MSE;
- RMSE.

Scoring has two phases:

1. The in-sample naive-1 error of the past part of every series is computed and cached.
2. The future part is scored against the predictions. This happens only after three
   checks: every predicted series has `prediction_length` rows, the cache is filled, and
   the data and prediction indices are equal.

The model has these parts:

- `wrappers.dfy` (`Wrappers`): `Option`, `Result` and the Python exceptions the evaluator
  raises (`AssertionError`, `ValueError`, `KeyError`).
- `numeric.dfy` (`Numeric`): floating-point values as `Num = Fin(real) | PosInf |
  NegInf | NaN`, and the arithmetic on them:
  - the pandas mean skips NaN (`Mean`);
  - numpy's sum and mean propagate it (`NpSum`, `NpMean`).
- `grouping.dfy` (`Grouping`): a pandas series with an (item, timestamp) index is a
  sequence of `Obs(item, value)` rows. A series id (`ItemId`) is an abstract type with
  equality, as item ids may be strings or integers.
  - `GroupBy` is `groupby(level=ITEMID, sort=False)`: one group per series, in order of
    first appearance, holding that series' values in row order.
  - `GroupByIsGrouping` proves it is exactly that.
- `frames.dfy` (`Frames`): a data frame is an index of keys plus named columns.
  - Column access.
  - Row selection by mask.
  - The per-series past/future split used by `__call__`: `PastOf` and `FutureOf`.
- `naive.dfy` (`NaiveError`): `in_sample_naive_1_error`, as an imperative method over an
  array. It marks the series boundaries with NaN and is proved equal to a per-series
  reference definition `NaiveSpec`.
- `metrics.dfy` (`PerItemMetrics`): `mse_per_item`, `mae_per_item`, `mape_per_item` and
  `symmetric_mape_per_item`.
- `quantile.dfy` (`WeightedQuantileLoss`): `_mean_wquantileloss`, including parsing the
  column names as quantile levels.
- `registry.dfy` (`MetricRegistry`): the metric names, their coefficients, the default
  metric and `check_get_evaluation_metric`.
- `evaluator.dfy` (`Evaluator`):
  - `_safemean` and `_get_median_forecast`;
  - the metric methods, with dispatch as a match over the `Metric` type;
  - the class `TimeSeriesEvaluator`, whose mutable field `pastNaive1Error` is the cache.

## Model

All source paths are relative to the repository root. `evaluator.py` stands for
`timeseries/src/autogluon/timeseries/evaluator.py` in the prose; the table spells the path out.

| member | source | states |
|---|---|---|
| MetricRegistry.Name | timeseries/src/autogluon/timeseries/evaluator.py:98 | every metric's name is one of the available metric names |
| MetricRegistry.ParseMetric | timeseries/src/autogluon/timeseries/evaluator.py:98 | a name denotes a metric exactly when it is in the available list, and that metric's name is the given name (case-sensitive) |
| MetricRegistry.ParseName | timeseries/src/autogluon/timeseries/evaluator.py:98 | parsing a metric's name gives back that metric: the six names are distinct |
| MetricRegistry.CoefficientsOrientErrors | timeseries/src/autogluon/timeseries/evaluator.py:99 | every metric's coefficient is nonzero and negative, so no metric is higher-is-better |
| MetricRegistry.Coefficient | timeseries/src/autogluon/timeseries/evaluator.py:99 | every metric's coefficient is -1 |
| MetricRegistry.CheckGetEvaluationMetric | timeseries/src/autogluon/timeseries/evaluator.py:186-191 | the result is always an available name; missing or empty ⇒ the default; an available name is returned unchanged; it raises `ValueError("metric X is not available yet.")` exactly when raising is on and the name is non-empty and unknown; otherwise it falls back to the default |
| MetricRegistry.CheckGetUnknownName | timeseries/tests/unittests/test_evaluator.py:169-178 | an unknown name raises `ValueError` with raising on, and gives the default with raising off |
| Numeric.Abs | timeseries/src/autogluon/timeseries/evaluator.py:35 | the absolute value is never negative; it is NaN or finite exactly when its argument is; of a finite value it is that value's real absolute value |
| Numeric.Add | timeseries/src/autogluon/timeseries/evaluator.py:150-151 | IEEE addition: NaN with a NaN or opposite infinities; otherwise ±inf when that infinity is present; the real sum of finite values |
| Numeric.Sub | timeseries/src/autogluon/timeseries/evaluator.py:20 | IEEE subtraction: NaN with a NaN or equal infinities; otherwise +inf when the left side is +inf or the right side -inf, and -inf in the mirrored case; the real difference of finite values |
| Numeric.Mul | timeseries/src/autogluon/timeseries/evaluator.py:150 | IEEE multiplication: NaN with a NaN or zero times an infinity; any other product with an infinity is infinite, +inf exactly when both factors have the same sign; the real product of finite values |
| Numeric.Div | timeseries/src/autogluon/timeseries/evaluator.py:133 | IEEE division: NaN with a NaN; the real quotient by a nonzero finite value; x/0 is NaN for x = 0, +inf for x > 0 and -inf for x < 0; finite over infinite is 0; an infinity or NaN over a non-negative finite value is unchanged and an infinity over a negative one flips sign; non-finite over non-finite is NaN |
| Numeric.Le | timeseries/src/autogluon/timeseries/evaluator.py:150 | `<=`: false with a NaN; the real order on finite values; -inf is below and +inf above everything else |
| Numeric.NpSum | timeseries/src/autogluon/timeseries/evaluator.py:150-151 | numpy sum: NaN when there is a NaN or both infinities; ±inf when only that infinity is present; otherwise the real sum |
| Numeric.DropNaN | timeseries/src/autogluon/timeseries/evaluator.py:121 | keeps exactly the non-NaN entries and their sum; a single entry is kept exactly when it is not NaN |
| Numeric.DropNaNConcat | timeseries/src/autogluon/timeseries/evaluator.py:121 | dropping NaN distributes over concatenation, so the kept entries stay in their order |
| Numeric.Mean | timeseries/src/autogluon/timeseries/evaluator.py:25 | pandas mean: NaN without a non-NaN entry or with both infinities; ±inf; otherwise the sum over the number of non-NaN entries |
| Numeric.MeanOfFinite | timeseries/src/autogluon/timeseries/evaluator.py:25 | the pandas mean of finite values is their sum over their number |
| Numeric.NpMean | timeseries/src/autogluon/timeseries/evaluator.py:149 | numpy mean: NaN for no entries, or with a NaN, or with both infinities; +inf or -inf when only that infinity is present and no NaN; otherwise the sum over the number of entries |
| Numeric.MeanWithin | timeseries/src/autogluon/timeseries/evaluator.py:25 | a pandas mean of values in [lo, hi] is NaN or lies in [lo, hi] |
| Numeric.MeanNeverNegative | timeseries/src/autogluon/timeseries/evaluator.py:25 | a pandas mean of values that are never negative is never negative |
| Numeric.MeanIgnoresNaN | timeseries/src/autogluon/timeseries/evaluator.py:25 | two sequences with the same non-NaN entries have the same pandas mean |
| Numeric.MeanOfZeros | timeseries/src/autogluon/timeseries/evaluator.py:25 | the mean of zeros is zero |
| Numeric.NpSumNeverNegative | timeseries/src/autogluon/timeseries/evaluator.py:150-151 | a numpy sum of values that are never negative is never negative |
| Numeric.NpMeanNeverNegative | timeseries/src/autogluon/timeseries/evaluator.py:149 | a numpy mean of values that are never negative is never negative |
| Numeric.DivNeverNegative | timeseries/src/autogluon/timeseries/evaluator.py:133 | a quotient of values that are never negative is never negative |
| Grouping.GroupByIsGrouping | timeseries/src/autogluon/timeseries/evaluator.py:25 | `groupby(sort=False)`: one group per series present; every row's series has a group; groups are ordered by first appearance; each group holds exactly that series' values in row order |
| Grouping.GroupItemsDistinct | timeseries/src/autogluon/timeseries/evaluator.py:25 | no series has two groups |
| Grouping.GroupItemsByItems | timeseries/src/autogluon/timeseries/evaluator.py:30 | the groups and their order depend only on the series ids of the rows, not on the values |
| Grouping.FirstIndexIsFirst | timeseries/src/autogluon/timeseries/evaluator.py:25 | the first row of a series is the first row with that id, and exists exactly when the series does |
| Grouping.GroupBy | timeseries/src/autogluon/timeseries/evaluator.py:25 | at most one group per row, none exactly for no rows; the first group is the first row's series with all its values |
| Grouping.PerItemMean | timeseries/src/autogluon/timeseries/evaluator.py:25 | `groupby(...).mean()`: one entry per group, in group order, holding the pandas mean of that series' values |
| Grouping.MeanPerGroup | timeseries/src/autogluon/timeseries/evaluator.py:25 | one (series, mean of its values) entry per group, in group order |
| Grouping.GroupSizes | timeseries/src/autogluon/timeseries/evaluator.py:22 | `.size()`: one count per group, in group order; each count is at least 1 and is the number of rows of that series |
| Grouping.RunSplit | timeseries/src/autogluon/timeseries/evaluator.py:22 | on contiguous series, the groups are the first block of rows followed by the groups of the rest |
| Frames.GetColumn | timeseries/src/autogluon/timeseries/evaluator.py:124 | `frame[name]` exists exactly when a column has that name, and has one value per row |
| Frames.SeriesOf | timeseries/src/autogluon/timeseries/evaluator.py:194 | a column as a series keeps the frame's series ids row for row and holds that column's values row for row |
| Frames.SliceRows | timeseries/src/autogluon/timeseries/evaluator.py:219-220 | selecting rows keeps the frame well-formed and its column names, and selects the index alike |
| Frames.Cut | timeseries/src/autogluon/timeseries/evaluator.py:219-220 | a series of `n` rows is cut after `n - pl` rows when 0 < pl ≤ n, at 0 when pl ≥ n, and by Python slice rules when pl ≤ 0 |
| Frames.SelectCount | timeseries/src/autogluon/timeseries/evaluator.py:219-220 | a rank mask keeps the first `c` rows of every series, or all of them when it has fewer, and drops the rest |
| Frames.SplitSeries | timeseries/src/autogluon/timeseries/evaluator.py:219-220 | the past and future of a column are the rows the per-series mask keeps and drops |
| Frames.PastFutureSplit | timeseries/src/autogluon/timeseries/evaluator.py:217-222 | per series, the past is the values before the cut, the future the values from the cut on, and past followed by future is the whole series |
| Frames.FutureSeriesLength | timeseries/src/autogluon/timeseries/evaluator.py:220 | when every series has at least `pl > 0` rows, every series of the future has exactly `pl` rows |
| Frames.SelectContiguous | timeseries/src/autogluon/timeseries/evaluator.py:219-220 | selecting rows keeps every series in one block |
| Frames.PastOf | timeseries/src/autogluon/timeseries/evaluator.py:219 | the past of a frame is well-formed, has the same columns and keeps every series in one block |
| Frames.FutureOf | timeseries/src/autogluon/timeseries/evaluator.py:220 | the future of a frame is well-formed, has the same columns and keeps every series in one block |
| NaiveError.RawDiff | timeseries/src/autogluon/timeseries/evaluator.py:20 | `diff()`: NaN at the first row, then each value minus the previous row's value, whatever its series |
| NaiveError.Masked | timeseries/src/autogluon/timeseries/evaluator.py:24 | NaN at the given positions, the difference unchanged elsewhere |
| NaiveError.NaiveSpec | timeseries/src/autogluon/timeseries/evaluator.py:18-19 | reference definition: per series in first-appearance order, the mean absolute change between consecutive values of that series alone |
| NaiveError.AbsDiffs | timeseries/src/autogluon/timeseries/evaluator.py:20 | the absolute changes between consecutive values of one series, one fewer than the values |
| NaiveError.SeriesNaiveError | timeseries/src/autogluon/timeseries/evaluator.py:20-25 | a series of at most one value has naive-1 error NaN; a finite series of n ≥ 2 values has the sum of its absolute changes over n - 1 |
| NaiveError.NaiveScores | timeseries/src/autogluon/timeseries/evaluator.py:18-25 | one (series, naive-1 error of its values) entry per group, in group order |
| NaiveError.BoundaryMasked | timeseries/src/autogluon/timeseries/evaluator.py:21 | the difference to the previous row of the same series, NaN at the first row of every series |
| NaiveError.Cuts | timeseries/src/autogluon/timeseries/evaluator.py:23 | `cumsum()` without the last: no cut for at most one block; otherwise the first block's end is a cut |
| NaiveError.SumGroupSizes | timeseries/src/autogluon/timeseries/evaluator.py:22-23 | the group sizes add up to the number of rows |
| NaiveError.GroupSizesAreBlocks | timeseries/src/autogluon/timeseries/evaluator.py:22 | on contiguous series, the group sizes are the lengths of the row blocks |
| NaiveError.CutAt | timeseries/src/autogluon/timeseries/evaluator.py:23 | a row is a cumulative block length, without the last, exactly when its series id differs from the previous row's |
| NaiveError.MaskedIsBoundaryMasked | timeseries/src/autogluon/timeseries/evaluator.py:20-24 | on contiguous series, masking the raw difference at the cumulative sizes masks exactly the first row of every series: no difference crosses a boundary |
| NaiveError.BoundaryMaskedMeaning | timeseries/src/autogluon/timeseries/evaluator.py:25 | averaging the boundary-masked absolute differences per series gives the reference naive-1 error of every series |
| NaiveError.MaskedNaiveErrorsIsSpec | timeseries/src/autogluon/timeseries/evaluator.py:18-25 | on contiguous series, the masked computation equals the per-series reference naive-1 error |
| NaiveError.MaskedNaiveErrors | timeseries/src/autogluon/timeseries/evaluator.py:18-25 | one entry per series, in order of first appearance, never negative |
| NaiveError.InSampleNaive1Error | timeseries/src/autogluon/timeseries/evaluator.py:18-25 | writing NaN into the difference array at the cumulative sizes computes `MaskedNaiveErrors`; on contiguous series the result is the reference `NaiveSpec` |
| NaiveError.NaiveNeverNegative | timeseries/src/autogluon/timeseries/evaluator.py:25 | a series' naive-1 error is never negative |
| NaiveError.NaiveSingleValue | timeseries/src/autogluon/timeseries/evaluator.py:20-25 | a series with a single past value has naive-1 error NaN |
| NaiveError.NaiveConstant | timeseries/src/autogluon/timeseries/evaluator.py:20-25 | a constant finite series of two or more values has naive-1 error 0 |
| NaiveError.NaiveExample | timeseries/src/autogluon/timeseries/evaluator.py:20-25 | the series 1, 2, 3, 4 has naive-1 error 1 |
| PerItemMetrics.Pointwise | timeseries/src/autogluon/timeseries/evaluator.py:30 | the pointwise errors of two value sequences, pair by pair |
| PerItemMetrics.PointError | timeseries/src/autogluon/timeseries/evaluator.py:28-45 | on finite values: squared error (t - p)², absolute error abs(t - p), percentage error abs((t - p) / t) (NaN for 0/0, +inf for x/0), symmetric error 2·abs(t - p) / (abs(t) + abs(p)) (NaN when both are 0) |
| PerItemMetrics.Errors | timeseries/src/autogluon/timeseries/evaluator.py:30 | `e(y_true, y_pred)` keeps the series ids and holds each row's pointwise error |
| PerItemMetrics.ErrorsOfSeries | timeseries/src/autogluon/timeseries/evaluator.py:30 | the errors of one series are the pointwise errors of that series' true and predicted values alone |
| PerItemMetrics.MetricPerItem | timeseries/src/autogluon/timeseries/evaluator.py:28-45 | one score per series, in first-appearance order: the mean of that series' pointwise errors |
| PerItemMetrics.PointErrorNeverNegative | timeseries/src/autogluon/timeseries/evaluator.py:30-45 | every pointwise error (squared, absolute, percentage, symmetric) is never negative |
| PerItemMetrics.SymmetricErrorBounds | timeseries/src/autogluon/timeseries/evaluator.py:45 | the symmetric percentage error is NaN or lies in [0, 2] |
| PerItemMetrics.MsePerItem | timeseries/src/autogluon/timeseries/evaluator.py:28-30 | per series, the mean squared error; never negative |
| PerItemMetrics.MaePerItem | timeseries/src/autogluon/timeseries/evaluator.py:33-35 | per series, the mean absolute error; never negative |
| PerItemMetrics.MapePerItem | timeseries/src/autogluon/timeseries/evaluator.py:38-40 | per series, the mean absolute percentage error; never negative |
| PerItemMetrics.SymmetricMapePerItem | timeseries/src/autogluon/timeseries/evaluator.py:43-45 | per series, the symmetric MAPE; NaN or within [0, 2] |
| PerItemMetrics.PerfectForecastZeroError | timeseries/src/autogluon/timeseries/evaluator.py:28-35 | a finite forecast equal to the truth has per-series MSE and MAE 0 |
| PerItemMetrics.PerfectForecastPercentage | timeseries/src/autogluon/timeseries/evaluator.py:38-45 | forecasting the truth exactly gives percentage errors of 0, or NaN where the truth is 0 |
| PerItemMetrics.PointErrorExample | timeseries/src/autogluon/timeseries/evaluator.py:28-45 | truth 10, forecast 8: squared 4, absolute 2, percentage 0.2, symmetric 4/18 |
| WeightedQuantileLoss.ParseLevel | timeseries/src/autogluon/timeseries/evaluator.py:147 | `float(name)`: a parse error is `ValueError("could not convert string to float: '<name>'")` |
| WeightedQuantileLoss.ParseDecimal | timeseries/src/autogluon/timeseries/evaluator.py:147 | digits, a point and digits parse to that decimal fraction |
| WeightedQuantileLoss.ParseMedianLevel | timeseries/src/autogluon/timeseries/evaluator.py:147 | the column name "0.5" parses to 0.5 |
| WeightedQuantileLoss.ParseMeanFails | timeseries/src/autogluon/timeseries/evaluator.py:145-147 | "mean" is not a quantile level |
| WeightedQuantileLoss.PinballLoss | timeseries/src/autogluon/timeseries/evaluator.py:150 | `abs((t - p) * ((t <= p) - q))` is never negative |
| WeightedQuantileLoss.Indicator | timeseries/src/autogluon/timeseries/evaluator.py:150 | `(t <= p)` as a number: 1 exactly when true and 0 exactly when false |
| WeightedQuantileLoss.PinballLosses | timeseries/src/autogluon/timeseries/evaluator.py:150 | the pinball losses of truth and forecast, pair by pair |
| WeightedQuantileLoss.PinballMatchesReference | timeseries/src/autogluon/timeseries/evaluator.py:150 | for q in [0, 1] the loss above equals the textbook quantile loss: q·u when u = t - p ≥ 0, (q - 1)·u otherwise |
| WeightedQuantileLoss.ColumnLoss | timeseries/src/autogluon/timeseries/evaluator.py:150 | the summed pinball loss of a column is never negative; on finite values with q in [0, 1] it is the sum of the textbook quantile losses |
| WeightedQuantileLoss.PinballSumIsReference | timeseries/src/autogluon/timeseries/evaluator.py:150 | on finite values with q in [0, 1], numpy's sum of the pinball losses is the sum of the textbook quantile losses |
| WeightedQuantileLoss.QuantileColumns | timeseries/src/autogluon/timeseries/evaluator.py:145 | the quantile columns are exactly the columns not named "mean"; a single column is kept exactly when it is not named "mean" |
| WeightedQuantileLoss.QuantileColumnsConcat | timeseries/src/autogluon/timeseries/evaluator.py:145 | selecting the quantile columns distributes over concatenation, so they stay in column order |
| WeightedQuantileLoss.ParsedLevels | timeseries/src/autogluon/timeseries/evaluator.py:147 | one parse per column name, in column order |
| WeightedQuantileLoss.Levels | timeseries/src/autogluon/timeseries/evaluator.py:147 | all levels, in column order, exactly when every name parses; otherwise the error of the first name that does not parse |
| WeightedQuantileLoss.ScaledLosses | timeseries/src/autogluon/timeseries/evaluator.py:150-151 | each column's summed loss divided by the summed absolute truth |
| WeightedQuantileLoss.ScaledLossesAreReference | timeseries/src/autogluon/timeseries/evaluator.py:150-151 | with a positive scale, finite values and levels in [0, 1] the scaled losses are finite and add up to the reference weighted loss sum |
| WeightedQuantileLoss.ScaledMeanClosedForm | timeseries/src/autogluon/timeseries/evaluator.py:149-151 | with a positive absolute sum of the truth, the numpy mean of the scaled losses is the reference weighted loss sum over the number of columns |
| WeightedQuantileLoss.ScaledMeanZeroScale | timeseries/src/autogluon/timeseries/evaluator.py:149-151 | with finite truth whose absolute sum is 0, the numpy mean of the scaled losses is NaN or +inf |
| WeightedQuantileLoss.TwiceMeanScaledLoss | timeseries/src/autogluon/timeseries/evaluator.py:149-152 | never negative; NaN without quantile columns; with finite truth whose absolute sum is 0 it is NaN or +inf; with finite truth and forecasts, levels in [0, 1] and a positive absolute sum, it is 2 × (sum over columns of the summed quantile loss over the absolute sum of the truth) / number of columns |
| WeightedQuantileLoss.MeanWeightedQuantileLoss | timeseries/src/autogluon/timeseries/evaluator.py:143-152 | succeeds exactly when every non-"mean" column name is a number; otherwise raises the `ValueError` of the first name that is not; on success the value is twice the mean scaled loss of the quantile columns at their parsed levels, never negative, and NaN without quantile columns |
| WeightedQuantileLoss.PerfectColumn | timeseries/src/autogluon/timeseries/evaluator.py:150 | a column equal to the finite truth has summed loss 0 |
| WeightedQuantileLoss.PerfectQuantileForecast | timeseries/src/autogluon/timeseries/evaluator.py:143-152 | quantile columns all equal to the finite, not all zero, truth give loss 0 |
| WeightedQuantileLoss.WQuantileLossExample | timeseries/src/autogluon/timeseries/evaluator.py:143-152 | truth 10 and median forecast 8, beside a "mean" column that plays no part, give loss 0.2 |
| Evaluator.Finite | timeseries/src/autogluon/timeseries/evaluator.py:121 | keeps exactly the finite entries and their sum; empty exactly when no entry is finite; a single entry is kept exactly when it is finite |
| Evaluator.FiniteConcat | timeseries/src/autogluon/timeseries/evaluator.py:121 | keeping the finite entries distributes over concatenation, so they stay in their order |
| Evaluator.SafeMean | timeseries/src/autogluon/timeseries/evaluator.py:120-121 | `_safemean` is NaN exactly when no entry is finite, and otherwise the average of the finite entries |
| Evaluator.SafeMeanIgnoresNonFinite | timeseries/src/autogluon/timeseries/evaluator.py:121 | replacing a non-finite entry by another non-finite value never changes the safe mean |
| Evaluator.SafeMeanIgnoresNonFiniteTail | timeseries/src/autogluon/timeseries/evaluator.py:121 | appending non-finite entries never changes the safe mean |
| Evaluator.SafeMeanWithin | timeseries/src/autogluon/timeseries/evaluator.py:120-121 | when every finite entry lies in [lo, hi], the safe mean is NaN or in [lo, hi] |
| Evaluator.SafeMeanNeverNegative | timeseries/src/autogluon/timeseries/evaluator.py:120-121 | the safe mean of values that are never negative is never negative |
| Evaluator.MedianForecast | timeseries/src/autogluon/timeseries/evaluator.py:154-160 | the "0.5" column when present, else the "mean" column, else `KeyError("mean")` |
| Evaluator.MseValue | timeseries/src/autogluon/timeseries/evaluator.py:123-125 | succeeds exactly when a "mean" column exists (else `KeyError("mean")`); the value is the safe mean of the per-item MSE of the "mean" forecast, never negative and not +inf |
| Evaluator.Lookup | timeseries/src/autogluon/timeseries/evaluator.py:133 | the cached naive-1 error of a series, or NaN when the cache has none for it |
| Evaluator.Unmatched | timeseries/src/autogluon/timeseries/evaluator.py:133 | one NaN for each cached series without a score, none exactly when every cached series is scored |
| Evaluator.ScaledErrors | timeseries/src/autogluon/timeseries/evaluator.py:133 | `mae / naive` aligned on series: per series with an MAE, that MAE over its cached error; NaN for every cached series without one |
| Evaluator.MaseValue | timeseries/src/autogluon/timeseries/evaluator.py:130-133 | the safe mean of each series' MAE over its cached naive-1 error; the unmatched series change nothing; never negative when the cache is not |
| Evaluator.MapeValue | timeseries/src/autogluon/timeseries/evaluator.py:135-137 | the safe mean of the per-item MAPE; never negative and not +inf |
| Evaluator.SmapeValue | timeseries/src/autogluon/timeseries/evaluator.py:139-141 | the safe mean of the per-item sMAPE; NaN or within [0, 2] |
| Evaluator.MedianMetricValue | timeseries/src/autogluon/timeseries/evaluator.py:130-141 | MASE, MAPE and sMAPE succeed exactly when a median or mean forecast exists, else `KeyError("mean")`; the value is the MASE, MAPE or sMAPE value of the forecast `_get_median_forecast` chooses; sMAPE lies in [0, 2] or is NaN; the value is never negative when the cache is not |
| Evaluator.MetricValue | timeseries/src/autogluon/timeseries/evaluator.py:123-152 | dispatch on the metric: MSE/RMSE succeed exactly with a "mean" column, MASE/MAPE/sMAPE exactly with a "0.5" or "mean" column, wQL exactly when the quantile names parse; errors are `KeyError("mean")` or `ValueError`; only RMSE is a root; the value is the one `MseValue`, `MeanWeightedQuantileLoss` or `MedianMetricValue` computes; never negative given a non-negative cache |
| Evaluator.MseScore | timeseries/src/autogluon/timeseries/evaluator.py:123-128 | MSE and RMSE as a score keep every promise of the metric method |
| Evaluator.WQuantileLossScore | timeseries/src/autogluon/timeseries/evaluator.py:143-152 | the weighted quantile loss as a score keeps every promise of the metric method |
| Evaluator.MedianScore | timeseries/src/autogluon/timeseries/evaluator.py:130-141 | MASE, MAPE and sMAPE as a score keep every promise of the metric method |
| Evaluator.RmseIsRootOfMse | timeseries/src/autogluon/timeseries/evaluator.py:127-128 | RMSE fails exactly like MSE, and otherwise is the square root of MSE's value |
| Evaluator.ScoreOutcome | timeseries/src/autogluon/timeseries/evaluator.py:196-215 | the checks in order: wrong horizon length ⇒ `AssertionError`; empty cache ⇒ `AssertionError("Call save_past_metrics before …")`; different indices ⇒ `AssertionError("Prediction and data indices do not match.")`; no target column ⇒ `KeyError`; otherwise the metric's value |
| Evaluator.HorizonPassesChecks | timeseries/src/autogluon/timeseries/evaluator.py:204-222 | the future of data whose series are all long enough, with predictions on its index, passes all three assertions and is scored |
| Evaluator.TimeSeriesEvaluator.constructor | timeseries/src/autogluon/timeseries/evaluator.py:102-110 | stores the metric, horizon and target column; the cache starts empty |
| Evaluator.TimeSeriesEvaluator.Create | timeseries/src/autogluon/timeseries/evaluator.py:102-110 | fails with `AssertionError("Metric X not available")` exactly for an unregistered name; otherwise a fresh evaluator for that metric with an empty cache |
| Evaluator.TimeSeriesEvaluator.Coefficient | timeseries/src/autogluon/timeseries/evaluator.py:112-114 | the evaluator's coefficient is -1, the one registered for every metric |
| Evaluator.TimeSeriesEvaluator.HigherIsBetter | timeseries/src/autogluon/timeseries/evaluator.py:116-118 | `higher_is_better` is false for every evaluator |
| Evaluator.TimeSeriesEvaluator.SavePastMetrics | timeseries/src/autogluon/timeseries/evaluator.py:193-194 | caches the naive-1 error of the target column, replacing any earlier cache; `KeyError` and no change without the column; the cache stays non-negative |
| Evaluator.TimeSeriesEvaluator.ScoreWithSavedPastMetrics | timeseries/src/autogluon/timeseries/evaluator.py:196-215 | the result is `ScoreOutcome` of the current state; every score is never negative |
| Evaluator.TimeSeriesEvaluator.Call | timeseries/src/autogluon/timeseries/evaluator.py:217-222 | without the target column raises `KeyError` and keeps the cache; otherwise caches the naive-1 error of the per-series past and returns the score of the per-series future with that cache; when every series is one block of rows the cache is the reference naive-1 error of each series' past |

## Left out

- Floating point is modelled as extended reals, so these are not modelled:
  - rounding;
  - signed zero: a zero divisor is taken as +0;
  - overflow to infinity.
- `np.sqrt` in `_rmse` is kept symbolic: RMSE is `RootOf(v)` where `v` is the MSE value.
- `ParseLevel`: parses only decimal notation (optional sign, digits, one point). Python's
  `float` also accepts:
  - exponents;
  - `inf` and `nan`;
  - surrounding whitespace;
  - underscores.

  Those column names are treated as parse errors.
- `slice_by_timestep` is not part of this model. The past and the future use Python's
  slice rules per series (`[:-pl]` and `[-pl:]`), which is what `__call__` relies on.
- pandas alignment is modelled only as far as the evaluator uses it:
  - the per-item metrics require the truth and the forecast to share their series ids row
    by row, which the index-equality assertion guarantees;
  - column names are looked up by first match.
- `Evaluator.MaseValue`: does not model the order of the union index produced by
  `mae / past_naive_1_error`. Series that are missing on either side only add NaN entries,
  which the safe mean drops.
- `NaiveError.InSampleNaive1Error`: its equality with the per-series reference is stated
  for contiguous series only (every series one block of rows). The positional `cumsum`
  trick depends on that; on other inputs it is stated as the masked computation itself.
- An `assert` without a message is modelled as `AssertionError("")`.
- A `KeyError` carries the missing key without Python's quotes.
- Not modelled:
  - logging (`logger.warning` in `_get_median_forecast`);
  - the warning filters in `score_with_saved_past_metrics`;
  - dynamic attribute lookup of the metric method, which is a match over `Metric` here.
- `multimodal/src/autogluon/multimodal/utils/export.py` is not part of this model. It
  exports neural networks through PyTorch and ONNX and writes to the file system.
- The parity tests that train DeepAR and compare against GluonTS are not modelled.
  External training and an external library cannot be expressed here.
