/**
 * `TimeSeriesEvaluator`: scores a forecast against the truth with one of the registered
 * metrics. Scoring is two-phase: the in-sample naive-1 error of the past part of every
 * series is computed and cached first, then the future part is scored against the
 * predictions, after checking that the predictions cover `prediction_length` rows of
 * every series, that the cache is filled and that the two indices agree.
 */
module Evaluator {
  import opened Wrappers
  import opened Numeric
  import opened Grouping
  import opened Frames
  import opened NaiveError
  import opened PerItemMetrics
  import opened MetricRegistry
  import opened WeightedQuantileLoss

  // ---------------------------------------------------------------- the safe mean

  /** The finite entries of `s`, in order. */
  function Finite(s: seq<Num>): (t: seq<Num>)
    ensures |t| <= |s|
    ensures forall i :: 0 <= i < |t| ==> t[i].Fin? && t[i] in s
    ensures t == [] <==> forall i :: 0 <= i < |s| ==> !s[i].Fin?
    ensures FinSum(t) == FinSum(s)
    ensures |s| == 1 ==> t == if s[0].Fin? then s else []
  {
    if s == [] then []
    else
      assert s == [s[0]] + s[1..];
      var rest := Finite(s[1..]);
      if s[0].Fin? then
        var t := [s[0]] + rest;
        assert t[0] == s[0] && t[1..] == rest;
        t
      else
        rest
  }

  /** Keeping the finite entries distributes over concatenation: it keeps their order and count. */
  lemma {:induction false} FiniteConcat(a: seq<Num>, b: seq<Num>)
    ensures Finite(a + b) == Finite(a) + Finite(b)
  {
    if a == [] {
      assert a + b == b;
    } else {
      assert (a + b)[0] == a[0] && (a + b)[1..] == a[1..] + b;
      FiniteConcat(a[1..], b);
    }
  }

  /**
   * `_safemean`: infinities and NaN are dropped and the rest averaged. The result is NaN
   * exactly when no entry is finite, and otherwise the average of the finite entries.
   */
  function SafeMean(s: seq<Num>): (r: Num)
    ensures r.NaN? || r.Fin?
    ensures r.NaN? <==> forall i :: 0 <= i < |s| ==> !s[i].Fin?
    ensures r.Fin? ==> |Finite(s)| > 0 && r.r == FinSum(s) / (|Finite(s)| as real)
  {
    var t := Finite(s);
    DropNaNOfNumbers(t);
    assert PosInf !in t && NegInf !in t;
    Mean(t)
  }

  /** A non-finite entry never affects the safe mean: replacing it by another changes nothing. */
  lemma {:induction false} SafeMeanIgnoresNonFinite(s: seq<Num>, i: nat, a: Num)
    requires i < |s| && !s[i].Fin? && !a.Fin?
    ensures SafeMean(s[i := a]) == SafeMean(s)
  {
    FiniteReplace(s, i, a);
  }

  lemma {:induction false} FiniteReplace(s: seq<Num>, i: nat, a: Num)
    requires i < |s| && !s[i].Fin? && !a.Fin?
    ensures Finite(s[i := a]) == Finite(s)
  {
    if i > 0 {
      assert s[i := a][1..] == s[1..][i - 1 := a];
      FiniteReplace(s[1..], i - 1, a);
    } else {
      assert s[i := a][1..] == s[1..];
    }
  }

  /** Non-finite entries appended to a sequence never affect its safe mean. */
  lemma {:induction false} SafeMeanIgnoresNonFiniteTail(s: seq<Num>, tail: seq<Num>)
    requires forall i :: 0 <= i < |tail| ==> !tail[i].Fin?
    ensures SafeMean(s + tail) == SafeMean(s)
  {
    FiniteAppend(s, tail);
  }

  lemma {:induction false} FiniteAppend(s: seq<Num>, tail: seq<Num>)
    requires forall i :: 0 <= i < |tail| ==> !tail[i].Fin?
    ensures Finite(s + tail) == Finite(s)
  {
    if s == [] {
      assert s + tail == tail;
    } else {
      assert (s + tail)[0] == s[0] && (s + tail)[1..] == s[1..] + tail;
      FiniteAppend(s[1..], tail);
    }
  }

  /** When every finite entry lies in [lo, hi], so does the safe mean, unless it is NaN. */
  lemma {:induction false} SafeMeanWithin(s: seq<Num>, lo: real, hi: real)
    requires forall i :: 0 <= i < |s| && s[i].Fin? ==> lo <= s[i].r <= hi
    ensures SafeMean(s).NaN? || lo <= SafeMean(s).r <= hi
  {
    var t := Finite(s);
    forall i | 0 <= i < |t| ensures t[i].Fin? && lo <= t[i].r <= hi {
      assert t[i] in s;
    }
    DropNaNOfNumbers(t);
    MeanWithin(t, lo, hi);
  }

  /** The safe mean of values that are never negative is NaN or a finite value at least 0. */
  lemma {:induction false} SafeMeanNeverNegative(s: seq<Num>)
    requires forall i :: 0 <= i < |s| ==> NeverNegative(s[i])
    ensures NeverNegative(SafeMean(s))
  {
    var t := Finite(s);
    forall i | 0 <= i < |t| ensures NeverNegative(t[i]) {
      assert t[i] in s;
    }
    DropNaNOfNumbers(t);
    MeanNeverNegative(t);
  }

  // ---------------------------------------------------------------- forecasts and per-item scores

  /**
   * `_get_median_forecast`: the "0.5" column when the predictions have one, otherwise the
   * "mean" column, otherwise `KeyError("mean")`.
   */
  function MedianForecast(predictions: Frame): (r: Result<seq<Num>>)
    requires WellFormed(predictions)
    ensures r.Ok? <==> "0.5" in Names(predictions.columns) || "mean" in Names(predictions.columns)
    ensures r.Ok? ==> |r.value| == |predictions.index|
    ensures r.Err? ==> r.error == KeyError("mean")
    ensures "0.5" in Names(predictions.columns) ==> r == Ok(GetColumn(predictions, "0.5").value)
    ensures "0.5" !in Names(predictions.columns) && r.Ok? ==> r == Ok(GetColumn(predictions, "mean").value)
  {
    match GetColumn(predictions, "0.5")
    case Some(median) => Ok(median)
    case None =>
      match GetColumn(predictions, "mean")
      case Some(mean) => Ok(mean)
      case None => Err(KeyError("mean"))
  }

  /** The per-item scores, in the order of the per-item result. */
  function Scores(r: seq<ItemScore>): (s: seq<Num>)
    ensures |s| == |r| && forall k :: 0 <= k < |r| ==> s[k] == r[k].score
  {
    seq(|r|, k requires 0 <= k < |r| => r[k].score)
  }

  function ScoreItems(r: seq<ItemScore>): (xs: seq<ItemId>)
    ensures |xs| == |r| && forall k :: 0 <= k < |r| ==> xs[k] == r[k].item
  {
    seq(|r|, k requires 0 <= k < |r| => r[k].item)
  }

  /** The forecast column as a series over the predictions' rows. */
  function ForecastSeries(index: seq<Key>, values: seq<Num>, yTrue: seq<Obs>): (s: seq<Obs>)
    requires |values| == |index| && KeyItems(index) == ItemsOf(yTrue)
    ensures ItemsOf(s) == ItemsOf(yTrue)
  {
    var s := Zip(index, values);
    assert ItemsOf(s) == KeyItems(index);
    s
  }

  /** `_mse`: the safe mean of the per-item MSE against the "mean" column, `KeyError("mean")` without one. */
  function MseValue(yTrue: seq<Obs>, predictions: Frame): (r: Result<Num>)
    requires WellFormed(predictions) && KeyItems(predictions.index) == ItemsOf(yTrue)
    ensures r.Ok? <==> "mean" in Names(predictions.columns)
    ensures r.Err? ==> r.error == KeyError("mean")
    ensures r.Ok? ==> NeverNegative(r.value) && !r.value.PosInf?
    ensures r.Ok? ==> r.value == SafeMean(Scores(MsePerItem(yTrue,
                        ForecastSeries(predictions.index, GetColumn(predictions, "mean").value, yTrue))))
  {
    match GetColumn(predictions, "mean")
    case None => Err(KeyError("mean"))
    case Some(mean) =>
      var per := MsePerItem(yTrue, ForecastSeries(predictions.index, mean, yTrue));
      SafeMeanNeverNegative(Scores(per));
      Ok(SafeMean(Scores(per)))
  }

  /** The past naive-1 error of series `x`, NaN when the cache has no entry for it. */
  function Lookup(naive: seq<ItemScore>, x: ItemId): (v: Num)
    ensures v.NaN? || exists k :: 0 <= k < |naive| && naive[k].item == x && naive[k].score == v
    ensures (forall k :: 0 <= k < |naive| ==> naive[k].item != x) ==> v.NaN?
  {
    if naive == [] then NaN
    else if naive[0].item == x then naive[0].score
    else
      var v := Lookup(naive[1..], x);
      assert v.NaN? || exists k :: 0 < k < |naive| && naive[k].item == x && naive[k].score == v by {
        if !v.NaN? {
          var k :| 0 <= k < |naive[1..]| && naive[1..][k].item == x && naive[1..][k].score == v;
          assert naive[k + 1] == naive[1..][k];
        }
      }
      v
  }

  /** NaN for every cached series that has no per-item error. */
  function Unmatched(naive: seq<ItemScore>, items: seq<ItemId>): (s: seq<Num>)
    ensures forall i :: 0 <= i < |s| ==> s[i].NaN?
    ensures |s| <= |naive|
    ensures (forall k :: 0 <= k < |naive| ==> naive[k].item in items) <==> s == []
  {
    if naive == [] then []
    else (if naive[0].item in items then [] else [NaN]) + Unmatched(naive[1..], items)
  }

  /**
   * `mae / past_naive_1_error`, aligned on the series: for every series with a per-item
   * error, that error over the series' cached naive-1 error (NaN when there is none),
   * followed by NaN for every cached series without a per-item error.
   */
  function ScaledErrors(mae: seq<ItemScore>, naive: seq<ItemScore>): (s: seq<Num>)
    ensures |s| >= |mae|
    ensures forall k :: 0 <= k < |mae| ==> s[k] == Div(mae[k].score, Lookup(naive, mae[k].item))
    ensures forall k :: |mae| <= k < |s| ==> s[k].NaN?
  {
    seq(|mae|, k requires 0 <= k < |mae| => Div(mae[k].score, Lookup(naive, mae[k].item)))
      + Unmatched(naive, ScoreItems(mae))
  }

  /**
   * `_mase`: the safe mean of the per-item MAE of the median forecast over the cached
   * per-item naive-1 error. The series missing on either side add only NaN, which the safe
   * mean drops, so it is the safe mean over the series with a per-item error alone.
   */
  function MaseValue(yTrue: seq<Obs>, yPred: seq<Obs>, naive: seq<ItemScore>): (r: Num)
    requires ItemsOf(yPred) == ItemsOf(yTrue)
    ensures r.NaN? || r.Fin?
    ensures (forall k :: 0 <= k < |naive| ==> NeverNegative(naive[k].score)) ==> NeverNegative(r)
    ensures var mae := MaePerItem(yTrue, yPred);
      r == SafeMean(seq(|mae|, k requires 0 <= k < |mae| => Div(mae[k].score, Lookup(naive, mae[k].item))))
  {
    var mae := MaePerItem(yTrue, yPred);
    var s := ScaledErrors(mae, naive);
    var matched := seq(|mae|, k requires 0 <= k < |mae| => Div(mae[k].score, Lookup(naive, mae[k].item)));
    assert s == matched + s[|mae|..];
    SafeMeanIgnoresNonFiniteTail(matched, s[|mae|..]);
    ScaledMeanNeverNegative(mae, naive);
    SafeMean(s)
  }

  lemma {:induction false} ScaledMeanNeverNegative(mae: seq<ItemScore>, naive: seq<ItemScore>)
    requires forall k :: 0 <= k < |mae| ==> NeverNegative(mae[k].score)
    ensures (forall k :: 0 <= k < |naive| ==> NeverNegative(naive[k].score)) ==>
              NeverNegative(SafeMean(ScaledErrors(mae, naive)))
  {
    var s := ScaledErrors(mae, naive);
    if forall k :: 0 <= k < |naive| ==> NeverNegative(naive[k].score) {
      forall k | 0 <= k < |s| ensures NeverNegative(s[k]) {
        if k < |mae| {
          DivNeverNegative(mae[k].score, Lookup(naive, mae[k].item));
        }
      }
      SafeMeanNeverNegative(s);
    }
  }

  /** `_mape`: the safe mean of the per-item MAPE; never negative. */
  function MapeValue(yTrue: seq<Obs>, yPred: seq<Obs>): (r: Num)
    requires ItemsOf(yPred) == ItemsOf(yTrue)
    ensures NeverNegative(r) && !r.PosInf?
    ensures r == SafeMean(Scores(MapePerItem(yTrue, yPred)))
  {
    var s := Scores(MapePerItem(yTrue, yPred));
    SafeMeanNeverNegative(s);
    SafeMean(s)
  }

  /** `_smape`: the safe mean of the per-item sMAPE; NaN or within [0, 2]. */
  function SmapeValue(yTrue: seq<Obs>, yPred: seq<Obs>): (r: Num)
    requires ItemsOf(yPred) == ItemsOf(yTrue)
    ensures r.NaN? || (r.Fin? && 0.0 <= r.r <= 2.0)
    ensures r == SafeMean(Scores(SymmetricMapePerItem(yTrue, yPred)))
  {
    var s := Scores(SymmetricMapePerItem(yTrue, yPred));
    SafeMeanWithin(s, 0.0, 2.0);
    SafeMean(s)
  }

  // ---------------------------------------------------------------- dispatch

  /** A metric value; RMSE is kept as the square root of its mean squared error, unevaluated. */
  datatype Score = Value(v: Num) | RootOf(v: Num)

  /** The metrics that score the median forecast. */
  predicate UsesMedian(m: Metric) {
    m == MASE || m == MAPE || m == SMAPE
  }

  /** `_mase`, `_mape` and `_smape`: the metric of the median forecast. */
  function MedianMetricValue(m: Metric, yTrue: seq<Obs>, predictions: Frame, naive: seq<ItemScore>): (r: Result<Num>)
    requires UsesMedian(m)
    requires WellFormed(predictions) && KeyItems(predictions.index) == ItemsOf(yTrue)
    ensures r.Ok? <==> "0.5" in Names(predictions.columns) || "mean" in Names(predictions.columns)
    ensures r.Err? ==> r.error == KeyError("mean")
    ensures r.Ok? && m == SMAPE ==> r.value.NaN? || (r.value.Fin? && 0.0 <= r.value.r <= 2.0)
    ensures r.Ok? && (m != MASE || forall k :: 0 <= k < |naive| ==> NeverNegative(naive[k].score)) ==>
              NeverNegative(r.value)
    ensures r.Ok? ==> MedianForecast(predictions).Ok?
    ensures r.Ok? ==>
      (var yPred := ForecastSeries(predictions.index, MedianForecast(predictions).value, yTrue);
       r.value == if m == MASE then MaseValue(yTrue, yPred, naive)
                  else if m == MAPE then MapeValue(yTrue, yPred)
                  else SmapeValue(yTrue, yPred))
  {
    var median := MedianForecast(predictions);
    if median.Err? then Err(median.error)
    else
      var yPred := ForecastSeries(predictions.index, median.value, yTrue);
      if m == MASE then Ok(MaseValue(yTrue, yPred, naive))
      else if m == MAPE then Ok(MapeValue(yTrue, yPred))
      else Ok(SmapeValue(yTrue, yPred))
  }

  /**
   * What the metric method for `m` promises: which metrics succeed on which forecasts, which
   * error each raises otherwise, the range of the value, and that the value is the one the
   * metric's own method computes.
   */
  predicate MetricOutcome(m: Metric, yTrue: seq<Obs>, predictions: Frame, naive: seq<ItemScore>, r: Result<Score>)
    requires WellFormed(predictions) && KeyItems(predictions.index) == ItemsOf(yTrue)
  {
    && (r.Ok? ==> (r.value.RootOf? <==> m == RMSE))
    && ((m == MSE || m == RMSE) ==> (r.Ok? <==> "mean" in Names(predictions.columns)))
    && (UsesMedian(m) ==> (r.Ok? <==> "0.5" in Names(predictions.columns) || "mean" in Names(predictions.columns)))
    && (m == MeanWQuantileLoss ==> (r.Ok? <==> AllLevelsParse(QuantileColumns(predictions.columns))))
    && (r.Err? ==> r.error == KeyError("mean") || r.error.ValueError?)
    && (r.Ok? && m == SMAPE ==> r.value.v.NaN? || (r.value.v.Fin? && 0.0 <= r.value.v.r <= 2.0))
    && (r.Ok? && (m != MASE || forall k :: 0 <= k < |naive| ==> NeverNegative(naive[k].score)) ==>
          NeverNegative(r.value.v))
    && ((m == MSE || m == RMSE) && r.Ok? ==> MseValue(yTrue, predictions) == Ok(r.value.v))
    && (m == MeanWQuantileLoss && r.Ok? ==> MeanWeightedQuantileLoss(Values(yTrue), predictions) == Ok(r.value.v))
    && (UsesMedian(m) && r.Ok? ==> MedianMetricValue(m, yTrue, predictions, naive) == Ok(r.value.v))
  }

  /** MSE and RMSE as a score: RMSE keeps the mean squared error under an unevaluated root. */
  function MseScore(m: Metric, yTrue: seq<Obs>, predictions: Frame, naive: seq<ItemScore>): (r: Result<Score>)
    requires m == MSE || m == RMSE
    requires WellFormed(predictions) && KeyItems(predictions.index) == ItemsOf(yTrue)
    ensures MetricOutcome(m, yTrue, predictions, naive, r)
  {
    match MseValue(yTrue, predictions)
    case Err(e) => Err(e)
    case Ok(v) => if m == RMSE then Ok(RootOf(v)) else Ok(Value(v))
  }

  /** The mean weighted quantile loss as a score. */
  function WQuantileLossScore(m: Metric, yTrue: seq<Obs>, predictions: Frame, naive: seq<ItemScore>): (r: Result<Score>)
    requires m == MeanWQuantileLoss
    requires WellFormed(predictions) && KeyItems(predictions.index) == ItemsOf(yTrue)
    ensures MetricOutcome(m, yTrue, predictions, naive, r)
  {
    match MeanWeightedQuantileLoss(Values(yTrue), predictions)
    case Err(e) => Err(e)
    case Ok(v) => Ok(Value(v))
  }

  /** MASE, MAPE and sMAPE as a score. */
  function MedianScore(m: Metric, yTrue: seq<Obs>, predictions: Frame, naive: seq<ItemScore>): (r: Result<Score>)
    requires UsesMedian(m)
    requires WellFormed(predictions) && KeyItems(predictions.index) == ItemsOf(yTrue)
    ensures MetricOutcome(m, yTrue, predictions, naive, r)
  {
    match MedianMetricValue(m, yTrue, predictions, naive)
    case Err(e) => Err(e)
    case Ok(v) => Ok(Value(v))
  }

  /** The metric method for `m`, once the indices are known to agree. */
  function MetricValue(m: Metric, yTrue: seq<Obs>, predictions: Frame, naive: seq<ItemScore>): (r: Result<Score>)
    requires WellFormed(predictions) && KeyItems(predictions.index) == ItemsOf(yTrue)
    ensures MetricOutcome(m, yTrue, predictions, naive, r)
  {
    if m == MSE || m == RMSE then MseScore(m, yTrue, predictions, naive)
    else if m == MeanWQuantileLoss then WQuantileLossScore(m, yTrue, predictions, naive)
    else MedianScore(m, yTrue, predictions, naive)
  }

  /** RMSE is the square root of MSE: both fail alike and RMSE keeps MSE's value under the root. */
  lemma {:induction false} RmseIsRootOfMse(yTrue: seq<Obs>, predictions: Frame, naive: seq<ItemScore>)
    requires WellFormed(predictions) && KeyItems(predictions.index) == ItemsOf(yTrue)
    ensures var mse := MetricValue(MSE, yTrue, predictions, naive);
      var rmse := MetricValue(RMSE, yTrue, predictions, naive);
      (mse.Err? ==> rmse == mse) && (mse.Ok? ==> rmse == Ok(RootOf(mse.value.v)))
  {
  }

  // ---------------------------------------------------------------- scoring

  const NotCachedMessage: string := "Call save_past_metrics before score_with_saved_past_metrics"
  const IndexMismatchMessage: string := "Prediction and data indices do not match."

  /**
   * `score_with_saved_past_metrics`, as a function of the evaluator's state: the three
   * assertions in order (every predicted series has `prediction_length` rows, the cache is
   * filled, the future index equals the prediction index), then `KeyError` for a missing
   * target column, then the metric.
   */
  function ScoreOutcome(m: Metric, predictionLength: int, target: string, cache: Option<seq<ItemScore>>,
                        dataFuture: Frame, predictions: Frame): (r: Result<Score>)
    requires WellFormed(dataFuture) && WellFormed(predictions)
    ensures r.Ok? ==> AllSeriesHaveLength(predictions.index, predictionLength) && cache.Some?
                      && dataFuture.index == predictions.index && target in Names(dataFuture.columns)
    ensures !AllSeriesHaveLength(predictions.index, predictionLength) ==> r == Err(AssertionError(""))
    ensures AllSeriesHaveLength(predictions.index, predictionLength) && cache.None? ==>
              r == Err(AssertionError(NotCachedMessage))
    ensures AllSeriesHaveLength(predictions.index, predictionLength) && cache.Some? && dataFuture.index != predictions.index ==>
              r == Err(AssertionError(IndexMismatchMessage))
    ensures AllSeriesHaveLength(predictions.index, predictionLength) && cache.Some? && dataFuture.index == predictions.index ==>
              if target !in Names(dataFuture.columns) then r == Err(KeyError(target))
              else r == MetricValue(m, SeriesOf(dataFuture, target), predictions, cache.value)
  {
    if !AllSeriesHaveLength(predictions.index, predictionLength) then Err(AssertionError(""))
    else if cache.None? then Err(AssertionError(NotCachedMessage))
    else if dataFuture.index != predictions.index then Err(AssertionError(IndexMismatchMessage))
    else if target !in Names(dataFuture.columns) then Err(KeyError(target))
    else MetricValue(m, SeriesOf(dataFuture, target), predictions, cache.value)
  }

  /**
   * When every series of the data has at least `prediction_length > 0` rows and the predictions
   * are indexed like the last `prediction_length` rows of every series, the three assertions
   * of scoring hold for the future part and the metric is computed.
   */
  lemma {:induction false} HorizonPassesChecks(m: Metric, predictionLength: int, target: string, cache: seq<ItemScore>,
                                               data: Frame, predictions: Frame)
    requires WellFormed(data) && WellFormed(predictions) && predictionLength > 0
    requires forall i :: 0 <= i < |data.index| ==> Count(KeyItems(data.index), data.index[i].item) >= predictionLength
    requires predictions.index == FutureOf(data, predictionLength).index
    requires target in Names(data.columns)
    ensures var future := FutureOf(data, predictionLength);
      ScoreOutcome(m, predictionLength, target, Some(cache), future, predictions)
        == MetricValue(m, SeriesOf(future, target), predictions, cache)
  {
    FutureSeriesLength(data, predictionLength);
  }

  // ---------------------------------------------------------------- the evaluator

  class TimeSeriesEvaluator {
    const evalMetric: Metric
    const predictionLength: int
    const targetColumn: string
    /** The cached per-item in-sample naive-1 error of the past data, `None` until saved. */
    var pastNaive1Error: Option<seq<ItemScore>>

    /** A cached naive-1 error is a per-item mean of absolute values: never negative. */
    ghost predicate Valid()
      reads this
    {
      pastNaive1Error.Some? ==>
        forall k :: 0 <= k < |pastNaive1Error.value| ==> NeverNegative(pastNaive1Error.value[k].score)
    }

    /** An evaluator for a registered metric, with nothing cached yet. */
    constructor(evalMetric: Metric, predictionLength: int, targetColumn: string)
      ensures this.evalMetric == evalMetric && this.predictionLength == predictionLength
      ensures this.targetColumn == targetColumn
      ensures pastNaive1Error == None && Valid()
    {
      this.evalMetric := evalMetric;
      this.predictionLength := predictionLength;
      this.targetColumn := targetColumn;
      this.pastNaive1Error := None;
    }

    /** `TimeSeriesEvaluator(eval_metric, ...)`: fails its assertion for a name that is not registered. */
    static method Create(evalMetric: string, predictionLength: int, targetColumn: string)
      returns (r: Result<TimeSeriesEvaluator>)
      ensures r.Err? <==> evalMetric !in AvailableMetrics
      ensures r.Err? ==> r.error == AssertionError("Metric " + evalMetric + " not available")
      ensures r.Ok? ==> fresh(r.value) && Name(r.value.evalMetric) == evalMetric
                        && r.value.predictionLength == predictionLength && r.value.targetColumn == targetColumn
                        && r.value.pastNaive1Error == None && r.value.Valid()
    {
      match ParseMetric(evalMetric)
      case None =>
        r := Err(AssertionError("Metric " + evalMetric + " not available"));
      case Some(m) =>
        var e := new TimeSeriesEvaluator(m, predictionLength, targetColumn);
        r := Ok(e);
    }

    /** `coefficient`: the sign that makes the metric higher-is-better; negative, as every metric is an error. */
    function Coefficient(): (c: int)
      ensures c == -1
    {
      MetricRegistry.Coefficient(evalMetric)
    }

    /** `higher_is_better`: whether the coefficient is positive, which it never is. */
    function HigherIsBetter(): (b: bool)
      ensures !b
    {
      Coefficient() > 0
    }

    /**
     * `save_past_metrics`: caches the in-sample naive-1 error of the target column of the
     * past data, replacing any earlier cache; `KeyError` when the target column is missing.
     */
    method SavePastMetrics(dataPast: Frame) returns (r: Result<()>)
      requires WellFormed(dataPast) && Valid()
      modifies this
      ensures Valid()
      ensures targetColumn !in Names(dataPast.columns) ==>
                r == Err(KeyError(targetColumn)) && pastNaive1Error == old(pastNaive1Error)
      ensures targetColumn in Names(dataPast.columns) ==>
                r == Ok(()) && pastNaive1Error == Some(MaskedNaiveErrors(SeriesOf(dataPast, targetColumn)))
    {
      if targetColumn !in Names(dataPast.columns) {
        return Err(KeyError(targetColumn));
      }
      var naive := InSampleNaive1Error(SeriesOf(dataPast, targetColumn));
      pastNaive1Error := Some(naive);
      r := Ok(());
    }

    /** `score_with_saved_past_metrics`; the score of a valid evaluator is never negative. */
    method ScoreWithSavedPastMetrics(dataFuture: Frame, predictions: Frame) returns (r: Result<Score>)
      requires WellFormed(dataFuture) && WellFormed(predictions)
      ensures r == ScoreOutcome(evalMetric, predictionLength, targetColumn, pastNaive1Error, dataFuture, predictions)
      ensures Valid() && r.Ok? ==> NeverNegative(r.value.v)
    {
      if !AllSeriesHaveLength(predictions.index, predictionLength) {
        return Err(AssertionError(""));
      }
      if pastNaive1Error.None? {
        return Err(AssertionError(NotCachedMessage));
      }
      if dataFuture.index != predictions.index {
        return Err(AssertionError(IndexMismatchMessage));
      }
      if targetColumn !in Names(dataFuture.columns) {
        return Err(KeyError(targetColumn));
      }
      var yTrue := SeriesOf(dataFuture, targetColumn);
      r := MetricValue(evalMetric, yTrue, predictions, pastNaive1Error.value);
    }

    /**
     * `__call__`: splits every series into its past (all but the last `prediction_length`
     * rows) and its future (those rows), caches the naive-1 error of the past and scores
     * the future against the predictions.
     */
    method Call(data: Frame, predictions: Frame) returns (r: Result<Score>)
      requires WellFormed(data) && WellFormed(predictions) && Valid()
      modifies this
      ensures Valid()
      ensures targetColumn !in Names(data.columns) ==>
                r == Err(KeyError(targetColumn)) && pastNaive1Error == old(pastNaive1Error)
      ensures targetColumn in Names(data.columns) ==>
                pastNaive1Error == Some(MaskedNaiveErrors(SeriesOf(PastOf(data, predictionLength), targetColumn)))
                && r == ScoreOutcome(evalMetric, predictionLength, targetColumn, pastNaive1Error,
                                     FutureOf(data, predictionLength), predictions)
      ensures targetColumn in Names(data.columns) && Contiguous(KeyItems(data.index)) ==>
                pastNaive1Error == Some(NaiveSpec(SeriesOf(PastOf(data, predictionLength), targetColumn)))
    {
      var dataPast := PastOf(data, predictionLength);
      var dataFuture := FutureOf(data, predictionLength);
      var saved := SavePastMetrics(dataPast);
      if saved.Err? {
        return Err(saved.error);
      }
      r := ScoreWithSavedPastMetrics(dataFuture, predictions);
      if Contiguous(KeyItems(data.index)) {
        MaskedNaiveErrorsIsSpec(SeriesOf(dataPast, targetColumn));
      }
    }
  }
}
