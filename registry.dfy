/**
 * The evaluator's metric registry: the names it accepts, the sign coefficient of each
 * metric that turns it into a higher-is-better score, the default metric, and the check
 * that maps a requested (possibly missing) name to a valid one.
 */
module MetricRegistry {
  import opened Wrappers

  /** The six available metrics; dispatch on a metric is a `match` over this type. */
  datatype Metric = MASE | MAPE | SMAPE | MeanWQuantileLoss | MSE | RMSE

  /** The metric names, in the registry's order. */
  const AvailableMetrics: seq<string> := ["MASE", "MAPE", "sMAPE", "mean_wQuantileLoss", "MSE", "RMSE"]

  /** The name used when no (usable) name is given. */
  const DefaultMetric: string := "mean_wQuantileLoss"

  /** The registered name of a metric. */
  function Name(m: Metric): (s: string)
    ensures s in AvailableMetrics
  {
    match m
    case MASE => "MASE"
    case MAPE => "MAPE"
    case SMAPE => "sMAPE"
    case MeanWQuantileLoss => "mean_wQuantileLoss"
    case MSE => "MSE"
    case RMSE => "RMSE"
  }

  /** The metric registered under `name`, if any; names are case-sensitive. */
  function ParseMetric(name: string): (r: Option<Metric>)
    ensures r.Some? <==> name in AvailableMetrics
    ensures r.Some? ==> Name(r.value) == name
  {
    if name == "MASE" then Some(MASE)
    else if name == "MAPE" then Some(MAPE)
    else if name == "sMAPE" then Some(SMAPE)
    else if name == "mean_wQuantileLoss" then Some(MeanWQuantileLoss)
    else if name == "MSE" then Some(MSE)
    else if name == "RMSE" then Some(RMSE)
    else None
  }

  /** Parsing a metric's name gives the metric back: the registry's names are distinct. */
  lemma {:induction false} ParseName(m: Metric)
    ensures ParseMetric(Name(m)) == Some(m)
  {
    var r := ParseMetric(Name(m));
    assert r.Some? && Name(r.value) == Name(m);
    match m
    case MASE =>
    case MAPE =>
    case SMAPE =>
    case MeanWQuantileLoss =>
    case MSE =>
    case RMSE =>
  }

  /** `METRIC_COEFFICIENTS`: every metric is an error, so every coefficient is -1. */
  function Coefficient(m: Metric): (c: int)
    ensures c == -1
  {
    match m
    case MASE => -1
    case MAPE => -1
    case SMAPE => -1
    case MeanWQuantileLoss => -1
    case MSE => -1
    case RMSE => -1
  }

  /** A metric is higher-is-better exactly when its coefficient is positive. */
  predicate HigherIsBetter(m: Metric) {
    Coefficient(m) > 0
  }

  /** Every available metric has a nonzero coefficient, and none of them is higher-is-better. */
  lemma {:induction false} CoefficientsOrientErrors(m: Metric)
    ensures Coefficient(m) != 0
    ensures Coefficient(m) < 0 && !HigherIsBetter(m)
  {
  }

  /**
   * `check_get_evaluation_metric`: a missing or empty name gives the default, an available
   * name is returned as it is, and an unknown name raises `ValueError` or, when raising is
   * switched off, gives the default.
   */
  function CheckGetEvaluationMetric(metricName: Option<string>, raiseIfNotAvailable: bool): (r: Result<string>)
    ensures r.Ok? ==> r.value in AvailableMetrics
    ensures metricName == None || metricName == Some("") ==> r == Ok(DefaultMetric)
    ensures metricName.Some? && metricName.value in AvailableMetrics ==> r == Ok(metricName.value)
    ensures r.Err? <==> raiseIfNotAvailable && metricName.Some? && metricName.value != ""
                        && metricName.value !in AvailableMetrics
    ensures r.Err? ==> r.error == ValueError("metric " + metricName.value + " is not available yet.")
  {
    var metric := if metricName == None || metricName == Some("") then DefaultMetric else metricName.value;
    if metric !in AvailableMetrics then
      if raiseIfNotAvailable then Err(ValueError("metric " + metric + " is not available yet."))
      else Ok(DefaultMetric)
    else Ok(metric)
  }

  /** An unknown name, as in the evaluator's tests: raises, or falls back to the default. */
  lemma {:induction false} CheckGetUnknownName()
    ensures CheckGetEvaluationMetric(Some("some_nonsense_eval_metric"), true).Err?
    ensures CheckGetEvaluationMetric(Some("some_nonsense_eval_metric"), true).error.ValueError?
    ensures CheckGetEvaluationMetric(Some("some_nonsense_eval_metric"), false) == Ok(DefaultMetric)
  {
    var s := "some_nonsense_eval_metric";
    assert s != AvailableMetrics[0] && s != AvailableMetrics[1] && s != AvailableMetrics[2];
    assert s != AvailableMetrics[3] && s != AvailableMetrics[4] && s != AvailableMetrics[5];
  }
}
