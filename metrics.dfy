/**
 * The per-item point-forecast metrics: a pointwise error between the true series and the
 * forecast series (over the same rows), then its NaN-skipping mean per series, one entry per
 * series in order of first appearance.
 */
module PerItemMetrics {
  import opened Numeric
  import opened Grouping

  /** The pointwise error behind each per-item metric. */
  datatype PointMetric = Squared | Absolute | AbsolutePercentage | SymmetricPercentage

  /**
   * `(t - p) ** 2`, `|t - p|`, `|(t - p) / t|` and `2 * |t - p| / (|t| + |p|)`, with the
   * special values propagating as in floating point.
   */
  function PointError(e: PointMetric, t: Num, p: Num): (r: Num)
    ensures t.Fin? && p.Fin? && e == Squared ==> r == Fin((t.r - p.r) * (t.r - p.r))
    ensures t.Fin? && p.Fin? && e == Absolute ==> r == Fin(RealAbs(t.r - p.r))
    ensures t.Fin? && p.Fin? && e == AbsolutePercentage && t.r != 0.0 ==>
              r == Fin(RealAbs((t.r - p.r) / t.r))
    ensures t.Fin? && p.Fin? && e == AbsolutePercentage && t.r == 0.0 ==>
              (r.NaN? <==> p.r == 0.0) && (r.PosInf? <==> p.r != 0.0)
    ensures t.Fin? && p.Fin? && e == SymmetricPercentage && RealAbs(t.r) + RealAbs(p.r) != 0.0 ==>
              r == Fin(2.0 * RealAbs(t.r - p.r) / (RealAbs(t.r) + RealAbs(p.r)))
    ensures t.Fin? && p.Fin? && e == SymmetricPercentage && RealAbs(t.r) + RealAbs(p.r) == 0.0 ==> r.NaN?
  {
    match e
    case Squared => var d := Sub(t, p); Mul(d, d)
    case Absolute => Abs(Sub(t, p))
    case AbsolutePercentage => Abs(Div(Sub(t, p), t))
    case SymmetricPercentage =>
      if t.Fin? && p.Fin? then
        SymmetricOfFinite(t.r, p.r);
        Div(Mul(Fin(2.0), Abs(Sub(t, p))), Add(Abs(t), Abs(p)))
      else
        Div(Mul(Fin(2.0), Abs(Sub(t, p))), Add(Abs(t), Abs(p)))
  }

  /** The symmetric percentage error of two finite values, by the real formula. */
  lemma {:induction false} SymmetricOfFinite(t: real, p: real)
    ensures var r := Div(Mul(Fin(2.0), Abs(Sub(Fin(t), Fin(p)))), Add(Abs(Fin(t)), Abs(Fin(p))));
      && (RealAbs(t) + RealAbs(p) != 0.0 ==> r == Fin(2.0 * RealAbs(t - p) / (RealAbs(t) + RealAbs(p))))
      && (RealAbs(t) + RealAbs(p) == 0.0 ==> r.NaN?)
  {
    var a, s := RealAbs(t - p), RealAbs(t) + RealAbs(p);
    assert Abs(Sub(Fin(t), Fin(p))) == Fin(a);
    assert Mul(Fin(2.0), Fin(a)) == Fin(2.0 * a);
    assert Add(Abs(Fin(t)), Abs(Fin(p))) == Fin(s);
    if s == 0.0 {
      BothZero(t, p);
    } else {
      DivOfFinite(2.0 * a, s);
    }
  }

  /** Two absolute values summing to zero means both values are zero, and so is their distance. */
  lemma {:induction false} BothZero(t: real, p: real)
    requires RealAbs(t) + RealAbs(p) == 0.0
    ensures Div(Fin(2.0 * RealAbs(t - p)), Fin(RealAbs(t) + RealAbs(p))).NaN?
  {
    assert t == 0.0 && p == 0.0;
    assert 2.0 * RealAbs(t - p) == 0.0;
  }

  lemma {:induction false} DivOfFinite(x: real, y: real)
    requires y != 0.0
    ensures Div(Fin(x), Fin(y)) == Fin(x / y)
  {
  }


  /** The pointwise errors of two value sequences, pair by pair. */
  function Pointwise(e: PointMetric, a: seq<Num>, b: seq<Num>): (r: seq<Num>)
    ensures |r| == if |a| <= |b| then |a| else |b|
    ensures forall i :: 0 <= i < |r| ==> r[i] == PointError(e, a[i], b[i])
  {
    if a == [] || b == [] then [] else [PointError(e, a[0], b[0])] + Pointwise(e, a[1..], b[1..])
  }

  /** The error series `e(y_true, y_pred)` over the shared rows. */
  function Errors(e: PointMetric, yTrue: seq<Obs>, yPred: seq<Obs>): (r: seq<Obs>)
    requires ItemsOf(yPred) == ItemsOf(yTrue)
    ensures ItemsOf(r) == ItemsOf(yTrue)
    ensures forall i :: 0 <= i < |r| ==> r[i].value == PointError(e, yTrue[i].value, yPred[i].value)
  {
    if yTrue == [] then []
    else
      assert ItemsOf(yTrue[1..]) == ItemsOf(yTrue)[1..] && ItemsOf(yPred[1..]) == ItemsOf(yPred)[1..];
      var r := [Obs(yTrue[0].item, PointError(e, yTrue[0].value, yPred[0].value))] + Errors(e, yTrue[1..], yPred[1..]);
      assert ItemsOf(r) == [yTrue[0].item] + ItemsOf(r[1..]);
      r
  }

  /** The errors of series `x` are the pointwise errors of the values of `x` alone. */
  lemma {:induction false} ErrorsOfSeries(e: PointMetric, yTrue: seq<Obs>, yPred: seq<Obs>, x: ItemId)
    requires ItemsOf(yPred) == ItemsOf(yTrue)
    ensures |ValuesOf(yPred, x)| == |ValuesOf(yTrue, x)|
    ensures ValuesOf(Errors(e, yTrue, yPred), x) == Pointwise(e, ValuesOf(yTrue, x), ValuesOf(yPred, x))
  {
    if yTrue != [] {
      assert ItemsOf(yTrue[1..]) == ItemsOf(yTrue)[1..] && ItemsOf(yPred[1..]) == ItemsOf(yPred)[1..];
      assert yPred[0].item == yTrue[0].item;
      ErrorsOfSeries(e, yTrue[1..], yPred[1..], x);
      var r := Errors(e, yTrue, yPred);
      assert r[1..] == Errors(e, yTrue[1..], yPred[1..]);
      var a, b := ValuesOf(yTrue, x), ValuesOf(yPred, x);
      if yTrue[0].item == x {
        assert a == [yTrue[0].value] + ValuesOf(yTrue[1..], x);
        assert b == [yPred[0].value] + ValuesOf(yPred[1..], x);
        assert a[1..] == ValuesOf(yTrue[1..], x) && b[1..] == ValuesOf(yPred[1..], x);
      }
    } else {
      assert yPred == [];
    }
  }

  /**
   * `e(y_true, y_pred).groupby(level=ITEMID, sort=False).mean()`: one entry per series of
   * `y_true`, in order of first appearance, each the NaN-skipping mean of the pointwise errors
   * of that series alone.
   */
  function MetricPerItem(e: PointMetric, yTrue: seq<Obs>, yPred: seq<Obs>): (r: seq<ItemScore>)
    requires ItemsOf(yPred) == ItemsOf(yTrue)
    ensures |r| == |GroupBy(yTrue)|
    ensures forall k :: 0 <= k < |r| ==> r[k].item == GroupBy(yTrue)[k].item
    ensures forall k :: 0 <= k < |r| ==>
      r[k].score == Mean(Pointwise(e, ValuesOf(yTrue, r[k].item), ValuesOf(yPred, r[k].item)))
  {
    var errs := Errors(e, yTrue, yPred);
    GroupItemsByItems(errs, yTrue);
    var r := PerItemMean(errs);
    forall k | 0 <= k < |r|
      ensures r[k].item == GroupBy(yTrue)[k].item
      ensures r[k].score == Mean(Pointwise(e, ValuesOf(yTrue, r[k].item), ValuesOf(yPred, r[k].item)))
    {
      assert GroupItems(GroupBy(errs))[k] == GroupItems(GroupBy(yTrue))[k];
      ErrorsOfSeries(e, yTrue, yPred, r[k].item);
    }
    r
  }

  // ---------------------------------------------------------------- bounds of the pointwise errors

  lemma {:induction false} SquareNeverNegative(x: real)
    ensures x * x >= 0.0
  {
    if x < 0.0 {
      assert x * x == (-x) * (-x);
    }
  }

  /** Every pointwise error is never negative. */
  lemma {:induction false} PointErrorNeverNegative(e: PointMetric, t: Num, p: Num)
    ensures NeverNegative(PointError(e, t, p))
  {
    match e
    case Squared =>
      var d := Sub(t, p);
      if d.Fin? {
        SquareNeverNegative(d.r);
      }
    case Absolute =>
    case AbsolutePercentage =>
    case SymmetricPercentage =>
      DivNeverNegative(Mul(Fin(2.0), Abs(Sub(t, p))), Add(Abs(t), Abs(p)));
  }

  lemma {:induction false} TriangleReal(x: real, y: real)
    ensures RealAbs(x - y) <= RealAbs(x) + RealAbs(y)
  {
  }

  lemma {:induction false} RatioWithinTwo(a: real, n: real)
    requires 0.0 <= a <= n && n > 0.0
    ensures 0.0 <= (2.0 * a) / n <= 2.0
  {
    DivBounds(2.0 * a, n, 0.0, 2.0);
  }

  /** On finite values the symmetric percentage error is a quotient of two finite values. */
  lemma {:induction false} SymmetricErrorQuotient(x: real, y: real)
    ensures PointError(SymmetricPercentage, Fin(x), Fin(y)) == Div(Fin(2.0 * RealAbs(x - y)), Fin(RealAbs(x) + RealAbs(y)))
  {
    var a := RealAbs(x - y);
    var d := Sub(Fin(x), Fin(y));
    assert d == Fin(x - y);
    assert Abs(d) == Fin(a);
    var num := Mul(Fin(2.0), Abs(d));
    assert num == Fin(2.0 * a);
    var den := Add(Abs(Fin(x)), Abs(Fin(y)));
    assert den == Fin(RealAbs(x) + RealAbs(y));
    assert PointError(SymmetricPercentage, Fin(x), Fin(y)) == Div(num, den);
  }

  lemma {:induction false} QuotientWithinTwo(a: real, n: real)
    requires 0.0 <= a <= n
    ensures var r := Div(Fin(2.0 * a), Fin(n));
      r.NaN? || (r.Fin? && 0.0 <= r.r <= 2.0)
  {
    if n > 0.0 {
      RatioWithinTwo(a, n);
    } else {
      assert 2.0 * a == 0.0;
    }
  }

  /** The symmetric percentage error of two finite values is NaN or lies in [0, 2]. */
  lemma {:induction false} SymmetricErrorFinite(x: real, y: real)
    ensures var r := PointError(SymmetricPercentage, Fin(x), Fin(y));
      r.NaN? || (r.Fin? && 0.0 <= r.r <= 2.0)
  {
    SymmetricErrorQuotient(x, y);
    TriangleReal(x, y);
    QuotientWithinTwo(RealAbs(x - y), RealAbs(x) + RealAbs(y));
  }

  /** The symmetric percentage error is NaN or lies in [0, 2]. */
  lemma {:induction false} SymmetricErrorBounds(t: Num, p: Num)
    ensures var r := PointError(SymmetricPercentage, t, p);
      r.NaN? || (r.Fin? && 0.0 <= r.r <= 2.0)
  {
    if t.Fin? && p.Fin? {
      SymmetricErrorFinite(t.r, p.r);
    } else if !t.NaN? && !p.NaN? {
      assert Abs(Sub(t, p)).PosInf? || Abs(Sub(t, p)).NaN?;
      assert Add(Abs(t), Abs(p)).PosInf?;
    }
  }

  lemma {:induction false} PointwiseNeverNegative(e: PointMetric, a: seq<Num>, b: seq<Num>)
    ensures forall i :: 0 <= i < |Pointwise(e, a, b)| ==> NeverNegative(Pointwise(e, a, b)[i])
  {
    forall i | 0 <= i < |Pointwise(e, a, b)| ensures NeverNegative(Pointwise(e, a, b)[i]) {
      PointErrorNeverNegative(e, a[i], b[i]);
    }
  }

  // ---------------------------------------------------------------- the four metrics

  /** `mse_per_item`: per series, the mean squared error; never negative. */
  function MsePerItem(yTrue: seq<Obs>, yPred: seq<Obs>): (r: seq<ItemScore>)
    requires ItemsOf(yPred) == ItemsOf(yTrue)
    ensures r == MetricPerItem(Squared, yTrue, yPred)
    ensures forall k :: 0 <= k < |r| ==> NeverNegative(r[k].score)
  {
    var r := MetricPerItem(Squared, yTrue, yPred);
    forall k | 0 <= k < |r| ensures NeverNegative(r[k].score) {
      PointwiseNeverNegative(Squared, ValuesOf(yTrue, r[k].item), ValuesOf(yPred, r[k].item));
      MeanNeverNegative(Pointwise(Squared, ValuesOf(yTrue, r[k].item), ValuesOf(yPred, r[k].item)));
    }
    r
  }

  /** `mae_per_item`: per series, the mean absolute error; never negative. */
  function MaePerItem(yTrue: seq<Obs>, yPred: seq<Obs>): (r: seq<ItemScore>)
    requires ItemsOf(yPred) == ItemsOf(yTrue)
    ensures r == MetricPerItem(Absolute, yTrue, yPred)
    ensures forall k :: 0 <= k < |r| ==> NeverNegative(r[k].score)
  {
    var r := MetricPerItem(Absolute, yTrue, yPred);
    forall k | 0 <= k < |r| ensures NeverNegative(r[k].score) {
      PointwiseNeverNegative(Absolute, ValuesOf(yTrue, r[k].item), ValuesOf(yPred, r[k].item));
      MeanNeverNegative(Pointwise(Absolute, ValuesOf(yTrue, r[k].item), ValuesOf(yPred, r[k].item)));
    }
    r
  }

  /** `mape_per_item`: per series, the mean absolute percentage error; never negative. */
  function MapePerItem(yTrue: seq<Obs>, yPred: seq<Obs>): (r: seq<ItemScore>)
    requires ItemsOf(yPred) == ItemsOf(yTrue)
    ensures r == MetricPerItem(AbsolutePercentage, yTrue, yPred)
    ensures forall k :: 0 <= k < |r| ==> NeverNegative(r[k].score)
  {
    var r := MetricPerItem(AbsolutePercentage, yTrue, yPred);
    forall k | 0 <= k < |r| ensures NeverNegative(r[k].score) {
      PointwiseNeverNegative(AbsolutePercentage, ValuesOf(yTrue, r[k].item), ValuesOf(yPred, r[k].item));
      MeanNeverNegative(Pointwise(AbsolutePercentage, ValuesOf(yTrue, r[k].item), ValuesOf(yPred, r[k].item)));
    }
    r
  }

  /** `symmetric_mape_per_item`: per series, the symmetric MAPE; NaN or within [0, 2]. */
  function SymmetricMapePerItem(yTrue: seq<Obs>, yPred: seq<Obs>): (r: seq<ItemScore>)
    requires ItemsOf(yPred) == ItemsOf(yTrue)
    ensures r == MetricPerItem(SymmetricPercentage, yTrue, yPred)
    ensures forall k :: 0 <= k < |r| ==> r[k].score.NaN? || (r[k].score.Fin? && 0.0 <= r[k].score.r <= 2.0)
  {
    var r := MetricPerItem(SymmetricPercentage, yTrue, yPred);
    forall k | 0 <= k < |r| ensures r[k].score.NaN? || (r[k].score.Fin? && 0.0 <= r[k].score.r <= 2.0) {
      var d := Pointwise(SymmetricPercentage, ValuesOf(yTrue, r[k].item), ValuesOf(yPred, r[k].item));
      forall i | 0 <= i < |d| && !d[i].NaN? ensures d[i].Fin? && 0.0 <= d[i].r <= 2.0 {
        SymmetricErrorBounds(ValuesOf(yTrue, r[k].item)[i], ValuesOf(yPred, r[k].item)[i]);
      }
      MeanWithin(d, 0.0, 2.0);
    }
    r
  }

  // ---------------------------------------------------------------- perfect forecasts

  /** A finite forecast equal to the truth has zero squared and zero absolute error for every series. */
  lemma {:induction false} PerfectForecastZeroError(e: PointMetric, yTrue: seq<Obs>)
    requires e == Squared || e == Absolute
    requires forall i :: 0 <= i < |yTrue| ==> yTrue[i].value.Fin?
    ensures forall k :: 0 <= k < |MetricPerItem(e, yTrue, yTrue)| ==> MetricPerItem(e, yTrue, yTrue)[k].score == Fin(0.0)
  {
    var r := MetricPerItem(e, yTrue, yTrue);
    var n := GroupSizes(yTrue);
    forall k | 0 <= k < |r| ensures r[k].score == Fin(0.0) {
      assert n[k] >= 1 && n[k] == |ValuesOf(yTrue, r[k].item)|;
      PerfectSeriesZeroError(e, yTrue, r[k].item);
    }
  }

  lemma {:induction false} PerfectSeriesZeroError(e: PointMetric, yTrue: seq<Obs>, x: ItemId)
    requires e == Squared || e == Absolute
    requires forall i :: 0 <= i < |yTrue| ==> yTrue[i].value.Fin?
    requires ValuesOf(yTrue, x) != []
    ensures Mean(Pointwise(e, ValuesOf(yTrue, x), ValuesOf(yTrue, x))) == Fin(0.0)
  {
    var v := ValuesOf(yTrue, x);
    FiniteValuesOf(yTrue, x);
    var d := Pointwise(e, v, v);
    forall i | 0 <= i < |d| ensures d[i] == Fin(0.0) {
      assert v[i].Fin?;
      PointErrorSelf(e, v[i].r);
    }
    MeanOfZeros(d);
  }

  lemma {:induction false} PointErrorSelf(e: PointMetric, a: real)
    requires e == Squared || e == Absolute
    ensures PointError(e, Fin(a), Fin(a)) == Fin(0.0)
  {
    assert Sub(Fin(a), Fin(a)) == Fin(0.0);
  }

  lemma {:induction false} FiniteValuesOf(s: seq<Obs>, x: ItemId)
    requires forall i :: 0 <= i < |s| ==> s[i].value.Fin?
    ensures forall j :: 0 <= j < |ValuesOf(s, x)| ==> ValuesOf(s, x)[j].Fin?
  {
    if s != [] {
      FiniteValuesOf(s[1..], x);
    }
  }

  /** Forecasting the truth exactly gives percentage errors of 0, or NaN where the truth is 0. */
  lemma {:induction false} PerfectForecastPercentage(e: PointMetric, t: real)
    requires e == AbsolutePercentage || e == SymmetricPercentage
    ensures PointError(e, Fin(t), Fin(t)) == if t == 0.0 then NaN else Fin(0.0)
  {
  }

  /** One concrete value of each pointwise error: truth 10, forecast 8. */
  lemma {:induction false} PointErrorExample()
    ensures PointError(Squared, Fin(10.0), Fin(8.0)) == Fin(4.0)
    ensures PointError(Absolute, Fin(10.0), Fin(8.0)) == Fin(2.0)
    ensures PointError(AbsolutePercentage, Fin(10.0), Fin(8.0)) == Fin(0.2)
    ensures PointError(SymmetricPercentage, Fin(10.0), Fin(8.0)) == Fin(4.0 / 18.0)
  {
  }
}
