/**
 * The mean weighted quantile loss: for every quantile column of the predictions (every
 * column except "mean", its level read from the column name), the summed pinball loss
 * against the truth, scaled by the summed absolute truth; twice the mean of these.
 */
module WeightedQuantileLoss {
  import opened Wrappers
  import opened Numeric
  import opened Frames
  import opened Grouping

  // ---------------------------------------------------------------- quantile levels

  predicate IsDigit(c: char) {
    '0' <= c <= '9'
  }

  predicate AllDigits(s: string) {
    forall i :: 0 <= i < |s| ==> IsDigit(s[i])
  }

  /** The number written by a string of decimal digits (0 for none). */
  function DigitsValue(s: string): nat
    requires AllDigits(s)
  {
    if s == [] then 0 else 10 * DigitsValue(s[..|s| - 1]) + ((s[|s| - 1] as int) - ('0' as int))
  }

  function Pow10(n: nat): (p: nat)
    ensures p >= 1
  {
    if n == 0 then 1 else 10 * Pow10(n - 1)
  }

  /** The position of the first '.', or |s| when there is none. */
  function FirstDot(s: string): (k: nat)
    ensures k <= |s|
    ensures forall i :: 0 <= i < k ==> s[i] != '.'
    ensures k < |s| ==> s[k] == '.'
  {
    if s == [] then 0 else if s[0] == '.' then 0 else 1 + FirstDot(s[1..])
  }

  /** The digits before and after the decimal point of `s` read as a decimal fraction. */
  function DecimalValue(whole: string, frac: string): real
    requires AllDigits(whole) && AllDigits(frac)
  {
    DigitsValue(whole) as real + (DigitsValue(frac) as real) / (Pow10(|frac|) as real)
  }

  /**
   * `float(name)` on a quantile column name, for names in plain decimal notation: an optional
   * sign, then digits with at most one decimal point and at least one digit. Anything else
   * raises `ValueError`.
   */
  function ParseLevel(s: string): (r: Result<real>)
    ensures r.Err? ==> r.error == ValueError("could not convert string to float: '" + s + "'")
    ensures r.Ok? ==> s != [] && (IsDigit(s[0]) || s[0] in "+-.")
  {
    var negative := |s| > 0 && s[0] == '-';
    var body := if |s| > 0 && (s[0] == '-' || s[0] == '+') then s[1..] else s;
    var k := FirstDot(body);
    var whole := body[..k];
    var frac := if k < |body| then body[k + 1..] else [];
    if AllDigits(whole) && AllDigits(frac) && |whole| + |frac| > 0 then
      var v := DecimalValue(whole, frac);
      Ok(if negative then -v else v)
    else
      Err(ValueError("could not convert string to float: '" + s + "'"))
  }

  /** A name made of digits, a point and digits reads as that decimal fraction. */
  lemma {:induction false} ParseDecimal(whole: string, frac: string)
    requires AllDigits(whole) && AllDigits(frac) && whole != []
    ensures ParseLevel(whole + "." + frac) == Ok(DecimalValue(whole, frac))
  {
    var s := whole + "." + frac;
    assert s[0] == whole[0] && IsDigit(whole[0]);
    assert FirstDot(s) == |whole| by {
      assert s == whole + ("." + frac);
      FirstDotAfterDigits(whole, "." + frac);
    }
    assert s[..|whole|] == whole;
    assert s[|whole| + 1..] == frac;
  }

  lemma {:induction false} FirstDotAfterDigits(a: string, b: string)
    requires AllDigits(a) && b != [] && b[0] == '.'
    ensures FirstDot(a + b) == |a|
  {
    if a != [] {
      assert (a + b)[1..] == a[1..] + b;
      FirstDotAfterDigits(a[1..], b);
    } else {
      assert a + b == b;
    }
  }

  lemma {:induction false} SingleDigit(c: char)
    requires IsDigit(c)
    ensures DigitsValue([c]) == (c as int) - ('0' as int)
  {
    assert [c][..0] == [];
  }

  /** "0.5", the median's column name, parses to 0.5. */
  lemma {:induction false} ParseMedianLevel()
    ensures ParseLevel("0.5") == Ok(0.5)
  {
    ParseDecimal("0", "5");
    HalfValue();
    assert "0" + "." + "5" == "0.5";
  }

  /** The digits "0" and "5" around a point read as one half. */
  lemma {:induction false} HalfValue()
    ensures DecimalValue("0", "5") == 0.5
  {
    SingleDigit('0');
    SingleDigit('5');
    assert Pow10(1) == 10;
  }

  /** "mean" is not a number. */
  lemma {:induction false} ParseMeanFails()
    ensures ParseLevel("mean").Err?
  {
    assert "mean"[0] == 'm';
    assert FirstDot("mean") > 0;
  }

  // ---------------------------------------------------------------- pinball loss

  /** A boolean array used as numbers: 1 for true, 0 for false. */
  function Indicator(b: bool): (r: Num)
    ensures r.Fin? && (r.r == 1.0 <==> b) && (r.r == 0.0 <==> !b)
  {
    if b then Fin(1.0) else Fin(0.0)
  }

  /** `|(t - p) * ((t <= p) - q)|`: the pinball loss of forecast `p` at level `q`. */
  function PinballLoss(t: Num, p: Num, q: real): (r: Num)
    ensures NeverNegative(r)
  {
    Abs(Mul(Sub(t, p), Sub(Indicator(Le(t, p)), Fin(q))))
  }

  /** The textbook quantile loss of the error `u = t - p` at level `q`. */
  function QuantileLossRef(q: real, u: real): real {
    if u <= 0.0 then (q - 1.0) * u else q * u
  }

  lemma {:induction false} ProductSigns(u: real, w: real)
    ensures u <= 0.0 && w >= 0.0 ==> u * w <= 0.0
    ensures u > 0.0 && w <= 0.0 ==> u * w <= 0.0
  {
  }

  lemma {:induction false} AbsOfNonPositive(x: real)
    requires x <= 0.0
    ensures Abs(Fin(x)) == Fin(-x)
  {
  }

  lemma {:induction false} AbsOfNonNegative(x: real)
    requires x >= 0.0
    ensures Abs(Fin(x)) == Fin(x)
  {
  }

  /** For a level in [0, 1] the loss computed as above is the textbook quantile loss. */
  lemma {:induction false} PinballMatchesReference(t: real, p: real, q: real)
    requires 0.0 <= q <= 1.0
    ensures PinballLoss(Fin(t), Fin(p), q) == Fin(QuantileLossRef(q, t - p))
  {
    var u := t - p;
    var w := if t <= p then 1.0 - q else 0.0 - q;
    assert Sub(Fin(t), Fin(p)) == Fin(u);
    assert Sub(Indicator(Le(Fin(t), Fin(p))), Fin(q)) == Fin(w);
    assert Mul(Fin(u), Fin(w)) == Fin(u * w);
    ProductSigns(u, w);
    AbsOfNonPositive(u * w);
    if u <= 0.0 {
      assert -(u * w) == (q - 1.0) * u;
    } else {
      assert -(u * w) == q * u;
    }
  }

  /** The pinball losses of one quantile column against the truth, row by row. */
  function PinballLosses(ts: seq<Num>, ps: seq<Num>, q: real): (r: seq<Num>)
    ensures |r| == if |ts| <= |ps| then |ts| else |ps|
    ensures forall i :: 0 <= i < |r| ==> r[i] == PinballLoss(ts[i], ps[i], q)
  {
    if ts == [] || ps == [] then [] else [PinballLoss(ts[0], ps[0], q)] + PinballLosses(ts[1..], ps[1..], q)
  }

  /** The textbook quantile loss summed over the rows of one column (finite values only). */
  function QuantileLossSum(ts: seq<Num>, ps: seq<Num>, q: real): real
    requires AllFinite(ts) && AllFinite(ps)
  {
    if ts == [] || ps == [] then 0.0
    else QuantileLossRef(q, ts[0].r - ps[0].r) + QuantileLossSum(ts[1..], ps[1..], q)
  }

  /**
   * `np.abs(...).sum(axis=0)` for one column: never negative, and on finite values with a
   * level in [0, 1] the textbook quantile loss summed over the rows.
   */
  function ColumnLoss(ts: seq<Num>, ps: seq<Num>, q: real): (r: Num)
    ensures NeverNegative(r)
    ensures AllFinite(ts) && AllFinite(ps) && 0.0 <= q <= 1.0 ==> r == Fin(QuantileLossSum(ts, ps, q))
  {
    var l := PinballLosses(ts, ps, q);
    NpSumNeverNegative(l);
    if AllFinite(ts) && AllFinite(ps) && 0.0 <= q <= 1.0 then
      PinballSumIsReference(ts, ps, q);
      NpSum(l)
    else
      NpSum(l)
  }

  lemma {:induction false} PinballSumIsReference(ts: seq<Num>, ps: seq<Num>, q: real)
    requires AllFinite(ts) && AllFinite(ps) && 0.0 <= q <= 1.0
    ensures NpSum(PinballLosses(ts, ps, q)) == Fin(QuantileLossSum(ts, ps, q))
  {
    if ts != [] && ps != [] {
      var l := PinballLosses(ts, ps, q);
      assert l[1..] == PinballLosses(ts[1..], ps[1..], q);
      PinballSumIsReference(ts[1..], ps[1..], q);
      PinballMatchesReference(ts[0].r, ps[0].r, q);
      assert l[0] == Fin(QuantileLossRef(q, ts[0].r - ps[0].r));
    }
  }

  // ---------------------------------------------------------------- the metric

  /** The quantile columns: every column but "mean", in column order. */
  function QuantileColumns(cols: seq<Column>): (r: seq<Column>)
    ensures forall j :: 0 <= j < |r| ==> r[j] in cols && r[j].name != "mean"
    ensures forall c :: c in cols && c.name != "mean" ==> c in r
    ensures |cols| == 1 ==> r == if cols[0].name == "mean" then [] else cols
  {
    if cols == [] then []
    else
      var rest := QuantileColumns(cols[1..]);
      assert forall c :: c in cols ==> c == cols[0] || c in cols[1..];
      if cols[0].name == "mean" then rest else [cols[0]] + rest
  }

  /** Selecting the quantile columns distributes over concatenation: it keeps their order and count. */
  lemma {:induction false} QuantileColumnsConcat(a: seq<Column>, b: seq<Column>)
    ensures QuantileColumns(a + b) == QuantileColumns(a) + QuantileColumns(b)
  {
    if a == [] {
      assert a + b == b;
    } else {
      assert (a + b)[0] == a[0] && (a + b)[1..] == a[1..] + b;
      QuantileColumnsConcat(a[1..], b);
    }
  }

  /** `[float(q) for q in names]`: the parse of every column name, in column order. */
  function ParsedLevels(cols: seq<Column>): (p: seq<Result<real>>)
    ensures |p| == |cols| && forall j :: 0 <= j < |cols| ==> p[j] == ParseLevel(cols[j].name)
  {
    seq(|cols|, j requires 0 <= j < |cols| => ParseLevel(cols[j].name))
  }

  /** Every column name is a number. */
  predicate AllLevelsParse(cols: seq<Column>) {
    forall j :: 0 <= j < |cols| ==> ParseLevel(cols[j].name).Ok?
  }

  /** The parsed levels, or the first error among them. */
  function Levels(parsed: seq<Result<real>>): (r: Result<seq<real>>)
    ensures r.Ok? <==> forall j :: 0 <= j < |parsed| ==> parsed[j].Ok?
    ensures r.Ok? ==> |r.value| == |parsed| && forall j :: 0 <= j < |parsed| ==> parsed[j] == Ok(r.value[j])
    ensures r.Err? ==> exists j :: 0 <= j < |parsed| && parsed[j] == Err(r.error)
                                   && forall i :: 0 <= i < j ==> parsed[i].Ok?
  {
    if parsed == [] then Ok([])
    else if parsed[0].Err? then Err(parsed[0].error)
    else
      var rest := Levels(parsed[1..]);
      LevelsStep(parsed, rest);
      if rest.Err? then Err(rest.error) else Ok([parsed[0].value] + rest.value)
  }

  lemma {:induction false} LevelsStep(parsed: seq<Result<real>>, rest: Result<seq<real>>)
    requires parsed != [] && parsed[0].Ok?
    requires rest.Ok? <==> forall j :: 0 <= j < |parsed[1..]| ==> parsed[1..][j].Ok?
    requires rest.Ok? ==> (|rest.value| == |parsed[1..]| &&
               forall j :: 0 <= j < |parsed[1..]| ==> parsed[1..][j] == Ok(rest.value[j]))
    requires rest.Err? ==> exists j :: 0 <= j < |parsed[1..]| && parsed[1..][j] == Err(rest.error)
                                      && forall i :: 0 <= i < j ==> parsed[1..][i].Ok?
    ensures rest.Ok? <==> forall j :: 0 <= j < |parsed| ==> parsed[j].Ok?
    ensures rest.Ok? ==> forall j :: 0 <= j < |parsed| ==> parsed[j] == Ok(([parsed[0].value] + rest.value)[j])
    ensures rest.Err? ==> exists j :: 0 <= j < |parsed| && parsed[j] == Err(rest.error)
                                      && forall i :: 0 <= i < j ==> parsed[i].Ok?
  {
    if rest.Err? {
      var j :| 0 <= j < |parsed[1..]| && parsed[1..][j] == Err(rest.error)
               && forall i :: 0 <= i < j ==> parsed[1..][i].Ok?;
      assert parsed[j + 1] == Err(rest.error);
      forall i | 0 <= i < j + 1 ensures parsed[i].Ok? {
        if i > 0 {
          assert parsed[i] == parsed[1..][i - 1];
        }
      }
    } else {
      forall j | 0 <= j < |parsed| ensures parsed[j] == Ok(([parsed[0].value] + rest.value)[j]) {
        if j > 0 {
          assert parsed[j] == parsed[1..][j - 1];
        }
      }
    }
  }

  /** The summed pinball loss of every quantile column, each divided by the summed absolute truth. */
  function ScaledLosses(ts: seq<Num>, cols: seq<Column>, levels: seq<real>, scale: Num): (r: seq<Num>)
    requires |levels| == |cols|
    ensures |r| == |cols|
    ensures forall j :: 0 <= j < |r| ==> r[j] == Div(ColumnLoss(ts, cols[j].values, levels[j]), scale)
  {
    seq(|cols|, j requires 0 <= j < |cols| => Div(ColumnLoss(ts, cols[j].values, levels[j]), scale))
  }

  lemma {:induction false} ScaledLossesNeverNegative(ts: seq<Num>, cols: seq<Column>, levels: seq<real>, scale: Num)
    requires |levels| == |cols| && NeverNegative(scale)
    ensures forall j :: 0 <= j < |cols| ==> NeverNegative(ScaledLosses(ts, cols, levels, scale)[j])
  {
    forall j | 0 <= j < |cols| ensures NeverNegative(ScaledLosses(ts, cols, levels, scale)[j]) {
      DivNeverNegative(ColumnLoss(ts, cols[j].values, levels[j]), scale);
    }
  }

  /** Every column holds finite values only. */
  predicate FiniteColumns(cols: seq<Column>) {
    forall j :: 0 <= j < |cols| ==> AllFinite(cols[j].values)
  }

  /** Every level lies in [0, 1]. */
  predicate UnitLevels(levels: seq<real>) {
    forall j :: 0 <= j < |levels| ==> 0.0 <= levels[j] <= 1.0
  }

  /** The reference total: each column's summed quantile loss over `scale`, added over the columns. */
  function WeightedLossSum(ts: seq<Num>, cols: seq<Column>, levels: seq<real>, scale: real): real
    requires |levels| == |cols| && AllFinite(ts) && FiniteColumns(cols) && scale != 0.0
  {
    if cols == [] then 0.0
    else QuantileLossSum(ts, cols[0].values, levels[0]) / scale
         + WeightedLossSum(ts, cols[1..], levels[1..], scale)
  }

  lemma {:induction false} ScaledLossesAreReference(ts: seq<Num>, cols: seq<Column>, levels: seq<real>, scale: real)
    requires |levels| == |cols| && AllFinite(ts) && FiniteColumns(cols) && UnitLevels(levels) && scale > 0.0
    ensures AllFinite(ScaledLosses(ts, cols, levels, Fin(scale)))
    ensures FinSum(ScaledLosses(ts, cols, levels, Fin(scale))) == WeightedLossSum(ts, cols, levels, scale)
  {
    var l := ScaledLosses(ts, cols, levels, Fin(scale));
    forall j | 0 <= j < |l| ensures l[j] == Fin(QuantileLossSum(ts, cols[j].values, levels[j]) / scale) {
      assert ColumnLoss(ts, cols[j].values, levels[j]) == Fin(QuantileLossSum(ts, cols[j].values, levels[j]));
    }
    if cols != [] {
      assert l[1..] == ScaledLosses(ts, cols[1..], levels[1..], Fin(scale));
      ScaledLossesAreReference(ts, cols[1..], levels[1..], scale);
    }
  }

  /** On finite data with a positive scale the numpy mean of the scaled losses is the reference average. */
  lemma {:induction false} ScaledMeanClosedForm(ts: seq<Num>, cols: seq<Column>, levels: seq<real>)
    requires |levels| == |cols| && cols != [] && AllFinite(ts) && FiniteColumns(cols) && UnitLevels(levels)
    requires FinSum(AbsAll(ts)) > 0.0
    ensures NpMean(ScaledLosses(ts, cols, levels, NpSum(AbsAll(ts))))
              == Fin(WeightedLossSum(ts, cols, levels, FinSum(AbsAll(ts))) / (|cols| as real))
  {
    FiniteAbsSum(ts);
    ScaledLossesAreReference(ts, cols, levels, FinSum(AbsAll(ts)));
  }

  /** With an all-zero truth every scaled loss is 0/0 = NaN or x/0 = +inf, and so is their mean. */
  lemma {:induction false} ScaledMeanZeroScale(ts: seq<Num>, cols: seq<Column>, levels: seq<real>)
    requires |levels| == |cols| && cols != [] && AllFinite(ts) && FinSum(AbsAll(ts)) == 0.0
    ensures var m := NpMean(ScaledLosses(ts, cols, levels, NpSum(AbsAll(ts))));
      m.NaN? || m.PosInf?
  {
    FiniteAbsSum(ts);
    var l := ScaledLosses(ts, cols, levels, Fin(0.0));
    forall j | 0 <= j < |l| ensures l[j].NaN? || l[j].PosInf? {
      var c := ColumnLoss(ts, cols[j].values, levels[j]);
      assert l[j] == Div(c, Fin(0.0));
    }
    assert l[0] in l;
    assert NegInf !in l;
  }

  /**
   * `2 * np.mean(losses / np.abs(values_true).sum())` once the levels of the quantile columns
   * are known: never negative, NaN when there is no quantile column, NaN or +inf when the
   * truth is all zero, and otherwise, on finite values with levels in [0, 1], twice the
   * average over the columns of the summed quantile loss over the summed absolute truth.
   */
  function TwiceMeanScaledLoss(ts: seq<Num>, cols: seq<Column>, levels: seq<real>): (r: Num)
    requires |levels| == |cols|
    ensures NeverNegative(r)
    ensures cols == [] ==> r.NaN?
    ensures cols != [] && AllFinite(ts) && FinSum(AbsAll(ts)) == 0.0 ==> r.NaN? || r.PosInf?
    ensures cols != [] && AllFinite(ts) && FiniteColumns(cols) && UnitLevels(levels) && FinSum(AbsAll(ts)) > 0.0 ==>
              r == Fin(2.0 * (WeightedLossSum(ts, cols, levels, FinSum(AbsAll(ts))) / (|cols| as real)))
  {
    var scale := NpSum(AbsAll(ts));
    NpSumNeverNegative(AbsAll(ts));
    var losses := ScaledLosses(ts, cols, levels, scale);
    ScaledLossesNeverNegative(ts, cols, levels, scale);
    NpMeanNeverNegative(losses);
    TwiceNeverNegative(NpMean(losses));
    if cols != [] && AllFinite(ts) && FinSum(AbsAll(ts)) == 0.0 then
      ScaledMeanZeroScale(ts, cols, levels);
      Mul(Fin(2.0), NpMean(losses))
    else if cols != [] && AllFinite(ts) && FiniteColumns(cols) && UnitLevels(levels) && FinSum(AbsAll(ts)) > 0.0 then
      ScaledMeanClosedForm(ts, cols, levels);
      Mul(Fin(2.0), NpMean(losses))
    else
      Mul(Fin(2.0), NpMean(losses))
  }

  /** Doubling keeps a value that is never negative never negative (and NaN stays NaN). */
  lemma {:induction false} TwiceNeverNegative(a: Num)
    requires NeverNegative(a)
    ensures NeverNegative(Mul(Fin(2.0), a)) && (a.NaN? ==> Mul(Fin(2.0), a).NaN?)
  {
    if a.Fin? {
      assert Mul(Fin(2.0), a) == Fin(2.0 * a.r);
    }
  }

  /**
   * `_mean_wquantileloss`: the weighted quantile loss of the quantile columns, or the
   * `ValueError` of the first quantile column whose name is not a number.
   */
  function MeanWeightedQuantileLoss(ts: seq<Num>, predictions: Frame): (r: Result<Num>)
    ensures r.Ok? <==> AllLevelsParse(QuantileColumns(predictions.columns))
    ensures r.Err? ==> r.error.ValueError?
    ensures r.Ok? ==> NeverNegative(r.value)
    ensures r.Ok? && QuantileColumns(predictions.columns) == [] ==> r.value.NaN?
    ensures var cols := QuantileColumns(predictions.columns);
      var levels := Levels(ParsedLevels(cols));
      && (r.Err? ==> levels.Err? && r.error == levels.error)
      && (r.Ok? ==> levels.Ok? && r.value == TwiceMeanScaledLoss(ts, cols, levels.value))
  {
    var cols := QuantileColumns(predictions.columns);
    var levels := Levels(ParsedLevels(cols));
    if levels.Err? then Err(levels.error) else Ok(TwiceMeanScaledLoss(ts, cols, levels.value))
  }

  lemma {:induction false} FiniteAbsSum(ts: seq<Num>)
    requires forall i :: 0 <= i < |ts| ==> ts[i].Fin?
    ensures NpSum(AbsAll(ts)) == Fin(FinSum(AbsAll(ts)))
  {
    var a := AbsAll(ts);
    assert forall i :: 0 <= i < |a| ==> a[i].Fin?;
    assert NaN !in a && PosInf !in a && NegInf !in a;
  }

  lemma {:induction false} TwiceZeroOver(n: real)
    requires n > 0.0
    ensures Mul(Fin(2.0), Div(Fin(0.0), Fin(n))) == Fin(0.0)
  {
    assert Div(Fin(0.0), Fin(n)) == Fin(0.0 / n);
    assert 0.0 / n == 0.0;
  }

  lemma {:induction false} ZeroMean(s: seq<Num>)
    requires s != [] && forall i :: 0 <= i < |s| ==> s[i] == Fin(0.0)
    ensures Mul(Fin(2.0), NpMean(s)) == Fin(0.0)
  {
    ZeroSum(s);
    TwiceZeroOver(|s| as real);
  }

  /** Quantile columns that all equal the (finite, not all zero) truth have zero loss. */
  lemma {:induction false} PerfectTwiceMean(ts: seq<Num>, cols: seq<Column>, levels: seq<real>)
    requires |levels| == |cols| && cols != []
    requires forall i :: 0 <= i < |ts| ==> ts[i].Fin?
    requires FinSum(AbsAll(ts)) > 0.0
    requires forall j :: 0 <= j < |cols| ==> cols[j].values == ts
    ensures TwiceMeanScaledLoss(ts, cols, levels) == Fin(0.0)
  {
    var scale := NpSum(AbsAll(ts));
    FiniteAbsSum(ts);
    var losses := ScaledLosses(ts, cols, levels, scale);
    forall j | 0 <= j < |losses| ensures losses[j] == Fin(0.0) {
      PerfectColumn(ts, levels[j]);
      assert losses[j] == Div(Fin(0.0), scale);
    }
    ZeroMean(losses);
  }

  /** A forecast whose every quantile equals the (finite, not all zero) truth has zero loss. */
  lemma {:induction false} PerfectQuantileForecast(ts: seq<Num>, predictions: Frame)
    requires forall i :: 0 <= i < |ts| ==> ts[i].Fin?
    requires FinSum(AbsAll(ts)) > 0.0
    requires QuantileColumns(predictions.columns) != []
    requires forall j :: 0 <= j < |predictions.columns| && predictions.columns[j].name != "mean" ==>
               predictions.columns[j].values == ts
    requires AllLevelsParse(QuantileColumns(predictions.columns))
    ensures MeanWeightedQuantileLoss(ts, predictions) == Ok(Fin(0.0))
  {
    var cols := QuantileColumns(predictions.columns);
    forall j | 0 <= j < |cols| ensures cols[j].values == ts {
      assert cols[j] in predictions.columns;
    }
    PerfectTwiceMean(ts, cols, Levels(ParsedLevels(cols)).value);
  }

  lemma {:induction false} PerfectColumn(ts: seq<Num>, q: real)
    requires forall i :: 0 <= i < |ts| ==> ts[i].Fin?
    ensures ColumnLoss(ts, ts, q) == Fin(0.0)
  {
    var l := PinballLosses(ts, ts, q);
    forall i | 0 <= i < |l| ensures l[i] == Fin(0.0) {
      assert Sub(ts[i], ts[i]) == Fin(0.0);
    }
    ZeroSum(l);
  }

  lemma {:induction false} ZeroSum(s: seq<Num>)
    requires forall i :: 0 <= i < |s| ==> s[i] == Fin(0.0)
    ensures NpSum(s) == Fin(0.0)
  {
    if s != [] {
      ZeroSum(s[1..]);
    }
  }

  /** The example's predictions: a median column and a "mean" column, for one row of series `x`. */
  function ExampleForecast(x: ItemId): Frame {
    Frame([Key(x, 0)], [Column("0.5", [Fin(8.0)]), Column("mean", [Fin(9.0)])])
  }

  lemma {:induction false} ExampleLevels(x: ItemId)
    ensures QuantileColumns(ExampleForecast(x).columns) == [Column("0.5", [Fin(8.0)])]
    ensures Levels(ParsedLevels([Column("0.5", [Fin(8.0)])])) == Ok([0.5])
  {
    var cs := ExampleForecast(x).columns;
    assert cs[1..] == [Column("mean", [Fin(9.0)])];
    assert cs[1..][1..] == [];
    var p := ParsedLevels([Column("0.5", [Fin(8.0)])]);
    ParseMedianLevel();
    assert p == [Ok(0.5)];
    assert p[1..] == [];
    assert Levels(p[1..]) == Ok([]);
    assert [0.5] + [] == [0.5];
    assert Levels(p) == Ok([0.5] + []);
  }

  lemma {:induction false} ExampleColumnLoss()
    ensures ColumnLoss([Fin(10.0)], [Fin(8.0)], 0.5) == Fin(1.0)
  {
    var l := PinballLosses([Fin(10.0)], [Fin(8.0)], 0.5);
    assert l == [Fin(1.0)];
    assert l[1..] == [];
  }

  lemma {:induction false} ExampleScale()
    ensures NpSum(AbsAll([Fin(10.0)])) == Fin(10.0)
  {
    assert AbsAll([Fin(10.0)]) == [Fin(10.0)];
    assert [Fin(10.0)][1..] == [];
  }

  /** Truth 10, median forecast 8 (and a "mean" column that plays no part): the loss is 0.2. */
  lemma {:induction false} WQuantileLossExample(x: ItemId)
    ensures MeanWeightedQuantileLoss([Fin(10.0)], ExampleForecast(x)) == Ok(Fin(0.2))
  {
    ExampleLevels(x);
    ExampleTwiceMean();
  }

  lemma {:induction false} ExampleTwiceMean()
    ensures TwiceMeanScaledLoss([Fin(10.0)], [Column("0.5", [Fin(8.0)])], [0.5]) == Fin(0.2)
  {
    var cols := [Column("0.5", [Fin(8.0)])];
    ExampleColumnLoss();
    ExampleScale();
    var losses := ScaledLosses([Fin(10.0)], cols, [0.5], Fin(10.0));
    assert losses == [Fin(0.1)];
    assert NpSum(losses) == Fin(0.1) by {
      assert losses[1..] == [];
    }
  }
}
