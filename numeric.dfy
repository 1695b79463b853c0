/**
 * Double-precision values as the evaluator sees them: an exact real, one of the two
 * infinities, or NaN. Arithmetic follows the IEEE-754 rules for the special values
 * (NaN absorbs, inf - inf and 0 * inf and 0 / 0 are NaN, x / 0 is a signed infinity);
 * rounding and the sign of zero are not modelled.
 */
module Numeric {

  datatype Num = Fin(r: real) | PosInf | NegInf | NaN

  /** Neither negative nor -inf: the orientation of every error measure. */
  predicate NeverNegative(a: Num) {
    !a.NegInf? && (a.Fin? ==> a.r >= 0.0)
  }

  predicate IsZero(a: Num) {
    a.Fin? && a.r == 0.0
  }

  predicate IsPositive(a: Num) {
    a.PosInf? || (a.Fin? && a.r > 0.0)
  }

  function Neg(a: Num): Num {
    match a
    case Fin(x) => Fin(-x)
    case PosInf => NegInf
    case NegInf => PosInf
    case NaN => NaN
  }

  /** IEEE addition: NaN absorbs and inf + -inf is NaN; finite operands add exactly. */
  function Add(a: Num, b: Num): (r: Num)
    ensures r.NaN? <==> a.NaN? || b.NaN? || (a.PosInf? && b.NegInf?) || (a.NegInf? && b.PosInf?)
    ensures r.PosInf? <==> !r.NaN? && (a.PosInf? || b.PosInf?)
    ensures r.NegInf? <==> !r.NaN? && (a.NegInf? || b.NegInf?)
    ensures a.Fin? && b.Fin? ==> r == Fin(a.r + b.r)
  {
    if a.NaN? || b.NaN? then NaN
    else if a.Fin? && b.Fin? then Fin(a.r + b.r)
    else if (a.PosInf? && b.NegInf?) || (a.NegInf? && b.PosInf?) then NaN
    else if a.PosInf? || b.PosInf? then PosInf
    else NegInf
  }

  /** IEEE subtraction: inf - inf is NaN; finite operands subtract exactly. */
  function Sub(a: Num, b: Num): (r: Num)
    ensures r.NaN? <==> a.NaN? || b.NaN? || (a.PosInf? && b.PosInf?) || (a.NegInf? && b.NegInf?)
    ensures r.PosInf? <==> !r.NaN? && (a.PosInf? || b.NegInf?)
    ensures r.NegInf? <==> !r.NaN? && (a.NegInf? || b.PosInf?)
    ensures a.Fin? && b.Fin? ==> r == Fin(a.r - b.r)
  {
    Add(a, Neg(b))
  }

  /** IEEE multiplication: 0 * inf is NaN, the sign of an infinite product is the product of the signs. */
  function Mul(a: Num, b: Num): (r: Num)
    ensures r.NaN? <==> a.NaN? || b.NaN? || (IsZero(a) && !b.Fin?) || (IsZero(b) && !a.Fin?)
    ensures a.Fin? && b.Fin? ==> r == Fin(a.r * b.r)
    ensures !r.NaN? && !(a.Fin? && b.Fin?) ==> (r.PosInf? || r.NegInf?) && (r.PosInf? <==> IsPositive(a) == IsPositive(b))
    ensures IsPositive(a) && b.PosInf? ==> r.PosInf?
  {
    if a.NaN? || b.NaN? then NaN
    else if a.Fin? && b.Fin? then Fin(a.r * b.r)
    else if IsZero(a) || IsZero(b) then NaN
    else if IsPositive(a) == IsPositive(b) then PosInf
    else NegInf
  }

  /** Division; a zero divisor is taken to be +0. */
  function Div(a: Num, b: Num): (r: Num)
    ensures a.NaN? || b.NaN? ==> r.NaN?
    ensures a.Fin? && b.Fin? && b.r != 0.0 ==> r == Fin(a.r / b.r)
    ensures a.Fin? && b.Fin? && b.r == 0.0 ==>
              (r.NaN? <==> a.r == 0.0) && (r.PosInf? <==> a.r > 0.0) && (r.NegInf? <==> a.r < 0.0)
    ensures a.Fin? && (b.PosInf? || b.NegInf?) ==> r == Fin(0.0)
    ensures !a.Fin? && b.Fin? && b.r >= 0.0 ==> r == a
    ensures (a.PosInf? || a.NegInf?) && b.Fin? && b.r < 0.0 ==> (r.PosInf? <==> a.NegInf?) && (r.NegInf? <==> a.PosInf?)
    ensures !a.Fin? && !b.Fin? ==> r.NaN?
  {
    if a.NaN? || b.NaN? then NaN
    else if a.Fin? && b.Fin? then
      if b.r != 0.0 then Fin(a.r / b.r)
      else if a.r > 0.0 then PosInf
      else if a.r < 0.0 then NegInf
      else NaN
    else if b.Fin? then (if b.r >= 0.0 then a else Neg(a))
    else if a.Fin? then Fin(0.0)
    else NaN
  }

  /** The absolute value of a real. */
  function RealAbs(x: real): real {
    if x < 0.0 then -x else x
  }

  function Abs(a: Num): (r: Num)
    ensures NeverNegative(r)
    ensures r.NaN? <==> a.NaN?
    ensures r.Fin? <==> a.Fin?
    ensures a.Fin? ==> r == Fin(RealAbs(a.r))
  {
    match a
    case Fin(x) => Fin(RealAbs(x))
    case PosInf => PosInf
    case NegInf => PosInf
    case NaN => NaN
  }

  /** The comparison `a <= b`; every comparison with NaN is false. */
  predicate Le(a: Num, b: Num)
    ensures Le(a, b) ==> !a.NaN? && !b.NaN?
    ensures a.Fin? && b.Fin? ==> (Le(a, b) <==> a.r <= b.r)
    ensures !a.NaN? && !b.NaN? && !(a.Fin? && b.Fin?) ==> (Le(a, b) <==> a.NegInf? || b.PosInf?)
  {
    if a.NaN? || b.NaN? then false
    else if a.Fin? && b.Fin? then a.r <= b.r
    else a.NegInf? || b.PosInf?
  }

  /** Every entry is finite. */
  predicate AllFinite(s: seq<Num>) {
    forall i :: 0 <= i < |s| ==> s[i].Fin?
  }

  /** The sum of the finite entries of `s` (the others count as zero). */
  function FinSum(s: seq<Num>): real {
    if s == [] then 0.0 else (if s[0].Fin? then s[0].r else 0.0) + FinSum(s[1..])
  }

  /**
   * numpy's sum: NaN when an entry is NaN or both infinities occur, an infinity when
   * only that infinity occurs, otherwise the exact sum of the entries.
   */
  function NpSum(s: seq<Num>): (r: Num)
    ensures r.NaN? <==> NaN in s || (PosInf in s && NegInf in s)
    ensures r.PosInf? <==> NaN !in s && PosInf in s && NegInf !in s
    ensures r.NegInf? <==> NaN !in s && NegInf in s && PosInf !in s
    ensures r.Fin? ==> r.r == FinSum(s)
  {
    if s == [] then Fin(0.0)
    else
      assert s == [s[0]] + s[1..];
      Add(s[0], NpSum(s[1..]))
  }

  /** The absolute value of every entry. */
  function AbsAll(d: seq<Num>): (r: seq<Num>)
    ensures |r| == |d| && forall i :: 0 <= i < |d| ==> r[i] == Abs(d[i])
  {
    seq(|d|, i requires 0 <= i < |d| => Abs(d[i]))
  }

  /** The entries of `s` that are not NaN, in order. */
  function DropNaN(s: seq<Num>): (t: seq<Num>)
    ensures |t| <= |s|
    ensures forall a :: a in t ==> a in s && !a.NaN?
    ensures forall a :: a in s && !a.NaN? ==> a in t
    ensures FinSum(t) == FinSum(s)
    ensures |s| == 1 ==> t == if s[0].NaN? then [] else s
  {
    if s == [] then []
    else
      assert s == [s[0]] + s[1..];
      if s[0].NaN? then DropNaN(s[1..])
      else
        var t := [s[0]] + DropNaN(s[1..]);
        assert t[0] == s[0] && t[1..] == DropNaN(s[1..]);
        t
  }

  /**
   * pandas' mean with NaN skipped: NaN when nothing but NaN is left or both infinities
   * occur, an infinity when only that one occurs, otherwise the average of the non-NaN
   * entries.
   */
  function Mean(s: seq<Num>): (r: Num)
    ensures r.NaN? <==> DropNaN(s) == [] || (PosInf in s && NegInf in s)
    ensures r.PosInf? <==> DropNaN(s) != [] && PosInf in s && NegInf !in s
    ensures r.NegInf? <==> DropNaN(s) != [] && NegInf in s && PosInf !in s
    ensures r.Fin? ==> |DropNaN(s)| > 0 && r.r == FinSum(s) / (|DropNaN(s)| as real)
  {
    var t := DropNaN(s);
    if |t| == 0 then NaN else Div(NpSum(t), Fin(|t| as real))
  }

  /** The mean of finite entries, at least one, is their sum over their number. */
  lemma {:induction false} MeanOfFinite(s: seq<Num>)
    requires s != [] && AllFinite(s)
    ensures Mean(s) == Fin(FinSum(s) / (|s| as real))
  {
    DropNaNOfNumbers(s);
    assert s[0] in s;
  }

  /**
   * numpy's mean: NaN for no entries, otherwise the numpy sum over the count, so NaN, an
   * infinity or a finite value exactly as the numpy sum is.
   */
  function NpMean(s: seq<Num>): (r: Num)
    ensures s == [] ==> r.NaN?
    ensures s != [] ==> (r.NaN? <==> NaN in s || (PosInf in s && NegInf in s))
    ensures s != [] ==> (r.PosInf? <==> NaN !in s && PosInf in s && NegInf !in s)
    ensures s != [] ==> (r.NegInf? <==> NaN !in s && NegInf in s && PosInf !in s)
    ensures s != [] && r.Fin? ==> r.r == FinSum(s) / (|s| as real)
    ensures s != [] && (forall i :: 0 <= i < |s| ==> s[i].Fin?) ==> r == Fin(FinSum(s) / (|s| as real))
  {
    if |s| == 0 then NaN else Div(NpSum(s), Fin(|s| as real))
  }

  /** Without NaN entries nothing is dropped. */
  lemma {:induction false} DropNaNOfNumbers(t: seq<Num>)
    requires forall i :: 0 <= i < |t| ==> !t[i].NaN?
    ensures DropNaN(t) == t
  {
    if t != [] {
      DropNaNOfNumbers(t[1..]);
      assert t == [t[0]] + t[1..];
    }
  }

  /** Dropping NaN distributes over concatenation: it keeps the order and the count of the rest. */
  lemma {:induction false} DropNaNConcat(a: seq<Num>, b: seq<Num>)
    ensures DropNaN(a + b) == DropNaN(a) + DropNaN(b)
  {
    if a == [] {
      assert a + b == b;
    } else {
      assert (a + b)[0] == a[0] && (a + b)[1..] == a[1..] + b;
      DropNaNConcat(a[1..], b);
    }
  }

  // ---------------------------------------------------------------- bounds

  /** Every entry that is not NaN is a finite value in [lo, hi]. */
  predicate WithinOrNaN(s: seq<Num>, lo: real, hi: real) {
    forall i :: 0 <= i < |s| && !s[i].NaN? ==> s[i].Fin? && lo <= s[i].r <= hi
  }

  lemma {:induction false} FinSumBounds(s: seq<Num>, lo: real, hi: real)
    requires forall i :: 0 <= i < |s| ==> s[i].Fin? && lo <= s[i].r <= hi
    ensures (|s| as real) * lo <= FinSum(s) <= (|s| as real) * hi
  {
    if s != [] {
      FinSumBounds(s[1..], lo, hi);
    }
  }

  lemma {:induction false} FinSumNonNegative(s: seq<Num>)
    requires forall i :: 0 <= i < |s| ==> NeverNegative(s[i])
    ensures FinSum(s) >= 0.0
  {
    if s != [] {
      FinSumNonNegative(s[1..]);
    }
  }

  lemma {:induction false} DivBounds(x: real, n: real, lo: real, hi: real)
    requires n > 0.0 && n * lo <= x <= n * hi
    ensures lo <= x / n <= hi
  {
    var q := x / n;
    assert q * n == x;
    assert (q - lo) * n >= 0.0;
    assert (hi - q) * n >= 0.0;
  }

  lemma {:induction false} DropNaNWithin(s: seq<Num>, lo: real, hi: real)
    requires WithinOrNaN(s, lo, hi)
    ensures PosInf !in s && NegInf !in s
    ensures forall i :: 0 <= i < |DropNaN(s)| ==> DropNaN(s)[i].Fin? && lo <= DropNaN(s)[i].r <= hi
  {
    var t := DropNaN(s);
    forall i | 0 <= i < |t| ensures t[i].Fin? && lo <= t[i].r <= hi {
      assert t[i] in s;
    }
  }

  lemma {:induction false} AverageWithin(t: seq<Num>, lo: real, hi: real)
    requires |t| > 0 && forall i :: 0 <= i < |t| ==> t[i].Fin? && lo <= t[i].r <= hi
    ensures lo <= FinSum(t) / (|t| as real) <= hi
  {
    FinSumBounds(t, lo, hi);
    DivBounds(FinSum(t), |t| as real, lo, hi);
  }

  /** An average of values in [lo, hi] stays in [lo, hi]. */
  lemma {:induction false} MeanWithin(s: seq<Num>, lo: real, hi: real)
    requires WithinOrNaN(s, lo, hi)
    ensures Mean(s).NaN? || (Mean(s).Fin? && lo <= Mean(s).r <= hi)
  {
    DropNaNWithin(s, lo, hi);
    if Mean(s).Fin? {
      AverageWithin(DropNaN(s), lo, hi);
    }
  }

  /** A pandas mean of values that are never negative is never negative. */
  lemma {:induction false} MeanNeverNegative(s: seq<Num>)
    requires forall i :: 0 <= i < |s| ==> NeverNegative(s[i])
    ensures NeverNegative(Mean(s))
  {
    assert NegInf !in s;
    if Mean(s).Fin? {
      var t := DropNaN(s);
      forall i | 0 <= i < |t| ensures NeverNegative(t[i]) {
        assert t[i] in s;
      }
      AverageNonNegative(t);
    }
  }

  lemma {:induction false} AverageNonNegative(t: seq<Num>)
    requires |t| > 0 && forall i :: 0 <= i < |t| ==> NeverNegative(t[i])
    ensures FinSum(t) / (|t| as real) >= 0.0
  {
    FinSumNonNegative(t);
  }

  /** A numpy sum of values that are never negative is never negative. */
  lemma {:induction false} NpSumNeverNegative(s: seq<Num>)
    requires forall i :: 0 <= i < |s| ==> NeverNegative(s[i])
    ensures NeverNegative(NpSum(s))
  {
    FinSumNonNegative(s);
    assert NegInf !in s;
  }

  lemma {:induction false} DivNeverNegative(a: Num, b: Num)
    requires NeverNegative(a) && NeverNegative(b)
    ensures NeverNegative(Div(a, b))
  {
  }

  /** A numpy mean of values that are never negative is never negative. */
  lemma {:induction false} NpMeanNeverNegative(s: seq<Num>)
    requires forall i :: 0 <= i < |s| ==> NeverNegative(s[i])
    ensures NeverNegative(NpMean(s))
  {
    if s != [] {
      NpSumNeverNegative(s);
      DivNeverNegative(NpSum(s), Fin(|s| as real));
    }
  }

  /** The NaN entries of a sequence never change its pandas mean. */
  lemma {:induction false} MeanIgnoresNaN(s: seq<Num>, t: seq<Num>)
    requires DropNaN(s) == DropNaN(t)
    ensures Mean(s) == Mean(t)
  {
    assert PosInf in s <==> PosInf in DropNaN(s);
    assert NegInf in s <==> NegInf in DropNaN(s);
    assert PosInf in t <==> PosInf in DropNaN(t);
    assert NegInf in t <==> NegInf in DropNaN(t);
  }

  /** The mean of zeros is zero. */
  lemma {:induction false} MeanOfZeros(s: seq<Num>)
    requires |s| > 0 && forall i :: 0 <= i < |s| ==> s[i] == Fin(0.0)
    ensures Mean(s) == Fin(0.0)
  {
    assert WithinOrNaN(s, 0.0, 0.0);
    MeanWithin(s, 0.0, 0.0);
    assert s[0] in s;
    assert PosInf !in s;
  }
}
