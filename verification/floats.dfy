/** IEEE doubles as far as the wrapper relies on them: a value is a real number
    or NaN, and NaN absorbs every arithmetic operation. Rounding is not modelled. */
module Floats {

  datatype Num = Real(v: real) | NaN

  function Sub(a: Num, b: Num): (r: Num)
    ensures r.Real? <==> a.Real? && b.Real?
    ensures r.Real? ==> r.v == a.v - b.v
  {
    if a.Real? && b.Real? then Real(a.v - b.v) else NaN
  }

  function Abs(a: Num): (r: Num)
    ensures r.Real? <==> a.Real?
    ensures r.Real? ==> r.v >= 0.0 && (r.v == a.v || r.v == -a.v)
  {
    match a
    case NaN => NaN
    case Real(x) => Real(if x < 0.0 then -x else x)
  }

  /** The value of a number, and 0.0 for NaN; used where no NaN is left. */
  function ValueOr0(x: Num): real
  {
    if x.Real? then x.v else 0.0
  }

  /** The values of a vector, NaN read as 0.0. */
  function Values(xs: seq<Num>): (r: seq<real>)
    ensures |r| == |xs| && forall i :: 0 <= i < |xs| ==> r[i] == ValueOr0(xs[i])
  {
    seq(|xs|, i requires 0 <= i < |xs| => ValueOr0(xs[i]))
  }

  /** Left-to-right float sum, as `np.sum` reads it: NaN anywhere gives NaN,
      and otherwise the sum of the values. */
  function Sum(xs: seq<Num>): (r: Num)
    ensures r.Real? <==> forall i :: 0 <= i < |xs| ==> xs[i].Real?
    ensures r.Real? ==> r.v == RealSum(Values(xs))
  {
    if |xs| == 0 then Real(0.0)
    else
      assert Values(xs[..|xs| - 1]) == Values(xs)[..|xs| - 1];
      Add(Sum(xs[..|xs| - 1]), xs[|xs| - 1])
  }

  function Add(a: Num, b: Num): (r: Num)
    ensures r.Real? <==> a.Real? && b.Real?
    ensures r.Real? ==> r.v == a.v + b.v
  {
    if a.Real? && b.Real? then Real(a.v + b.v) else NaN
  }

  /** Float division by a count. `0.0 / 0` is NaN in numpy (with a warning);
      a non-zero numerator over zero (an infinity) never arises in the wrapper. */
  function Div(a: Num, n: nat): (r: Num)
    requires n == 0 ==> a.NaN? || a == Real(0.0)
    ensures r.Real? <==> a.Real? && n > 0
    ensures r.Real? ==> r.v * n as real == a.v
  {
    if a.NaN? || n == 0 then NaN else Real(a.v / n as real)
  }

  /** `np.mean`: the sum divided by the count; the mean of nothing is NaN. */
  function Mean(xs: seq<Num>): (r: Num)
    ensures |xs| == 0 ==> r.NaN?
    ensures r.Real? <==> |xs| > 0 && forall i :: 0 <= i < |xs| ==> xs[i].Real?
    ensures r.Real? ==> r.v * |xs| as real == RealSum(Values(xs))
  {
    Div(Sum(xs), |xs|)
  }

  /** Sum of plain reals (used where no NaN can occur). */
  function RealSum(xs: seq<real>): real
  {
    if |xs| == 0 then 0.0 else RealSum(xs[..|xs| - 1]) + xs[|xs| - 1]
  }

  lemma {:induction false} RealSumNonNegative(xs: seq<real>)
    requires forall i :: 0 <= i < |xs| ==> xs[i] >= 0.0
    ensures RealSum(xs) >= 0.0
  {
    if |xs| > 0 {
      RealSumNonNegative(xs[..|xs| - 1]);
    }
  }

  lemma {:induction false} RealSumZero(xs: seq<real>)
    requires forall i :: 0 <= i < |xs| ==> xs[i] == 0.0
    ensures RealSum(xs) == 0.0
  {
    if |xs| > 0 {
      RealSumZero(xs[..|xs| - 1]);
    }
  }

  /** The mean of non-negative numbers is non-negative. */
  lemma MeanNonNegative(xs: seq<Num>)
    requires forall i :: 0 <= i < |xs| ==> xs[i].Real? && xs[i].v >= 0.0
    ensures Mean(xs).Real? ==> Mean(xs).v >= 0.0
  {
    if |xs| > 0 {
      RealSumNonNegative(Values(xs));
      PositiveQuotient(Mean(xs).v, |xs| as real, RealSum(Values(xs)));
    }
  }

  lemma PositiveQuotient(q: real, n: real, s: real)
    requires n > 0.0 && s >= 0.0 && q * n == s
    ensures q >= 0.0
  {
    assert q == s / n;
  }

  /** The mean of zeros is zero. */
  lemma MeanOfZeros(xs: seq<Num>)
    requires |xs| > 0 && forall i :: 0 <= i < |xs| ==> xs[i] == Real(0.0)
    ensures Mean(xs) == Real(0.0)
  {
    SumOfZeros(xs);
    MeanOfZeroSum(xs);
  }

  lemma {:induction false} SumOfZeros(xs: seq<Num>)
    requires forall i :: 0 <= i < |xs| ==> xs[i] == Real(0.0)
    ensures Sum(xs) == Real(0.0)
  {
    if |xs| > 0 {
      SumOfZeros(xs[..|xs| - 1]);
    }
  }

  lemma MeanOfZeroSum(xs: seq<Num>)
    requires |xs| > 0 && Sum(xs) == Real(0.0)
    ensures Mean(xs) == Real(0.0)
  {
  }
}
