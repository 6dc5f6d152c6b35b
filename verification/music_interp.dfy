/** `np.interp(x, xp, fp, left=NaN)` over exact reals: piecewise-linear
    between the sample points, NaN left of the first, the last value right of
    the last. numpy requires `xp` increasing and does not check it. */
module Interp {
  import opened Wrappers
  import opened Floats
  import opened Seqs

  /** The segment [xp[j], xp[j+1]) that holds `x`. */
  function Segment(x: real, xp: seq<real>): (j: nat)
    requires |xp| >= 2 && StrictlyIncreasing(xp)
    requires xp[0] <= x < xp[|xp| - 1]
    ensures j + 1 < |xp| && xp[j] <= x < xp[j + 1]
  {
    if xp[|xp| - 2] <= x then |xp| - 2
    else Segment(x, xp[..|xp| - 1])
  }

  /** One interpolated value. */
  function InterpAt(x: real, xp: seq<real>, fp: seq<real>): (r: Num)
    requires |xp| == |fp| && |xp| > 0 && StrictlyIncreasing(xp)
    ensures r.NaN? <==> x < xp[0]
    ensures x >= xp[|xp| - 1] ==> r == Real(fp[|fp| - 1])
    ensures xp[0] <= x < xp[|xp| - 1] ==> r.Real? && Between(r.v, fp[Segment(x, xp)], fp[Segment(x, xp) + 1])
    ensures xp[0] <= x < xp[|xp| - 1] ==>
      var j := Segment(x, xp);
      (r.v - fp[j]) * (xp[j + 1] - xp[j]) == (fp[j + 1] - fp[j]) * (x - xp[j])
  {
    if x < xp[0] then NaN
    else if x >= xp[|xp| - 1] then Real(fp[|fp| - 1])
    else
      var j := Segment(x, xp);
      var v := Linear(x, xp[j], xp[j + 1], fp[j], fp[j + 1]);
      Real(v)
  }

  /** numpy's formula on one segment: `slope * (x - xp[j]) + fp[j]`. */
  function Linear(x: real, x0: real, x1: real, y0: real, y1: real): (v: real)
    requires x0 <= x < x1
    ensures Between(v, y0, y1)
    ensures x == x0 ==> v == y0
    ensures (v - y0) * (x1 - x0) == (y1 - y0) * (x - x0)
  {
    LinearBetween(x, x0, x1, y0, y1);
    SlopeTimesRun(y1 - y0, x1 - x0, x - x0);
    (y1 - y0) / (x1 - x0) * (x - x0) + y0
  }

  predicate Between(v: real, a: real, b: real)
  {
    (a <= v <= b) || (b <= v <= a)
  }

  lemma LinearBetween(x: real, x0: real, x1: real, y0: real, y1: real)
    requires x0 <= x < x1
    ensures Between((y1 - y0) / (x1 - x0) * (x - x0) + y0, y0, y1)
  {
    var t := (x - x0) / (x1 - x0);
    FractionBelowOne(x - x0, x1 - x0);
    Regroup(y1 - y0, x1 - x0, x - x0);
    ScaleBetween(t, y1 - y0);
  }

  lemma FractionBelowOne(a: real, b: real)
    requires 0.0 <= a < b
    ensures 0.0 <= a / b < 1.0
  {
  }

  lemma Regroup(d: real, b: real, a: real)
    requires b > 0.0
    ensures d / b * a == a / b * d
  {
  }

  /** The point lies on the line through the segment's end points. */
  lemma SlopeTimesRun(d: real, b: real, a: real)
    requires b > 0.0
    ensures d / b * a * b == d * a
  {
    assert d / b * b == d;
  }

  lemma ScaleBetween(t: real, d: real)
    requires 0.0 <= t <= 1.0
    ensures (d >= 0.0 ==> 0.0 <= t * d <= d) && (d < 0.0 ==> d <= t * d <= 0.0)
  {
    if d >= 0.0 {
      assert t * d <= 1.0 * d;
    } else {
      assert t * (-d) <= 1.0 * (-d);
    }
  }

  /** At a sample point the interpolant takes that point's value. */
  lemma InterpAtSamplePoint(xp: seq<real>, fp: seq<real>, i: nat)
    requires |xp| == |fp| && i < |xp| && StrictlyIncreasing(xp)
    ensures InterpAt(xp[i], xp, fp) == Real(fp[i])
  {
    if i < |xp| - 1 {
      var j := Segment(xp[i], xp);
      assert j == i by {
        assert xp[j] <= xp[i] < xp[j + 1];
        assert !(i < j) && !(j + 1 <= i);
      }
      assert xp[0] <= xp[i] by {
        if i > 0 {
          assert xp[0] < xp[i];
        }
      }
    }
  }

  /** `np.interp` over a vector of query points; an empty or mismatched
      table of sample points raises ValueError. */
  function InterpAll(xs: seq<real>, xp: seq<real>, fp: seq<real>): (r: Result<seq<Num>>)
    requires StrictlyIncreasing(xp)
    ensures r.Err? <==> |xp| == 0 || |xp| != |fp|
    ensures r.Err? ==> r.failure == ValueError
    ensures r.Ok? ==> |r.value| == |xs|
    ensures r.Ok? ==> forall i :: 0 <= i < |xs| ==> r.value[i] == InterpAt(xs[i], xp, fp)
  {
    if |xp| == 0 || |xp| != |fp| then Err(ValueError)
    else Ok(seq(|xs|, i requires 0 <= i < |xs| => InterpAt(xs[i], xp, fp)))
  }
}
