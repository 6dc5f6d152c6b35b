/** The DOA scores of `metrics.py`: the masking of the prediction, the mean
    absolute errors per angle, and the assignment cost between ground-truth and
    predicted directions on the sphere. Sine, cosine and arc cosine are
    parameters; `linear_sum_assignment` is a parameter whose promise is stated
    as a predicate. */
module Metrics {
  import opened Wrappers
  import opened Floats

  /** One row of a DOA array: azimuth and elevation in radians. */
  datatype Doa = Doa(az: Num, el: Num)

  predicate Finite(d: Doa)
  {
    d.az.Real? && d.el.Real?
  }

  // ------------------------------------------------------------------ masks

  /** `predicted_doa[~np.isnan(predicted_doa)] = 0.0` on one entry. */
  function ZeroUnlessNaN(x: Num): (r: Num)
    ensures r.NaN? <==> x.NaN?
    ensures r.Real? ==> r.v == 0.0
  {
    if x.NaN? then NaN else Real(0.0)
  }

  /** Lines 9-10 as written: every entry that is a number becomes 0.0, and
      NaN entries stay NaN. */
  function MaskAsWritten(p: seq<Doa>): (r: seq<Doa>)
    ensures |r| == |p|
    ensures forall i :: 0 <= i < |p| ==> r[i] == Doa(ZeroUnlessNaN(p[i].az), ZeroUnlessNaN(p[i].el))
  {
    seq(|p|, i requires 0 <= i < |p| => Doa(ZeroUnlessNaN(p[i].az), ZeroUnlessNaN(p[i].el)))
  }

  /** Two predictions with NaN in the same places mask to the same array:
      the masked prediction keeps nothing of the predicted angles. */
  lemma MaskForgetsValues(p: seq<Doa>, q: seq<Doa>)
    requires |p| == |q|
    requires forall i :: 0 <= i < |p| ==> (p[i].az.NaN? <==> q[i].az.NaN?) && (p[i].el.NaN? <==> q[i].el.NaN?)
    ensures MaskAsWritten(p) == MaskAsWritten(q)
  {
    assert forall i :: 0 <= i < |p| ==> MaskAsWritten(p)[i] == MaskAsWritten(q)[i];
  }

  /** NaN becomes 0.0 and every number is kept (`np.nan_to_num`). */
  function ZeroIfNaN(x: Num): (r: Num)
    ensures r.Real?
    ensures x.Real? ==> r == x
    ensures x.NaN? ==> r == Real(0.0)
  {
    if x.NaN? then Real(0.0) else x
  }

  /** The mask the scoring evidently needs: NaN predictions count as 0.0 and
      real predictions are scored as they are. */
  function MaskIntended(p: seq<Doa>): (r: seq<Doa>)
    ensures |r| == |p|
    ensures forall i :: 0 <= i < |p| ==> Finite(r[i])
    ensures forall i :: 0 <= i < |p| && Finite(p[i]) ==> r[i] == p[i]
  {
    seq(|p|, i requires 0 <= i < |p| => Doa(ZeroIfNaN(p[i].az), ZeroIfNaN(p[i].el)))
  }

  // ------------------------------------------------------------ mean errors

  /** numpy broadcasting of two vectors of lengths `n` and `m`. */
  function Broadcast(n: nat, m: nat): (r: Result<nat>)
    ensures r.Ok? <==> n == m || n == 1 || m == 1
    ensures r.Err? ==> r.failure == ValueError
    ensures r.Ok? && n == m ==> r.value == n
  {
    if n == m then Ok(n)
    else if n == 1 then Ok(m)
    else if m == 1 then Ok(n)
    else Err(ValueError)
  }

  /** Element `i` of a vector stretched by broadcasting. */
  function At(xs: seq<Num>, i: nat): Num
    requires |xs| > 0
  {
    if |xs| == 1 then xs[0] else if i < |xs| then xs[i] else NaN
  }

  /** `np.abs(xs - ys)`. */
  function AbsErrors(xs: seq<Num>, ys: seq<Num>): (r: Result<seq<Num>>)
    ensures r.Ok? <==> Broadcast(|xs|, |ys|).Ok?
    ensures r.Err? ==> r.failure == ValueError
    ensures r.Ok? && |xs| == |ys| ==> (|r.value| == |xs| && forall i :: 0 <= i < |xs| ==> r.value[i] == Abs(Sub(xs[i], ys[i])))
  {
    var n :- Broadcast(|xs|, |ys|);
    if n == 0 then Ok([])
    else Ok(seq(n, i requires 0 <= i < n => Abs(Sub(At(xs, i), At(ys, i)))))
  }

  /** The absolute differences of two equally long columns, NaN read as 0.0. */
  function AbsDiffs(xs: seq<Num>, ys: seq<Num>): (r: seq<real>)
    requires |xs| == |ys|
  {
    seq(|xs|, i requires 0 <= i < |xs| => RealAbs(ValueOr0(xs[i]) - ValueOr0(ys[i])))
  }

  /** `np.mean(np.abs(xs - ys))`: for equally long columns, NaN when either
      holds one, and otherwise the mean of the absolute differences. */
  function MeanAbsError(xs: seq<Num>, ys: seq<Num>): (r: Result<Num>)
    ensures r.Ok? <==> Broadcast(|xs|, |ys|).Ok?
    ensures r.Err? ==> r.failure == ValueError
    ensures r.Ok? && |xs| == |ys| ==>
      (r.value.Real? <==> |xs| > 0 && forall i :: 0 <= i < |xs| ==> xs[i].Real? && ys[i].Real?)
    ensures r.Ok? && |xs| == |ys| && r.value.Real? ==> r.value.v * |xs| as real == RealSum(AbsDiffs(xs, ys))
  {
    var e :- AbsErrors(xs, ys);
    assert |xs| == |ys| && Mean(e).Real? ==> Values(e) == AbsDiffs(xs, ys);
    Ok(Mean(e))
  }

  /** A mean absolute error is never negative. */
  lemma MeanAbsErrorNonNegative(xs: seq<Num>, ys: seq<Num>)
    requires MeanAbsError(xs, ys).Ok? && MeanAbsError(xs, ys).value.Real?
    ensures MeanAbsError(xs, ys).value.v >= 0.0
  {
    var e := AbsErrors(xs, ys).value;
    assert forall i :: 0 <= i < |e| ==> e[i].Real? && e[i].v >= 0.0;
    MeanNonNegative(e);
  }

  /** Identical, NaN-free, non-empty columns have zero mean absolute error. */
  lemma MeanAbsErrorOfEqual(xs: seq<Num>)
    requires |xs| > 0 && forall i :: 0 <= i < |xs| ==> xs[i].Real?
    ensures MeanAbsError(xs, xs) == Ok(Real(0.0))
  {
    var e := AbsErrors(xs, xs).value;
    assert forall i :: 0 <= i < |e| ==> e[i] == Real(0.0);
    MeanOfZeros(e);
  }

  // ------------------------------------------------------ spherical distance

  /** The trigonometry numpy supplies. */
  datatype Trig = Trig(sin: real -> real, cos: real -> real, arccos: real -> real, pi: real)

  /** What the code relies on of the trigonometry: pi is positive, the
      Pythagorean identity, cos 0 = 1, and `arccos` maps [-1, 1] into [0, pi]
      with arccos 1 = 0. */
  ghost predicate Sound(t: Trig)
  {
    && t.pi > 0.0
    && (forall x :: t.sin(x) * t.sin(x) + t.cos(x) * t.cos(x) == 1.0)
    && t.cos(0.0) == 1.0
    && (forall x :: -1.0 <= x <= 1.0 ==> 0.0 <= t.arccos(x) <= t.pi)
    && t.arccos(1.0) == 0.0
  }

  function RealAbs(x: real): (r: real)
    ensures r >= 0.0 && (r == x || r == -x)
  {
    if x < 0.0 then -x else x
  }

  /** `np.clip(x, -1, 1)`. */
  function Clip(x: real): (r: real)
    ensures -1.0 <= r <= 1.0
    ensures -1.0 <= x <= 1.0 ==> r == x
    ensures x > 1.0 ==> r == 1.0
    ensures x < -1.0 ==> r == -1.0
  {
    if x < -1.0 then -1.0 else if x > 1.0 then 1.0 else x
  }

  /** Line 71: the cosine of the central angle between two directions given
      by azimuth and elevation. */
  function CosineTerm(az1: real, el1: real, az2: real, el2: real, t: Trig): real
  {
    t.sin(el1) * t.sin(el2) + t.cos(el1) * t.cos(el2) * t.cos(RealAbs(az1 - az2))
  }

  /** Lines 71-74 for one pair of rows: the great-circle angle in degrees;
      NaN in any coordinate gives NaN. */
  function SphericalDistance(a: Doa, b: Doa, t: Trig): (r: Num)
    requires t.pi > 0.0
    ensures r.Real? <==> Finite(a) && Finite(b)
  {
    if Finite(a) && Finite(b) then
      Real(t.arccos(Clip(CosineTerm(a.az.v, a.el.v, b.az.v, b.el.v, t))) * 180.0 / t.pi)
    else NaN
  }

  /** The distance does not depend on which direction comes first. */
  lemma SphericalDistanceSymmetric(a: Doa, b: Doa, t: Trig)
    requires t.pi > 0.0
    ensures SphericalDistance(a, b, t) == SphericalDistance(b, a, t)
  {
    if Finite(a) && Finite(b) {
      assert RealAbs(a.az.v - b.az.v) == RealAbs(b.az.v - a.az.v);
      assert CosineTerm(a.az.v, a.el.v, b.az.v, b.el.v, t) == CosineTerm(b.az.v, b.el.v, a.az.v, a.el.v, t);
    }
  }

  /** With sound trigonometry every finite distance lies in [0, 180] degrees. */
  lemma SphericalDistanceRange(a: Doa, b: Doa, t: Trig)
    requires Sound(t) && Finite(a) && Finite(b)
    ensures 0.0 <= SphericalDistance(a, b, t).v <= 180.0
  {
    var x := t.arccos(Clip(CosineTerm(a.az.v, a.el.v, b.az.v, b.el.v, t)));
    assert 0.0 <= x <= t.pi;
    DegreesRange(x, t.pi);
  }

  lemma DegreesRange(x: real, pi: real)
    requires pi > 0.0 && 0.0 <= x <= pi
    ensures 0.0 <= x * 180.0 / pi <= 180.0
  {
    var q := x / pi;
    assert x == q * pi;
    assert x * 180.0 == (q * 180.0) * pi;
    assert q <= 1.0;
  }

  /** A direction is at distance zero from itself. */
  lemma SphericalDistanceSelf(a: Doa, t: Trig)
    requires Sound(t) && Finite(a)
    ensures SphericalDistance(a, a, t) == Real(0.0)
  {
    var s, c := t.sin(a.el.v), t.cos(a.el.v);
    assert RealAbs(a.az.v - a.az.v) == 0.0;
    assert s * s + c * c == 1.0;
    assert CosineTerm(a.az.v, a.el.v, a.az.v, a.el.v, t) == 1.0;
  }

  // ------------------------------------------------------------- cost matrix

  /** Line 44: `[[x, y] for y in range(P) for x in range(G)]`. */
  function IndPairs(g: nat, p: nat): (r: seq<(nat, nat)>)
  {
    if p == 0 then [] else IndPairs(g, p - 1) + seq(g, x requires 0 <= x < g => (x, p - 1))
  }

  /** Every (gt, pred) index pair occurs, at position `y * G + x`, so exactly
      once; the ground-truth index varies fastest. */
  lemma {:induction false} IndPairsLayout(g: nat, p: nat)
    ensures |IndPairs(g, p)| == g * p
    ensures forall k :: 0 <= k < g * p ==>
      IndPairs(g, p)[k].0 < g && IndPairs(g, p)[k].1 < p && IndPairs(g, p)[k].1 * g + IndPairs(g, p)[k].0 == k
  {
    if p > 0 {
      IndPairsLayout(g, p - 1);
      assert g * (p - 1) + g == g * p;
      var r := IndPairs(g, p);
      forall k | g * (p - 1) <= k < g * p
        ensures r[k].0 < g && r[k].1 < p && r[k].1 * g + r[k].0 == k
      {
        var x := k - g * (p - 1);
        assert r[k] == (x, p - 1);
        assert (p - 1) * g == g * (p - 1);
      }
    }
  }

  /** The pair at position `y * G + x` is `(x, y)`. */
  lemma IndPairsAt(g: nat, p: nat, x: nat, y: nat)
    requires x < g && y < p
    ensures |IndPairs(g, p)| == g * p && y * g + x < g * p && IndPairs(g, p)[y * g + x] == (x, y)
  {
    IndPairsLayout(g, p);
    MulBound(x, y, g, p);
    var k := y * g + x;
    var q := IndPairs(g, p)[k];
    UniqueDigits(q.0, q.1, x, y, g);
  }

  lemma MulBound(x: nat, y: nat, g: nat, p: nat)
    requires x < g && y < p
    ensures y * g + x < g * p
  {
    assert y * g + x < y * g + g == (y + 1) * g;
    assert (y + 1) * g <= p * g;
  }

  /** Base-`g` digits are unique. */
  lemma UniqueDigits(x1: nat, y1: nat, x2: nat, y2: nat, g: nat)
    requires x1 < g && x2 < g && y1 * g + x1 == y2 * g + x2
    ensures x1 == x2 && y1 == y2
  {
    if y1 < y2 {
      DigitOrder(x1, y1, x2, y2, g);
    } else if y2 < y1 {
      DigitOrder(x2, y2, x1, y1, g);
    }
  }

  lemma DigitOrder(x1: nat, y1: nat, x2: nat, y2: nat, g: nat)
    requires x1 < g && y1 < y2
    ensures y1 * g + x1 < y2 * g + x2
  {
    assert y1 * g + x1 < (y1 + 1) * g <= y2 * g;
  }

  /** `np.zeros((G, P))`. */
  function Zeros(g: nat, p: nat): (m: seq<seq<Num>>)
    ensures |m| == g && forall x :: 0 <= x < g ==> m[x] == seq(p, y => Real(0.0))
  {
    seq(g, x => seq(p, y => Real(0.0)))
  }

  ghost predicate IsMatrix<T>(m: seq<seq<T>>, g: nat, p: nat)
  {
    |m| == g && forall x :: 0 <= x < g ==> |m[x]| == p
  }

  /** The distance vector of line 57: one entry per pair of `IndPairs`. */
  function PairDistance(gt: seq<Doa>, pred: seq<Doa>, t: Trig, k: nat): Num
    requires t.pi > 0.0 && k < |gt| * |pred|
  {
    IndPairsLayout(|gt|, |pred|);
    var q := IndPairs(|gt|, |pred|)[k];
    SphericalDistance(gt[q.0], pred[q.1], t)
  }

  /** Line 57 after `k` of the element assignments: the zero matrix with the
      first `k` pairs written. */
  function Scatter(gt: seq<Doa>, pred: seq<Doa>, t: Trig, k: nat): (m: seq<seq<Num>>)
    requires t.pi > 0.0 && k <= |gt| * |pred|
    ensures IsMatrix(m, |gt|, |pred|)
  {
    if k == 0 then Zeros(|gt|, |pred|)
    else
      var m := Scatter(gt, pred, t, k - 1);
      IndPairsLayout(|gt|, |pred|);
      var q := IndPairs(|gt|, |pred|)[k - 1];
      m[q.0 := m[q.0][q.1 := PairDistance(gt, pred, t, k - 1)]]
  }

  /** After `k` assignments, cell (x, y) holds its distance exactly when its
      pair came among the first `k`, and zero otherwise. */
  lemma {:induction false} ScatterCells(gt: seq<Doa>, pred: seq<Doa>, t: Trig, k: nat, x: nat, y: nat)
    requires t.pi > 0.0 && k <= |gt| * |pred| && x < |gt| && y < |pred|
    ensures Scatter(gt, pred, t, k)[x][y] ==
      if y * |gt| + x < k then SphericalDistance(gt[x], pred[y], t) else Real(0.0)
  {
    var g := |gt|;
    if k > 0 {
      ScatterCells(gt, pred, t, k - 1, x, y);
      IndPairsLayout(g, |pred|);
      var q := IndPairs(g, |pred|)[k - 1];
      if q == (x, y) {
        assert y * g + x == k - 1;
      } else {
        if y * g + x == k - 1 {
          UniqueDigits(q.0, q.1, x, y, g);
        }
      }
    }
  }

  /** Lines 43-57: the G x P cost matrix; it stays all zero when either list is
      empty, and otherwise is filled through the index pairs. */
  function CostMatrix(gt: seq<Doa>, pred: seq<Doa>, t: Trig): (m: seq<seq<Num>>)
    requires t.pi > 0.0
    ensures IsMatrix(m, |gt|, |pred|)
  {
    if |gt| > 0 && |pred| > 0 then Scatter(gt, pred, t, |gt| * |pred|)
    else Zeros(|gt|, |pred|)
  }

  /** Every cell of the scattered matrix holds the distance of its pair of
      rows. */
  lemma CostMatrixCells(gt: seq<Doa>, pred: seq<Doa>, t: Trig, x: nat, y: nat)
    requires t.pi > 0.0 && x < |gt| && y < |pred|
    ensures CostMatrix(gt, pred, t)[x][y] == SphericalDistance(gt[x], pred[y], t)
  {
    MulBound(x, y, |gt|, |pred|);
    ScatterCells(gt, pred, t, |gt| * |pred|, x, y);
  }

  // -------------------------------------------------------------- assignment

  /** The result of `linear_sum_assignment`, as (row, column) pairs. */
  type Assignment = seq<(nat, nat)>

  /** What `linear_sum_assignment` returns for a G x P matrix: min(G, P)
      pairs, rows strictly increasing, columns pairwise distinct, all in range. */
  ghost predicate IsAssignment(a: Assignment, g: nat, p: nat)
  {
    && |a| == (if g <= p then g else p)
    && (forall i :: 0 <= i < |a| ==> a[i].0 < g && a[i].1 < p)
    && (forall i, j :: 0 <= i < j < |a| ==> a[i].0 < a[j].0 && a[i].1 != a[j].1)
  }

  predicate InRange(m: seq<seq<real>>, a: Assignment)
  {
    forall i :: 0 <= i < |a| ==> a[i].0 < |m| && a[i].1 < |m[a[i].0]|
  }

  lemma FirstPairInRange(m: seq<seq<real>>, a: Assignment)
    requires InRange(m, a) && |a| > 0
    ensures a[0].0 < |m| && a[0].1 < |m[a[0].0]|
  {
  }

  /** Line 60: `cost_mat[row_ind, col_ind].sum()`. */
  function PairSum(m: seq<seq<real>>, a: Assignment): real
    requires InRange(m, a)
  {
    RealSum(seq(|a|, i requires 0 <= i < |a| => m[a[i].0][a[i].1]))
  }

  /** The solver's promise: an assignment of least total cost. */
  ghost predicate Optimal(m: seq<seq<real>>, g: nat, p: nat, a: Assignment)
  {
    && IsAssignment(a, g, p)
    && IsMatrix(m, g, p)
    && forall b: Assignment :: IsAssignment(b, g, p) ==> PairSum(m, a) <= PairSum(m, b)
  }

  /** The matrix with NaN replaced by 0; used once no entry is NaN. */
  function Reals(m: seq<seq<Num>>): (r: seq<seq<real>>)
    ensures |r| == |m| && forall x :: 0 <= x < |m| ==> |r[x]| == |m[x]|
  {
    seq(|m|, x requires 0 <= x < |m| => seq(|m[x]|, y requires 0 <= y < |m[x]| => if m[x][y].Real? then m[x][y].v else 0.0))
  }

  predicate HasNaN(m: seq<seq<Num>>)
  {
    exists x, y :: 0 <= x < |m| && 0 <= y < |m[x]| && m[x][y].NaN?
  }

  /** Lines 43-61: the assignment cost. A NaN in the matrix makes the solver
      raise ValueError; indices the solver returned outside the matrix would
      raise IndexError. The cost is the sum of the distances of the chosen
      pairs, and with a solver that keeps its promise no assignment of the
      ground truth to the prediction costs less. */
  function DistanceBetweenGtPred(gt: seq<Doa>, pred: seq<Doa>, t: Trig, solve: seq<seq<real>> -> Assignment): (r: Result<real>)
    requires t.pi > 0.0
    ensures r.Err? ==> r.failure == ValueError || r.failure == IndexError
    ensures r.Err? && r.failure == ValueError <==> HasNaN(CostMatrix(gt, pred, t))
    ensures |pred| == 0 && r.Ok? ==> r.value == 0.0
    ensures !HasNaN(CostMatrix(gt, pred, t)) && IsAssignment(solve(Reals(CostMatrix(gt, pred, t))), |gt|, |pred|) ==> r.Ok?
    ensures r.Ok? ==> var a := solve(Reals(CostMatrix(gt, pred, t)));
      && (forall i :: 0 <= i < |a| ==> a[i].0 < |gt| && a[i].1 < |pred|)
      && r.value == ChosenCost(gt, pred, t, a)
    ensures r.Ok? && Optimal(Reals(CostMatrix(gt, pred, t)), |gt|, |pred|, solve(Reals(CostMatrix(gt, pred, t)))) ==>
      forall b: Assignment :: IsAssignment(b, |gt|, |pred|) ==>
        InRange(Reals(CostMatrix(gt, pred, t)), b) && r.value <= PairSum(Reals(CostMatrix(gt, pred, t)), b)
  {
    var m := CostMatrix(gt, pred, t);
    if HasNaN(m) then Err(ValueError)
    else
      var c := Reals(m);
      var a := solve(c);
      if !InRange(c, a) then Err(IndexError)
      else
        assert |pred| == 0 ==> |a| == 0 by {
          if |pred| == 0 && |a| > 0 {
            FirstPairInRange(c, a);
          }
        }
        ChosenCostIsPairSum(gt, pred, t, a);
        OptimalIsLeast(c, |gt|, |pred|, a);
        Ok(PairSum(c, a))
  }

  /** Line 60 read on the lists: the sum of the distances of the chosen
      (ground truth, prediction) pairs. */
  function ChosenCost(gt: seq<Doa>, pred: seq<Doa>, t: Trig, a: Assignment): real
    requires t.pi > 0.0 && forall i :: 0 <= i < |a| ==> a[i].0 < |gt| && a[i].1 < |pred|
  {
    RealSum(ChosenDistances(gt, pred, t, a))
  }

  function ChosenDistances(gt: seq<Doa>, pred: seq<Doa>, t: Trig, a: Assignment): (ds: seq<real>)
    requires t.pi > 0.0 && forall i :: 0 <= i < |a| ==> a[i].0 < |gt| && a[i].1 < |pred|
    ensures |ds| == |a| && forall i :: 0 <= i < |a| ==> ds[i] == ValueOr0(SphericalDistance(gt[a[i].0], pred[a[i].1], t))
  {
    seq(|a|, i requires 0 <= i < |a| => ValueOr0(SphericalDistance(gt[a[i].0], pred[a[i].1], t)))
  }

  /** An assignment inside the NaN-free cost matrix picks pairs of rows, and
      its cost is the sum of their distances. */
  lemma ChosenCostIsPairSum(gt: seq<Doa>, pred: seq<Doa>, t: Trig, a: Assignment)
    requires t.pi > 0.0 && InRange(Reals(CostMatrix(gt, pred, t)), a)
    ensures forall i :: 0 <= i < |a| ==> a[i].0 < |gt| && a[i].1 < |pred|
    ensures PairSum(Reals(CostMatrix(gt, pred, t)), a) == ChosenCost(gt, pred, t, a)
  {
    var m := CostMatrix(gt, pred, t);
    var c := Reals(m);
    assert IsMatrix(m, |gt|, |pred|);
    forall i | 0 <= i < |a|
      ensures a[i].0 < |gt| && a[i].1 < |pred|
    {
      assert a[i].0 < |c| && a[i].1 < |c[a[i].0]|;
    }
    var cells := seq(|a|, i requires 0 <= i < |a| => c[a[i].0][a[i].1]);
    var dists := ChosenDistances(gt, pred, t, a);
    forall i | 0 <= i < |a|
      ensures cells[i] == dists[i]
    {
      CostMatrixCells(gt, pred, t, a[i].0, a[i].1);
    }
    assert cells == dists;
  }

  /** Under the solver's promise every other assignment lies inside the
      matrix and costs at least as much. */
  lemma OptimalIsLeast(c: seq<seq<real>>, g: nat, p: nat, a: Assignment)
    ensures Optimal(c, g, p, a) ==>
      (InRange(c, a) && forall b: Assignment :: IsAssignment(b, g, p) ==> InRange(c, b) && PairSum(c, a) <= PairSum(c, b))
  {
  }

  /** The matrix has a NaN exactly when both lists are non-empty and some row
      of either list carries NaN. */
  lemma CostMatrixNaN(gt: seq<Doa>, pred: seq<Doa>, t: Trig)
    requires t.pi > 0.0
    ensures HasNaN(CostMatrix(gt, pred, t)) <==>
      |gt| > 0 && |pred| > 0 &&
      ((exists x :: 0 <= x < |gt| && !Finite(gt[x])) || (exists y :: 0 <= y < |pred| && !Finite(pred[y])))
  {
    var m := CostMatrix(gt, pred, t);
    if HasNaN(m) {
      var x, y :| 0 <= x < |m| && 0 <= y < |m[x]| && m[x][y].NaN?;
      CostMatrixCells(gt, pred, t, x, y);
    } else if |gt| > 0 && |pred| > 0 {
      CostMatrixCells(gt, pred, t, 0, 0);
      forall x | 0 <= x < |gt|
        ensures Finite(gt[x])
      {
        CostMatrixCells(gt, pred, t, x, 0);
      }
      forall y | 0 <= y < |pred|
        ensures Finite(pred[y])
      {
        CostMatrixCells(gt, pred, t, 0, y);
      }
    }
  }

  /** An empty list on either side costs nothing, whatever NaN the other
      holds: no distance is computed and the assignment is empty. */
  lemma EmptyListCostsNothing(gt: seq<Doa>, pred: seq<Doa>, t: Trig, solve: seq<seq<real>> -> Assignment)
    requires t.pi > 0.0 && (|gt| == 0 || |pred| == 0)
    requires IsAssignment(solve(Reals(CostMatrix(gt, pred, t))), |gt|, |pred|)
    ensures DistanceBetweenGtPred(gt, pred, t, solve) == Ok(0.0)
  {
    var m := CostMatrix(gt, pred, t);
    assert !HasNaN(m);
  }

  /** Identical finite lists cost zero under an optimal solver and sound
      trigonometry: the diagonal assignment costs zero, and no assignment
      costs less. */
  lemma IdenticalListsCostZero(gt: seq<Doa>, t: Trig, solve: seq<seq<real>> -> Assignment)
    requires Sound(t) && forall x :: 0 <= x < |gt| ==> Finite(gt[x])
    requires Optimal(Reals(CostMatrix(gt, gt, t)), |gt|, |gt|, solve(Reals(CostMatrix(gt, gt, t))))
    ensures DistanceBetweenGtPred(gt, gt, t, solve) == Ok(0.0)
  {
    var m := CostMatrix(gt, gt, t);
    var c := Reals(m);
    SelfCostMatrix(gt, t);
    CostMatrixNaN(gt, gt, t);
    ZeroDiagonalOptimalZero(c, |gt|, solve(c));
  }

  /** The cost matrix of a finite list against itself: non-negative entries
      and a zero diagonal. */
  lemma SelfCostMatrix(gt: seq<Doa>, t: Trig)
    requires Sound(t) && forall x :: 0 <= x < |gt| ==> Finite(gt[x])
    ensures var c := Reals(CostMatrix(gt, gt, t));
      && IsMatrix(c, |gt|, |gt|)
      && (forall x, y :: 0 <= x < |gt| && 0 <= y < |gt| ==> c[x][y] >= 0.0)
      && (forall i :: 0 <= i < |gt| ==> c[i][i] == 0.0)
  {
    var n := |gt|;
    var m := CostMatrix(gt, gt, t);
    var c := Reals(m);
    forall x, y | 0 <= x < n && 0 <= y < n
      ensures c[x][y] >= 0.0 && (x == y ==> c[x][y] == 0.0)
    {
      CostMatrixCells(gt, gt, t, x, y);
      SphericalDistanceRange(gt[x], gt[y], t);
      if x == y {
        SphericalDistanceSelf(gt[x], t);
      }
    }
  }

  /** On a square non-negative matrix with a zero diagonal, a least-cost
      assignment costs zero. */
  lemma ZeroDiagonalOptimalZero(c: seq<seq<real>>, n: nat, a: Assignment)
    requires IsMatrix(c, n, n) && Optimal(c, n, n, a)
    requires forall x, y :: 0 <= x < n && 0 <= y < n ==> c[x][y] >= 0.0
    requires forall i :: 0 <= i < n ==> c[i][i] == 0.0
    ensures InRange(c, a) && PairSum(c, a) == 0.0
  {
    var diag: Assignment := seq(n, i requires 0 <= i < n => (i, i));
    assert IsAssignment(diag, n, n);
    var zeros := seq(n, i requires 0 <= i < n => c[diag[i].0][diag[i].1]);
    RealSumZero(zeros);
    assert PairSum(c, diag) == 0.0;
    var chosen := seq(|a|, i requires 0 <= i < |a| => c[a[i].0][a[i].1]);
    RealSumNonNegative(chosen);
  }

  // ----------------------------------------------------------------- scores

  /** `(mae_ele, mae_azi, doa_loss)`. */
  datatype Scores = Scores(maeEle: Num, maeAzi: Num, doaLoss: Num)

  function Azimuths(d: seq<Doa>): (r: seq<Num>)
    ensures |r| == |d| && forall i :: 0 <= i < |d| ==> r[i] == d[i].az
  {
    seq(|d|, i requires 0 <= i < |d| => d[i].az)
  }

  function Elevations(d: seq<Doa>): (r: seq<Num>)
    ensures |r| == |d| && forall i :: 0 <= i < |d| ==> r[i] == d[i].el
  {
    seq(|d|, i requires 0 <= i < |d| => d[i].el)
  }

  /** Line 18: the assignment cost divided by the number of predicted rows,
      NaN for no rows; an exception of the cost is passed on. */
  function DoaLoss(cost: Result<real>, rows: nat): (r: Result<Num>)
    requires cost.Ok? && rows == 0 ==> cost.value == 0.0
    ensures r.Err? <==> cost.Err?
    ensures r.Err? ==> r.failure == cost.failure
    ensures r.Ok? ==> (r.value.Real? <==> rows > 0)
    ensures r.Ok? && rows > 0 ==> r.value.v * rows as real == cost.value
  {
    match cost
    case Err(e) => Err(e)
    case Ok(c) => Ok(Div(Real(c), rows))
  }

  /** Lines 11-22 on an already masked prediction: azimuth error, elevation
      error, then the loss, each raising in that order. */
  function ScoreMasked(masked: seq<Doa>, truth: seq<Doa>, sedGiven: bool, t: Trig, solve: seq<seq<real>> -> Assignment): (r: Result<Scores>)
    requires t.pi > 0.0
    ensures sedGiven ==> r == Err(UnboundLocal("mae_ele"))
    ensures !sedGiven && Broadcast(|masked|, |truth|).Err? ==> r == Err(ValueError)
    ensures !sedGiven && Broadcast(|masked|, |truth|).Ok? ==>
      (r.Ok? <==> DoaLoss(DistanceBetweenGtPred(truth, masked, t, solve), |masked|).Ok?) && (r.Err? ==> r.failure == DoaLoss(DistanceBetweenGtPred(truth, masked, t, solve), |masked|).failure)
    ensures r.Ok? ==> r.value.maeAzi == MeanAbsError(Azimuths(masked), Azimuths(truth)).value
    ensures r.Ok? ==> r.value.maeEle == MeanAbsError(Elevations(masked), Elevations(truth)).value
    ensures r.Ok? ==> r.value.doaLoss == DoaLoss(DistanceBetweenGtPred(truth, masked, t, solve), |masked|).value
  {
    if sedGiven then Err(UnboundLocal("mae_ele"))
    else
      match (MeanAbsError(Azimuths(masked), Azimuths(truth)), MeanAbsError(Elevations(masked), Elevations(truth)))
      case (Err(e), _) => Err(e)
      case (_, Err(e)) => Err(e)
      case (Ok(maeAzi), Ok(maeEle)) =>
        match DoaLoss(DistanceBetweenGtPred(truth, masked, t, solve), |masked|)
        case Err(e) => Err(e)
        case Ok(loss) => Ok(Scores(maeEle, maeAzi, loss))
  }

  /** `CalculateContinueDOAScores` as written: the argument array after the
      in-place mask, and the scores or the exception. */
  function ContinueDoaScores(pred: seq<Doa>, truth: seq<Doa>, sedGiven: bool, t: Trig, solve: seq<seq<real>> -> Assignment): (r: (seq<Doa>, Result<Scores>))
    requires t.pi > 0.0
    ensures r.0 == MaskAsWritten(pred)
    ensures r.1 == ScoreMasked(MaskAsWritten(pred), truth, sedGiven, t, solve)
  {
    var masked := MaskAsWritten(pred);
    (masked, ScoreMasked(masked, truth, sedGiven, t, solve))
  }

  /** The scores with the mask as intended. */
  function ContinueDoaScoresIntended(pred: seq<Doa>, truth: seq<Doa>, sedGiven: bool, t: Trig, solve: seq<seq<real>> -> Assignment): (r: (seq<Doa>, Result<Scores>))
    requires t.pi > 0.0
    ensures r.0 == MaskIntended(pred)
    ensures r.1 == ScoreMasked(MaskIntended(pred), truth, sedGiven, t, solve)
  {
    var masked := MaskIntended(pred);
    (masked, ScoreMasked(masked, truth, sedGiven, t, solve))
  }

  /** With the intended mask a perfect finite prediction scores zero on
      every measure. */
  lemma PerfectPredictionScoresZero(d: seq<Doa>, t: Trig, solve: seq<seq<real>> -> Assignment)
    requires Sound(t) && |d| > 0 && forall i :: 0 <= i < |d| ==> Finite(d[i])
    requires Optimal(Reals(CostMatrix(d, d, t)), |d|, |d|, solve(Reals(CostMatrix(d, d, t))))
    ensures ContinueDoaScoresIntended(d, d, false, t, solve).1 == Ok(Scores(Real(0.0), Real(0.0), Real(0.0)))
  {
    assert MaskIntended(d) == d;
    IdenticalListsScoreZero(d, t, solve);
  }

  /** Scoring a finite list against itself gives zero on every measure. */
  lemma IdenticalListsScoreZero(d: seq<Doa>, t: Trig, solve: seq<seq<real>> -> Assignment)
    requires Sound(t) && |d| > 0 && forall i :: 0 <= i < |d| ==> Finite(d[i])
    requires Optimal(Reals(CostMatrix(d, d, t)), |d|, |d|, solve(Reals(CostMatrix(d, d, t))))
    ensures ScoreMasked(d, d, false, t, solve) == Ok(Scores(Real(0.0), Real(0.0), Real(0.0)))
  {
    MeanAbsErrorOfEqual(Azimuths(d));
    MeanAbsErrorOfEqual(Elevations(d));
    IdenticalListsCostZero(d, t, solve);
    assert Div(Real(0.0), |d|) == Real(0.0);
  }

  /** With the intended mask, equally long lists against a finite truth are
      always scored: the mask leaves no NaN for the solver to refuse. */
  lemma IntendedScoresComputed(pred: seq<Doa>, truth: seq<Doa>, t: Trig, solve: seq<seq<real>> -> Assignment)
    requires t.pi > 0.0 && |pred| == |truth| && forall i :: 0 <= i < |truth| ==> Finite(truth[i])
    requires IsAssignment(solve(Reals(CostMatrix(truth, MaskIntended(pred), t))), |truth|, |pred|)
    ensures ContinueDoaScoresIntended(pred, truth, false, t, solve).1.Ok?
  {
    CostMatrixNaN(truth, MaskIntended(pred), t);
  }

  /** As written, a NaN anywhere in a non-empty prediction survives the mask,
      reaches the cost matrix, and `linear_sum_assignment` raises ValueError;
      `np.interp(..., left=NaN)` produces such entries for every timestamp
      before the first block. */
  lemma NaNPredictionRaises(pred: seq<Doa>, truth: seq<Doa>, t: Trig, solve: seq<seq<real>> -> Assignment, i: nat)
    requires t.pi > 0.0 && |pred| == |truth| && i < |pred| && !Finite(pred[i])
    ensures ContinueDoaScores(pred, truth, false, t, solve).1 == Err(ValueError)
  {
    var masked := MaskAsWritten(pred);
    assert !Finite(masked[i]);
    CostMatrixNaN(truth, masked, t);
  }

  /** As written, the scores do not depend on the predicted angles at all:
      two predictions with NaN in the same places score the same. */
  lemma AsWrittenIgnoresPrediction(p: seq<Doa>, q: seq<Doa>, truth: seq<Doa>, t: Trig, solve: seq<seq<real>> -> Assignment)
    requires t.pi > 0.0 && |p| == |q|
    requires forall i :: 0 <= i < |p| ==> (p[i].az.NaN? <==> q[i].az.NaN?) && (p[i].el.NaN? <==> q[i].el.NaN?)
    ensures ContinueDoaScores(p, truth, false, t, solve).1 == ContinueDoaScores(q, truth, false, t, solve).1
  {
    MaskForgetsValues(p, q);
  }

  /** As written, the perfect prediction of one direction at azimuth and
      elevation 1 rad has azimuth and elevation errors of 1, because the mask
      replaced the prediction by zeros. */
  lemma PerfectPredictionScoredAsZeros(t: Trig, solve: seq<seq<real>> -> Assignment)
    requires t.pi > 0.0
    ensures var d := [Doa(Real(1.0), Real(1.0))];
      var r := ContinueDoaScores(d, d, false, t, solve).1;
      r.Ok? ==> r.value.maeAzi == Real(1.0) && r.value.maeEle == Real(1.0)
  {
    var d := [Doa(Real(1.0), Real(1.0))];
    var masked := MaskAsWritten(d);
    assert masked == [Doa(Real(0.0), Real(0.0))];
    var e := AbsErrors(Azimuths(masked), Azimuths(d)).value;
    assert e == [Real(1.0)];
    assert Sum(e) == Real(1.0) by {
      assert e[..0] == [];
    }
  }
}
