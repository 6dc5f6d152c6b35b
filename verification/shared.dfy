/** Angle wrapping (`wrapTo2Pi`, `wrapToPi`), transcribed from MATLAB.
    Doubles are exact reals here and the constant pi is a parameter that only
    needs to be positive, so every fact below holds for any positive period. */
module Shared {

  /** `r` and `x` differ by `k` whole turns. */
  predicate TurnsApart(r: real, x: real, pi: real, k: int)
  {
    r == x + 2.0 * pi * k as real
  }

  /** `np.mod(x, 2 pi)`: the floor-based remainder, which has the divisor's sign. */
  function Mod2Pi(x: real, pi: real): (m: real)
    requires pi > 0.0
    ensures 0.0 <= m < 2.0 * pi
    ensures TurnsApart(m, x, pi, -((x / (2.0 * pi)).Floor))
  {
    var p := 2.0 * pi;
    var y := x / p;
    var f := y.Floor;
    FloorFraction(y);
    RemainderRange(x, p, y, f as real);
    x - p * f as real
  }

  lemma FloorFraction(y: real)
    ensures 0.0 <= y - y.Floor as real < 1.0
  {
  }

  lemma RemainderRange(x: real, p: real, y: real, f: real)
    requires p > 0.0 && y == x / p && 0.0 <= y - f < 1.0
    ensures 0.0 <= x - p * f < p
  {
    var b := y - f;
    ScaleFraction(p, b);
    assert x == p * y;
    assert x - p * f == p * b;
  }

  lemma ScaleFraction(a: real, b: real)
    requires a > 0.0 && 0.0 <= b < 1.0
    ensures 0.0 <= a * b < a
  {
    assert a - a * b == a * (1.0 - b);
  }

  /** `wrapTo2Pi` on one element: into [0, 2 pi], with positive multiples of
      2 pi sent to 2 pi rather than 0. */
  function WrapTo2Pi(x: real, pi: real): (r: real)
    requires pi > 0.0
    ensures 0.0 <= r <= 2.0 * pi
    ensures r == 0.0 ==> x <= 0.0
    ensures exists k: int :: TurnsApart(r, x, pi, k)
  {
    var m := Mod2Pi(x, pi);
    var f := (x / (2.0 * pi)).Floor;
    if m == 0.0 && x > 0.0 then
      assert TurnsApart(2.0 * pi, x, pi, 1 - f);
      2.0 * pi
    else
      assert TurnsApart(m, x, pi, -f);
      m
  }

  /** A positive whole number of turns wraps to 2 pi. */
  lemma WrapTo2PiPositiveTurns(k: int, pi: real)
    requires pi > 0.0 && k > 0
    ensures WrapTo2Pi(2.0 * pi * k as real, pi) == 2.0 * pi
  {
    var x := 2.0 * pi * k as real;
    assert x / (2.0 * pi) == k as real;
    assert (x / (2.0 * pi)).Floor == k;
  }

  /** Zero is returned exactly for the non-positive whole numbers of turns. */
  lemma WrapTo2PiZero(x: real, pi: real)
    requires pi > 0.0
    ensures WrapTo2Pi(x, pi) == 0.0 <==> x <= 0.0 && Mod2Pi(x, pi) == 0.0
  {
  }

  /** `wrapToPi` on one element: elements outside [-pi, pi] are shifted by
      pi, wrapped to [0, 2 pi] and shifted back. */
  function WrapToPiAt(x: real, pi: real): (r: real)
    requires pi > 0.0
    ensures -pi <= r <= pi
    ensures -pi <= x <= pi ==> r == x
    ensures exists k: int :: TurnsApart(r, x, pi, k)
  {
    if x < -pi || pi < x then
      var w := WrapTo2Pi(x + pi, pi);
      var k :| TurnsApart(w, x + pi, pi, k);
      assert TurnsApart(w - pi, x, pi, k);
      w - pi
    else
      assert TurnsApart(x, x, pi, 0);
      x
  }

  /** `wrapToPi` over a vector of angles. */
  function WrapToPi(xs: seq<real>, pi: real): (r: seq<real>)
    requires pi > 0.0
    ensures |r| == |xs|
    ensures forall i :: 0 <= i < |r| ==> -pi <= r[i] <= pi && exists k: int :: TurnsApart(r[i], xs[i], pi, k)
    ensures forall i :: 0 <= i < |r| && -pi <= xs[i] <= pi ==> r[i] == xs[i]
  {
    seq(|xs|, i requires 0 <= i < |xs| => WrapToPiAt(xs[i], pi))
  }

  /** Wrapping an already wrapped vector changes nothing. */
  lemma WrapToPiIdempotent(xs: seq<real>, pi: real)
    requires pi > 0.0
    ensures WrapToPi(WrapToPi(xs, pi), pi) == WrapToPi(xs, pi)
  {
  }

  /** The Python function assigns into its argument and returns it: the array
      passed in is the array returned, holding the wrapped angles. */
  method WrapToPiInPlace(a: array<real>, pi: real) returns (b: array<real>)
    requires pi > 0.0
    modifies a
    ensures b == a
    ensures a[..] == WrapToPi(old(a[..]), pi)
  {
    ghost var orig := a[..];
    var i := 0;
    while i < a.Length
      invariant 0 <= i <= a.Length
      invariant a[..i] == WrapToPi(orig, pi)[..i]
      invariant a[i..] == orig[i..]
    {
      a[i] := WrapToPiAt(a[i], pi);
      i := i + 1;
    }
    b := a;
  }
}
