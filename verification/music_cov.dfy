/** The exact algebra inside the MUSIC inner loop: the spatial correlation
    matrix of a block of STFT frames, the look direction of a grid cell, and
    the time differences of arrival relative to the reference microphone.
    Complex numbers are pairs of reals; sine and cosine are parameters. */
module Covariance {
  import opened Wrappers

  datatype Complex = Complex(re: real, im: real)

  function Mul(a: Complex, b: Complex): Complex
  {
    Complex(a.re * b.re - a.im * b.im, a.re * b.im + a.im * b.re)
  }

  function Conj(a: Complex): Complex
  {
    Complex(a.re, -a.im)
  }

  function CAdd(a: Complex, b: Complex): Complex
  {
    Complex(a.re + b.re, a.im + b.im)
  }

  /** Left-to-right complex sum. */
  function CSum(xs: seq<Complex>): Complex
  {
    if |xs| == 0 then Complex(0.0, 0.0)
    else CAdd(CSum(xs[..|xs| - 1]), xs[|xs| - 1])
  }

  /** A block of frames: one row per frame, one column per microphone. */
  ghost predicate IsBlock(block: seq<seq<Complex>>, numMic: nat)
  {
    forall t :: 0 <= t < |block| ==> |block[t]| == numMic
  }

  /** Entry (i, j) of `np.dot(data_block.T, np.conj(data_block))`. */
  function Correlation(block: seq<seq<Complex>>, numMic: nat, i: nat, j: nat): Complex
    requires IsBlock(block, numMic) && i < numMic && j < numMic
  {
    CSum(seq(|block|, t requires 0 <= t < |block| => Mul(block[t][i], Conj(block[t][j]))))
  }

  /** Line 131: the `numMic` x `numMic` correlation matrix of a block. */
  function Rxx(block: seq<seq<Complex>>, numMic: nat): (r: seq<seq<Complex>>)
    requires IsBlock(block, numMic)
    ensures |r| == numMic && forall i :: 0 <= i < numMic ==> |r[i]| == numMic
  {
    seq(numMic, i requires 0 <= i < numMic =>
      seq(numMic, j requires 0 <= j < numMic => Correlation(block, numMic, i, j)))
  }

  lemma {:induction false} CSumConj(xs: seq<Complex>, ys: seq<Complex>)
    requires |xs| == |ys| && forall t :: 0 <= t < |xs| ==> ys[t] == Conj(xs[t])
    ensures CSum(ys) == Conj(CSum(xs))
  {
    if |xs| > 0 {
      CSumConj(xs[..|xs| - 1], ys[..|ys| - 1]);
    }
  }

  /** `Rxx` is Hermitian: entry (j, i) is the conjugate of entry (i, j), so
      the SVD at line 134 factors a Hermitian matrix. */
  lemma RxxHermitian(block: seq<seq<Complex>>, numMic: nat, i: nat, j: nat)
    requires IsBlock(block, numMic) && i < numMic && j < numMic
    ensures Rxx(block, numMic)[j][i] == Conj(Rxx(block, numMic)[i][j])
  {
    var xs := seq(|block|, t requires 0 <= t < |block| => Mul(block[t][i], Conj(block[t][j])));
    var ys := seq(|block|, t requires 0 <= t < |block| => Mul(block[t][j], Conj(block[t][i])));
    CSumConj(xs, ys);
  }

  lemma {:induction false} CSumRealNonNegative(xs: seq<Complex>)
    requires forall t :: 0 <= t < |xs| ==> xs[t].im == 0.0 && xs[t].re >= 0.0
    ensures CSum(xs).im == 0.0 && CSum(xs).re >= 0.0
  {
    if |xs| > 0 {
      CSumRealNonNegative(xs[..|xs| - 1]);
    }
  }

  lemma NormSquared(a: Complex)
    ensures Mul(a, Conj(a)) == Complex(a.re * a.re + a.im * a.im, 0.0)
    ensures a.re * a.re + a.im * a.im >= 0.0
  {
  }

  /** The diagonal of `Rxx` holds the real, non-negative channel energies. */
  lemma RxxDiagonal(block: seq<seq<Complex>>, numMic: nat, i: nat)
    requires IsBlock(block, numMic) && i < numMic
    ensures Rxx(block, numMic)[i][i].im == 0.0 && Rxx(block, numMic)[i][i].re >= 0.0
  {
    var xs := seq(|block|, t requires 0 <= t < |block| => Mul(block[t][i], Conj(block[t][i])));
    forall t | 0 <= t < |xs|
      ensures xs[t].im == 0.0 && xs[t].re >= 0.0
    {
      NormSquared(block[t][i]);
    }
    CSumRealNonNegative(xs);
  }

  datatype Vec3 = Vec3(x: real, y: real, z: real)

  function Dot(a: Vec3, b: Vec3): real
  {
    a.x * b.x + a.y * b.y + a.z * b.z
  }

  function Minus(a: Vec3, b: Vec3): Vec3
  {
    Vec3(a.x - b.x, a.y - b.y, a.z - b.z)
  }

  function Plus(a: Vec3, b: Vec3): Vec3
  {
    Vec3(a.x + b.x, a.y + b.y, a.z + b.z)
  }

  /** Line 146: the unit look direction of grid cell (az, el), arranged so
      that az = 0, el = pi/2 points along the y axis. */
  function Eta(az: real, el: real, sin: real -> real, cos: real -> real): Vec3
  {
    Vec3(-sin(el) * sin(az), sin(el) * cos(az), cos(el))
  }

  /** The orientation promised by the comment at line 144. */
  lemma EtaAlongY(halfPi: real, sin: real -> real, cos: real -> real)
    requires sin(0.0) == 0.0 && cos(0.0) == 1.0
    requires sin(halfPi) == 1.0 && cos(halfPi) == 0.0
    ensures Eta(0.0, halfPi, sin, cos) == Vec3(0.0, 1.0, 0.0)
  {
  }

  /** Under the Pythagorean identity at both angles, the look direction is a
      unit vector. */
  lemma EtaUnit(az: real, el: real, sin: real -> real, cos: real -> real)
    requires sin(az) * sin(az) + cos(az) * cos(az) == 1.0
    requires sin(el) * sin(el) + cos(el) * cos(el) == 1.0
    ensures Dot(Eta(az, el, sin, cos), Eta(az, el, sin, cos)) == 1.0
  {
    var sa, ca, se, ce := sin(az), cos(az), sin(el), cos(el);
    var e := Eta(az, el, sin, cos);
    assert e.x * e.x == (se * se) * (sa * sa);
    assert e.y * e.y == (se * se) * (ca * ca);
    assert (se * se) * (sa * sa) + (se * se) * (ca * ca) == (se * se) * (sa * sa + ca * ca);
  }

  /** Line 147: the look direction in room coordinates, `R . eta`, with the
      pose's rotation matrix given by its three rows. */
  function Rotate(r0: Vec3, r1: Vec3, r2: Vec3, v: Vec3): Vec3
  {
    Vec3(Dot(r0, v), Dot(r1, v), Dot(r2, v))
  }

  /** The identity pose leaves the look direction as it is. */
  lemma RotateIdentity(v: Vec3)
    ensures Rotate(Vec3(1.0, 0.0, 0.0), Vec3(0.0, 1.0, 0.0), Vec3(0.0, 0.0, 1.0), v) == v
  {
  }

  /** Lines 150-151: `1 / c * rot_eta . (mic_k - mic_ref)` for every channel
      `k` of the subarray. `1 / c` is evaluated first and raises
      ZeroDivisionError for c = 0; selecting a channel the pose table does
      not have, or a reference position past the subarray, raises IndexError. */
  function Tau(rotEta: Vec3, mics: seq<Vec3>, subarray: seq<nat>, refMic: nat, c: real): (r: Result<seq<real>>)
    ensures r.Err? <==> c == 0.0 || refMic >= |subarray| || exists k :: 0 <= k < |subarray| && subarray[k] >= |mics|
    ensures c == 0.0 ==> r == Err(ZeroDivisionError)
    ensures r.Err? && c != 0.0 ==> r.failure == IndexError
    ensures r.Ok? ==> |r.value| == |subarray|
    ensures r.Ok? ==> forall k :: 0 <= k < |subarray| ==>
      r.value[k] * c == Dot(rotEta, Minus(mics[subarray[k]], mics[subarray[refMic]]))
  {
    if c == 0.0 then Err(ZeroDivisionError)
    else if exists k :: 0 <= k < |subarray| && subarray[k] >= |mics| then Err(IndexError)
    else if refMic >= |subarray| then Err(IndexError)
    else
      var ref := mics[subarray[refMic]];
      var r := seq(|subarray|, k requires 0 <= k < |subarray| => 1.0 / c * Dot(rotEta, Minus(mics[subarray[k]], ref)));
      assert forall k :: 0 <= k < |subarray| ==> r[k] * c == Dot(rotEta, Minus(mics[subarray[k]], ref)) by {
        forall k | 0 <= k < |subarray|
          ensures r[k] * c == Dot(rotEta, Minus(mics[subarray[k]], ref))
        {
          InverseScale(c, Dot(rotEta, Minus(mics[subarray[k]], ref)));
        }
      }
      Ok(r)
  }

  lemma InverseScale(c: real, d: real)
    requires c != 0.0
    ensures 1.0 / c * d * c == d
  {
    assert 1.0 / c * d * c == (1.0 / c * c) * d;
  }

  /** The reference microphone's delay is zero. */
  lemma TauReferenceZero(rotEta: Vec3, mics: seq<Vec3>, subarray: seq<nat>, refMic: nat, c: real)
    requires Tau(rotEta, mics, subarray, refMic, c).Ok?
    ensures Tau(rotEta, mics, subarray, refMic, c).value[refMic] == 0.0
  {
    var m := mics[subarray[refMic]];
    assert Dot(rotEta, Minus(m, m)) == 0.0;
  }

  /** Delays depend only on microphone positions relative to the reference:
      moving the whole array by `v` changes none of them. */
  lemma TauTranslationInvariant(rotEta: Vec3, mics: seq<Vec3>, subarray: seq<nat>, refMic: nat, c: real, v: Vec3)
    ensures Tau(rotEta, seq(|mics|, i requires 0 <= i < |mics| => Plus(mics[i], v)), subarray, refMic, c)
         == Tau(rotEta, mics, subarray, refMic, c)
  {
    var moved := seq(|mics|, i requires 0 <= i < |mics| => Plus(mics[i], v));
    var a := Tau(rotEta, moved, subarray, refMic, c);
    var b := Tau(rotEta, mics, subarray, refMic, c);
    assert a.Err? <==> b.Err?;
    if a.Ok? {
      forall k | 0 <= k < |subarray|
        ensures a.value[k] == b.value[k]
      {
        assert Minus(moved[subarray[k]], moved[subarray[refMic]]) == Minus(mics[subarray[k]], mics[subarray[refMic]]);
        CancelScale(a.value[k], b.value[k], c);
      }
      assert a.value == b.value;
    }
  }

  lemma CancelScale(x: real, y: real, c: real)
    requires c != 0.0 && x * c == y * c
    ensures x == y
  {
    assert (x - y) * c == 0.0;
  }
}
