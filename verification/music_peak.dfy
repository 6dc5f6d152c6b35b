/** Peak extraction of `MUSIC` on the 73 x 19 azimuth/elevation grid.
    `maximum_filter(mesh_spec, 1)` has a one-cell footprint and returns its
    input, so the peak is the first row-major position of the global maximum. */
module Peak {
  import opened Seqs

  const NumAz: nat := 73
  const NumEl: nat := 19

  /** `np.linspace(-pi, pi, 73)`: 5-degree azimuth steps. */
  function AzGrid(pi: real): (g: seq<real>)
    ensures |g| == NumAz
  {
    seq(NumAz, i => -pi + i as real * (2.0 * pi / 72.0))
  }

  /** `np.linspace(0, pi, 19)`: 10-degree elevation steps. */
  function ElGrid(pi: real): (g: seq<real>)
    ensures |g| == NumEl
  {
    seq(NumEl, j => j as real * (pi / 18.0))
  }

  /** The grid ends are the linspace end points. */
  lemma GridEnds(pi: real)
    ensures AzGrid(pi)[0] == -pi && AzGrid(pi)[NumAz - 1] == pi
    ensures ElGrid(pi)[0] == 0.0 && ElGrid(pi)[NumEl - 1] == pi
  {
  }

  /** An angular map: one row per azimuth, one column per elevation. */
  ghost predicate IsGrid(m: seq<seq<real>>)
  {
    |m| == NumAz && forall a :: 0 <= a < NumAz ==> |m[a]| == NumEl
  }

  /** Row-major position of cell (a, e). */
  function Flat(a: nat, e: nat): nat
  {
    a * NumEl + e
  }

  /** `np.unravel_index(loc, (73, 19))`. */
  function Unravel(loc: nat): (ae: (nat, nat))
    requires loc < NumAz * NumEl
    ensures ae.0 < NumAz && ae.1 < NumEl && Flat(ae.0, ae.1) == loc
  {
    (loc / NumEl, loc % NumEl)
  }

  /** The map read in row-major order, as `np.argmax` reads it. */
  function Flatten(m: seq<seq<real>>): (r: seq<real>)
    requires IsGrid(m)
    ensures |r| == NumAz * NumEl
    ensures forall k :: 0 <= k < |r| ==> r[k] == m[Unravel(k).0][Unravel(k).1]
  {
    seq(NumAz * NumEl, k requires 0 <= k < NumAz * NumEl => m[Unravel(k).0][Unravel(k).1])
  }

  lemma UnravelFlat(a: nat, e: nat)
    requires a < NumAz && e < NumEl
    ensures Flat(a, e) < NumAz * NumEl && Unravel(Flat(a, e)) == (a, e)
  {
  }

  /** Lines 177-180: the cell of the first row-major maximum. */
  function PeakCell(m: seq<seq<real>>): (ae: (nat, nat))
    requires IsGrid(m)
    ensures ae.0 < NumAz && ae.1 < NumEl
    ensures forall a, e :: 0 <= a < NumAz && 0 <= e < NumEl ==> m[a][e] <= m[ae.0][ae.1]
    ensures forall a, e :: 0 <= a < NumAz && 0 <= e < NumEl && Flat(a, e) < Flat(ae.0, ae.1) ==>
      m[a][e] < m[ae.0][ae.1]
  {
    var flat := Flatten(m);
    var loc := ArgMaxFirst(flat);
    var ae := Unravel(loc);
    assert forall a, e :: 0 <= a < NumAz && 0 <= e < NumEl ==> flat[Flat(a, e)] == m[a][e] by {
      forall a, e | 0 <= a < NumAz && 0 <= e < NumEl
        ensures flat[Flat(a, e)] == m[a][e]
      {
        UnravelFlat(a, e);
      }
    }
    ae
  }

  /** Lines 181-182: the grid direction of the peak cell. */
  function PeakDirection(m: seq<seq<real>>, pi: real): (dir: (real, real))
    requires IsGrid(m)
    ensures dir.0 in AzGrid(pi) && dir.1 in ElGrid(pi)
  {
    var ae := PeakCell(m);
    (AzGrid(pi)[ae.0], ElGrid(pi)[ae.1])
  }

  /** A flat map (all cells equal, e.g. all zero when no bin contributed)
      reports the first grid direction (-pi, 0). */
  lemma FlatMapPeak(m: seq<seq<real>>, c: real, pi: real)
    requires IsGrid(m)
    requires forall a, e :: 0 <= a < NumAz && 0 <= e < NumEl ==> m[a][e] == c
    ensures PeakCell(m) == (0, 0)
    ensures PeakDirection(m, pi) == (-pi, 0.0)
  {
    var ae := PeakCell(m);
    assert m[0][0] == m[ae.0][ae.1];
    assert Flat(ae.0, ae.1) <= Flat(0, 0);
  }
}
