/** Sequence operations the numpy code relies on: boolean-mask indexing,
    fancy indexing, `np.arange`, and first-occurrence `argmin`/`argmax`. */
module Seqs {

  ghost predicate StrictlyIncreasing(s: seq<real>)
  {
    forall i, j :: 0 <= i < j < |s| ==> s[i] < s[j]
  }

  ghost predicate NonDecreasing(s: seq<real>)
  {
    forall i, j :: 0 <= i < j < |s| ==> s[i] <= s[j]
  }

  /** The positions whose flag is set, in ascending order (`np.flatnonzero`). */
  function TrueIndices(flags: seq<bool>): (r: seq<nat>)
    ensures forall k :: 0 <= k < |r| ==> r[k] < |flags| && flags[r[k]]
    ensures forall i :: 0 <= i < |flags| && flags[i] ==> i in r
    ensures forall k, l :: 0 <= k < l < |r| ==> r[k] < r[l]
  {
    if |flags| == 0 then []
    else TrueIndices(flags[..|flags| - 1]) + (if flags[|flags| - 1] then [|flags| - 1] else [])
  }

  /** `xs[flags]` for a boolean vector of the same length. */
  function Mask<T>(xs: seq<T>, flags: seq<bool>): (r: seq<T>)
    requires |xs| == |flags|
    ensures |r| == |TrueIndices(flags)|
    ensures forall k :: 0 <= k < |r| ==> r[k] == xs[TrueIndices(flags)[k]]
  {
    if |xs| == 0 then []
    else Mask(xs[..|xs| - 1], flags[..|flags| - 1]) + (if flags[|flags| - 1] then [xs[|xs| - 1]] else [])
  }

  /** `xs[idx]` for an integer index vector. */
  function Gather<T>(xs: seq<T>, idx: seq<nat>): (r: seq<T>)
    requires forall j :: 0 <= j < |idx| ==> idx[j] < |xs|
    ensures |r| == |idx|
    ensures forall j :: 0 <= j < |idx| ==> r[j] == xs[idx[j]]
  {
    seq(|idx|, j requires 0 <= j < |idx| => xs[idx[j]])
  }

  /** Number of elements of `np.arange(start, stop, step)` for a positive step. */
  function ArangeLength(start: int, stop: int, step: nat): (n: nat)
    requires step > 0
    ensures forall k: nat :: k < n <==> start + k * step < stop
    decreases stop - start
  {
    if stop <= start then 0
    else
      var rest := ArangeLength(start + step, stop, step);
      assert forall k: nat :: k < 1 + rest <==> start + k * step < stop by {
        forall k: nat
          ensures k < 1 + rest <==> start + k * step < stop
        {
          if k > 0 {
            var k': nat := k - 1;
            assert start + k * step == (start + step) + k' * step;
          }
        }
      }
      1 + rest
  }

  /** `np.arange(start, stop, step)` over integers with a positive step. */
  function Arange(start: int, stop: int, step: nat): (r: seq<int>)
    requires step > 0
  {
    seq(ArangeLength(start, stop, step), k => start + k * step)
  }

  /** `np.argmin`: the first position holding the least value. */
  function ArgMinFirst(s: seq<real>): (r: nat)
    requires |s| > 0
    ensures r < |s|
    ensures forall j :: 0 <= j < |s| ==> s[r] <= s[j]
    ensures forall j :: 0 <= j < r ==> s[r] < s[j]
  {
    if |s| == 1 then 0
    else
      var k := ArgMinFirst(s[..|s| - 1]);
      if s[|s| - 1] < s[k] then |s| - 1 else k
  }

  /** `np.argmax`: the first position holding the greatest value. */
  function ArgMaxFirst(s: seq<real>): (r: nat)
    requires |s| > 0
    ensures r < |s|
    ensures forall j :: 0 <= j < |s| ==> s[j] <= s[r]
    ensures forall j :: 0 <= j < r ==> s[j] < s[r]
  {
    if |s| == 1 then 0
    else
      var k := ArgMaxFirst(s[..|s| - 1]);
      if s[|s| - 1] > s[k] then |s| - 1 else k
  }
}
