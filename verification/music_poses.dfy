/** Pose (OptiTrack) time handling in `MUSIC`: `np.unique` with first-occurrence
    indices, the cut at the last audio frame time, and the choice of the pose
    used for a block. */
module PoseTimeline {
  import opened Wrappers
  import opened Seqs

  /** `s` with every copy of `m` removed. */
  function RemoveAll(s: seq<real>, m: real): (r: seq<real>)
    ensures forall x :: x in r <==> x in s && x != m
    ensures m in s ==> |r| < |s|
    ensures |r| <= |s|
  {
    if |s| == 0 then []
    else
      var rest := RemoveAll(s[1..], m);
      assert forall x :: x in s <==> x == s[0] || x in s[1..];
      if s[0] == m then rest else [s[0]] + rest
  }

  /** The distinct values of `s` in ascending order. */
  function Ascending(s: seq<real>): (r: seq<real>)
    ensures StrictlyIncreasing(r)
    ensures forall x :: x in r <==> x in s
    decreases |s|
  {
    if |s| == 0 then []
    else
      var m := s[ArgMinFirst(s)];
      var rest := Ascending(RemoveAll(s, m));
      assert forall k :: 0 <= k < |rest| ==> m < rest[k] by {
        forall k | 0 <= k < |rest|
          ensures m < rest[k]
        {
          assert rest[k] in RemoveAll(s, m);
          var i :| 0 <= i < |s| && s[i] == rest[k];
        }
      }
      [m] + rest
  }

  /** The position of the first occurrence of `v`. */
  function FirstIndexOf(ts: seq<real>, v: real): (i: nat)
    requires v in ts
    ensures i < |ts| && ts[i] == v
    ensures forall j :: 0 <= j < i ==> ts[j] != v
  {
    if ts[0] == v then 0 else 1 + FirstIndexOf(ts[1..], v)
  }

  /** `np.unique(timestamps, return_index=True)`. */
  datatype Unique = Unique(values: seq<real>, firstIndex: seq<nat>)

  function UniqueWithIndex(ts: seq<real>): (u: Unique)
    ensures |u.values| == |u.firstIndex|
    ensures StrictlyIncreasing(u.values)
    ensures forall j :: 0 <= j < |u.values| ==> u.firstIndex[j] < |ts| && ts[u.firstIndex[j]] == u.values[j]
    ensures forall j, i :: 0 <= j < |u.values| && 0 <= i < u.firstIndex[j] ==> ts[i] != u.values[j]
    ensures forall i :: 0 <= i < |ts| ==> ts[i] in u.values
  {
    var values := Ascending(ts);
    assert forall j :: 0 <= j < |values| ==> values[j] in ts;
    Unique(values, seq(|values|, j requires 0 <= j < |values| => FirstIndexOf(ts, values[j])))
  }

  /** Line 103: the pose timestamps strictly before the last frame time
      (a boolean mask over the sorted unique values). */
  function Below(s: seq<real>, bound: real): (r: seq<real>)
    ensures |r| <= |s|
    ensures forall k :: 0 <= k < |r| ==> r[k] < bound
  {
    if |s| == 0 then []
    else
      var init := Below(s[..|s| - 1], bound);
      if s[|s| - 1] < bound then init + [s[|s| - 1]] else init
  }

  /** Filtering a strictly increasing sequence keeps a prefix: position `k` of
      the filtered list still names the `k`-th unique pose, so its rotation and
      microphone columns are the `k`-th gathered ones. */
  lemma {:induction false} BelowIsPrefix(s: seq<real>, bound: real)
    requires StrictlyIncreasing(s)
    ensures Below(s, bound) == s[..|Below(s, bound)|]
    ensures forall i :: 0 <= i < |s| ==> (i < |Below(s, bound)| <==> s[i] < bound)
  {
    if |s| > 0 {
      var init := s[..|s| - 1];
      var last := s[|s| - 1];
      var b := Below(init, bound);
      assert StrictlyIncreasing(init);
      BelowIsPrefix(init, bound);
      if last < bound {
        assert forall i :: 0 <= i < |init| ==> init[i] < last;
        assert |b| == |init|;
        assert b == init;
        assert Below(s, bound) == init + [last];
        assert init + [last] == s;
      } else {
        assert Below(s, bound) == b;
        assert b == s[..|b|];
      }
    }
  }

  /** Lines 128-129 as written: `np.argmin(block_ts - opti_ts)` of the signed
      difference; an empty list makes `argmin` raise ValueError. */
  function ClosestPose(blockTime: real, opti: seq<real>): (r: Result<nat>)
    ensures r.Err? <==> |opti| == 0
    ensures r.Err? ==> r.failure == ValueError
    ensures r.Ok? ==> r.value < |opti|
    ensures r.Ok? ==> forall k :: 0 <= k < |opti| ==> opti[k] <= opti[r.value]
    ensures r.Ok? ==> forall k :: 0 <= k < r.value ==> opti[k] < opti[r.value]
  {
    if |opti| == 0 then Err(ValueError)
    else
      var d := seq(|opti|, k requires 0 <= k < |opti| => blockTime - opti[k]);
      var r := ArgMinFirst(d);
      assert forall k :: 0 <= k < |opti| ==> d[k] == blockTime - opti[k];
      Ok(r)
  }

  /** With strictly increasing pose times the signed argmin never looks at the
      block time: it always picks the last pose. */
  lemma ClosestPoseIsLast(blockTime: real, opti: seq<real>)
    requires |opti| > 0 && StrictlyIncreasing(opti)
    ensures ClosestPose(blockTime, opti) == Ok(|opti| - 1)
  {
    var r := ClosestPose(blockTime, opti).value;
    assert opti[|opti| - 1] <= opti[r];
  }

  /** The pose a block is meant to use per the comment at line 127: the first
      index minimising the absolute time difference. */
  function NearestPose(blockTime: real, opti: seq<real>): (r: Result<nat>)
    ensures r.Err? <==> |opti| == 0
    ensures r.Ok? ==> r.value < |opti|
    ensures r.Ok? ==> forall k :: 0 <= k < |opti| ==> Dist(blockTime, opti[r.value]) <= Dist(blockTime, opti[k])
  {
    if |opti| == 0 then Err(ValueError)
    else
      var d := seq(|opti|, k requires 0 <= k < |opti| => Dist(blockTime, opti[k]));
      var r := ArgMinFirst(d);
      assert forall k :: 0 <= k < |opti| ==> d[k] == Dist(blockTime, opti[k]);
      Ok(r)
  }

  function Dist(a: real, b: real): (d: real)
    ensures d >= 0.0 && (d == 0.0 <==> a == b)
  {
    if a < b then b - a else a - b
  }

  /** A block time equal to a pose time selects that pose. */
  lemma NearestPoseExact(opti: seq<real>, j: nat)
    requires j < |opti| && StrictlyIncreasing(opti)
    ensures NearestPose(opti[j], opti) == Ok(j)
  {
    var r := NearestPose(opti[j], opti).value;
    assert Dist(opti[j], opti[r]) <= Dist(opti[j], opti[j]);
  }

  /** The signed argmin misses the nearest pose: a block at time 1 with poses
      at times 0 and 10 uses the pose at 10. */
  lemma ClosestPoseNotNearest()
    ensures ClosestPose(1.0, [0.0, 10.0]) == Ok(1)
    ensures NearestPose(1.0, [0.0, 10.0]) == Ok(0)
  {
    ClosestPoseIsLast(1.0, [0.0, 10.0]);
    var r := NearestPose(1.0, [0.0, 10.0]).value;
    assert Dist(1.0, [0.0, 10.0][r]) <= Dist(1.0, 0.0);
  }
}
