/** Frame and block arithmetic of `MUSIC`: the STFT hop, the frame-time axis,
    the overlapping block partition and the block timestamps. The float
    product `int(0.03 * fs)` is taken as exact integer arithmetic. */
module Blocks {
  import opened Seqs

  const FramesPerBlock: nat := 100
  const BlockStep: nat := 10

  /** `int(frame_duration * fs)` with frame_duration = 0.03 s. */
  function FrameLength(fs: nat): nat
  {
    3 * fs / 100
  }

  /** The STFT hop: `frame_length // 4`. */
  function Hop(fs: nat): nat
  {
    FrameLength(fs) / 4
  }

  /** `librosa.samples_to_time(np.arange(0, duration, hop), sr=fs)`. */
  function FrameTimes(duration: nat, hop: nat, fs: nat): (t: seq<real>)
    requires hop > 0 && fs > 0
    ensures |t| == ArangeLength(0, duration, hop)
    ensures forall k :: 0 <= k < |t| ==> t[k] == (k * hop) as real / fs as real
  {
    seq(ArangeLength(0, duration, hop), k => (k * hop) as real / fs as real)
  }

  /** Frame times are strictly increasing, which `np.interp` needs of the
      block times derived from them. */
  lemma FrameTimesIncreasing(duration: nat, hop: nat, fs: nat)
    requires hop > 0 && fs > 0
    ensures StrictlyIncreasing(FrameTimes(duration, hop, fs))
  {
    var t := FrameTimes(duration, hop, fs);
    forall i, j | 0 <= i < j < |t|
      ensures t[i] < t[j]
    {
      assert i * hop < j * hop by {
        assert j * hop == i * hop + (j - i) * hop;
      }
      DivideMonotone((i * hop) as real, (j * hop) as real, fs as real);
    }
  }

  lemma DivideMonotone(a: real, b: real, d: real)
    requires a < b && d > 0.0
    ensures a / d < b / d
  {
  }

  /** `frame_srt = np.arange(0, nframe - 1, block_step)`. */
  function BlockStarts(nframe: nat): seq<int>
  {
    Arange(0, nframe - 1, BlockStep)
  }

  /** `np.arange(frames_per_block, nframe, block_step)` padded on the right
      with `nframe - 1` to the length of `frame_srt`. */
  function BlockEnds(nframe: nat): seq<int>
  {
    var full := Arange(FramesPerBlock, nframe, BlockStep);
    var starts := BlockStarts(nframe);
    if |full| <= |starts| then full + seq(|starts| - |full|, _ => nframe - 1)
    else full  // np.pad with a negative width; shown unreachable by BlockPartition
  }

  /** The block partition: block `i` starts at frame `10 i` and ends at frame
      `100 + 10 i` or, where that is not below `nframe`, at the last frame; so
      every block is non-empty and inside the frame range, and there are
      ceil((nframe - 1) / 10) blocks. */
  lemma BlockPartition(nframe: nat)
    ensures |Arange(FramesPerBlock, nframe, BlockStep)| <= |BlockStarts(nframe)|
    ensures |BlockEnds(nframe)| == |BlockStarts(nframe)|
    ensures forall i :: 0 <= i < |BlockStarts(nframe)| ==>
      && BlockStarts(nframe)[i] == 10 * i
      && BlockEnds(nframe)[i] == (if 100 + 10 * i < nframe then 100 + 10 * i else nframe - 1)
      && 0 <= BlockStarts(nframe)[i] < BlockEnds(nframe)[i] <= nframe - 1
    ensures |BlockStarts(nframe)| * 10 >= nframe - 1
    ensures |BlockStarts(nframe)| > 0 ==> (|BlockStarts(nframe)| - 1) * 10 < nframe - 1
  {
    var n := |BlockStarts(nframe)|;
    var m := |Arange(FramesPerBlock, nframe, BlockStep)|;
    var ends := BlockEnds(nframe);
    forall i | 0 <= i < n
      ensures ends[i] == (if 100 + 10 * i < nframe then 100 + 10 * i else nframe - 1)
    {
      if i < m {
        assert ends[i] == 100 + i * 10;
      } else {
        assert !(100 + i * 10 < nframe);
      }
    }
    if n > 0 {
      assert 0 + (n - 1) * 10 < nframe - 1;
    }
  }

  /** The number of frames in each block, `frame_end - frame_srt`. */
  function BlockSizes(nframe: nat): (r: seq<nat>)
    ensures |r| == |BlockStarts(nframe)| == |BlockEnds(nframe)|
    ensures forall i :: 0 <= i < |r| ==> r[i] == BlockEnds(nframe)[i] - BlockStarts(nframe)[i] && r[i] >= 1
  {
    BlockPartition(nframe);
    seq(|BlockStarts(nframe)|, i requires 0 <= i < |BlockStarts(nframe)| => BlockEnds(nframe)[i] - BlockStarts(nframe)[i])
  }

  /** `np.mean([t[frame_srt], t[frame_end]], axis=0)`. */
  function BlockTimes(t: seq<real>, starts: seq<int>, ends: seq<int>): (bt: seq<real>)
    requires |starts| == |ends|
    requires forall i :: 0 <= i < |starts| ==> 0 <= starts[i] < |t| && 0 <= ends[i] < |t|
    ensures |bt| == |starts|
    ensures forall i :: 0 <= i < |bt| ==> bt[i] == (t[starts[i]] + t[ends[i]]) / 2.0
  {
    seq(|starts|, i requires 0 <= i < |starts| => (t[starts[i]] + t[ends[i]]) / 2.0)
  }

  /** Block timestamps of the partition, given the frame times. */
  function PartitionTimes(t: seq<real>): (bt: seq<real>)
    requires |t| > 0
    ensures |bt| == |BlockStarts(|t|)|
  {
    BlockPartition(|t|);
    BlockTimes(t, BlockStarts(|t|), BlockEnds(|t|))
  }

  /** Block timestamps strictly increase when frame times do: starts strictly
      increase and ends never decrease. */
  lemma PartitionTimesIncreasing(t: seq<real>)
    requires |t| > 0 && StrictlyIncreasing(t)
    ensures StrictlyIncreasing(PartitionTimes(t))
  {
    var n := |t|;
    BlockPartition(n);
    var s := BlockStarts(n);
    var e := BlockEnds(n);
    var bt := PartitionTimes(t);
    forall i, j | 0 <= i < j < |bt|
      ensures bt[i] < bt[j]
    {
      assert t[s[i]] < t[s[j]];
      assert e[i] <= e[j];
      if e[i] < e[j] {
        assert t[e[i]] < t[e[j]];
      }
    }
  }

  /** Line 126 as written: the row count of `np.squeeze(valid_X[srt:end, f, :])`.
      Squeezing a one-frame block leaves a vector of `numMic` entries, so its
      `shape[0]` is the microphone count; a one-frame, one-microphone block is a
      0-d array whose `shape[0]` raises IndexError (`None` here). */
  function SqueezedRows(frames: nat, numMic: nat): (r: Shape0)
    ensures frames != 1 ==> r == Rows(frames)
    ensures frames == 1 && numMic != 1 ==> r == Rows(numMic)
    ensures frames == 1 && numMic == 1 ==> r == NoRows
  {
    if frames == 1 && numMic == 1 then NoRows
    else if frames == 1 then Rows(numMic)
    else Rows(frames)
  }

  /** `shape[0]` of the squeezed block, or no first axis at all. */
  datatype Shape0 = NoRows | Rows(n: nat)

  /** The guard `data_block.shape[0] > 1` as written, for the subarrays of the
      table (three or more microphones): it admits every non-empty block,
      including a block of a single frame. */
  lemma GuardAdmitsOneFrameBlock(frames: nat, numMic: nat)
    requires frames >= 1 && numMic >= 2
    ensures SqueezedRows(frames, numMic).Rows? && SqueezedRows(frames, numMic).n > 1
  {
  }

  /** The guard as intended ("ensure svd does not result in empty U"): at
      least two frames. */
  predicate EnoughFrames(frames: nat)
  {
    frames > 1
  }

  /** Some block has a single frame exactly when `nframe` is 2 modulo 10,
      and then it is the last block: e.g. 12 frames give blocks [0, 11) and
      [10, 11). Every other block has between 2 and 100 frames. */
  lemma OneFrameLastBlock(nframe: nat)
    ensures (exists i :: 0 <= i < |BlockSizes(nframe)| && BlockSizes(nframe)[i] == 1) <==> nframe % 10 == 2
    ensures nframe % 10 == 2 ==> |BlockSizes(nframe)| > 0 && BlockSizes(nframe)[|BlockSizes(nframe)| - 1] == 1
  {
    BlockPartition(nframe);
    var sizes := BlockSizes(nframe);
    var n := |sizes|;
    forall i | 0 <= i < n
      ensures sizes[i] == 1 <==> i == n - 1 && nframe % 10 == 2
    {
      BlockSizeOne(nframe, n, i, sizes[i]);
    }
    if nframe % 10 == 2 {
      assert n > 0;
      assert sizes[n - 1] == 1;
    }
  }

  /** The arithmetic of OneFrameLastBlock: block `i` of `n` has
      `min(100 + 10 i, nframe - 1) - 10 i` frames. */
  lemma BlockSizeOne(nframe: nat, n: nat, i: nat, size: int)
    requires i < n && n * 10 >= nframe - 1 && (n - 1) * 10 < nframe - 1
    requires size == (if 100 + 10 * i < nframe then 100 + 10 * i else nframe - 1) - 10 * i
    ensures size == 1 <==> i == n - 1 && nframe % 10 == 2
  {
  }
}
