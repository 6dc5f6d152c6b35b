/** `MUSIC` up to its `print(interp_azimuth); exit(1)`: the control flow that
    turns a recording and its pose track into one azimuth per block and the
    azimuths interpolated to the pose timestamps. The STFT, the SVD and the
    pseudo-spectrum `1 / sum |SV^H Un Un^H SV|` are one abstract function of
    the block, the band position and the microphone delays. */
module Music {
  import opened Wrappers
  import opened Floats
  import opened Seqs
  import opened Opts
  import opened ArrayTable
  import opened PoseTimeline
  import opened Blocks
  import opened Band
  import opened Peak
  import opened Covariance
  import opened Interp

  /** One column of the pose track: the rotation matrix (by rows) and the
      microphone positions. */
  datatype Pose = Pose(r0: Vec3, r1: Vec3, r2: Vec3, mics: seq<Vec3>)

  /** The recording as `MUSIC` reads it: `duration` samples on each of
      `numChannels` channels. */
  datatype Inputs = Inputs(arrayName: string, fs: nat, duration: nat, numChannels: nat, timestamps: seq<real>, poses: seq<Pose>)

  /** The numerics left abstract: pi, sine, cosine and the pseudo-spectrum of
      (block, band position, delays). */
  datatype Numerics = Numerics(pi: real, sin: real -> real, cos: real -> real, pseudo: (nat, nat, seq<real>) -> real)

  /** The framing of a recording that passed the STFT. */
  datatype Framing = Framing(sub: Subarray, unique: Unique, times: seq<real>, opti: seq<real>, blockTimes: seq<real>, sizes: seq<nat>)
  {
    ghost predicate Valid(inp: Inputs)
    {
      && |times| > 0
      && StrictlyIncreasing(times)
      && |blockTimes| == |sizes|
      && StrictlyIncreasing(blockTimes)
      && |unique.values| == |unique.firstIndex|
      && |opti| <= |unique.values|
      && StrictlyIncreasing(opti)
      && Gatherable(unique.firstIndex, |inp.poses|)
      && |sub.channels| >= 2
      && ChannelsPresent(sub.channels, inp.numChannels)
    }
  }

  /** Lines 52-112: the table lookup, `np.unique` and the pose gather, the
      STFT of each subarray channel in turn (the column `y[:, ch]`, then the
      STFT's own parameter checks), the frame times, the pose cut and the
      block timestamps. The STFT checks do not depend on the channel, so a
      missing channel raises before them only when it is the first one. */
  function Frame(inp: Inputs): (r: Result<Framing>)
    ensures r.Err? && r.failure == Exit(1) <==> ParseArrayName(inp.arrayName).None?
    ensures r.Ok? ==> r.value.Valid(inp)
    ensures r.Ok? ==> r.value.sizes == BlockSizes(|r.value.times|)
    ensures r.Ok? ==> inp.duration > 0 && Hop(inp.fs) > 0
    ensures r.Ok? ==> forall i :: 0 <= i < |r.value.sub.channels| ==> r.value.sub.channels[i] < inp.numChannels
  {
    var sub :- SubarrayFor(inp.arrayName);
    var u := UniqueWithIndex(inp.timestamps);
    if !Gatherable(u.firstIndex, |inp.poses|) then Err(IndexError)
    else if sub.channels[0] >= inp.numChannels then Err(IndexError)
    else if inp.duration == 0 then Err(ValueError)
    else if Hop(inp.fs) == 0 then Err(ParameterError)
    else if !ChannelsPresent(sub.channels, inp.numChannels) then Err(IndexError)
    else Ok(Framed(sub, u, inp))
  }

  /** Line 89: `y[:, ch]` exists for every channel of the subarray. */
  predicate ChannelsPresent(channels: seq<nat>, numChannels: nat)
  {
    forall i :: 0 <= i < |channels| ==> channels[i] < numChannels
  }

  /** Lines 96-112 once the STFT has run: frame times, the pose cut at the
      last frame time, block sizes and block timestamps. */
  function Framed(sub: Subarray, u: Unique, inp: Inputs): (fr: Framing)
    requires |sub.channels| >= 2
    requires |u.values| == |u.firstIndex| && StrictlyIncreasing(u.values) && Gatherable(u.firstIndex, |inp.poses|)
    requires inp.duration > 0 && Hop(inp.fs) > 0 && ChannelsPresent(sub.channels, inp.numChannels)
    ensures fr.Valid(inp) && fr.sizes == BlockSizes(|fr.times|)
    ensures fr.sub == sub && fr.unique == u
  {
    var times := Frames(inp.duration, inp.fs);
    PartitionTimesIncreasing(times);
    var opti := Below(u.values, times[|times| - 1]);
    BelowIsPrefix(u.values, times[|times| - 1]);
    Framing(sub, u, times, opti, PartitionTimes(times), BlockSizes(|times|))
  }

  /** Lines 82-83: `rotation[:, unique_idx]` and `mic[:, unique_idx]` index
      within the pose track. */
  predicate Gatherable(idx: seq<nat>, columns: nat)
  {
    forall j :: 0 <= j < |idx| ==> idx[j] < columns
  }

  /** Lines 96-97: the frame times of a signal the STFT accepted. */
  function Frames(duration: nat, fs: nat): (t: seq<real>)
    requires duration > 0 && Hop(fs) > 0
    ensures |t| > 0 && StrictlyIncreasing(t)
  {
    var hop := Hop(fs);
    assert fs > 0;
    FrameTimesIncreasing(duration, hop, fs);
    var t := FrameTimes(duration, hop, fs);
    assert |t| > 0 by {
      assert 0 + 0 * hop < duration;
    }
    t
  }

  /** With a known array and a pose track covering every timestamp, framing
      fails only at the channel columns and in the STFT: a first channel the
      recording lacks raises IndexError; an empty signal cannot be
      reflect-padded (ValueError); a rate below 134 Hz gives a zero hop, which
      librosa rejects; and past those, a later missing channel raises
      IndexError. Channels ascend, so all are present exactly when the last
      one is. */
  lemma FrameRaises(inp: Inputs)
    requires ParseArrayName(inp.arrayName).Some? && |inp.poses| >= |inp.timestamps|
    ensures var ch := SubarrayFor(inp.arrayName).value.channels;
      && (ch[0] >= inp.numChannels ==> Frame(inp) == Err(IndexError))
      && (ch[0] < inp.numChannels && inp.duration == 0 ==> Frame(inp) == Err(ValueError))
      && (ch[0] < inp.numChannels && inp.duration > 0 && Hop(inp.fs) == 0 ==> Frame(inp) == Err(ParameterError))
      && (inp.duration > 0 && Hop(inp.fs) > 0 ==>
            (Frame(inp).Ok? <==> ch[|ch| - 1] < inp.numChannels)
            && (Frame(inp).Err? ==> Frame(inp).failure == IndexError))
  {
    var u := UniqueWithIndex(inp.timestamps);
    assert Gatherable(u.firstIndex, |inp.poses|);
    var ch := SubarrayFor(inp.arrayName).value.channels;
    assert ch[|ch| - 1] < inp.numChannels ==> ChannelsPresent(ch, inp.numChannels) by {
      if ch[|ch| - 1] < inp.numChannels {
        forall i | 0 <= i < |ch|
          ensures ch[i] < inp.numChannels
        {
          if i < |ch| - 1 {
            assert ch[i] < ch[|ch| - 1];
          }
        }
      }
    }
  }

  /** An all-zero 73 x 19 map. */
  function ZeroGrid(): (g: seq<seq<real>>)
    ensures IsGrid(g)
  {
    seq(NumAz, _ => seq(NumEl, _ => 0.0))
  }

  function AddGrid(g: seq<seq<real>>, h: seq<seq<real>>): (s: seq<seq<real>>)
    requires IsGrid(g) && IsGrid(h)
    ensures IsGrid(s)
  {
    seq(NumAz, a requires 0 <= a < NumAz => seq(NumEl, e requires 0 <= e < NumEl => g[a][e] + h[a][e]))
  }

  /** `_power.sum(0)`: the cell-wise sum over the band. */
  function SumGrids(gs: seq<seq<seq<real>>>): (s: seq<seq<real>>)
    requires forall f :: 0 <= f < |gs| ==> IsGrid(gs[f])
    ensures IsGrid(s)
  {
    if |gs| == 0 then ZeroGrid()
    else AddGrid(SumGrids(gs[..|gs| - 1]), gs[|gs| - 1])
  }

  /** Lines 142-158 for one cell: the look direction, rotated into the room,
      gives the delays of the subarray, and the pseudo-spectrum of the block's
      band position at those delays. */
  function CellPower(b: nat, f: nat, a: nat, e: nat, pose: Pose, sub: Subarray, c: real, num: Numerics): (r: Result<real>)
    requires a < NumAz && e < NumEl
    ensures r.Err? <==> Tau(Vec3(0.0, 0.0, 0.0), pose.mics, sub.channels, sub.refMic, c).Err?
    ensures r.Err? ==> DelayFailure(r.failure)
  {
    var eta := Eta(AzGrid(num.pi)[a], ElGrid(num.pi)[e], num.sin, num.cos);
    var tau :- Tau(Rotate(pose.r0, pose.r1, pose.r2, eta), pose.mics, sub.channels, sub.refMic, c);
    Ok(num.pseudo(b, f, tau))
  }

  /** Lines 140-158: the grid of one (block, bin), cell by cell in the loop
      order (azimuth outer, elevation inner). */
  function PoseGrid(b: nat, f: nat, pose: Pose, sub: Subarray, c: real, num: Numerics): (r: Result<seq<seq<real>>>)
    ensures r.Ok? ==> IsGrid(r.value)
    ensures r.Err? ==> DelayFailure(r.failure)
  {
    var cell := (k: nat) requires k < NumAz * NumEl => CellPower(b, f, Unravel(k).0, Unravel(k).1, pose, sub, c, num);
    CollectRaisesFrom(NumAz * NumEl, cell, DelayFailure);
    var cells :- Collect(NumAz * NumEl, cell);
    Ok(Reshape(cells))
  }

  /** A row-major vector of 73 x 19 cells as a map. */
  function Reshape(cells: seq<real>): (m: seq<seq<real>>)
    requires |cells| == NumAz * NumEl
    ensures IsGrid(m)
    ensures forall a, e :: 0 <= a < NumAz && 0 <= e < NumEl ==> m[a][e] == cells[Flat(a, e)]
  {
    seq(NumAz, a requires 0 <= a < NumAz => seq(NumEl, e requires 0 <= e < NumEl => cells[Flat(a, e)]))
  }

  predicate DelayFailure(e: Failure)
  {
    e == ZeroDivisionError || e == IndexError
  }

  /** The delays are the same kind of failure for every look direction, so a
      grid is computed exactly when the pose's delays can be. */
  lemma PoseGridRaises(b: nat, f: nat, pose: Pose, sub: Subarray, c: real, num: Numerics)
    ensures PoseGrid(b, f, pose, sub, c, num).Err? <==> Tau(Vec3(0.0, 0.0, 0.0), pose.mics, sub.channels, sub.refMic, c).Err?
  {
    var zero := Tau(Vec3(0.0, 0.0, 0.0), pose.mics, sub.channels, sub.refMic, c);
    if zero.Err? {
      assert CellPower(b, f, Unravel(0).0, Unravel(0).1, pose, sub, c, num).Err?;
    }
  }

  /** Lines 125-158 for one (block, bin): the squeezed frame block, the guard,
      the pose of the block, the SVD and the grid. A block whose squeezed data
      is 1-D (one frame, or one microphone) makes `Rxx` a scalar, which the
      SVD rejects. */
  function BinPower(fr: Framing, inp: Inputs, b: nat, f: nat, c: real, num: Numerics): (r: Result<seq<seq<real>>>)
    requires fr.Valid(inp) && b < |fr.blockTimes|
    ensures r.Ok? ==> IsGrid(r.value)
    ensures r.Err? ==> !r.failure.Exit?
  {
    var frames := fr.sizes[b];
    var numMic := |fr.sub.channels|;
    match SqueezedRows(frames, numMic)
    case NoRows => Err(IndexError)
    case Rows(n) =>
      if n <= 1 then Ok(ZeroGrid())
      else
        var closest :- ClosestPose(fr.blockTimes[b], fr.opti);
        if frames == 1 || numMic == 1 then Err(LinAlgError)
        else PoseGrid(b, f, inp.poses[fr.unique.firstIndex[closest]], fr.sub, c, num)
  }

  /** The (block, bin) step with the guard as its comment intends: a block
      of fewer than two frames is skipped before the squeeze matters. */
  function BinPowerIntended(fr: Framing, inp: Inputs, b: nat, f: nat, c: real, num: Numerics): (r: Result<seq<seq<real>>>)
    requires fr.Valid(inp) && b < |fr.blockTimes|
    ensures r.Ok? ==> IsGrid(r.value)
    ensures r.Err? ==> DelayFailure(r.failure) || r.failure == ValueError
  {
    if !EnoughFrames(fr.sizes[b]) then Ok(ZeroGrid())
    else
      var closest :- ClosestPose(fr.blockTimes[b], fr.opti);
      PoseGrid(b, f, inp.poses[fr.unique.firstIndex[closest]], fr.sub, c, num)
  }

  /** The intended guard never hands the SVD a squeezed single frame, and on
      blocks of two or more frames it computes what the code computes. */
  lemma BinPowerIntendedAgrees(fr: Framing, inp: Inputs, b: nat, f: nat, c: real, num: Numerics)
    requires fr.Valid(inp) && b < |fr.blockTimes|
    ensures BinPowerIntended(fr, inp, b, f, c, num) != Err(LinAlgError)
    ensures EnoughFrames(fr.sizes[b]) ==> BinPowerIntended(fr, inp, b, f, c, num) == BinPower(fr, inp, b, f, c, num)
    ensures !EnoughFrames(fr.sizes[b]) ==> BinPowerIntended(fr, inp, b, f, c, num) == Ok(ZeroGrid())
  {
    var frames := fr.sizes[b];
    if EnoughFrames(frames) {
      assert SqueezedRows(frames, |fr.sub.channels|) == Rows(frames);
    }
  }

  /** Lines 122-160 for one block: the spectrum summed over the band. */
  function BlockSpectrum(fr: Framing, inp: Inputs, b: nat, c: real, num: Numerics): (r: Result<seq<seq<real>>>)
    requires fr.Valid(inp) && b < |fr.blockTimes|
    ensures r.Ok? ==> IsGrid(r.value)
    ensures r.Err? ==> !r.failure.Exit?
  {
    var grids :- BinGrids(fr, inp, b, |ValidBins(inp.fs)|, c, num);
    Ok(SumGrids(grids))
  }

  /** A block's spectrum is computed exactly when every bin of the band is;
      otherwise the block raises what its first failing bin raises. */
  lemma BlockSpectrumRaises(fr: Framing, inp: Inputs, b: nat, c: real, num: Numerics)
    requires fr.Valid(inp) && b < |fr.blockTimes|
    ensures var r := BlockSpectrum(fr, inp, b, c, num);
      && (r.Ok? <==> forall f :: 0 <= f < |ValidBins(inp.fs)| ==> BinPower(fr, inp, b, f, c, num).Ok?)
      && (r.Err? ==> exists f :: 0 <= f < |ValidBins(inp.fs)| && BinPower(fr, inp, b, f, c, num) == Err(r.failure) && (forall g :: 0 <= g < f ==> BinPower(fr, inp, b, g, c, num).Ok?))
  {
  }

  /** With an empty band the spectrum of every block is all zero. */
  lemma EmptyBandZeroSpectrum(fr: Framing, inp: Inputs, b: nat, c: real, num: Numerics)
    requires fr.Valid(inp) && b < |fr.blockTimes| && |ValidBins(inp.fs)| == 0
    ensures BlockSpectrum(fr, inp, b, c, num) == Ok(ZeroGrid())
  {
  }

  /** The inner loop over the first `m` bins of the band. */
  function BinGrids(fr: Framing, inp: Inputs, b: nat, m: nat, c: real, num: Numerics): (r: Result<seq<seq<seq<real>>>>)
    requires fr.Valid(inp) && b < |fr.blockTimes|
    ensures r.Ok? ==> |r.value| == m && forall f :: 0 <= f < m ==> IsGrid(r.value[f])
    ensures r.Err? ==> !r.failure.Exit?
    ensures r.Ok? <==> forall f :: 0 <= f < m ==> BinPower(fr, inp, b, f, c, num).Ok?
    ensures r.Err? ==> exists f :: 0 <= f < m && BinPower(fr, inp, b, f, c, num) == Err(r.failure) && (forall g :: 0 <= g < f ==> BinPower(fr, inp, b, g, c, num).Ok?)
  {
    if m == 0 then Ok([])
    else
      var init :- BinGrids(fr, inp, b, m - 1, c, num);
      var last :- BinPower(fr, inp, b, m - 1, c, num);
      Ok(init + [last])
  }

  /** What `MUSIC` has computed when it reaches line 187. */
  datatype Estimates = Estimates(blockTimes: seq<real>, azimuth: seq<real>, elevation: seq<real>, printed: seq<Num>)

  /** Lines 52-186. A recording that passes yields strictly increasing block
      times, one grid direction per block, and the azimuths interpolated at
      every pose timestamp (NaN before the first block time). */
  function Estimate(inp: Inputs, c: real, num: Numerics): (r: Result<Estimates>)
    ensures r.Err? && r.failure == Exit(1) <==> ParseArrayName(inp.arrayName).None?
    ensures r.Ok? ==> Consistent(r.value, inp.timestamps, num.pi)
  {
    var fr :- Frame(inp);
    var spectra :- Spectra(fr, inp, |fr.blockTimes|, c, num);
    Interpolate(fr.blockTimes, spectra, inp.timestamps, num.pi)
  }

  /** What holds of the estimates `MUSIC` reaches line 187 with. */
  ghost predicate Consistent(est: Estimates, timestamps: seq<real>, pi: real)
  {
    && |est.blockTimes| > 0
    && StrictlyIncreasing(est.blockTimes)
    && |est.azimuth| == |est.blockTimes| && |est.elevation| == |est.blockTimes|
    && (forall b :: 0 <= b < |est.azimuth| ==> est.azimuth[b] in AzGrid(pi) && est.elevation[b] in ElGrid(pi))
    && |est.printed| == |timestamps|
    && (forall i :: 0 <= i < |timestamps| ==> est.printed[i] == InterpAt(timestamps[i], est.blockTimes, est.azimuth))
  }

  /** Lines 164-186: peaks, then `np.interp(timestamps, block_timestamps,
      azimuth, left=NaN)`, which raises ValueError when there is no block. */
  function Interpolate(blockTimes: seq<real>, spectra: seq<seq<seq<real>>>, timestamps: seq<real>, pi: real): (r: Result<Estimates>)
    requires StrictlyIncreasing(blockTimes) && |spectra| == |blockTimes|
    requires forall b :: 0 <= b < |spectra| ==> IsGrid(spectra[b])
    ensures r.Err? <==> |blockTimes| == 0
    ensures r.Err? ==> r.failure == ValueError
    ensures r.Ok? ==> Consistent(r.value, timestamps, pi) && r.value.blockTimes == blockTimes
    ensures r.Ok? ==> forall b :: 0 <= b < |spectra| ==> (r.value.azimuth[b], r.value.elevation[b]) == PeakDirection(spectra[b], pi)
  {
    var dirs := Directions(spectra, pi);
    var printed :- InterpAll(timestamps, blockTimes, dirs.0);
    Ok(Estimates(blockTimes, dirs.0, dirs.1, printed))
  }

  /** Lines 121-160 over the first `n` blocks: every block's spectrum, or
      the exception of the first (block, bin) that raised. */
  function Spectra(fr: Framing, inp: Inputs, n: nat, c: real, num: Numerics): (r: Result<seq<seq<seq<real>>>>)
    requires fr.Valid(inp) && n <= |fr.blockTimes|
    ensures r.Ok? ==> |r.value| == n
    ensures r.Ok? ==> forall b :: 0 <= b < n ==> BlockSpectrum(fr, inp, b, c, num) == Ok(r.value[b]) && IsGrid(r.value[b])
    ensures r.Err? ==> !r.failure.Exit?
  {
    var block := (b: nat) requires b < n => BlockSpectrum(fr, inp, b, c, num);
    CollectRaisesFrom(n, block, (e: Failure) => !e.Exit?);
    CollectAll(n, block, IsGrid);
    Collect(n, block)
  }

  /** The loop over blocks completes exactly when every block does. */
  lemma SpectraOk(fr: Framing, inp: Inputs, n: nat, c: real, num: Numerics)
    requires fr.Valid(inp) && n <= |fr.blockTimes|
    ensures Spectra(fr, inp, n, c, num).Ok? <==> forall b :: 0 <= b < n ==> BlockSpectrum(fr, inp, b, c, num).Ok?
  {
  }

  /** Lines 164-182: the peak direction of every block's spectrum. */
  function Directions(spectra: seq<seq<seq<real>>>, pi: real): (dirs: (seq<real>, seq<real>))
    requires forall b :: 0 <= b < |spectra| ==> IsGrid(spectra[b])
    ensures |dirs.0| == |spectra| && |dirs.1| == |spectra|
    ensures forall b :: 0 <= b < |spectra| ==> (dirs.0[b], dirs.1[b]) == PeakDirection(spectra[b], pi)
  {
    (seq(|spectra|, b requires 0 <= b < |spectra| => PeakDirection(spectra[b], pi).0),
     seq(|spectra|, b requires 0 <= b < |spectra| => PeakDirection(spectra[b], pi).1))
  }

  /** How a call of `MUSIC` ends: it raises, or it prints the interpolated
      azimuths and exits with status 1 (line 188), never returning. */
  datatype Outcome = Raised(failure: Failure) | PrintedThenExit(printed: seq<Num>, code: int)

  function Run(inp: Inputs, c: real, num: Numerics): (o: Outcome)
    ensures o.PrintedThenExit? ==> o.code == 1 && |o.printed| == |inp.timestamps|
    ensures ParseArrayName(inp.arrayName).None? ==> o == Raised(Exit(1))
  {
    match Estimate(inp, c, num)
    case Err(e) => Raised(e)
    case Ok(est) => PrintedThenExit(est.printed, 1)
  }

  /** The three stages of `Estimate`, for the lemmas below. */
  lemma EstimateSteps(inp: Inputs, c: real, num: Numerics)
    ensures Frame(inp).Err? ==> Estimate(inp, c, num) == Err(Frame(inp).failure)
    ensures Frame(inp).Ok? ==> var fr := Frame(inp).value; var sp := Spectra(fr, inp, |fr.blockTimes|, c, num);
      && (sp.Err? ==> Estimate(inp, c, num) == Err(sp.failure))
      && (sp.Ok? ==> Estimate(inp, c, num) == Interpolate(fr.blockTimes, sp.value, inp.timestamps, num.pi))
  {
  }

  /** Below 1600 Hz no FFT bin lies above 800 Hz, so the band is empty. */
  lemma LowRateEmptyBand(fs: nat)
    requires fs <= 1600
    ensures |ValidBins(fs)| == 0
  {
    var r := ValidBins(fs);
    if |r| > 0 {
      BinAtMost800(r[0], fs);
    }
  }

  lemma BinAtMost800(k: nat, fs: nat)
    requires k <= FftPoint / 2 && fs <= 1600
    ensures BinFrequency(k, fs) <= 800.0
  {
    assert k * fs <= 512 * fs;
    assert 512 * fs <= 512 * 1600;
    assert (k * fs) as real <= 819200.0;
  }

  /** The all-zero map peaks at the first grid direction. */
  lemma ZeroGridPeak(pi: real)
    ensures PeakDirection(ZeroGrid(), pi) == (-pi, 0.0)
  {
    FlatMapPeak(ZeroGrid(), 0.0, pi);
  }

  /** With an empty band no bin is visited, every block spectrum stays all
      zero, and every block reports the first grid direction (-pi, 0). */
  lemma EmptyBandFirstDirection(inp: Inputs, c: real, num: Numerics)
    requires |ValidBins(inp.fs)| == 0
    ensures Estimate(inp, c, num).Ok? ==> FirstDirectionEverywhere(Estimate(inp, c, num).value, num.pi)
  {
    var r := Estimate(inp, c, num);
    if r.Ok? {
      EstimateSteps(inp, c, num);
      var fr := Frame(inp).value;
      var sp := Spectra(fr, inp, |fr.blockTimes|, c, num).value;
      var est := r.value;
      assert r == Interpolate(fr.blockTimes, sp, inp.timestamps, num.pi);
      ZeroGridPeak(num.pi);
      forall b | 0 <= b < |est.azimuth|
        ensures est.azimuth[b] == -num.pi && est.elevation[b] == 0.0
      {
        EmptyBandZeroSpectrum(fr, inp, b, c, num);
        assert sp[b] == ZeroGrid();
        assert (est.azimuth[b], est.elevation[b]) == PeakDirection(sp[b], num.pi);
      }
    }
  }

  predicate FirstDirectionEverywhere(est: Estimates, pi: real)
  {
    forall b :: 0 <= b < |est.azimuth| && b < |est.elevation| ==> est.azimuth[b] == -pi && est.elevation[b] == 0.0
  }

  /** A signal no longer than one hop has a single frame and no block, so
      `np.interp` gets no sample points and raises ValueError: a short
      recording never reaches the print. */
  lemma SingleFrameRaises(inp: Inputs, c: real, num: Numerics)
    requires Frame(inp).Ok? && |Frame(inp).value.times| == 1
    ensures Estimate(inp, c, num) == Err(ValueError)
  {
    var fr := Frame(inp).value;
    assert |BlockSizes(1)| == 0;
  }

  /** When no pose time precedes the last frame time, the first bin of the
      first block has no pose to pick and `np.argmin` raises ValueError. */
  lemma UncoveredPoseTrackRaises(inp: Inputs, c: real, num: Numerics)
    requires Frame(inp).Ok? && |Frame(inp).value.opti| == 0
    requires |Frame(inp).value.blockTimes| > 0 && |ValidBins(inp.fs)| > 0
    ensures Estimate(inp, c, num) == Err(ValueError)
  {
    var fr := Frame(inp).value;
    GuardAdmitsOneFrameBlock(fr.sizes[0], |fr.sub.channels|);
    assert BinPower(fr, inp, 0, 0, c, num) == Err(ValueError);
    BlockRaisesAt(fr, inp, 0, c, num, 0);
    SpectraRaisesAt(fr, inp, |fr.blockTimes|, c, num, 0);
    EstimateSteps(inp, c, num);
  }

  /** A block raises what its first failing bin raises. */
  lemma BlockRaisesAt(fr: Framing, inp: Inputs, b: nat, c: real, num: Numerics, f: nat)
    requires fr.Valid(inp) && b < |fr.blockTimes| && f < |ValidBins(inp.fs)|
    requires BinPower(fr, inp, b, f, c, num).Err?
    requires forall g :: 0 <= g < f ==> BinPower(fr, inp, b, g, c, num).Ok?
    ensures BlockSpectrum(fr, inp, b, c, num) == Err(BinPower(fr, inp, b, f, c, num).failure)
  {
    BlockSpectrumRaises(fr, inp, b, c, num);
  }

  /** The loop over blocks raises what its first failing block raises. */
  lemma SpectraRaisesAt(fr: Framing, inp: Inputs, n: nat, c: real, num: Numerics, k: nat)
    requires fr.Valid(inp) && k < n <= |fr.blockTimes|
    requires BlockSpectrum(fr, inp, k, c, num).Err?
    requires forall j :: 0 <= j < k ==> BlockSpectrum(fr, inp, j, c, num).Ok?
    ensures Spectra(fr, inp, n, c, num) == Err(BlockSpectrum(fr, inp, k, c, num).failure)
  {
    CollectRaisesAt(n, (b: nat) requires b < n => BlockSpectrum(fr, inp, b, c, num), k);
  }

  /** The pose every block uses: the last pose before the last frame time. */
  function LastPose(fr: Framing, inp: Inputs): (p: Pose)
    requires fr.Valid(inp) && |fr.opti| > 0
  {
    inp.poses[fr.unique.firstIndex[|fr.opti| - 1]]
  }

  /** A (block, bin) with at least two frames, a pose to pick and computable
      delays yields its grid. */
  lemma BinComputes(fr: Framing, inp: Inputs, b: nat, f: nat, c: real, num: Numerics)
    requires fr.Valid(inp) && b < |fr.blockTimes| && fr.sizes[b] >= 2 && |fr.opti| > 0
    requires Tau(Vec3(0.0, 0.0, 0.0), LastPose(fr, inp).mics, fr.sub.channels, fr.sub.refMic, c).Ok?
    ensures BinPower(fr, inp, b, f, c, num).Ok?
  {
    BinUsesLastPose(fr, inp, b, f, c, num);
    PoseGridRaises(b, f, LastPose(fr, inp), fr.sub, c, num);
  }

  /** A (block, bin) with at least two frames and a pose to pick computes the
      grid of the last pose before the last frame time. */
  lemma BinUsesLastPose(fr: Framing, inp: Inputs, b: nat, f: nat, c: real, num: Numerics)
    requires fr.Valid(inp) && b < |fr.blockTimes| && fr.sizes[b] >= 2 && |fr.opti| > 0
    ensures BinPower(fr, inp, b, f, c, num) == PoseGrid(b, f, LastPose(fr, inp), fr.sub, c, num)
  {
    ClosestPoseIsLast(fr.blockTimes[b], fr.opti);
    var rows := SqueezedRows(fr.sizes[b], |fr.sub.channels|);
    assert rows == Rows(fr.sizes[b]);
    var cp := ClosestPose(fr.blockTimes[b], fr.opti);
    assert cp.Ok? && cp.value == |fr.opti| - 1;
    assert inp.poses[fr.unique.firstIndex[cp.value]] == LastPose(fr, inp);
  }

  /** A one-frame block with a pose to pick fails in the SVD. */
  lemma OneFrameBinFails(fr: Framing, inp: Inputs, b: nat, f: nat, c: real, num: Numerics)
    requires fr.Valid(inp) && b < |fr.blockTimes| && fr.sizes[b] == 1 && |fr.opti| > 0
    ensures BinPower(fr, inp, b, f, c, num) == Err(LinAlgError)
  {
    ClosestPoseIsLast(fr.blockTimes[b], fr.opti);
    GuardAdmitsOneFrameBlock(1, |fr.sub.channels|);
  }

  /** Every block but the last spans at least eleven frames. */
  lemma InnerBlocksWide(nframe: nat, b: nat)
    requires b + 1 < |BlockSizes(nframe)|
    ensures BlockSizes(nframe)[b] >= 2
  {
    BlockPartition(nframe);
    var n := |BlockStarts(nframe)|;
    assert 10 * b + 10 <= (n - 1) * 10;
  }

  /** The squeeze at line 125 as written: when the frame count is 2 modulo
      10 the last block holds one frame, passes the guard, and the SVD of the
      scalar `Rxx` raises LinAlgError, once a pose exists and the delays can
      be computed. */
  lemma OneFrameBlockRaises(inp: Inputs, c: real, num: Numerics)
    requires Frame(inp).Ok? && |Frame(inp).value.times| % 10 == 2
    requires |ValidBins(inp.fs)| > 0 && |Frame(inp).value.opti| > 0
    requires Tau(Vec3(0.0, 0.0, 0.0), LastPose(Frame(inp).value, inp).mics, Frame(inp).value.sub.channels, Frame(inp).value.sub.refMic, c).Ok?
    ensures Estimate(inp, c, num) == Err(LinAlgError)
  {
    var fr := Frame(inp).value;
    var nframe := |fr.times|;
    var n := |fr.blockTimes|;
    OneFrameLastBlock(nframe);
    assert fr.sizes[n - 1] == 1;
    forall b | 0 <= b < n - 1
      ensures BlockSpectrum(fr, inp, b, c, num).Ok?
    {
      InnerBlocksWide(nframe, b);
      forall f | 0 <= f < |ValidBins(inp.fs)|
        ensures BinPower(fr, inp, b, f, c, num).Ok?
      {
        BinComputes(fr, inp, b, f, c, num);
      }
      BlockSpectrumRaises(fr, inp, b, c, num);
    }
    OneFrameBinFails(fr, inp, n - 1, 0, c, num);
    BlockRaisesAt(fr, inp, n - 1, c, num, 0);
    SpectraRaisesAt(fr, inp, n, c, num, n - 1);
    EstimateSteps(inp, c, num);
  }
}
