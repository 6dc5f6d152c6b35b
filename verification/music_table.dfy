/** The array-profile table at the top of `MUSIC`: which channels of each
    array's recording form the localisation subarray, and which of them is
    the reference microphone. */
module ArrayTable {
  import opened Wrappers
  import opened Opts

  datatype Subarray = Subarray(channels: seq<nat>, refMic: nat)

  /** `np.arange(n)`. */
  function Range(n: nat): (r: seq<nat>)
    ensures |r| == n && forall i :: 0 <= i < n ==> r[i] == i
  {
    seq(n, i => i)
  }

  function SubarrayOf(a: ArrayName): Subarray
  {
    match a
    case Dicit => Subarray([6, 7, 9], 1)
    case Benchmark2 => Subarray(Range(12), 1)
    case Eigenmike => Subarray(Range(32), 1)
    case Dummy => Subarray(Range(4), 1)
  }

  /** The array-name dispatch: one of the four names selects its subarray, any
      other name logs an error and exits with status 1. */
  function SubarrayFor(arrayName: string): (r: Result<Subarray>)
    ensures r.Err? <==> ParseArrayName(arrayName).None?
    ensures r.Err? ==> r.failure == Exit(1)
    ensures r.Ok? ==> r.value.refMic == 1 && r.value.refMic < |r.value.channels|
    ensures r.Ok? ==> forall i, j :: 0 <= i < j < |r.value.channels| ==> r.value.channels[i] < r.value.channels[j]
  {
    match ParseArrayName(arrayName)
    case None => Err(Exit(1))
    case Some(a) => Ok(SubarrayOf(a))
  }

  /** The four entries of the table. */
  lemma TableEntries()
    ensures SubarrayFor("dicit") == Ok(Subarray([6, 7, 9], 1))
    ensures SubarrayFor("benchmark2") == Ok(Subarray(Range(12), 1))
    ensures SubarrayFor("eigenmike") == Ok(Subarray(Range(32), 1))
    ensures SubarrayFor("dummy") == Ok(Subarray(Range(4), 1))
  {
  }

  /** Every channel the table picks exists on that array: it is below the
      microphone count of the settings record, and so is the reference
      microphone's channel. */
  lemma SubarrayWithinMicCount(a: ArrayName)
    ensures forall i :: 0 <= i < |SubarrayOf(a).channels| ==>
      SubarrayOf(a).channels[i] < MicCount(LocataInitialOptions(), a)
    ensures SubarrayOf(a).channels[SubarrayOf(a).refMic] < MicCount(LocataInitialOptions(), a)
  {
  }
}
