/** The settings records `LocataInitalOptions` and `DCASEInitalOptions`:
    an immutable record instead of a loosely typed namespace. */
module Opts {
  import opened Wrappers

  /** The four microphone arrays of the LOCATA corpus. */
  datatype ArrayName = Dummy | Eigenmike | Benchmark2 | Dicit

  function NameOf(a: ArrayName): string
  {
    match a
    case Dummy => "dummy"
    case Eigenmike => "eigenmike"
    case Benchmark2 => "benchmark2"
    case Dicit => "dicit"
  }

  /** The array an array-directory name denotes, if any. */
  function ParseArrayName(s: string): (r: Option<ArrayName>)
    ensures r.Some? ==> NameOf(r.value) == s
    ensures r.None? ==> forall a: ArrayName :: NameOf(a) != s
  {
    if s == "dummy" then Some(Dummy)
    else if s == "eigenmike" then Some(Eigenmike)
    else if s == "benchmark2" then Some(Benchmark2)
    else if s == "dicit" then Some(Dicit)
    else None
  }

  /** Number of microphones of each array (`self.<array>.M`). */
  datatype MicCounts = MicCounts(dicit: nat, eigenmike: nat, benchmark2: nat, dummy: nat)

  datatype Options = Options(
    validArrays: seq<string>,
    validSources: seq<string>,
    validResults: seq<string>,
    fieldsPositionArray: seq<string>,
    fieldsPositionSource: seq<string>,
    fieldsAudioSource: seq<string>,
    fieldsAudioArray: seq<string>,
    fieldsTable: seq<string>,
    columnsPositionSource: seq<string>,
    mics: MicCounts,
    c: real)  // speed of sound [m/s]

  function MicCount(o: Options, a: ArrayName): nat
  {
    match a
    case Dicit => o.mics.dicit
    case Eigenmike => o.mics.eigenmike
    case Benchmark2 => o.mics.benchmark2
    case Dummy => o.mics.dummy
  }

  function LocataInitialOptions(): (o: Options)
    ensures forall s :: s in o.validArrays <==> ParseArrayName(s).Some?
    ensures o.c > 0.0
  {
    Options(
      ["dummy", "eigenmike", "benchmark2", "dicit"],
      ["hendrik", "christine", "alex", "heinrich", "claas",
       "loudspeaker1", "loudspeaker2", "loudspeaker3", "loudspeaker4"],
      ["time", "timestamps", "broadside_angle", "azimuth", "elevation",
       "range", "x", "y", "z", "ID"],
      ["rotation", "position", "ref_vec", "mic", "valid_flags"],
      ["rotation", "position", "ref_vec", "valid_flags"],
      ["time", "fs", "data", "NS"],
      ["time", "fs", "data"],
      ["year", "month", "day", "hour", "minute", "second"],
      ["year", "month", "day", "hour", "minute", "second",
       "ref_vec_x", "ref_vec_y", "ref_vec_z", "x", "y", "z"],
      MicCounts(15, 32, 12, 4),
      340.0)
  }

  function DcaseInitialOptions(): (o: Options)
    ensures forall s :: s in o.validArrays <==> ParseArrayName(s).Some?
    ensures o.c > 0.0
  {
    Options(
      ["dummy", "eigenmike", "benchmark2", "dicit"],
      ["hendrik", "christine", "alex", "heinrich", "claas",
       "loudspeaker1", "loudspeaker2", "loudspeaker3", "loudspeaker4"],
      ["time", "timestamps", "broadside_angle", "azimuth", "elevation",
       "range", "x", "y", "z", "ID"],
      ["rotation", "position", "ref_vec", "mic", "valid_flags"],
      ["rotation", "position", "ref_vec", "valid_flags"],
      ["time", "fs", "data", "NS"],
      ["time", "fs", "data"],
      ["year", "month", "day", "hour", "minute", "second"],
      ["year", "month", "day", "hour", "minute", "second",
       "ref_vec_x", "ref_vec_y", "ref_vec_z", "x", "y", "z"],
      MicCounts(15, 32, 12, 4),
      340.0)
  }

  /** The DCASE settings are the LOCATA settings, field for field. */
  lemma DcaseSameAsLocata()
    ensures DcaseInitialOptions() == LocataInitialOptions()
  {
  }

  /** Every array in `valid_arrays` names one of the four profiles, each
      profile's name is listed exactly once, and the listed order is the
      source's. */
  lemma ValidArraysEnumerateProfiles()
    ensures |LocataInitialOptions().validArrays| == 4
    ensures forall a: ArrayName :: NameOf(a) in LocataInitialOptions().validArrays
    ensures forall i, j :: 0 <= i < j < 4 ==>
      LocataInitialOptions().validArrays[i] != LocataInitialOptions().validArrays[j]
    ensures LocataInitialOptions().validArrays == ["dummy", "eigenmike", "benchmark2", "dicit"]
  {
  }

  /** The microphone counts of the four arrays. */
  lemma MicCountsOfArrays()
    ensures MicCount(LocataInitialOptions(), Dicit) == 15
    ensures MicCount(LocataInitialOptions(), Eigenmike) == 32
    ensures MicCount(LocataInitialOptions(), Benchmark2) == 12
    ensures MicCount(LocataInitialOptions(), Dummy) == 4
  {
  }
}
