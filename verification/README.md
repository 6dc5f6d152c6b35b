# locata_wrapper in Dafny

A model of the discrete core of `locata_wrapper`, the Python wrapper that runs
a sound-source localisation algorithm over the LOCATA (or DCASE) recordings and
scores its direction-of-arrival (DOA) estimates. The model covers:

- the evaluation script's configuration checks, algorithm import and task
  dispatch (`eval_loc.py`, `dynamic_import.py`, `opts.py`);
- the loading of wav files and position tables into per-object records, and the
  ground truth relative to one array (`load_data.py`);
- the per-recording bookkeeping: elapsed time, valid-flag selection, recording
  number, array filter, result paths and the files written per source
  (`process.py`);
- the bundled MUSIC estimator: array table, pose timeline, frame and block
  partition, frequency band, covariance, steering delays, the (block, bin)
  loop, the grid peak and the interpolation to the pose timestamps
  (`music.py`);
- the scores: the prediction mask, the mean absolute errors and the
  assignment cost on the sphere (`metrics.py`);
- the angle wrapping helpers (`shared.py`).

Numerics stay abstract. The STFT, the SVD and steering vector, sine, cosine,
arc cosine, `cart2pol`, `linear_sum_assignment` and the file reads are function
parameters, and pi is a real parameter. What the model relies on from each is
stated as a predicate: `Metrics.Sound` for the trigonometry and
`Metrics.Optimal` for the solver. Doubles are exact reals, and NaN is the
`Floats.Num` constructor `NaN`. A Python exception or `sys.exit` becomes a
`Wrappers.Failure` in a `Result`. A Python `dict` is `PyDict`: an
insertion-ordered list of entries with distinct keys.

Members named `...AsWritten`, or documented "as written", follow the code line
by line, defects included. The members beside them named `...Intended`,
`CheckedRun` and `NearestPose` state what the code evidently means. Each pair
is linked by a lemma (see "## Findings").

## Model

| member | source | states |
|---|---|---|
| Wrappers.Collect | locata_wrapper/algorithm/music.py:121-122 | a `for` loop whose body may raise: the results of all iterations, or the exception of the first raising one |
| Wrappers.CollectRaisesAt | locata_wrapper/algorithm/music.py:121-122 | the loop raises exactly what its first raising iteration raises |
| Wrappers.CollectRaisesFrom | locata_wrapper/algorithm/music.py:121-122 | every exception the loop raises is one an iteration can raise |
| Wrappers.CollectAll | locata_wrapper/algorithm/music.py:121-122 | a property every iteration's result has holds of every collected result |
| Floats.Sum | locata_wrapper/utils/metrics.py:15-16 | a sum is NaN exactly when some term is NaN, and otherwise is the sum of the values |
| Floats.Div | locata_wrapper/utils/metrics.py:18 | division by a count is a number exactly for a number over a positive count, and then times the count it gives the numerator back |
| Floats.Mean | locata_wrapper/utils/metrics.py:15-16 | `np.mean` is NaN for an empty vector, a number exactly when the vector is non-empty and NaN-free, and then that number times the count is the sum of the values |
| Floats.MeanNonNegative | locata_wrapper/utils/metrics.py:15-16 | the mean of non-negative numbers is non-negative |
| Floats.MeanOfZeros | locata_wrapper/utils/metrics.py:15-16 | the mean of a non-empty vector of zeros is zero |
| Seqs.TrueIndices | locata_wrapper/utils/load_data.py:191 | the flagged positions, strictly ascending, exactly those whose flag is set |
| Seqs.Mask | locata_wrapper/utils/load_data.py:191 | boolean indexing keeps the flagged elements in order, one per flagged position |
| Seqs.Gather | locata_wrapper/algorithm/music.py:82-83 | integer indexing returns element `idx[k]` at position k |
| Seqs.ArangeLength | locata_wrapper/algorithm/music.py:96 | `np.arange(start, stop, step)` has exactly the k with `start + k step < stop` |
| Seqs.ArgMinFirst | locata_wrapper/algorithm/music.py:129 | `np.argmin` returns the first position of a least element |
| Seqs.ArgMaxFirst | locata_wrapper/algorithm/music.py:179 | `np.argmax` returns the first position of a greatest element |
| Strings.FindFrom | locata_wrapper/utils/process.py:41 | `find` returns the first occurrence at or after the start, or None when there is none |
| Strings.FindFromSuffix | locata_wrapper/utils/process.py:41 | searching a suffix finds the first occurrence at or after its start, shifted back by the start |
| Strings.SplitSecond | locata_wrapper/utils/process.py:41 | `split(sep)[1]` exists exactly when the separator occurs, and is the text from the end of its first occurrence to the next occurrence or the end |
| Strings.SplitJoin | locata_wrapper/utils/process.py:41 | joining the pieces of a split with the separator restores the string |
| Strings.SplitPartsFree | locata_wrapper/utils/dynamic_import.py:25 | no piece of a split contains the separator |
| Strings.ReplaceIdentity | locata_wrapper/utils/process.py:59 | a replacement that finds no target, or replaces a pattern by itself, changes nothing |
| Strings.ReplaceByEmptyConcatenates | locata_wrapper/utils/load_data.py:52-53 | replacing by the empty string leaves the concatenation of the pieces the target separates |
| Strings.ReplaceLeading | locata_wrapper/utils/process.py:59 | a pattern that opens the string and occurs nowhere else is swapped just there |
| Strings.ReplaceTrailing | locata_wrapper/utils/load_data.py:52 | a pattern that closes the string and occurs nowhere before is swapped just there |
| Strings.Basename | locata_wrapper/utils/process.py:46 | `os.path.basename` is the suffix after the last '/' and contains no '/' |
| Strings.BasenameOfJoin | locata_wrapper/utils/process.py:46 | the base name of `dir/file` is `file` |
| Strings.NatToString | locata_wrapper/utils/process.py:105 | `str(n)` is a non-empty string of decimal digits without a leading zero |
| Strings.ParseInt | locata_wrapper/utils/process.py:41 | `int()` fails only with ValueError, always for a non-digit after the first character, and gives the decimal value of a string of digits |
| Strings.ParseIntNatToString | locata_wrapper/utils/process.py:41 | parsing a formatted natural number gives it back |
| Strings.NatToStringInjective | locata_wrapper/utils/process.py:105 | distinct numbers format to distinct strings |
| PyDict.Get | locata_wrapper/utils/load_data.py:189 | a lookup is None exactly for a missing key, and otherwise gives the stored value |
| PyDict.Put | locata_wrapper/utils/load_data.py:62 | an assignment keeps the keys distinct |
| PyDict.PutKeys | locata_wrapper/utils/load_data.py:62 | an assignment adds its key and keeps every other key |
| PyDict.GetPut | locata_wrapper/utils/load_data.py:62 | a key reads back the value just assigned, and other keys keep their values |
| PyDict.AssignKeys | locata_wrapper/utils/load_data.py:47-62 | a loop of assignments has exactly the assigned keys |
| PyDict.AssignLastWins | locata_wrapper/utils/load_data.py:47-62 | each key of the loop holds the value of its last assignment |
| PyDict.AssignDistinct | locata_wrapper/utils/load_data.py:47-62 | however often a key is assigned, it is stored once |
| Shared.Mod2Pi | locata_wrapper/utils/shared.py:13 | `np.mod(x, 2 pi)` lies in [0, 2 pi) and differs from x by whole turns |
| Shared.WrapTo2Pi | locata_wrapper/utils/shared.py:10-16 | the result lies in [0, 2 pi] and differs from the input by whole turns; positive inputs never wrap to 0 |
| Shared.WrapTo2PiPositiveTurns | locata_wrapper/utils/shared.py:12-15 | a positive whole number of turns wraps to 2 pi, not 0 |
| Shared.WrapTo2PiZero | locata_wrapper/utils/shared.py:12-15 | the result is 0 exactly for the non-positive whole numbers of turns |
| Shared.WrapToPiAt | locata_wrapper/utils/shared.py:21-22 | the result lies in [-pi, pi], differs from the input by whole turns, and angles already in range are kept |
| Shared.WrapToPi | locata_wrapper/utils/shared.py:19-23 | element by element: each result lies in [-pi, pi], differs from its input by whole turns, and inputs in range are kept |
| Shared.WrapToPiIdempotent | locata_wrapper/utils/shared.py:19-23 | wrapping a wrapped vector changes nothing |
| Shared.WrapToPiInPlace | locata_wrapper/utils/shared.py:22-23 | the array passed in is the array returned, now holding the wrapped angles |
| Opts.ParseArrayName | locata_wrapper/utils/opts.py:19 | exactly the four array names denote a profile, each its own |
| Opts.LocataInitialOptions | locata_wrapper/utils/opts.py:16-42 | the LOCATA settings list exactly the known arrays as valid |
| Opts.DcaseInitialOptions | locata_wrapper/utils/opts.py:53-79 | the DCASE settings list exactly the known arrays as valid |
| Opts.DcaseSameAsLocata | locata_wrapper/utils/opts.py:16-79 | the two datasets' settings agree field for field |
| Opts.ValidArraysEnumerateProfiles | locata_wrapper/utils/opts.py:19 | the valid arrays are exactly `dummy`, `eigenmike`, `benchmark2`, `dicit`, in that order, each naming its profile once |
| Opts.MicCountsOfArrays | locata_wrapper/utils/opts.py:37-40 | dicit has 15 microphones, eigenmike 32, benchmark2 12 and dummy 4 |
| DynamicImport.SplitTarget | locata_wrapper/utils/dynamic_import.py:25 | unpacking succeeds only into a colon-free module and name joined by ':', else ValueError |
| DynamicImport.SplitTargetOfJoin | locata_wrapper/utils/dynamic_import.py:25 | splitting `module:name` gives back module and name |
| DynamicImport.SplitTargetOneColon | locata_wrapper/utils/dynamic_import.py:25 | the unpacking succeeds exactly when the path has one colon |
| DynamicImport.Resolve | locata_wrapper/utils/dynamic_import.py:17-25 | a colon-free path that is no alias raises ValueError |
| DynamicImport.ResolveIgnoresAliasWithColon | locata_wrapper/utils/dynamic_import.py:22 | a path with a colon resolves the same whatever the aliases |
| DynamicImport.ResolveThroughAlias | locata_wrapper/utils/dynamic_import.py:22-23 | an alias resolves as its value does |
| DynamicImport.DefaultAliasNeedsOneColon | locata_wrapper/utils/dynamic_import.py:9-25 | with the default aliases a path resolves exactly when it has one colon, into the text around it |
| DynamicImport.Import | locata_wrapper/utils/dynamic_import.py:9-31 | an unresolvable path raises its ValueError; a module that fails to import exits with status 1 when a log is passed and raises AttributeError with the default `log=None`; the result is a target exactly when the path resolves to a module that defines the name, and otherwise AttributeError |
| EvalLoc.Rejected | locata_wrapper/bin/eval_loc.py:88-90 | the distinct rejected values, each once, exactly those present and not accepted |
| EvalLoc.RejectedNone | locata_wrapper/bin/eval_loc.py:88-90 | nothing is rejected exactly when every value is accepted |
| EvalLoc.RejectedSeveral | locata_wrapper/bin/eval_loc.py:91 | more than one value is rejected exactly when two different values are |
| EvalLoc.TaskCheck | locata_wrapper/bin/eval_loc.py:87-93 | the check on task numbers fails only with exit status 1 |
| EvalLoc.TaskCheckAsWritten | locata_wrapper/bin/eval_loc.py:91-93 | every task list whose invalid tasks are all one number passes |
| EvalLoc.SingleInvalidTaskAccepted | locata_wrapper/bin/eval_loc.py:91-93 | `[1, 9]` passes the LOCATA task check |
| EvalLoc.ArrayCheck | locata_wrapper/bin/eval_loc.py:96-103 | an unset list raises UnboundLocalError for `error_arrays`; a set list passes unchanged or exits with status 1 |
| EvalLoc.ArrayCheckAsWritten | locata_wrapper/bin/eval_loc.py:99-103 | every array list whose unknown names are all one name passes |
| EvalLoc.SingleInvalidArrayAccepted | locata_wrapper/bin/eval_loc.py:99-103 | a list with one name outside the valid LOCATA arrays (`eigenmic`) passes the check unchanged |
| EvalLoc.OptionsOf | locata_wrapper/bin/eval_loc.py:80-83 | either dataset's settings list exactly the known arrays as valid |
| EvalLoc.Calls | locata_wrapper/bin/eval_loc.py:120-124 | one task-processor call per listed task, in order, repeats included |
| EvalLoc.MainEval | locata_wrapper/bin/eval_loc.py:54-128 | an unknown dataset raises AttributeError; a run that goes ahead imported the algorithm, found the data directory and had `arrays` set |
| EvalLoc.CheckedRunAsWritten | locata_wrapper/bin/eval_loc.py:87-124 | the run fails only with exit status 1 or the unbound `error_arrays`, and otherwise makes one call per task with the given arrays |
| EvalLoc.DefaultArraysUnbound | locata_wrapper/bin/eval_loc.py:96-101 | leaving `arrays` unset fails for every configuration that passes the earlier checks |
| EvalLoc.InvalidTaskProcessed | locata_wrapper/bin/eval_loc.py:87-124 | with task 9 among valid tasks the processor is called for task 9 |
| EvalLoc.CheckedRun | locata_wrapper/bin/eval_loc.py:87-124 | the intended checks fail only with exit status 1 |
| EvalLoc.CheckedRunValid | locata_wrapper/bin/eval_loc.py:87-103 | every call the intended checks allow carries a valid task and known arrays |
| EvalLoc.CallsValid | locata_wrapper/bin/eval_loc.py:120-124 | calls built from valid tasks and known arrays carry only those |
| EvalLoc.MainEvalIntended | locata_wrapper/bin/eval_loc.py:57-124 | the intended script: an unknown dataset exits with status 1 like the other checks |
| EvalLoc.IntendedAcceptsOnlyValid | locata_wrapper/bin/eval_loc.py:87-103 | every task and array the intended script runs is valid; an unset `arrays` runs all valid arrays |
| EvalLoc.IntendedAgreesOnValidInput | locata_wrapper/bin/eval_loc.py:57-124 | on configurations valid throughout, the script as written and the intended one make the same calls |
| LoadData.ObjectNameOfFile | locata_wrapper/utils/load_data.py:52-53 | the file `<dir>/<type>_<name><ext>` is stored under `name` |
| LoadData.TimestampPathOfFile | locata_wrapper/utils/load_data.py:56-57 | the timestamp table of `<front><name>.wav` is `<front>timestamps_<name>.txt` |
| LoadData.ObjectNames | locata_wrapper/utils/load_data.py:52-53 | one object name per file, in glob order |
| LoadData.Signals | locata_wrapper/utils/load_data.py:49 | one signal per file, the file's own |
| LoadData.LoadWav | locata_wrapper/utils/load_data.py:44-64 | distinct keys; `fs` and the timestamp table are the last file's, and unset exactly when there is no file |
| LoadData.LoadWavData | locata_wrapper/utils/load_data.py:47-62 | exactly the files' object names are keys, each holding the signal of its last file |
| LoadData.Columns | locata_wrapper/utils/load_data.py:73-76 | selecting columns raises KeyError exactly when one is missing, and otherwise gives each named column |
| LoadData.ByRow | locata_wrapper/utils/load_data.py:77-79 | `.values` turns columns into rows: entry (t, k) is column k at row t |
| LoadData.RotationTensor | locata_wrapper/utils/load_data.py:77-80 | the three row blocks of the rotation, or KeyError when a rotation column is missing |
| LoadData.RotationEntry | locata_wrapper/utils/load_data.py:77-80 | entry (i, t, j) is column `rotation_<i+1><j+1>` at row t |
| LoadData.MicColumns | locata_wrapper/utils/load_data.py:84-89 | the coordinates of microphones 1..n, or KeyError when one is missing |
| LoadData.MicTensor | locata_wrapper/utils/load_data.py:82-91 | None exactly when no column names a microphone; otherwise the 3 x T x N tensor whose entries are the `mic<i+1>_<axis>` columns |
| LoadData.ReadRecord | locata_wrapper/utils/load_data.py:72-91 | a table gives a record whose fields span its rows, or KeyError |
| LoadData.Records | locata_wrapper/utils/load_data.py:70-101 | one record per table, in order |
| LoadData.LoadTxt | locata_wrapper/utils/load_data.py:67-102 | KeyError exactly when some table lacks a column; distinct keys; the time is the last table's |
| LoadData.LoadTxtAssigns | locata_wrapper/utils/load_data.py:70-101 | the stored records are the loop of assignments of records to object names |
| LoadData.LoadTxtKeys | locata_wrapper/utils/load_data.py:94-101 | exactly the tables' object names are keys |
| LoadData.LoadTxtLastWins | locata_wrapper/utils/load_data.py:94-101 | each name holds the record of its last table |
| LoadData.Having | locata_wrapper/utils/load_data.py:130-132 | the names that contain the word, and only those |
| LoadData.AudioFiles | locata_wrapper/utils/load_data.py:128-139 | the array files, and in development mode the source files; otherwise exit status 1 |
| LoadData.AudioFilesExit | locata_wrapper/utils/load_data.py:130-139 | the run exits exactly when there is no array file and, in development mode, no source file either |
| LoadData.MaskColumns | locata_wrapper/utils/load_data.py:191 | `x[:, flags]` keeps the flagged steps of every row, or raises IndexError for a flag vector of another length |
| LoadData.MaskedWidth | locata_wrapper/utils/load_data.py:191 | a masked row has one entry per set flag |
| LoadData.MaskArrayRecord | locata_wrapper/utils/load_data.py:189-192 | succeeds exactly when position, reference vector, rotation and microphones all mask, and then each field is its own masked columns; with the other fields masked, a record without microphones raises TypeError; otherwise only IndexError |
| LoadData.MaskSourceRecord | locata_wrapper/utils/load_data.py:200-204 | succeeds exactly when every present field masks, and then each field is its own masked columns and a missing microphone field stays missing; otherwise IndexError |
| LoadData.MaskedShape | locata_wrapper/utils/load_data.py:190-204 | masked fields span one step per set flag |
| LoadData.RelativePositions | locata_wrapper/utils/load_data.py:207-210 | position t is the source's offset from the array seen in the array's axes, `R_t^T (src_t - arr_t)` |
| LoadData.RelativeZeroAtArray | locata_wrapper/utils/load_data.py:207-210 | a source at the array's position is at the origin |
| LoadData.RelativeUnrotated | locata_wrapper/utils/load_data.py:207-210 | with the identity rotation the relative position is the plain offset |
| LoadData.RelativeRotatesBack | locata_wrapper/utils/load_data.py:210 | for an orthonormal rotation, rotating back recovers the room offset |
| LoadData.RelativeTranslationInvariant | locata_wrapper/utils/load_data.py:207 | moving source and array together changes no relative position |
| LoadData.ArrayWithoutMicsRaises | locata_wrapper/utils/load_data.py:189-192 | an array table without microphone columns raises TypeError when masked |
| LoadData.SourceTruthOf | locata_wrapper/utils/load_data.py:200-213 | the masked source record and the polar track `cart2pol` of its positions relative to the array; one valid step raises IndexError, and otherwise it fails exactly when the masking does |
| LoadData.SourceTruths | locata_wrapper/utils/load_data.py:200-213 | every source in dictionary order, each entry being that source's truth, or the IndexError of the first that fails |
| LoadData.GetTruth | locata_wrapper/utils/load_data.py:167-215 | a missing array raises KeyError and a failed array masking its exception; the truth holds the masked array record, and in development mode exactly the truths of all sources relative to it |
| LoadData.SingleValidStepRaises | locata_wrapper/utils/load_data.py:196-213 | in development mode a single valid step fails |
| Process.ElapsedTime | locata_wrapper/utils/process.py:20-25 | one elapsed time per timestamp, the first being 0 |
| Process.ElapsedTimeStep | locata_wrapper/utils/process.py:23-25 | each elapsed time adds the step from the previous timestamp |
| Process.ElapsedTimeTelescopes | locata_wrapper/utils/process.py:23-25 | the elapsed time of entry i is `t[i] - t[0]` |
| Process.ElapsedTimeMonotone | locata_wrapper/utils/process.py:23-25 | non-decreasing timestamps give non-decreasing elapsed times |
| Process.RequiredTimes | locata_wrapper/utils/process.py:75-76 | IndexError exactly when the flag vector has another length |
| Process.RequiredTimesAgree | locata_wrapper/utils/process.py:75-76 | the selections are equally long, and the k-th timestamp is the k-th kept row's time since the first row |
| Process.RecordingId | locata_wrapper/utils/process.py:41 | IndexError exactly when the path lacks "recording"; otherwise `int()` of the text between the first occurrence and the next one or the end, raising ValueError for non-digits |
| Process.RecordingIdOfDirectory | locata_wrapper/utils/process.py:41 | `<prefix>recording<n>` has recording number n |
| Process.ArraysToProcess | locata_wrapper/utils/process.py:45-48 | exactly the listed directories whose base name is requested |
| Process.ArraysToProcessIdempotent | locata_wrapper/utils/process.py:46-48 | filtering twice filters once |
| Process.ResultDirMovesTree | locata_wrapper/utils/process.py:59 | a directory under the data directory moves under the results directory |
| Process.SourceFileNameInjective | locata_wrapper/utils/process.py:105 | different sources write different files |
| Process.SourceFileNameDistinct | locata_wrapper/utils/process.py:105-107 | no source file is `truth.txt` or `metrics.txt` |
| Process.Scoring | locata_wrapper/utils/process.py:100-104 | estimate k with a k-th ground-truth source is scored by `CalculateContinueDOAScores` against that source |
| Process.SourceWrites | locata_wrapper/utils/process.py:100-110 | outside development mode AttributeError before any write; otherwise the loop completes exactly when every estimate has a ground-truth source and scores without raising, with three writes per estimate, and else stops at the first estimate that fails, with its exception and the three writes of each earlier estimate |
| Process.SourceWritesAt | locata_wrapper/utils/process.py:104-110 | in a completed loop, writes 3k to 3k+2 are estimate k's table, its source's truth and its scores |
| Process.SourceWritesStopAt | locata_wrapper/utils/process.py:101-110 | the loop ends at its first failing estimate with that estimate's exception and only the earlier estimates' writes |
| Process.NaNEstimateStopsWrites | locata_wrapper/utils/process.py:104-110 | an estimate holding NaN, of its source's length, stops the loop with ValueError before any of its files is written |
| Process.LastWrite | locata_wrapper/utils/process.py:105-110 | a file's content is its last write, None exactly when never written |
| Process.SharedFilesKeepLastSource | locata_wrapper/utils/process.py:104-110 | after a completed loop `truth.txt` and `metrics.txt` hold the last estimate's source truth and scores |
| ArrayTable.Range | locata_wrapper/algorithm/music.py:56-62 | `np.arange(n)` is 0..n-1 |
| ArrayTable.SubarrayFor | locata_wrapper/algorithm/music.py:52-66 | exit status 1 exactly for a name other than the four; otherwise ascending channels with reference microphone 1 among them |
| ArrayTable.TableEntries | locata_wrapper/algorithm/music.py:52-63 | dicit uses channels 6, 7, 9, benchmark2 0-11, eigenmike 0-31, dummy 0-3, each with reference 1 |
| ArrayTable.SubarrayWithinMicCount | locata_wrapper/utils/opts.py:37-40 | every selected channel, and the reference channel, exists on its array |
| PoseTimeline.Ascending | locata_wrapper/algorithm/music.py:81 | the distinct values, strictly ascending, exactly those present |
| PoseTimeline.FirstIndexOf | locata_wrapper/algorithm/music.py:81 | the first position holding the value |
| PoseTimeline.UniqueWithIndex | locata_wrapper/algorithm/music.py:81-83 | `np.unique(..., return_index=True)`: sorted distinct values, each with its first position |
| PoseTimeline.Below | locata_wrapper/algorithm/music.py:103 | pose times before the last frame time, no more than given |
| PoseTimeline.BelowIsPrefix | locata_wrapper/algorithm/music.py:103 | the cut keeps a prefix, so the k-th kept time names the k-th gathered pose |
| PoseTimeline.ClosestPose | locata_wrapper/algorithm/music.py:128-129 | the signed argmin picks the first greatest pose time, and raises ValueError when there is no pose |
| PoseTimeline.ClosestPoseIsLast | locata_wrapper/algorithm/music.py:128-129 | with increasing pose times the signed argmin always picks the last pose |
| PoseTimeline.NearestPose | locata_wrapper/algorithm/music.py:127 | a pose at least distance from the block time, or an error when there is none |
| PoseTimeline.NearestPoseExact | locata_wrapper/algorithm/music.py:127 | a block time equal to a pose time selects that pose |
| PoseTimeline.ClosestPoseNotNearest | locata_wrapper/algorithm/music.py:127-129 | a block at 1 with poses at 0 and 10 uses the pose at 10 |
| Blocks.FrameTimes | locata_wrapper/algorithm/music.py:96-97 | one time per hop, the k-th being `k hop / fs` |
| Blocks.FrameTimesIncreasing | locata_wrapper/algorithm/music.py:96-97 | frame times strictly increase |
| Blocks.BlockPartition | locata_wrapper/algorithm/music.py:107-110 | blocks start every 10 frames, end 100 frames later or at the last frame, are non-empty and inside the frame range |
| Blocks.BlockSizes | locata_wrapper/algorithm/music.py:107-110 | each block's frame count is its end minus its start |
| Blocks.BlockTimes | locata_wrapper/algorithm/music.py:112 | each block time is the mean of its start and end frame times |
| Blocks.PartitionTimes | locata_wrapper/algorithm/music.py:107-112 | one time per block of the partition |
| Blocks.PartitionTimesIncreasing | locata_wrapper/algorithm/music.py:107-112 | block times strictly increase when frame times do |
| Blocks.SqueezedRows | locata_wrapper/algorithm/music.py:125-126 | after the squeeze a one-frame block reports the microphone count as rows |
| Blocks.GuardAdmitsOneFrameBlock | locata_wrapper/algorithm/music.py:125-126 | the guard admits every non-empty block of the table's subarrays, one frame included |
| Blocks.OneFrameLastBlock | locata_wrapper/algorithm/music.py:107-109 | some block has one frame exactly when the frame count is 2 modulo 10, and then it is the last block |
| Band.ValidBins | locata_wrapper/algorithm/music.py:116-118 | exactly the bins strictly between 800 and 1400 Hz, ascending |
| Band.BandFitsPowerBuffer | locata_wrapper/algorithm/music.py:120 | the band never has more bins than the 511 slots of `_power` |
| Covariance.Rxx | locata_wrapper/algorithm/music.py:131 | a numMic x numMic matrix |
| Covariance.RxxHermitian | locata_wrapper/algorithm/music.py:131 | `Rxx` is Hermitian |
| Covariance.RxxDiagonal | locata_wrapper/algorithm/music.py:131 | the diagonal holds real, non-negative channel energies |
| Covariance.EtaAlongY | locata_wrapper/algorithm/music.py:144-146 | azimuth 0 at elevation 90 degrees looks along y |
| Covariance.EtaUnit | locata_wrapper/algorithm/music.py:146 | the look direction is a unit vector |
| Covariance.RotateIdentity | locata_wrapper/algorithm/music.py:147 | the identity pose leaves the look direction unchanged |
| Covariance.Tau | locata_wrapper/algorithm/music.py:150-151 | one delay per channel, `c` times which is the look direction dotted with the channel's offset from the reference; ZeroDivisionError for c = 0 and IndexError for a channel the pose lacks |
| Covariance.TauReferenceZero | locata_wrapper/algorithm/music.py:150-151 | the reference microphone's delay is zero |
| Covariance.TauTranslationInvariant | locata_wrapper/algorithm/music.py:150-151 | moving the whole array changes no delay |
| Interp.Segment | locata_wrapper/algorithm/music.py:186 | the segment of the sample points that holds the query |
| Interp.InterpAt | locata_wrapper/algorithm/music.py:186 | NaN exactly left of the first point, the last value from the last point on, and in between a value on the line through the neighbouring sample points, between their values |
| Interp.Linear | locata_wrapper/algorithm/music.py:186 | the interpolant on one segment lies on the line through its end points, between their values, and starts at the first |
| Interp.InterpAtSamplePoint | locata_wrapper/algorithm/music.py:186 | at a sample point the interpolant takes that point's value |
| Interp.InterpAll | locata_wrapper/algorithm/music.py:186 | one value per query, or ValueError for empty or mismatched sample points |
| Peak.GridEnds | locata_wrapper/algorithm/music.py:49-50 | the grids start and end at the linspace end points |
| Peak.Unravel | locata_wrapper/algorithm/music.py:180 | `np.unravel_index` inverts the row-major position |
| Peak.Flatten | locata_wrapper/algorithm/music.py:179 | the map read row by row |
| Peak.UnravelFlat | locata_wrapper/algorithm/music.py:179-180 | unravelling a flattened cell gives the cell back |
| Peak.PeakCell | locata_wrapper/algorithm/music.py:177-180 | the cell of the first row-major maximum: no cell is greater, and no earlier cell is equal |
| Peak.PeakDirection | locata_wrapper/algorithm/music.py:181-182 | the grid direction of the peak cell |
| Peak.FlatMapPeak | locata_wrapper/algorithm/music.py:174-182 | a flat map peaks at the first grid direction (-pi, 0) |
| Music.Frame | locata_wrapper/algorithm/music.py:52-112 | exit status 1 exactly for an unknown array; on success every subarray channel is present in the signal and the framing is consistent, with the partition's block sizes |
| Music.Framed | locata_wrapper/algorithm/music.py:96-112 | framing after the STFT is consistent and keeps the subarray and unique poses |
| Music.Frames | locata_wrapper/algorithm/music.py:96-97 | a non-empty, strictly increasing frame timeline |
| Music.FrameRaises | locata_wrapper/algorithm/music.py:85-97 | with a known array and covering poses: IndexError for a missing first channel, then ValueError for an empty signal, ParameterError for a zero hop, and past those success exactly when the last (greatest) channel is present, else IndexError |
| Music.SumGrids | locata_wrapper/algorithm/music.py:160 | the cell-wise sum over the band is a 73 x 19 map |
| Music.CellPower | locata_wrapper/algorithm/music.py:142-158 | a cell fails exactly when the pose's delays cannot be computed |
| Music.PoseGrid | locata_wrapper/algorithm/music.py:140-158 | the grid of one (block, bin), or a delay failure |
| Music.Reshape | locata_wrapper/algorithm/music.py:157 | cell (a, e) of the map is entry `a * 19 + e` of the vector |
| Music.PoseGridRaises | locata_wrapper/algorithm/music.py:140-158 | a grid is computed exactly when the pose's delays are |
| Music.BinPower | locata_wrapper/algorithm/music.py:125-158 | one (block, bin) gives a 73 x 19 map or an exception, never an exit |
| Music.BinPowerIntended | locata_wrapper/algorithm/music.py:126 | with the guard before the squeeze, a block fails only on delays or a missing pose |
| Music.BinPowerIntendedAgrees | locata_wrapper/algorithm/music.py:125-126 | the intended guard never raises LinAlgError, agrees with the code on blocks of two or more frames, and skips smaller ones |
| Music.BlockSpectrum | locata_wrapper/algorithm/music.py:122-160 | one block's band-summed map, or an exception, never an exit |
| Music.BlockSpectrumRaises | locata_wrapper/algorithm/music.py:122-158 | a block succeeds exactly when all its bins do, and otherwise raises its first failing bin's exception |
| Music.EmptyBandZeroSpectrum | locata_wrapper/algorithm/music.py:120-122 | with an empty band every block's map is all zero |
| Music.BinGrids | locata_wrapper/algorithm/music.py:122-158 | the bin loop gives one map per bin, or the first failing bin's exception |
| Music.BlockRaisesAt | locata_wrapper/algorithm/music.py:122-158 | a block raises what its first failing bin raises |
| Music.Spectra | locata_wrapper/algorithm/music.py:121-160 | every block's map, each the block's own spectrum, or an exception that is never an exit |
| Music.SpectraOk | locata_wrapper/algorithm/music.py:121-160 | the block loop completes exactly when every block does |
| Music.SpectraRaisesAt | locata_wrapper/algorithm/music.py:121-158 | the block loop raises what its first failing block raises |
| Music.Directions | locata_wrapper/algorithm/music.py:164-182 | each block's estimate is its map's peak direction |
| Music.Interpolate | locata_wrapper/algorithm/music.py:164-186 | ValueError exactly when there is no block; otherwise peak directions per block, interpolated at every timestamp |
| Music.Estimate | locata_wrapper/algorithm/music.py:52-186 | exit status 1 exactly for an unknown array; otherwise increasing block times, one grid direction per block and one azimuth per timestamp |
| Music.EstimateSteps | locata_wrapper/algorithm/music.py:52-186 | the estimate fails in framing, in the block loop, or else is the interpolation of the spectra |
| Music.Run | locata_wrapper/algorithm/music.py:186-188 | `MUSIC` never returns: it prints one azimuth per timestamp and exits with status 1, or raises; an unknown array exits with status 1 |
| Music.LowRateEmptyBand | locata_wrapper/algorithm/music.py:116-118 | at 1600 Hz or below the band is empty |
| Music.ZeroGridPeak | locata_wrapper/algorithm/music.py:177-182 | the all-zero map peaks at (-pi, 0) |
| Music.EmptyBandFirstDirection | locata_wrapper/algorithm/music.py:120-182 | with an empty band every block reports (-pi, 0) |
| Music.SingleFrameRaises | locata_wrapper/algorithm/music.py:186 | a signal of one frame has no block, and `np.interp` raises ValueError |
| Music.UncoveredPoseTrackRaises | locata_wrapper/algorithm/music.py:128-129 | with no pose before the last frame time the first bin raises ValueError |
| Music.BinComputes | locata_wrapper/algorithm/music.py:125-158 | a block of two or more frames with a pose and computable delays yields its map |
| Music.BinUsesLastPose | locata_wrapper/algorithm/music.py:127-147 | such a block uses the last pose before the last frame time, whatever its own time |
| Music.OneFrameBinFails | locata_wrapper/algorithm/music.py:125-134 | a one-frame block with a pose fails in the SVD |
| Music.InnerBlocksWide | locata_wrapper/algorithm/music.py:107-110 | every block but the last has at least two frames |
| Music.OneFrameBlockRaises | locata_wrapper/algorithm/music.py:125-134 | a frame count of 2 modulo 10 makes the run raise LinAlgError, given a pose and computable delays |
| Metrics.ZeroUnlessNaN | locata_wrapper/utils/metrics.py:9-10 | one entry of the mask as written: NaN stays NaN, and any number becomes 0.0 |
| Metrics.MaskAsWritten | locata_wrapper/utils/metrics.py:9-10 | every prediction entry becomes 0.0 or stays NaN |
| Metrics.MaskForgetsValues | locata_wrapper/utils/metrics.py:9-10 | predictions with NaN in the same places mask alike |
| Metrics.MaskIntended | locata_wrapper/utils/metrics.py:9-10 | the intended mask: every entry is finite, and finite predictions are kept |
| Metrics.Broadcast | locata_wrapper/utils/metrics.py:15-16 | two vectors broadcast exactly when their lengths are equal or one is 1, else ValueError |
| Metrics.AbsErrors | locata_wrapper/utils/metrics.py:15-16 | the element-wise absolute differences, or ValueError |
| Metrics.MeanAbsError | locata_wrapper/utils/metrics.py:15-16 | ValueError exactly when the lengths do not broadcast; for equal lengths a number exactly when both columns are non-empty and NaN-free, and then that number times the length is the sum of the absolute differences |
| Metrics.MeanAbsErrorNonNegative | locata_wrapper/utils/metrics.py:15-16 | a mean absolute error is never negative |
| Metrics.MeanAbsErrorOfEqual | locata_wrapper/utils/metrics.py:15-16 | identical finite columns have zero error |
| Metrics.Clip | locata_wrapper/utils/metrics.py:73 | `np.clip(x, -1, 1)` lies in [-1, 1] and keeps values already there |
| Metrics.SphericalDistance | locata_wrapper/utils/metrics.py:71-74 | NaN exactly when a coordinate is NaN |
| Metrics.SphericalDistanceSymmetric | locata_wrapper/utils/metrics.py:71 | the distance does not depend on the order |
| Metrics.SphericalDistanceRange | locata_wrapper/utils/metrics.py:71-74 | finite distances lie in [0, 180] degrees |
| Metrics.SphericalDistanceSelf | locata_wrapper/utils/metrics.py:71-74 | a direction is at distance 0 from itself |
| Metrics.IndPairsLayout | locata_wrapper/utils/metrics.py:44 | G P pairs, in range, with the ground-truth index varying fastest |
| Metrics.IndPairsAt | locata_wrapper/utils/metrics.py:44 | pair `y G + x` is (x, y) |
| Metrics.Zeros | locata_wrapper/utils/metrics.py:45 | a G x P matrix of zeros |
| Metrics.Scatter | locata_wrapper/utils/metrics.py:57 | after k assignments the matrix is still G x P |
| Metrics.ScatterCells | locata_wrapper/utils/metrics.py:57 | after k assignments a cell holds its pair's distance exactly when its pair came among the first k, and zero otherwise |
| Metrics.CostMatrix | locata_wrapper/utils/metrics.py:43-57 | a G x P matrix |
| Metrics.CostMatrixCells | locata_wrapper/utils/metrics.py:43-57 | every cell (x, y) holds the spherical distance of ground truth x and prediction y |
| Metrics.DistanceBetweenGtPred | locata_wrapper/utils/metrics.py:43-61 | ValueError exactly when the matrix has a NaN; a valid assignment on a NaN-free matrix succeeds; the cost is the sum of the distances of the chosen pairs, 0 for an empty prediction, and with an optimal solver no assignment costs less |
| Metrics.ChosenCostIsPairSum | locata_wrapper/utils/metrics.py:59-60 | an in-range assignment picks pairs of rows, and its cost on the matrix is the sum of their distances |
| Metrics.OptimalIsLeast | locata_wrapper/utils/metrics.py:59 | under the solver's promise every assignment lies inside the matrix and costs at least the chosen one |
| Metrics.CostMatrixNaN | locata_wrapper/utils/metrics.py:54-59 | the matrix has a NaN exactly when both lists are non-empty and some row of either list has a NaN |
| Metrics.EmptyListCostsNothing | locata_wrapper/utils/metrics.py:54-60 | an empty list on either side costs 0, NaN elsewhere notwithstanding |
| Metrics.IdenticalListsCostZero | locata_wrapper/utils/metrics.py:59-60 | identical finite lists cost 0 under an optimal solver |
| Metrics.SelfCostMatrix | locata_wrapper/utils/metrics.py:54-57 | a list against itself gives non-negative entries and a zero diagonal |
| Metrics.ZeroDiagonalOptimalZero | locata_wrapper/utils/metrics.py:59-60 | an optimal assignment of a non-negative square matrix with zero diagonal costs 0 |
| Metrics.DoaLoss | locata_wrapper/utils/metrics.py:18 | the loss times the row count is the cost, NaN for no rows, and an exception of the cost is passed on |
| Metrics.ScoreMasked | locata_wrapper/utils/metrics.py:11-22 | with `predicted_sed` given, UnboundLocalError; unbroadcastable lengths raise ValueError; otherwise success exactly when the loss is computed, and then the two mean absolute errors and the loss of the cost over the rows |
| Metrics.ContinueDoaScores | locata_wrapper/utils/metrics.py:8-22 | as written: the caller's array is left masked, and the scores are those of the masked prediction |
| Metrics.ContinueDoaScoresIntended | locata_wrapper/utils/metrics.py:8-22 | the intended scores: the prediction with NaN as 0 and numbers kept, scored the same way |
| Metrics.PerfectPredictionScoresZero | locata_wrapper/utils/metrics.py:8-22 | intended: a perfect finite prediction scores zero on every measure |
| Metrics.IdenticalListsScoreZero | locata_wrapper/utils/metrics.py:15-18 | a finite list scored against itself gives zero on every measure |
| Metrics.IntendedScoresComputed | locata_wrapper/utils/metrics.py:8-22 | intended: equally long lists against a finite truth are always scored |
| Metrics.NaNPredictionRaises | locata_wrapper/utils/metrics.py:9-10 | as written: a NaN anywhere in the prediction survives the mask and the solver raises ValueError |
| Metrics.AsWrittenIgnoresPrediction | locata_wrapper/utils/metrics.py:9-10 | as written: predictions with NaN in the same places get the same scores, whatever their angles |
| Metrics.PerfectPredictionScoredAsZeros | locata_wrapper/utils/metrics.py:9-16 | with the mask as written a perfect prediction at (1, 1) gets errors of 1 |

## Left out

- Signal processing is abstract. The STFT (`librosa.stft`), `np.linalg.svd`,
  the steering vector, `np.exp`, `sin`, `cos`, `arccos`, `cart2pol`
  (`load_data.py` lines 16-41), `maximum_filter` and `linear_sum_assignment`
  are parameters. Only their shapes and the exceptions the model depends on are stated.
- Floating point: doubles are exact reals, so rounding, infinities and the
  floating-point value of `0.03 * fs` are not modelled.
- File and system I/O: `glob`, `soundfile.read`, `np.loadtxt`,
  `pd.read_csv`, `os.path.exists`, `os.makedirs`, `to_csv`, `savetxt` and the
  log are parameters or left out; writes are modelled as a list of
  (path, content) records (`Process.SourceWrites`).
- The import machinery: `importlib.import_module` is a parameter giving the
  names each module defines (`DynamicImport.Import`).
- Concurrency: the `pathos` pool of `eval_loc.py` lines 116-127 is not
  modelled. The pool call at line 122 also passes its arguments in another
  order than line 124 does; only the sequential call is modelled.
- `LoadData` (`load_data.py` lines 105-164) beyond the audio-file check: the
  reading of `required_time.txt`, `pd.to_datetime` and the `np.bool` cast at
  line 124 (removed from recent NumPy) are left out; dates are seconds as
  reals.
- `ProcessTask` (`process.py` line 28) as a whole function: the recording
  and array loops, the data loading, the algorithm call and the plots are
  left out; its steps are modelled one by one. The task processors
  `ProcessTaskLocata` and `ProcessTaskDCASE` that `eval_loc.py` lines 111 and
  113 fetch from the package namespace are parameters of `EvalLoc`; the
  package's `__init__.py` is not part of this model.
- Process.Scoring: the estimate's `DataFrame` and its `azimuth`/`elevation`
  columns are taken as given (`Doa` rows); a missing column (KeyError) is not
  modelled.
- `np.int` at `music.py` lines 56, 59 and 62, like `np.bool` in `load_data.py`,
  is removed from recent NumPy and would raise AttributeError there; the model
  reads it as `int`.
- `music.py` lines 168-172, the one-elevation `find_peaks` branch, are dead
  (the elevation grid has 19 points) and are not modelled. Lines 189-208
  follow `exit(1)` and never run.
- LoadData.GetTruth: does not model that the masking assigns into the loaded
  records in place (Python aliasing), so a second call on the same records
  is not modelled.
- LoadData.Columns: assumes distinct column names; pandas' renaming of
  duplicate headers is not modelled.
- LoadData.LoadWav: an empty file list leaves `fs` and `time` unset (None);
  the later AttributeError on reading them is not modelled.
- Strings.ParseInt: accepts only an optional sign and ASCII decimal digits;
  the surrounding whitespace, digit underscores and non-ASCII Unicode decimal
  digits that Python's `int` also accepts are not modelled.
- Covariance.Tau: the speed of sound is a parameter; the settings fix it to
  340 m/s (`Opts.LocataInitialOptions`), and the delay lemmas hold for any
  non-zero value.
- Music.Estimate: the SVD, steering vector and pseudo-spectrum values are
  parameters, so it states the shape, order and failure behaviour of the
  estimate, not its numeric values.
- librosa's and numpy's own parameter checks are reduced to the ones the model
  reaches: a subarray channel the signal lacks (IndexError at `music.py` line
  89), an empty signal (ValueError) and a zero hop (ParameterError). The
  signal itself is reduced to its length and channel count.
- `check.py` is not part of this model.

## Findings

| source | as written | input that shows it | evidently intended | confidence | as-written member | corrected member |
|---|---|---|---|---|---|---|
| locata_wrapper/bin/eval_loc.py:59 | `sys.error(1)` | dataset `"foo"`: AttributeError instead of an exit | `sys.exit(1)` | high, not executed | EvalLoc.MainEval | EvalLoc.MainEvalIntended |
| locata_wrapper/bin/eval_loc.py:91 | `len(error_tasks) > 1` | LOCATA tasks `[1, 9]` pass and task 9 is processed | `> 0` | high, not executed | EvalLoc.InvalidTaskProcessed | EvalLoc.IntendedAcceptsOnlyValid |
| locata_wrapper/bin/eval_loc.py:101 | `len(error_arrays) > 1` | arrays `["dicit", "eigenmic"]` pass although `eigenmic` is not a LOCATA array | `> 0` | high, not executed | EvalLoc.SingleInvalidArrayAccepted | EvalLoc.IntendedAcceptsOnlyValid |
| locata_wrapper/bin/eval_loc.py:96-101 | `error_arrays` assigned only in the `else` branch | `arrays = None`: UnboundLocalError | evaluate every valid array | high, not executed | EvalLoc.DefaultArraysUnbound | EvalLoc.CheckedRunValid |
| locata_wrapper/utils/metrics.py:9-10 | `predicted_doa[nonNaN] = 0.0` zeroes every number | prediction equal to truth `[(1, 1)]`: errors of 1 | replace NaN by 0.0 and keep numbers | medium, not executed | Metrics.PerfectPredictionScoredAsZeros | Metrics.PerfectPredictionScoresZero |
| locata_wrapper/algorithm/music.py:125-126 | squeeze, then guard `shape[0] > 1` | 12 frames: last block has one frame, `Rxx` is a scalar and the SVD raises LinAlgError | skip blocks of fewer than two frames | medium, not executed | Music.OneFrameBlockRaises | Music.BinPowerIntendedAgrees |
| locata_wrapper/algorithm/music.py:127-129 | `np.argmin(block_ts - opti_ts)` on the signed difference | block at 1, poses at 0 and 10: the pose at 10 is used | argmin of the absolute difference | medium, not executed | PoseTimeline.ClosestPoseNotNearest | PoseTimeline.NearestPoseExact |
