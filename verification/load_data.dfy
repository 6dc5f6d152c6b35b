/** What `load_data.py` derives from the LOCATA files once they are read:
    object names and timestamp-table paths from file names, the position
    record of a tab-separated table (positions, reference vectors, the
    rotation tensor and the microphone tensor), the audio-file presence
    check, and `GetTruth`'s valid-flag selection and source positions
    relative to the array. Reading files, `pd.to_datetime` and `cart2pol`
    are parameters. */
module LoadData {
  import opened Wrappers
  import opened Seqs
  import opened Strings
  import opened PyDict
  import opened Covariance

  // ------------------------------------------------------------------ names

  /** Lines 52-53 and 94-95: the base name without the extension and
      without the object type prefix. */
  function ObjectName(path: string, ext: string, objType: string): string
  {
    Replace(Replace(Basename(path), ext, ""), objType + "_", "")
  }

  /** `<dir>/<objType>_<name><ext>` names object `name`, provided the file
      name has no other occurrence of the extension and the name does not
      repeat the prefix. */
  lemma ObjectNameOfFile(dir: string, objType: string, name: string, ext: string)
    requires |ext| > 0 && '/' !in objType && '/' !in name && '/' !in ext
    requires forall j: nat :: j < |objType + "_" + name| ==> !OccursAt(objType + "_" + name + ext, ext, j)
    requires !Contains(name, objType + "_")
    ensures ObjectName(dir + "/" + (objType + "_" + name + ext), ext, objType) == name
  {
    var file := objType + "_" + name + ext;
    assert forall k :: 0 <= k < |file| ==> file[k] != '/';
    BasenameOfJoin(dir, file);
    ReplaceTrailing(objType + "_" + name, ext, "");
    assert objType + "_" + name + "" == (objType + "_") + name;
    ReplaceLeading(objType + "_", name, "");
  }

  /** Lines 56-57: the timestamp table beside a wav file. */
  function TimestampPath(wavPath: string, name: string): string
  {
    Replace(wavPath, name + ".wav", "timestamps_" + name + ".txt")
  }

  /** The table of `<front><name>.wav` is `<front>timestamps_<name>.txt`
      when `<name>.wav` occurs only at the end. */
  lemma TimestampPathOfFile(front: string, name: string)
    requires forall j: nat :: j < |front| ==> !OccursAt(front + (name + ".wav"), name + ".wav", j)
    ensures TimestampPath(front + (name + ".wav"), name) == front + ("timestamps_" + name + ".txt")
  {
    ReplaceTrailing(front, name + ".wav", "timestamps_" + name + ".txt");
  }

  // --------------------------------------------------------------- load_wav

  /** What `soundfile.read` returns. */
  datatype Wav = Wav(data: seq<seq<real>>, fs: nat)

  /** The namespace `load_wav` fills: the dict of signals by object name,
      and `fs`/`time`, which exist only once a file was read. */
  datatype Audio = Audio(data: seq<Entry<string, seq<seq<real>>>>, fs: Option<nat>, time: Option<seq<seq<real>>>)

  /** The object names of the files, in glob order. */
  function ObjectNames(files: seq<string>, ext: string, objType: string): (names: seq<string>)
    ensures |names| == |files|
    ensures forall i :: 0 <= i < |files| ==> names[i] == ObjectName(files[i], ext, objType)
  {
    seq(|files|, i requires 0 <= i < |files| => ObjectName(files[i], ext, objType))
  }

  /** The signal of every file, in order. */
  function Signals(files: seq<string>, read: string -> Wav): (xs: seq<seq<seq<real>>>)
    ensures |xs| == |files| && forall i :: 0 <= i < |files| ==> xs[i] == read(files[i]).data
  {
    seq(|files|, i requires 0 <= i < |files| => read(files[i]).data)
  }

  /** Lines 44-64: every file's signal stored under its object name, in
      order; `fs` and the timestamp table are the last file's, since each
      iteration overwrites them, and are unset when there is no file. */
  function LoadWav(files: seq<string>, objType: string, read: string -> Wav, loadTable: string -> seq<seq<real>>): (a: Audio)
    ensures DistinctKeys(a.data)
    ensures a.fs.None? <==> |files| == 0
    ensures a.time.None? <==> |files| == 0
    ensures |files| > 0 ==> a.fs == Some(read(files[|files| - 1]).fs)
    ensures |files| > 0 ==>
      a.time == Some(loadTable(TimestampPath(files[|files| - 1], ObjectName(files[|files| - 1], ".wav", objType))))
  {
    var values := Signals(files, read);
    var data := Assign(ObjectNames(files, ".wav", objType), values, |files|);
    AssignDistinct(ObjectNames(files, ".wav", objType), values, |files|);
    if |files| == 0 then Audio(data, None, None)
    else
      var f := files[|files| - 1];
      Audio(data, Some(read(f).fs), Some(loadTable(TimestampPath(f, ObjectName(f, ".wav", objType)))))
  }

  /** Exactly the files' object names are keys, and the signal stored under
      a name is the one of the last file with that name. */
  lemma LoadWavData(files: seq<string>, objType: string, read: string -> Wav, loadTable: string -> seq<seq<real>>, i: nat)
    requires i < |files|
    requires forall j :: i < j < |files| ==> ObjectNames(files, ".wav", objType)[j] != ObjectNames(files, ".wav", objType)[i]
    ensures forall x :: x in Keys(LoadWav(files, objType, read, loadTable).data) <==> x in ObjectNames(files, ".wav", objType)
    ensures Get(LoadWav(files, objType, read, loadTable).data, ObjectNames(files, ".wav", objType)[i]) == Some(read(files[i]).data)
  {
    var names := ObjectNames(files, ".wav", objType);
    var values := Signals(files, read);
    AssignKeys(names, values, |files|);
    AssignLastWins(names, values, |files|, i);
  }

  // ----------------------------------------------------------------- tables

  /** A table as pandas reads it: named columns, in file order, of equal
      length. */
  datatype Frame = Frame(columns: seq<Entry<string, seq<real>>>, rows: nat)

  ghost predicate IsFrame(f: Frame)
  {
    DistinctKeys(f.columns) && forall c :: 0 <= c < |f.columns| ==> |f.columns[c].value| == f.rows
  }

  /** The column under `name`, which has `rows` entries. */
  lemma ColumnLength(f: Frame, name: string)
    requires IsFrame(f) && Get(f.columns, name).Some?
    ensures |Get(f.columns, name).value| == f.rows
  {
  }

  /** `table[[names...]]`; a missing name raises KeyError. */
  function Columns(f: Frame, names: seq<string>): (r: Result<seq<seq<real>>>)
    ensures r.Ok? <==> forall k :: 0 <= k < |names| ==> names[k] in Keys(f.columns)
    ensures r.Err? ==> r.failure == KeyError
    ensures r.Ok? ==> |r.value| == |names| && forall k :: 0 <= k < |names| ==> Get(f.columns, names[k]) == Some(r.value[k])
    ensures r.Ok? && IsFrame(f) ==> forall k :: 0 <= k < |names| ==> |r.value[k]| == f.rows
  {
    if forall k :: 0 <= k < |names| ==> names[k] in Keys(f.columns) then
      Ok(seq(|names|, k requires 0 <= k < |names| => Get(f.columns, names[k]).value))
    else Err(KeyError)
  }

  /** `rotation_<i+1><j+1>`. */
  function RotationName(i: nat, j: nat): string
  {
    "rotation_" + NatToString(i + 1) + NatToString(j + 1)
  }

  function RotationRow(i: nat): seq<string>
  {
    [RotationName(i, 0), RotationName(i, 1), RotationName(i, 2)]
  }

  /** `table[[...]].values`: rows by time, one entry per listed column. */
  function ByRow(cols: seq<seq<real>>, rows: nat): (m: seq<seq<real>>)
    requires forall k :: 0 <= k < |cols| ==> |cols[k]| == rows
    ensures |m| == rows && forall t :: 0 <= t < rows ==> |m[t]| == |cols| && forall k :: 0 <= k < |cols| ==> m[t][k] == cols[k][t]
  {
    seq(rows, t requires 0 <= t < rows => seq(|cols|, k requires 0 <= k < |cols| => cols[k][t]))
  }

  /** Lines 77-80: `_rot[i][t][j]` is column `rotation_<i+1><j+1>` at row t. */
  function RotationTensor(f: Frame): (r: Result<seq<seq<seq<real>>>>)
    requires IsFrame(f)
    ensures r.Ok? <==> forall i :: 0 <= i < 3 ==> Columns(f, RotationRow(i)).Ok?
    ensures r.Err? ==> r.failure == KeyError
    ensures r.Ok? ==> |r.value| == 3 && forall i :: 0 <= i < 3 ==> r.value[i] == ByRow(Columns(f, RotationRow(i)).value, f.rows)
  {
    if forall i :: 0 <= i < 3 ==> Columns(f, RotationRow(i)).Ok? then
      Ok(seq(3, i requires 0 <= i < 3 => ByRow(Columns(f, RotationRow(i)).value, f.rows)))
    else Err(KeyError)
  }

  /** Entry (i, t, j) of the tensor is column `rotation_<i+1><j+1>` at row t. */
  lemma RotationEntry(f: Frame, i: nat, t: nat, j: nat)
    requires IsFrame(f) && RotationTensor(f).Ok? && i < 3 && t < f.rows && j < 3
    ensures Get(f.columns, RotationName(i, j)).Some?
    ensures RotationTensor(f).value[i][t][j] == Get(f.columns, RotationName(i, j)).value[t]
  {
    assert RotationRow(i)[j] == RotationName(i, j);
  }

  /** Line 82: the distinct prefixes before '_' of the columns naming "mic". */
  function MicPrefixes(f: Frame): set<string>
  {
    set c | c in Keys(f.columns) && Contains(c, "mic") :: Split(c, "_")[0]
  }

  /** Line 85: `mic<i+1>_x`, `mic<i+1>_y`, `mic<i+1>_z`. */
  function MicNames(i: nat): seq<string>
  {
    ["mic" + NatToString(i + 1) + "_x", "mic" + NatToString(i + 1) + "_y", "mic" + NatToString(i + 1) + "_z"]
  }

  /** The coordinates of microphones 1..n, microphone by microphone. */
  function MicColumns(f: Frame, n: nat): (r: Result<seq<seq<seq<real>>>>)
    ensures r.Ok? <==> forall i :: 0 <= i < n ==> Columns(f, MicNames(i)).Ok?
    ensures r.Err? ==> r.failure == KeyError
    ensures r.Ok? ==> |r.value| == n && forall i :: 0 <= i < n ==> Columns(f, MicNames(i)) == Ok(r.value[i])
  {
    if forall i :: 0 <= i < n ==> Columns(f, MicNames(i)).Ok? then
      Ok(seq(n, i requires 0 <= i < n => Columns(f, MicNames(i)).value))
    else Err(KeyError)
  }

  /** Lines 82-91: the 3 x T x N microphone tensor, or None when no column
      names a microphone; N counts the distinct prefixes. */
  function MicTensor(f: Frame): (r: Result<Option<seq<seq<seq<real>>>>>)
    requires IsFrame(f)
    ensures r.Ok? && r.value.None? <==> |MicPrefixes(f)| == 0
    ensures r.Err? <==> MicColumns(f, |MicPrefixes(f)|).Err?
    ensures r.Err? ==> r.failure == KeyError
    ensures r.Ok? && r.value.Some? ==> var m := r.value.value;
      |m| == 3 && forall k, t :: 0 <= k < 3 && 0 <= t < f.rows ==>
        |m[k]| == f.rows && |m[k][t]| == |MicPrefixes(f)| &&
        forall i :: 0 <= i < |MicPrefixes(f)| ==> m[k][t][i] == Get(f.columns, MicNames(i)[k]).value[t]
  {
    var n := |MicPrefixes(f)|;
    if n == 0 then Ok(None)
    else
      var cols :- MicColumns(f, n);
      Ok(Some(seq(3, k requires 0 <= k < 3 =>
        seq(f.rows, t requires 0 <= t < f.rows => seq(n, i requires 0 <= i < n => cols[i][k][t])))))
  }

  // ---------------------------------------------------------------- records

  /** The position namespace of one array or source. */
  datatype Record = Record(position: seq<seq<real>>, refVec: seq<seq<real>>, rotation: seq<seq<seq<real>>>, mic: Option<seq<seq<seq<real>>>>)

  /** Every field spans `rows` time steps: 3 x T positions and reference
      vectors, a 3 x T x 3 rotation, a 3 x T x N microphone tensor. */
  ghost predicate ShapedAt(rec: Record, rows: nat)
  {
    && |rec.position| == 3 && (forall k :: 0 <= k < 3 ==> |rec.position[k]| == rows)
    && |rec.refVec| == 3 && (forall k :: 0 <= k < 3 ==> |rec.refVec[k]| == rows)
    && |rec.rotation| == 3
    && (forall i :: 0 <= i < 3 ==> |rec.rotation[i]| == rows && forall t :: 0 <= t < rows ==> |rec.rotation[i][t]| == 3)
    && (rec.mic.Some? ==> |rec.mic.value| == 3 && forall k :: 0 <= k < 3 ==> |rec.mic.value[k]| == rows)
  }

  function Frames(rec: Record): nat
  {
    if |rec.position| > 0 then |rec.position[0]| else 0
  }

  ghost predicate Shaped(rec: Record)
  {
    ShapedAt(rec, Frames(rec))
  }

  /** Lines 72-91 for one table: the six time columns and the record. */
  function ReadRecord(f: Frame): (r: Result<(seq<seq<real>>, Record)>)
    requires IsFrame(f)
    ensures r.Err? ==> r.failure == KeyError
    ensures r.Ok? ==> ShapedAt(r.value.1, f.rows)
  {
    var time :- Columns(f, ["year", "month", "day", "hour", "minute", "second"]);
    var pos :- Columns(f, ["x", "y", "z"]);
    var ref :- Columns(f, ["ref_vec_x", "ref_vec_y", "ref_vec_z"]);
    var rot :- RotationTensor(f);
    var mic :- MicTensor(f);
    Ok((time, Record(pos, ref, rot, mic)))
  }

  /** What `load_txt` returns: the records by object name and the time
      columns of the last table read. */
  datatype Positions = Positions(data: seq<Entry<string, Record>>, time: Option<seq<seq<real>>>)

  /** The record of every table, in order, when all of them read. */
  function Records(files: seq<string>, read: string -> Frame): (rs: seq<Record>)
    requires forall f :: IsFrame(read(f))
    requires forall i :: 0 <= i < |files| ==> ReadRecord(read(files[i])).Ok?
    ensures |rs| == |files| && forall i :: 0 <= i < |files| ==> rs[i] == ReadRecord(read(files[i])).value.1
  {
    seq(|files|, i requires 0 <= i < |files| => ReadRecord(read(files[i])).value.1)
  }

  /** Lines 67-102: every table's record stored under its object name, in
      order. A table missing a column raises KeyError. */
  function LoadTxt(files: seq<string>, objType: string, read: string -> Frame): (r: Result<Positions>)
    requires forall f :: IsFrame(read(f))
    ensures r.Err? <==> exists i :: 0 <= i < |files| && ReadRecord(read(files[i])).Err?
    ensures r.Err? ==> r.failure == KeyError
    ensures r.Ok? ==> DistinctKeys(r.value.data) && (r.value.time.None? <==> |files| == 0)
    ensures r.Ok? && |files| > 0 ==> r.value.time == Some(ReadRecord(read(files[|files| - 1])).value.0)
  {
    if exists i :: 0 <= i < |files| && ReadRecord(read(files[i])).Err? then Err(KeyError)
    else
      var records := Records(files, read);
      var names := ObjectNames(files, ".txt", objType);
      AssignDistinct(names, records, |files|);
      var time := if |files| == 0 then None else Some(ReadRecord(read(files[|files| - 1])).value.0);
      Ok(Positions(Assign(names, records, |files|), time))
  }

  /** The records stored are the tables' records under their names. */
  lemma LoadTxtAssigns(files: seq<string>, objType: string, read: string -> Frame)
    requires forall f :: IsFrame(read(f))
    requires LoadTxt(files, objType, read).Ok?
    ensures forall i :: 0 <= i < |files| ==> ReadRecord(read(files[i])).Ok?
    ensures LoadTxt(files, objType, read).value.data == Assign(ObjectNames(files, ".txt", objType), Records(files, read), |files|)
  {
  }

  /** Exactly the tables' object names are keys. */
  lemma LoadTxtKeys(files: seq<string>, objType: string, read: string -> Frame)
    requires forall f :: IsFrame(read(f))
    requires LoadTxt(files, objType, read).Ok?
    ensures forall x :: x in Keys(LoadTxt(files, objType, read).value.data) <==> x in ObjectNames(files, ".txt", objType)
  {
    LoadTxtAssigns(files, objType, read);
    AssignKeys(ObjectNames(files, ".txt", objType), Records(files, read), |files|);
  }

  /** Each name holds the record of the last table with that name. */
  lemma LoadTxtLastWins(files: seq<string>, objType: string, read: string -> Frame, i: nat)
    requires forall f :: IsFrame(read(f))
    requires LoadTxt(files, objType, read).Ok? && i < |files|
    requires forall j :: i < j < |files| ==> ObjectNames(files, ".txt", objType)[j] != ObjectNames(files, ".txt", objType)[i]
    ensures ReadRecord(read(files[i])).Ok?
    ensures Get(LoadTxt(files, objType, read).value.data, ObjectNames(files, ".txt", objType)[i]) == Some(ReadRecord(read(files[i])).value.1)
  {
    LoadTxtAssigns(files, objType, read);
    AssignLastWins(ObjectNames(files, ".txt", objType), Records(files, read), |files|, i);
  }

  // ------------------------------------------------------ audio presence

  /** `[x for x in names if word in x]`. */
  function Having(names: seq<string>, word: string): (r: seq<string>)
    ensures forall x :: x in r <==> x in names && Contains(x, word)
  {
    if |names| == 0 then []
    else (if Contains(names[0], word) then [names[0]] else []) + Having(names[1..], word)
  }

  /** Lines 128-139: the array and (in development mode) source wav files;
      the run exits when there is nothing to load. */
  function AudioFiles(wavNames: seq<string>, isDev: bool): (r: Result<(seq<string>, seq<string>)>)
    ensures r.Err? ==> r.failure == Exit(1)
    ensures r.Ok? ==> r.value.0 == Having(wavNames, "audio_array")
    ensures r.Ok? ==> r.value.1 == (if isDev then Having(wavNames, "audio_source") else [])
  {
    var arrays := Having(wavNames, "audio_array");
    if isDev then
      var sources := Having(wavNames, "audio_source");
      if |arrays| + |sources| == 0 then Err(Exit(1)) else Ok((arrays, sources))
    else if |arrays| == 0 then Err(Exit(1))
    else Ok((arrays, []))
  }

  /** In development mode the check only needs some array or source file;
      in evaluation mode it needs an array file. */
  lemma AudioFilesExit(wavNames: seq<string>, isDev: bool)
    ensures AudioFiles(wavNames, isDev).Err? <==>
      (forall x :: x in wavNames ==> !Contains(x, "audio_array")) &&
      (isDev ==> forall x :: x in wavNames ==> !Contains(x, "audio_source"))
  {
    var arrays := Having(wavNames, "audio_array");
    var sources := Having(wavNames, "audio_source");
    if |arrays| > 0 {
      assert arrays[0] in arrays;
    }
    if |sources| > 0 {
      assert sources[0] in sources;
    }
  }

  // --------------------------------------------------------------- GetTruth

  /** `x[:, valid_flag]` on a field whose second axis is time; a flag vector
      of another length raises IndexError. */
  function MaskColumns<T>(m: seq<seq<T>>, flags: seq<bool>): (r: Result<seq<seq<T>>>)
    ensures r.Err? <==> exists i :: 0 <= i < |m| && |m[i]| != |flags|
    ensures r.Err? ==> r.failure == IndexError
    ensures r.Ok? ==> |r.value| == |m| && forall i :: 0 <= i < |m| ==> r.value[i] == Mask(m[i], flags)
  {
    if exists i :: 0 <= i < |m| && |m[i]| != |flags| then Err(IndexError)
    else Ok(seq(|m|, i requires 0 <= i < |m| => Mask(m[i], flags)))
  }

  /** A field of T time steps masked by T flags keeps the flagged steps. */
  lemma MaskedWidth<T>(m: seq<seq<T>>, flags: seq<bool>, i: nat)
    requires MaskColumns(m, flags).Ok? && i < |m|
    ensures |MaskColumns(m, flags).value[i]| == |TrueIndices(flags)|
  {
  }

  /** Lines 189-192: every field of the array's record masked in turn; the
      array's `mic` field is subscripted even when it is None, which raises
      TypeError. */
  function MaskArrayRecord(rec: Record, flags: seq<bool>): (r: Result<Record>)
    ensures r.Err? ==> r.failure == IndexError || (r.failure == TypeError && rec.mic.None?)
    ensures Shaped(rec) && r.Ok? ==> ShapedAt(r.value, |TrueIndices(flags)|)
    ensures r.Ok? <==>
      && MaskColumns(rec.position, flags).Ok?
      && MaskColumns(rec.refVec, flags).Ok?
      && MaskColumns(rec.rotation, flags).Ok?
      && rec.mic.Some? && MaskColumns(rec.mic.value, flags).Ok?
    ensures r.Ok? ==>
      && MaskColumns(rec.position, flags) == Ok(r.value.position)
      && MaskColumns(rec.refVec, flags) == Ok(r.value.refVec)
      && MaskColumns(rec.rotation, flags) == Ok(r.value.rotation)
      && rec.mic.Some? && r.value.mic.Some? && MaskColumns(rec.mic.value, flags) == Ok(r.value.mic.value)
    ensures (rec.mic.None? && MaskColumns(rec.position, flags).Ok? && MaskColumns(rec.refVec, flags).Ok?
      && MaskColumns(rec.rotation, flags).Ok?) ==> r == Err(TypeError)
  {
    var pos :- MaskColumns(rec.position, flags);
    var ref :- MaskColumns(rec.refVec, flags);
    var rot :- MaskColumns(rec.rotation, flags);
    match rec.mic
    case None => Err(TypeError)
    case Some(m) =>
      var mic :- MaskColumns(m, flags);
      MaskedShape(rec, flags, pos, ref, rot, Some(mic));
      Ok(Record(pos, ref, rot, Some(mic)))
  }

  /** Lines 201-204: a source's fields masked in turn, skipping a None field. */
  function MaskSourceRecord(rec: Record, flags: seq<bool>): (r: Result<Record>)
    ensures r.Err? ==> r.failure == IndexError
    ensures Shaped(rec) && r.Ok? ==> ShapedAt(r.value, |TrueIndices(flags)|)
    ensures r.Ok? <==>
      && MaskColumns(rec.position, flags).Ok?
      && MaskColumns(rec.refVec, flags).Ok?
      && MaskColumns(rec.rotation, flags).Ok?
      && (rec.mic.Some? ==> MaskColumns(rec.mic.value, flags).Ok?)
    ensures r.Ok? ==>
      && MaskColumns(rec.position, flags) == Ok(r.value.position)
      && MaskColumns(rec.refVec, flags) == Ok(r.value.refVec)
      && MaskColumns(rec.rotation, flags) == Ok(r.value.rotation)
      && r.value.mic.None? == rec.mic.None?
      && (rec.mic.Some? ==> MaskColumns(rec.mic.value, flags) == Ok(r.value.mic.value))
  {
    var pos :- MaskColumns(rec.position, flags);
    var ref :- MaskColumns(rec.refVec, flags);
    var rot :- MaskColumns(rec.rotation, flags);
    var mic :- match rec.mic
      case None => Ok(None)
      case Some(m) => (var mm :- MaskColumns(m, flags); Ok(Some(mm)));
    MaskedShape(rec, flags, pos, ref, rot, mic);
    Ok(Record(pos, ref, rot, mic))
  }

  lemma MaskedShape(rec: Record, flags: seq<bool>, pos: seq<seq<real>>, ref: seq<seq<real>>, rot: seq<seq<seq<real>>>, mic: Option<seq<seq<seq<real>>>>)
    requires MaskColumns(rec.position, flags) == Ok(pos)
    requires MaskColumns(rec.refVec, flags) == Ok(ref)
    requires MaskColumns(rec.rotation, flags) == Ok(rot)
    requires mic.Some? ==> rec.mic.Some? && MaskColumns(rec.mic.value, flags) == Ok(mic.value)
    ensures Shaped(rec) ==> ShapedAt(Record(pos, ref, rot, mic), |TrueIndices(flags)|)
  {
    if Shaped(rec) {
      var w := |TrueIndices(flags)|;
      forall i, t | 0 <= i < 3 && 0 <= t < w
        ensures |rot[i][t]| == 3
      {
        var s := TrueIndices(flags)[t];
        assert rot[i][t] == rec.rotation[i][s];
      }
    }
  }

  /** The source's offset from the array at time step t. */
  function Offset(src: Record, arr: Record, t: nat): Vec3
    requires ShapedAt(src, Frames(arr)) && ShapedAt(arr, Frames(arr)) && t < Frames(arr)
  {
    Vec3(src.position[0][t] - arr.position[0][t], src.position[1][t] - arr.position[1][t], src.position[2][t] - arr.position[2][t])
  }

  /** Column j of the array's rotation at time step t. */
  function RotationColumn(arr: Record, t: nat, j: nat): Vec3
    requires ShapedAt(arr, Frames(arr)) && t < Frames(arr) && j < 3
  {
    Vec3(arr.rotation[0][t][j], arr.rotation[1][t][j], arr.rotation[2][t][j])
  }

  /** Lines 207-210: `R_t^T (src_t - arr_t)`, the source seen from the
      array's own axes. */
  function RelativePositions(src: Record, arr: Record): (r: seq<Vec3>)
    requires ShapedAt(src, Frames(arr)) && ShapedAt(arr, Frames(arr))
    ensures |r| == Frames(arr)
    ensures forall t :: 0 <= t < |r| ==>
      r[t] == Rotate(RotationColumn(arr, t, 0), RotationColumn(arr, t, 1), RotationColumn(arr, t, 2), Offset(src, arr, t))
  {
    seq(Frames(arr), t requires 0 <= t < Frames(arr) =>
      Rotate(RotationColumn(arr, t, 0), RotationColumn(arr, t, 1), RotationColumn(arr, t, 2), Offset(src, arr, t)))
  }

  /** A source at the array's position is at the origin of the array's axes. */
  lemma RelativeZeroAtArray(src: Record, arr: Record, t: nat)
    requires ShapedAt(src, Frames(arr)) && ShapedAt(arr, Frames(arr)) && t < Frames(arr)
    requires src.position == arr.position
    ensures RelativePositions(src, arr)[t] == Vec3(0.0, 0.0, 0.0)
  {
    assert Offset(src, arr, t) == Vec3(0.0, 0.0, 0.0);
  }

  /** With the identity rotation the relative position is the plain offset. */
  lemma RelativeUnrotated(src: Record, arr: Record, t: nat)
    requires ShapedAt(src, Frames(arr)) && ShapedAt(arr, Frames(arr)) && t < Frames(arr)
    requires RotationColumn(arr, t, 0) == Vec3(1.0, 0.0, 0.0)
    requires RotationColumn(arr, t, 1) == Vec3(0.0, 1.0, 0.0)
    requires RotationColumn(arr, t, 2) == Vec3(0.0, 0.0, 1.0)
    ensures RelativePositions(src, arr)[t] == Offset(src, arr, t)
  {
    RotateIdentity(Offset(src, arr, t));
  }

  /** Rotating the relative position back by `R_t` (rows of the rotation)
      recovers the offset in room coordinates when `R_t` has orthonormal
      rows: the transpose is the inverse. */
  lemma RelativeRotatesBack(src: Record, arr: Record, t: nat)
    requires ShapedAt(src, Frames(arr)) && ShapedAt(arr, Frames(arr)) && t < Frames(arr)
    requires forall i, k :: 0 <= i < 3 && 0 <= k < 3 ==>
      Dot(RotationRowAt(arr, t, i), RotationRowAt(arr, t, k)) == (if i == k then 1.0 else 0.0)
    ensures Rotate(RotationRowAt(arr, t, 0), RotationRowAt(arr, t, 1), RotationRowAt(arr, t, 2), RelativePositions(src, arr)[t]) == Offset(src, arr, t)
  {
    var h := Offset(src, arr, t);
    var r0, r1, r2 := RotationRowAt(arr, t, 0), RotationRowAt(arr, t, 1), RotationRowAt(arr, t, 2);
    assert RelativePositions(src, arr)[t] == Combine(r0, r1, r2, h);
    DotCombination(r0, r0, r1, r2, h);
    DotCombination(r1, r0, r1, r2, h);
    DotCombination(r2, r0, r1, r2, h);
  }

  /** Row i of the array's rotation at time step t. */
  function RotationRowAt(arr: Record, t: nat, i: nat): Vec3
    requires ShapedAt(arr, Frames(arr)) && t < Frames(arr) && i < 3
  {
    Vec3(arr.rotation[i][t][0], arr.rotation[i][t][1], arr.rotation[i][t][2])
  }

  /** `R^T h` for the rotation with rows r0, r1, r2. */
  function Combine(r0: Vec3, r1: Vec3, r2: Vec3, h: Vec3): Vec3
  {
    Vec3(r0.x * h.x + r1.x * h.y + r2.x * h.z, r0.y * h.x + r1.y * h.y + r2.y * h.z, r0.z * h.x + r1.z * h.y + r2.z * h.z)
  }

  /** `v . (R^T h) = (v . r0) h_x + (v . r1) h_y + (v . r2) h_z`. */
  lemma DotCombination(v: Vec3, r0: Vec3, r1: Vec3, r2: Vec3, h: Vec3)
    ensures Dot(v, Combine(r0, r1, r2, h)) == Dot(v, r0) * h.x + Dot(v, r1) * h.y + Dot(v, r2) * h.z
  {
    assert v.x * (r0.x * h.x + r1.x * h.y + r2.x * h.z) == v.x * r0.x * h.x + v.x * r1.x * h.y + v.x * r2.x * h.z;
    assert v.y * (r0.y * h.x + r1.y * h.y + r2.y * h.z) == v.y * r0.y * h.x + v.y * r1.y * h.y + v.y * r2.y * h.z;
    assert v.z * (r0.z * h.x + r1.z * h.y + r2.z * h.z) == v.z * r0.z * h.x + v.z * r1.z * h.y + v.z * r2.z * h.z;
    assert Dot(v, r0) * h.x == v.x * r0.x * h.x + v.y * r0.y * h.x + v.z * r0.z * h.x;
    assert Dot(v, r1) * h.y == v.x * r1.x * h.y + v.y * r1.y * h.y + v.z * r1.z * h.y;
    assert Dot(v, r2) * h.z == v.x * r2.x * h.z + v.y * r2.y * h.z + v.z * r2.z * h.z;
  }

  /** The record moved by `v`: every position shifted, nothing else. */
  function Shift(rec: Record, v: Vec3): (r: Record)
    requires |rec.position| == 3
    ensures forall n: nat :: ShapedAt(rec, n) ==> ShapedAt(r, n)
    ensures Frames(r) == Frames(rec)
  {
    var p := rec.position;
    rec.(position := [seq(|p[0]|, t requires 0 <= t < |p[0]| => p[0][t] + v.x),
                      seq(|p[1]|, t requires 0 <= t < |p[1]| => p[1][t] + v.y),
                      seq(|p[2]|, t requires 0 <= t < |p[2]| => p[2][t] + v.z)])
  }

  /** Relative positions do not depend on where the room's origin is:
      moving source and array together changes none of them. */
  lemma RelativeTranslationInvariant(src: Record, arr: Record, v: Vec3)
    requires ShapedAt(src, Frames(arr)) && ShapedAt(arr, Frames(arr))
    ensures RelativePositions(Shift(src, v), Shift(arr, v)) == RelativePositions(src, arr)
  {
    var a := RelativePositions(Shift(src, v), Shift(arr, v));
    var b := RelativePositions(src, arr);
    forall t | 0 <= t < |b|
      ensures a[t] == b[t]
    {
      assert Offset(Shift(src, v), Shift(arr, v), t) == Offset(src, arr, t);
      assert RotationColumn(Shift(arr, v), t, 0) == RotationColumn(arr, t, 0);
      assert RotationColumn(Shift(arr, v), t, 1) == RotationColumn(arr, t, 1);
      assert RotationColumn(Shift(arr, v), t, 2) == RotationColumn(arr, t, 2);
    }
  }

  /** An array table without microphone columns cannot be masked: its
      `mic` field is None, and the masking raises TypeError once the other
      fields mask. */
  lemma ArrayWithoutMicsRaises(rec: Record, flags: seq<bool>)
    requires ShapedAt(rec, |flags|) && rec.mic.None?
    ensures MaskArrayRecord(rec, flags) == Err(TypeError)
  {
  }

  /** A source's record after masking and its polar position. */
  datatype SourceTruth = SourceTruth(record: Record, polar: seq<Vec3>)

  /** What `GetTruth` returns: the masked array record and, in development
      mode, every source. */
  datatype Truth = Truth(arrayRecord: Record, source: Option<seq<Entry<string, SourceTruth>>>)

  /** Lines 200-213 for one source. With exactly one valid time step,
      `np.squeeze` leaves a flat vector and `cart2pol`'s `cart[:, 0]`
      raises IndexError. */
  function SourceTruthOf(src: Record, arr: Record, flags: seq<bool>, cart2pol: seq<Vec3> -> seq<Vec3>): (r: Result<SourceTruth>)
    requires Shaped(src) && ShapedAt(arr, |TrueIndices(flags)|)
    ensures r.Err? ==> r.failure == IndexError
    ensures r.Ok? ==> MaskSourceRecord(src, flags) == Ok(r.value.record) && ShapedAt(r.value.record, Frames(arr))
    ensures r.Ok? ==> r.value.polar == cart2pol(RelativePositions(r.value.record, arr))
    ensures |TrueIndices(flags)| == 1 ==> r.Err?
    ensures |TrueIndices(flags)| != 1 ==> (r.Ok? <==> MaskSourceRecord(src, flags).Ok?)
  {
    var rec :- MaskSourceRecord(src, flags);
    if |TrueIndices(flags)| == 1 then Err(IndexError)
    else Ok(SourceTruth(rec, cart2pol(RelativePositions(rec, arr))))
  }

  /** The first n sources in dictionary order. */
  function SourceTruths(sources: seq<Entry<string, Record>>, n: nat, arr: Record, flags: seq<bool>, cart2pol: seq<Vec3> -> seq<Vec3>): (r: Result<seq<Entry<string, SourceTruth>>>)
    requires n <= |sources| && forall s :: 0 <= s < |sources| ==> Shaped(sources[s].value)
    requires ShapedAt(arr, |TrueIndices(flags)|)
    ensures r.Err? ==> r.failure == IndexError
    ensures r.Ok? ==> |r.value| == n && forall s :: 0 <= s < n ==> r.value[s].key == sources[s].key
    ensures r.Ok? <==> forall s :: 0 <= s < n ==> SourceTruthOf(sources[s].value, arr, flags, cart2pol).Ok?
    ensures r.Ok? ==> forall s :: 0 <= s < n ==> SourceTruthOf(sources[s].value, arr, flags, cart2pol) == Ok(r.value[s].value)
  {
    if n == 0 then Ok([])
    else
      var init :- SourceTruths(sources, n - 1, arr, flags, cart2pol);
      var last :- SourceTruthOf(sources[n - 1].value, arr, flags, cart2pol);
      Ok(init + [Entry(sources[n - 1].key, last)])
  }

  /** Lines 167-215. The records come from tables, so every field spans the
      table's time steps. */
  function GetTruth(arrayName: string, arrays: seq<Entry<string, Record>>, sources: seq<Entry<string, Record>>,
                    flags: seq<bool>, isDev: bool, cart2pol: seq<Vec3> -> seq<Vec3>): (r: Result<Truth>)
    requires forall a :: 0 <= a < |arrays| ==> Shaped(arrays[a].value)
    requires forall s :: 0 <= s < |sources| ==> Shaped(sources[s].value)
    ensures Get(arrays, arrayName).None? ==> r == Err(KeyError)
    ensures r.Ok? ==> Get(arrays, arrayName).Some? && MaskArrayRecord(Get(arrays, arrayName).value, flags) == Ok(r.value.arrayRecord)
    ensures r.Ok? ==> (r.value.source.Some? <==> isDev)
    ensures r.Ok? && isDev ==>
      && ShapedAt(r.value.arrayRecord, |TrueIndices(flags)|)
      && SourceTruths(sources, |sources|, r.value.arrayRecord, flags, cart2pol) == Ok(r.value.source.value)
    ensures Get(arrays, arrayName).Some? && MaskArrayRecord(Get(arrays, arrayName).value, flags).Err? ==>
      r == Err(MaskArrayRecord(Get(arrays, arrayName).value, flags).failure)
  {
    match Get(arrays, arrayName)
    case None => Err(KeyError)
    case Some(arr) =>
      assert Shaped(arr);
      var arrM :- MaskArrayRecord(arr, flags);
      if !isDev then Ok(Truth(arrM, None))
      else
        var srcs :- SourceTruths(sources, |sources|, arrM, flags, cart2pol);
        Ok(Truth(arrM, Some(srcs)))
  }

  /** In development mode a single valid time step fails for the first
      source whose fields mask. */
  lemma SingleValidStepRaises(arrayName: string, arrays: seq<Entry<string, Record>>, sources: seq<Entry<string, Record>>,
                              flags: seq<bool>, cart2pol: seq<Vec3> -> seq<Vec3>)
    requires forall a :: 0 <= a < |arrays| ==> Shaped(arrays[a].value)
    requires forall s :: 0 <= s < |sources| ==> Shaped(sources[s].value)
    requires |TrueIndices(flags)| == 1 && |sources| > 0
    ensures GetTruth(arrayName, arrays, sources, flags, true, cart2pol).Err?
  {
    var r := GetTruth(arrayName, arrays, sources, flags, true, cart2pol);
    if Get(arrays, arrayName).Some? {
      var arr := Get(arrays, arrayName).value;
      var m := MaskArrayRecord(arr, flags);
      if m.Ok? {
        assert !SourceTruthOf(sources[0].value, m.value, flags, cart2pol).Ok?;
      }
    }
  }
}
