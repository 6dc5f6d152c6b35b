/** The bookkeeping of `process.py`: elapsed time since the first required
    timestamp, the valid-flag selection, the recording number parsed from a
    directory name, the array filter, the result directory, and the files
    written per estimated source. Timestamps are seconds as reals. */
module Process {
  import opened Wrappers
  import opened Seqs
  import opened Strings
  import opened Floats
  import opened PyDict
  import opened Metrics

  // ------------------------------------------------------------ ElapsedTime

  /** Lines 21-24: zero, then the step from each timestamp to the next. */
  function Steps(t: seq<real>): (d: seq<real>)
    ensures |d| == |t|
  {
    seq(|t|, i requires 0 <= i < |t| => if i == 0 then 0.0 else t[i] - t[i - 1])
  }

  /** `np.cumsum`: entry i is the sum of the first i + 1 entries. */
  function CumSum(d: seq<real>): (r: seq<real>)
    ensures |r| == |d|
  {
    seq(|d|, i requires 0 <= i < |d| => RealSum(d[..i + 1]))
  }

  /** Lines 20-25. */
  function ElapsedTime(t: seq<real>): (r: seq<real>)
    ensures |r| == |t|
    ensures |t| > 0 ==> r[0] == 0.0
  {
    var d := Steps(t);
    assert |t| > 0 ==> RealSum(d[..1]) == 0.0 by {
      if |t| > 0 {
        assert d[..1][..0] == [];
      }
    }
    CumSum(d)
  }

  /** Each entry adds the step from the previous timestamp. */
  lemma ElapsedTimeStep(t: seq<real>, i: nat)
    requires 0 < i < |t|
    ensures ElapsedTime(t)[i] == ElapsedTime(t)[i - 1] + (t[i] - t[i - 1])
  {
    var d := Steps(t);
    assert d[..i + 1][..i] == d[..i];
  }

  /** The sum telescopes: the elapsed time of entry i is `t[i] - t[0]`. */
  lemma {:induction false} ElapsedTimeTelescopes(t: seq<real>, i: nat)
    requires i < |t|
    ensures ElapsedTime(t)[i] == t[i] - t[0]
  {
    if i > 0 {
      ElapsedTimeTelescopes(t, i - 1);
      ElapsedTimeStep(t, i);
    }
  }

  /** Non-decreasing timestamps give non-decreasing elapsed times. */
  lemma ElapsedTimeMonotone(t: seq<real>)
    requires NonDecreasing(t)
    ensures NonDecreasing(ElapsedTime(t))
  {
    forall i, j | 0 <= i < j < |t|
      ensures ElapsedTime(t)[i] <= ElapsedTime(t)[j]
    {
      ElapsedTimeTelescopes(t, i);
      ElapsedTimeTelescopes(t, j);
    }
  }

  /** The evaluation timestamps and times of lines 75-76. */
  datatype Required = Required(timestamps: seq<real>, time: seq<real>)

  /** Lines 75-76: both vectors selected by the same valid flags; a flag
      vector of another length makes the boolean index raise IndexError. */
  function RequiredTimes(time: seq<real>, valid: seq<bool>): (r: Result<Required>)
    ensures r.Err? <==> |time| != |valid|
    ensures r.Err? ==> r.failure == IndexError
  {
    if |time| != |valid| then Err(IndexError)
    else Ok(Required(Mask(ElapsedTime(time), valid), Mask(time, valid)))
  }

  /** The selected vectors are equally long, and the k-th timestamp is the
      time of the k-th kept row measured from the first row, valid or not. */
  lemma RequiredTimesAgree(time: seq<real>, valid: seq<bool>)
    requires RequiredTimes(time, valid).Ok?
    ensures var r := RequiredTimes(time, valid).value;
      && |r.timestamps| == |r.time| == |TrueIndices(valid)|
      && forall k :: 0 <= k < |r.time| ==> r.timestamps[k] == r.time[k] - time[0]
  {
    var r := RequiredTimes(time, valid).value;
    forall k | 0 <= k < |r.time|
      ensures r.timestamps[k] == r.time[k] - time[0]
    {
      ElapsedTimeTelescopes(time, TrueIndices(valid)[k]);
    }
  }

  // ----------------------------------------------------------- recording id

  /** Line 41: `int(path.split('recording')[1])`. A path without "recording"
      raises IndexError; otherwise the text from the end of the first
      "recording" to the next one, or to the end of the path, is parsed as
      an integer, and text that is not one raises ValueError. */
  function RecordingId(path: string): (r: Result<int>)
    ensures !Contains(path, "recording") ==> r == Err(IndexError)
    ensures Contains(path, "recording") ==>
      var i := FindFrom(path, "recording", 0).value;
      r == ParseInt(path[i + 9..FindOrEnd(path, "recording", i + 9)])
    ensures r.Err? ==> r.failure == IndexError || r.failure == ValueError
  {
    var parts := Split(path, "recording");
    SplitSecond(path, "recording");
    if |parts| < 2 then Err(IndexError)
    else ParseInt(parts[1])
  }

  /** A directory `<prefix>recording<n>` whose prefix holds no "recording"
      has recording id n. */
  lemma RecordingIdOfDirectory(prefix: string, n: nat)
    requires forall j: nat :: j < |prefix| ==> !OccursAt(prefix + "recording" + NatToString(n), "recording", j)
    ensures RecordingId(prefix + "recording" + NatToString(n)) == Ok(n)
  {
    var path := prefix + "recording" + NatToString(n);
    var digits := NatToString(n);
    assert OccursAt(path, "recording", |prefix|) by {
      assert path[|prefix|..|prefix| + 9] == "recording";
    }
    assert path[|prefix| + 9..] == digits;
    assert path[..|prefix|] == prefix;
    DigitsHaveNoWord(digits);
    assert Split(digits, "recording") == [digits];
    ParseIntNatToString(n);
  }

  lemma DigitsHaveNoWord(digits: string)
    requires forall k :: 0 <= k < |digits| ==> IsDigit(digits[k])
    ensures FindFrom(digits, "recording", 0).None?
  {
    var r := FindFrom(digits, "recording", 0);
    if r.Some? {
      OccurrenceStart(digits, "recording", r.value);
    }
  }

  lemma OccurrenceStart(s: string, pat: string, i: nat)
    requires OccursAt(s, pat, i) && |pat| > 0
    ensures s[i] == pat[0]
  {
    assert s[i..i + |pat|][0] == s[i];
  }

  // ------------------------------------------------------------ array filter

  /** Lines 45-48: the array directories whose base name is a requested
      array, in the order listed. */
  function ArraysToProcess(arrayDirs: seq<string>, requested: seq<string>): (r: seq<string>)
    ensures forall d :: d in r ==> d in arrayDirs && Basename(d) in requested
    ensures forall d :: d in arrayDirs && Basename(d) in requested ==> d in r
    ensures |r| <= |arrayDirs|
  {
    if |arrayDirs| == 0 then []
    else
      var rest := ArraysToProcess(arrayDirs[1..], requested);
      if Basename(arrayDirs[0]) in requested then [arrayDirs[0]] + rest else rest
  }

  /** Filtering twice by the same names filters once. */
  lemma {:induction false} ArraysToProcessIdempotent(arrayDirs: seq<string>, requested: seq<string>)
    ensures ArraysToProcess(ArraysToProcess(arrayDirs, requested), requested) == ArraysToProcess(arrayDirs, requested)
  {
    if |arrayDirs| > 0 {
      ArraysToProcessIdempotent(arrayDirs[1..], requested);
      var rest := ArraysToProcess(arrayDirs[1..], requested);
      if Basename(arrayDirs[0]) in requested {
        assert ([arrayDirs[0]] + rest)[1..] == rest;
      }
    }
  }

  // ------------------------------------------------------------ result paths

  /** Line 59: `array_dir.replace(data_dir, results_dir)`. */
  function ResultDir(arrayDir: string, dataDir: string, resultsDir: string): string
  {
    Replace(arrayDir, dataDir, resultsDir)
  }

  /** An array directory under the data directory, whose remainder does not
      mention the data directory again, moves under the results directory. */
  lemma ResultDirMovesTree(dataDir: string, rest: string, resultsDir: string)
    requires |dataDir| > 0 && !Contains(rest, dataDir)
    ensures ResultDir(dataDir + rest, dataDir, resultsDir) == resultsDir + rest
  {
    ReplaceLeading(dataDir, rest, resultsDir);
  }

  /** `os.path.join(dir, name)` for a relative name. */
  function PathJoin(dir: string, name: string): string
  {
    if |dir| == 0 || dir[|dir| - 1] == '/' then dir + name else dir + "/" + name
  }

  /** Line 105: `'source_{}.txt'.format(k + 1)`. */
  function SourceFileName(k: nat): (s: string)
  {
    "source_" + NatToString(k + 1) + ".txt"
  }

  /** Different sources are written to different files. */
  lemma SourceFileNameInjective(j: nat, k: nat)
    requires SourceFileName(j) == SourceFileName(k)
    ensures j == k
  {
    var a, b := SourceFileName(j), SourceFileName(k);
    var dj, dk := NatToString(j + 1), NatToString(k + 1);
    assert |dj| == |dk|;
    assert a[7..7 + |dj|] == dj;
    assert b[7..7 + |dk|] == dk;
    NatToStringInjective(j + 1, k + 1);
  }

  /** A source file never shares its name with `truth.txt` or `metrics.txt`. */
  lemma SourceFileNameDistinct(k: nat)
    ensures SourceFileName(k) != "truth.txt" && SourceFileName(k) != "metrics.txt"
  {
    assert SourceFileName(k)[0] == 's';
  }

  // ---------------------------------------------------------- written files

  /** What a write at lines 105-110 puts in a file: the table of estimated
      source k, the truth of a ground-truth source, or the scores of
      estimated source k. */
  datatype Content = SourceTable(k: nat) | TruthOf(key: string) | MetricsOf(k: nat, scores: Scores)

  datatype Write = Write(path: string, content: Content)

  /** Line 104 for every estimate: `CalculateContinueDOAScores` of estimate k
      against the azimuth and elevation of the k-th ground-truth source in
      dictionary order; an estimate without a source is never scored, and
      its entry is the IndexError of line 103. */
  function Scoring(estimates: seq<seq<Doa>>, truths: seq<Entry<string, seq<Doa>>>, t: Trig, solve: seq<seq<real>> -> Assignment): (r: seq<Result<Scores>>)
    requires t.pi > 0.0
    ensures |r| == |estimates|
    ensures forall k :: 0 <= k < |estimates| && k < |truths| ==> r[k] == ContinueDoaScores(estimates[k], truths[k].value, false, t, solve).1
  {
    seq(|estimates|, k requires 0 <= k < |estimates| =>
      if k < |truths| then ContinueDoaScores(estimates[k], truths[k].value, false, t, solve).1 else Err(IndexError))
  }

  /** Lines 103-104 for estimate k, given the ground-truth keys and the
      scores: IndexError when there is no k-th source, else its scores. */
  function SourceStep(k: nat, keys: seq<string>, scores: seq<Result<Scores>>): (r: Result<Scores>)
    requires k < |scores|
  {
    if k >= |keys| then Err(IndexError) else scores[k]
  }

  /** The three writes of lines 105-110 for estimate k. */
  function SourceFiles(resultDir: string, k: nat, key: string, s: Scores): seq<Write>
  {
    [Write(PathJoin(resultDir, SourceFileName(k)), SourceTable(k)),
     Write(PathJoin(resultDir, "truth.txt"), TruthOf(key)),
     Write(PathJoin(resultDir, "metrics.txt"), MetricsOf(k, s))]
  }

  /** Lines 100-110 over the first n estimates, as the writes made and the
      exception that ends the loop. `truth.source` exists only in development
      mode; without it line 100 raises AttributeError before any write. Each
      estimate is scored before its files are written, so the loop stops at
      the first estimate without a ground-truth source (IndexError) or whose
      scoring raises, after three writes for each earlier estimate. */
  function SourceWrites(resultDir: string, keys: Option<seq<string>>, scores: seq<Result<Scores>>, n: nat): (r: (seq<Write>, Option<Failure>))
    requires n <= |scores|
    ensures keys.None? ==> r == ([], Some(AttributeError))
    ensures keys.Some? ==> (r.1.None? <==> forall k :: 0 <= k < n ==> SourceStep(k, keys.value, scores).Ok?)
    ensures keys.Some? && r.1.None? ==> |r.0| == 3 * n
    ensures keys.Some? && r.1.Some? ==>
      exists k :: (0 <= k < n && SourceStep(k, keys.value, scores) == Err(r.1.value) &&
        |r.0| == 3 * k && forall j :: 0 <= j < k ==> SourceStep(j, keys.value, scores).Ok?)
  {
    match keys
    case None => ([], Some(AttributeError))
    case Some(ks) =>
      if n == 0 then ([], None)
      else
        var prev := SourceWrites(resultDir, keys, scores, n - 1);
        if prev.1.Some? then prev
        else
          match SourceStep(n - 1, ks, scores)
          case Err(e) => (prev.0, Some(e))
          case Ok(s) => (prev.0 + SourceFiles(resultDir, n - 1, ks[n - 1], s), None)
  }

  /** Writes 3k to 3k + 2 of a completed loop: estimate k's table, its
      ground-truth source, then its scores. */
  lemma {:induction false} SourceWritesAt(resultDir: string, keys: seq<string>, scores: seq<Result<Scores>>, n: nat, k: nat)
    requires n <= |scores| && k < n
    requires SourceWrites(resultDir, Some(keys), scores, n).1.None?
    ensures k < |keys| && scores[k].Ok?
    ensures var ws := SourceWrites(resultDir, Some(keys), scores, n).0;
      |ws| == 3 * n && ws[3 * k..3 * k + 3] == SourceFiles(resultDir, k, keys[k], scores[k].value)
  {
    assert SourceStep(k, keys, scores).Ok?;
    var prev := SourceWrites(resultDir, Some(keys), scores, n - 1);
    var ws := SourceWrites(resultDir, Some(keys), scores, n).0;
    assert prev.1.None?;
    assert ws == prev.0 + SourceFiles(resultDir, n - 1, keys[n - 1], scores[n - 1].value);
    if k < n - 1 {
      SourceWritesAt(resultDir, keys, scores, n - 1, k);
      assert ws[3 * k..3 * k + 3] == prev.0[3 * k..3 * k + 3];
    }
  }

  /** The loop stops at its first failing estimate k, with the writes of the
      estimates before it. */
  lemma {:induction false} SourceWritesStopAt(resultDir: string, keys: seq<string>, scores: seq<Result<Scores>>, n: nat, k: nat)
    requires n <= |scores| && k < n
    requires SourceStep(k, keys, scores).Err?
    requires forall j :: 0 <= j < k ==> SourceStep(j, keys, scores).Ok?
    ensures SourceWrites(resultDir, Some(keys), scores, n) ==
      (SourceWrites(resultDir, Some(keys), scores, k).0, Some(SourceStep(k, keys, scores).failure))
  {
    if k < n - 1 {
      SourceWritesStopAt(resultDir, keys, scores, n - 1, k);
    }
  }

  /** An estimate with a NaN, scored against a ground-truth source of the
      same length, stops the loop with ValueError after the earlier
      estimates' files: its own table, truth and metrics are never written. */
  lemma NaNEstimateStopsWrites(resultDir: string, estimates: seq<seq<Doa>>, truths: seq<Entry<string, seq<Doa>>>,
                               t: Trig, solve: seq<seq<real>> -> Assignment, n: nat, k: nat, i: nat)
    requires n <= |estimates| && t.pi > 0.0 && k < n && k < |truths|
    requires |estimates[k]| == |truths[k].value| && i < |estimates[k]| && !Finite(estimates[k][i])
    requires forall j :: 0 <= j < k ==> SourceStep(j, Keys(truths), Scoring(estimates, truths, t, solve)).Ok?
    ensures var scores := Scoring(estimates, truths, t, solve);
      SourceWrites(resultDir, Some(Keys(truths)), scores, n) == (SourceWrites(resultDir, Some(Keys(truths)), scores, k).0, Some(ValueError))
  {
    var scores := Scoring(estimates, truths, t, solve);
    NaNPredictionRaises(estimates[k], truths[k].value, t, solve, i);
    assert SourceStep(k, Keys(truths), scores) == Err(ValueError);
    SourceWritesStopAt(resultDir, Keys(truths), scores, n, k);
  }

  /** The content a file ends with: its last write. */
  function LastWrite(ws: seq<Write>, path: string): (r: Option<Content>)
    ensures r.None? <==> forall i :: 0 <= i < |ws| ==> ws[i].path != path
    ensures r.Some? ==> exists i :: (0 <= i < |ws| && ws[i] == Write(path, r.value) &&
      forall j :: i < j < |ws| ==> ws[j].path != path)
  {
    if |ws| == 0 then None
    else if ws[|ws| - 1].path == path then Some(ws[|ws| - 1].content)
    else LastWrite(ws[..|ws| - 1], path)
  }

  /** `truth.txt` and `metrics.txt` are rewritten for every source, so after
      a complete loop they hold the last estimated source's truth and
      scores. */
  lemma SharedFilesKeepLastSource(resultDir: string, keys: seq<string>, scores: seq<Result<Scores>>, n: nat)
    requires 0 < n <= |scores|
    requires SourceWrites(resultDir, Some(keys), scores, n).1.None?
    ensures n <= |keys| && scores[n - 1].Ok?
    ensures var ws := SourceWrites(resultDir, Some(keys), scores, n).0;
      && LastWrite(ws, PathJoin(resultDir, "truth.txt")) == Some(TruthOf(keys[n - 1]))
      && LastWrite(ws, PathJoin(resultDir, "metrics.txt")) == Some(MetricsOf(n - 1, scores[n - 1].value))
  {
    SourceWritesAt(resultDir, keys, scores, n, n - 1);
    var ws := SourceWrites(resultDir, Some(keys), scores, n).0;
    var m := |ws|;
    assert ws[m - 1] == ws[3 * (n - 1)..3 * (n - 1) + 3][2];
    assert ws[m - 2] == ws[3 * (n - 1)..3 * (n - 1) + 3][1];
    assert PathJoin(resultDir, "metrics.txt") != PathJoin(resultDir, "truth.txt") by {
      JoinDistinct(resultDir, "metrics.txt", "truth.txt");
    }
    assert ws[..m - 1][m - 2] == ws[m - 2];
  }

  /** Joining one directory with two different names gives different paths. */
  lemma JoinDistinct(dir: string, a: string, b: string)
    requires a != b
    ensures PathJoin(dir, a) != PathJoin(dir, b)
  {
    var pa, pb := PathJoin(dir, a), PathJoin(dir, b);
    if |dir| == 0 || dir[|dir| - 1] == '/' {
      assert pa[|dir|..] == a && pb[|dir|..] == b;
    } else {
      assert pa[|dir| + 1..] == a && pb[|dir| + 1..] == b;
    }
  }
}
