/** The checks `main_eval` makes before it processes anything, and the
    task calls it then makes. `MainEval` follows the script as written;
    `MainEvalIntended` is the behaviour its messages describe. File-system
    probes are parameters, and `task_process` is recorded as a call rather
    than run. */
module EvalLoc {
  import opened Wrappers
  import opened Opts
  import opened DynamicImport

  /** The experiment configuration (`config_eval`). `arrays` may be None. */
  datatype Config = Config(
    dataset: string,
    dataDir: string,
    resultsDir: string,
    isDev: bool,
    arrays: Option<seq<string>>,
    tasks: seq<int>,
    algorithm: string,
    processes: int)

  /** Lines 43-50. */
  function DefaultConfig(): Config
  {
    Config("locata", "./data", "./results", true, Some(["benchmark2", "eigenmike", "dicit", "dummy"]),
           [1, 2, 3, 4, 5, 6], "locata_wrapper.algorithm.music:MUSIC", 1)
  }

  datatype Dataset = Locata | Dcase

  /** One call `task_process(this_task, my_alg_name, opts, args, _log)`. */
  datatype TaskCall = TaskCall(dataset: Dataset, task: int, algorithm: Target, opts: Options, arrays: seq<string>)

  /** What a run does once the checks pass: whether it creates the results
      directory, whether it hands the calls to a process pool, and the
      `task_process` calls in order. */
  datatype Run = Run(createsResultsDir: bool, pooled: bool, calls: seq<TaskCall>)

  /** Lines 88-90: LOCATA has tasks 1..6, DCASE tasks 1..4. */
  predicate ValidTask(d: Dataset, x: int)
  {
    if d == Locata then 0 < x < 7 else 0 < x < 5
  }

  /** `[x for x in list(set(xs)) if not ok(x)]`: the distinct rejected
      values. Only its length is used, so the order of the set does not
      matter. */
  function Rejected<T(==)>(xs: seq<T>, ok: T -> bool): (r: seq<T>)
    ensures forall i :: 0 <= i < |r| ==> r[i] in xs && !ok(r[i])
    ensures forall i :: 0 <= i < |xs| && !ok(xs[i]) ==> xs[i] in r
    ensures forall i, j :: 0 <= i < j < |r| ==> r[i] != r[j]
  {
    if |xs| == 0 then []
    else
      var rest := Rejected(xs[..|xs| - 1], ok);
      var x := xs[|xs| - 1];
      assert forall i :: 0 <= i < |xs| - 1 ==> xs[..|xs| - 1][i] == xs[i];
      if ok(x) || x in rest then rest else rest + [x]
  }

  /** Nothing is rejected exactly when every value is accepted. */
  lemma RejectedNone<T>(xs: seq<T>, ok: T -> bool)
    ensures |Rejected(xs, ok)| == 0 <==> forall i :: 0 <= i < |xs| ==> ok(xs[i])
  {
    var r := Rejected(xs, ok);
    if |r| > 0 {
      assert r[0] in xs;
    }
  }

  /** More than one value is rejected exactly when two different values
      are. */
  lemma RejectedSeveral<T>(xs: seq<T>, ok: T -> bool)
    ensures |Rejected(xs, ok)| > 1 <==>
      exists i, j :: 0 <= i < |xs| && 0 <= j < |xs| && !ok(xs[i]) && !ok(xs[j]) && xs[i] != xs[j]
  {
    var r := Rejected(xs, ok);
    if |r| > 1 {
      assert r[0] in xs && r[1] in xs;
      var i :| 0 <= i < |xs| && xs[i] == r[0];
      var j :| 0 <= j < |xs| && xs[j] == r[1];
      assert !ok(xs[i]) && !ok(xs[j]) && xs[i] != xs[j];
    }
    if exists i, j :: 0 <= i < |xs| && 0 <= j < |xs| && !ok(xs[i]) && !ok(xs[j]) && xs[i] != xs[j] {
      var i, j :| 0 <= i < |xs| && 0 <= j < |xs| && !ok(xs[i]) && !ok(xs[j]) && xs[i] != xs[j];
      assert xs[i] in r && xs[j] in r;
      OneValueOnly(r, xs[i], xs[j]);
    }
  }

  /** A sequence holding two different values has more than one element. */
  lemma OneValueOnly<T>(r: seq<T>, a: T, b: T)
    requires a in r && b in r && a != b
    ensures |r| > 1
  {
    var i :| 0 <= i < |r| && r[i] == a;
    var j :| 0 <= j < |r| && r[j] == b;
    assert i != j;
  }

  /** Lines 88-93: the run stops when more than one distinct task is
      invalid. */
  function TaskCheck(d: Dataset, tasks: seq<int>): (r: Result<()>)
    ensures r.Err? ==> r.failure == Exit(1)
  {
    if |Rejected(tasks, x => ValidTask(d, x))| > 1 then Err(Exit(1)) else Ok(())
  }

  /** The check on task numbers lets through every list whose invalid tasks are all
      the same number. */
  lemma TaskCheckAsWritten(d: Dataset, tasks: seq<int>)
    ensures TaskCheck(d, tasks).Ok? <==>
      forall i, j :: 0 <= i < |tasks| && 0 <= j < |tasks| && !ValidTask(d, tasks[i]) && !ValidTask(d, tasks[j]) ==> tasks[i] == tasks[j]
  {
    RejectedSeveral(tasks, x => ValidTask(d, x));
  }

  /** Task 9 does not exist in LOCATA, yet `[1, 9]` passes the check. */
  lemma SingleInvalidTaskAccepted()
    ensures !ValidTask(Locata, 9)
    ensures TaskCheck(Locata, [1, 9]).Ok?
  {
    TaskCheckAsWritten(Locata, [1, 9]);
  }

  /** Lines 96-103: without `arrays` the list defaults to the valid arrays,
      but `error_arrays` is then never assigned and line 101 reads it;
      otherwise the run stops when more than one distinct name is unknown. */
  function ArrayCheck(valid: seq<string>, arrays: Option<seq<string>>): (r: Result<seq<string>>)
    ensures arrays.None? ==> r == Err(UnboundLocal("error_arrays"))
    ensures arrays.Some? && r.Err? ==> r.failure == Exit(1)
    ensures r.Ok? ==> arrays == Some(r.value)
  {
    match arrays
    case None => Err(UnboundLocal("error_arrays"))
    case Some(a) => if |Rejected(a, x => x in valid)| > 1 then Err(Exit(1)) else Ok(a)
  }

  /** The array check lets through every list whose unknown names are all
      the same name. */
  lemma ArrayCheckAsWritten(valid: seq<string>, arrays: seq<string>)
    ensures ArrayCheck(valid, Some(arrays)).Ok? <==>
      forall i, j :: 0 <= i < |arrays| && 0 <= j < |arrays| && arrays[i] !in valid && arrays[j] !in valid ==> arrays[i] == arrays[j]
  {
    RejectedSeveral(arrays, x => x in valid);
  }

  /** A misspelt array name passes when it is the only one. */
  lemma SingleInvalidArrayAccepted()
    ensures "eigenmic" !in LocataInitialOptions().validArrays
    ensures ArrayCheck(LocataInitialOptions().validArrays, Some(["dicit", "eigenmic"])) == Ok(["dicit", "eigenmic"])
  {
    ArrayCheckAsWritten(LocataInitialOptions().validArrays, ["dicit", "eigenmic"]);
  }

  /** The settings of a dataset. */
  function OptionsOf(d: Dataset): (o: Options)
    ensures forall s :: s in o.validArrays <==> ParseArrayName(s).Some?
  {
    if d == Locata then LocataInitialOptions() else DcaseInitialOptions()
  }

  /** The calls of lines 120-124, one per task in the order given,
      repeated tasks included. */
  function Calls(d: Dataset, tasks: seq<int>, alg: Target, opts: Options, arrays: seq<string>): (cs: seq<TaskCall>)
    ensures |cs| == |tasks|
    ensures forall i :: 0 <= i < |tasks| ==> cs[i] == TaskCall(d, tasks[i], alg, opts, arrays)
  {
    seq(|tasks|, i requires 0 <= i < |tasks| => TaskCall(d, tasks[i], alg, opts, arrays))
  }

  /** Lines 54-128 as written. An unknown dataset reaches `sys.error(1)`,
      which does not exist and raises AttributeError. */
  function MainEval(cfg: Config, modules: string -> Option<set<string>>, resultsExist: bool, dataExists: bool): (r: Result<Run>)
    ensures cfg.dataset != "locata" && cfg.dataset != "dcase" ==> r == Err(AttributeError)
    ensures r.Err? ==> r.failure in {AttributeError, ValueError, Exit(1), UnboundLocal("error_arrays")}
    ensures r.Ok? ==> Import(cfg.algorithm, [], true, modules).Ok? && dataExists && cfg.arrays.Some?
  {
    if cfg.dataset != "locata" && cfg.dataset != "dcase" then Err(AttributeError)
    else
      var alg :- Import(cfg.algorithm, [], true, modules);
      if !dataExists then Err(Exit(1))
      else
        var d := if cfg.dataset == "locata" then Locata else Dcase;
        CheckedRunAsWritten(d, alg, cfg.tasks, cfg.arrays, !resultsExist, cfg.processes > 1)
  }

  /** Lines 87-124 as written: the check on task numbers, the array check, and one
      call per task in the order given, repeated tasks included. */
  function CheckedRunAsWritten(d: Dataset, alg: Target, tasks: seq<int>, arrays: Option<seq<string>>, createsResultsDir: bool, pooled: bool): (r: Result<Run>)
    ensures r.Err? ==> r.failure == Exit(1) || r.failure == UnboundLocal("error_arrays")
    ensures r.Ok? ==> arrays.Some? && |r.value.calls| == |tasks|
    ensures r.Ok? ==> forall i :: 0 <= i < |tasks| ==> r.value.calls[i].task == tasks[i] && r.value.calls[i].arrays == arrays.value
  {
    var opts := OptionsOf(d);
    var _ :- TaskCheck(d, tasks);
    var chosen :- ArrayCheck(opts.validArrays, arrays);
    Ok(Run(createsResultsDir, pooled, Calls(d, tasks, alg, opts, chosen)))
  }

  /** Leaving `arrays` unset never runs: every configuration that gets past
      the earlier checks fails on the unbound name. */
  lemma DefaultArraysUnbound(cfg: Config, modules: string -> Option<set<string>>, resultsExist: bool)
    requires cfg.dataset == "locata" && cfg.arrays.None?
    requires Import(cfg.algorithm, [], true, modules).Ok?
    requires forall i :: 0 <= i < |cfg.tasks| ==> ValidTask(Locata, cfg.tasks[i])
    ensures MainEval(cfg, modules, resultsExist, true) == Err(UnboundLocal("error_arrays"))
  {
    RejectedNone(cfg.tasks, x => ValidTask(Locata, x));
  }

  /** With task 9 among valid tasks the run goes ahead and calls
      `task_process` for task 9. */
  lemma InvalidTaskProcessed(cfg: Config, modules: string -> Option<set<string>>)
    requires cfg.dataset == "locata" && cfg.tasks == [1, 9] && cfg.arrays == Some(["dicit"])
    requires Import(cfg.algorithm, [], true, modules).Ok?
    ensures MainEval(cfg, modules, true, true).Ok?
    ensures MainEval(cfg, modules, true, true).value.calls[1].task == 9
  {
    SingleInvalidTaskAccepted();
    RejectedNone(["dicit"], x => x in OptionsOf(Locata).validArrays);
  }

  /** The checks on task numbers and arrays as their messages describe them: any
      invalid task or unknown array exits, and without `arrays` every valid
      array of the dataset is evaluated. */
  function CheckedRun(d: Dataset, alg: Target, tasks: seq<int>, arrays: Option<seq<string>>, createsResultsDir: bool, pooled: bool): (r: Result<Run>)
    ensures r.Err? ==> r.failure == Exit(1)
  {
    var opts := OptionsOf(d);
    if |Rejected(tasks, x => ValidTask(d, x))| > 0 then Err(Exit(1))
    else
      var chosen := if arrays.Some? then arrays.value else opts.validArrays;
      if |Rejected(chosen, x => x in opts.validArrays)| > 0 then Err(Exit(1))
      else Ok(Run(createsResultsDir, pooled, Calls(d, tasks, alg, opts, chosen)))
  }

  /** Every task and every array the intended checks let through is valid,
      and an unset `arrays` evaluates all valid arrays. */
  lemma CheckedRunValid(d: Dataset, alg: Target, tasks: seq<int>, arrays: Option<seq<string>>, createsResultsDir: bool, pooled: bool)
    requires CheckedRun(d, alg, tasks, arrays, createsResultsDir, pooled).Ok?
    ensures var run := CheckedRun(d, alg, tasks, arrays, createsResultsDir, pooled).value;
      && |run.calls| == |tasks|
      && (forall i :: 0 <= i < |run.calls| ==> run.calls[i].task == tasks[i] && ValidTask(d, run.calls[i].task))
      && (forall i, k :: 0 <= i < |run.calls| && 0 <= k < |run.calls[i].arrays| ==> ParseArrayName(run.calls[i].arrays[k]).Some?)
      && (arrays.None? ==> forall i :: 0 <= i < |run.calls| ==> run.calls[i].arrays == run.calls[i].opts.validArrays)
  {
    var opts := OptionsOf(d);
    RejectedNone(tasks, x => ValidTask(d, x));
    var chosen := if arrays.Some? then arrays.value else opts.validArrays;
    RejectedNone(chosen, x => x in opts.validArrays);
    var run := CheckedRun(d, alg, tasks, arrays, createsResultsDir, pooled).value;
    assert run.calls == Calls(d, tasks, alg, opts, chosen);
    CallsValid(d, tasks, alg, opts, chosen);
  }

  /** Calls built from valid tasks and known arrays carry only those. */
  lemma CallsValid(d: Dataset, tasks: seq<int>, alg: Target, opts: Options, arrays: seq<string>)
    requires opts == OptionsOf(d)
    requires forall i :: 0 <= i < |tasks| ==> ValidTask(d, tasks[i])
    requires forall k :: 0 <= k < |arrays| ==> arrays[k] in opts.validArrays
    ensures var cs := Calls(d, tasks, alg, opts, arrays);
      && (forall i :: 0 <= i < |cs| ==> ValidTask(d, cs[i].task))
      && (forall i, k :: 0 <= i < |cs| && 0 <= k < |cs[i].arrays| ==> ParseArrayName(cs[i].arrays[k]).Some?)
  {
  }

  /** The dataset, task and array checks as their messages describe them:
      an unknown dataset exits like the other checks do. */
  function MainEvalIntended(cfg: Config, modules: string -> Option<set<string>>, resultsExist: bool, dataExists: bool): (r: Result<Run>)
    ensures r.Err? ==> r.failure in {ValueError, AttributeError, Exit(1)}
    ensures cfg.dataset != "locata" && cfg.dataset != "dcase" ==> r == Err(Exit(1))
  {
    if cfg.dataset != "locata" && cfg.dataset != "dcase" then Err(Exit(1))
    else
      var alg :- Import(cfg.algorithm, [], true, modules);
      if !dataExists then Err(Exit(1))
      else
        var d := if cfg.dataset == "locata" then Locata else Dcase;
        CheckedRun(d, alg, cfg.tasks, cfg.arrays, !resultsExist, cfg.processes > 1)
  }

  /** Every task and every array the intended script lets through is valid,
      and an unset `arrays` evaluates all valid arrays. */
  lemma IntendedAcceptsOnlyValid(cfg: Config, modules: string -> Option<set<string>>, resultsExist: bool, dataExists: bool)
    requires MainEvalIntended(cfg, modules, resultsExist, dataExists).Ok?
    ensures var run := MainEvalIntended(cfg, modules, resultsExist, dataExists).value;
      && |run.calls| == |cfg.tasks|
      && (forall i :: 0 <= i < |run.calls| ==> run.calls[i].task == cfg.tasks[i] && ValidTask(run.calls[i].dataset, run.calls[i].task))
      && (forall i, k :: 0 <= i < |run.calls| && 0 <= k < |run.calls[i].arrays| ==> ParseArrayName(run.calls[i].arrays[k]).Some?)
      && (cfg.arrays.None? ==> forall i :: 0 <= i < |run.calls| ==> run.calls[i].arrays == run.calls[i].opts.validArrays)
  {
    var d := if cfg.dataset == "locata" then Locata else Dcase;
    var alg := Import(cfg.algorithm, [], true, modules).value;
    CheckedRunValid(d, alg, cfg.tasks, cfg.arrays, !resultsExist, cfg.processes > 1);
  }

  /** On configurations that are valid throughout, the script as written and
      the intended checks run the same calls. */
  lemma IntendedAgreesOnValidInput(cfg: Config, modules: string -> Option<set<string>>, resultsExist: bool, dataExists: bool)
    requires cfg.dataset == "locata" || cfg.dataset == "dcase"
    requires cfg.arrays.Some? && forall k :: 0 <= k < |cfg.arrays.value| ==> ParseArrayName(cfg.arrays.value[k]).Some?
    requires forall i :: 0 <= i < |cfg.tasks| ==> ValidTask(if cfg.dataset == "locata" then Locata else Dcase, cfg.tasks[i])
    ensures MainEval(cfg, modules, resultsExist, dataExists) == MainEvalIntended(cfg, modules, resultsExist, dataExists)
  {
    var d := if cfg.dataset == "locata" then Locata else Dcase;
    RejectedNone(cfg.tasks, x => ValidTask(d, x));
    RejectedNone(cfg.arrays.value, x => x in OptionsOf(d).validArrays);
  }
}
