/** How the evaluation script turns an algorithm path `module:name`, or a
    registered alias, into the module and the object to load. The import
    itself is a parameter: which modules exist and what they define. */
module DynamicImport {
  import opened Wrappers
  import opened Strings
  import opened PyDict

  /** The module to import and the attribute to fetch from it. */
  datatype Target = Target(moduleName: string, objName: string)

  /** The number of occurrences of `c` in `s`. */
  function Count(s: string, c: char): (n: nat)
    ensures n == 0 <==> c !in s
  {
    if |s| == 0 then 0
    else Count(s[..|s| - 1], c) + (if s[|s| - 1] == c then 1 else 0)
  }

  lemma {:induction false} CountConcat(a: string, b: string, c: char)
    ensures Count(a + b, c) == Count(a, c) + Count(b, c)
    decreases |b|
  {
    if |b| == 0 {
      assert a + b == a;
    } else {
      assert (a + b)[..|a + b| - 1] == a + b[..|b| - 1];
      assert (a + b)[|a + b| - 1] == b[|b| - 1];
      CountConcat(a, b[..|b| - 1], c);
    }
  }

  /** For a one-character pattern, `pat in s` is plain membership. */
  lemma ContainsChar(s: string, c: char)
    ensures Contains(s, [c]) <==> c in s
  {
    ContainsIff(s, [c]);
    if c in s {
      var i :| 0 <= i < |s| && s[i] == c;
      assert s[i..i + 1] == [c];
      assert OccursAt(s, [c], i);
    }
    if Contains(s, [c]) {
      var i: nat :| OccursAt(s, [c], i);
      assert s[i] == s[i..i + 1][0];
    }
  }

  /** Line 25: `module_name, objname = import_path.split(':')`; any number
      of pieces other than two fails the unpacking. */
  function SplitTarget(path: string): (r: Result<Target>)
    ensures r.Err? ==> r.failure == ValueError
    ensures r.Ok? ==> path == r.value.moduleName + ":" + r.value.objName
    ensures r.Ok? ==> ':' !in r.value.moduleName && ':' !in r.value.objName
  {
    var parts := Split(path, ":");
    if |parts| != 2 then Err(ValueError)
    else
      SplitJoin(path, ":");
      SplitPartsFree(path, ":");
      ContainsChar(parts[0], ':');
      ContainsChar(parts[1], ':');
      assert Join(parts, ":") == parts[0] + ":" + parts[1];
      Ok(Target(parts[0], parts[1]))
  }

  /** Joining a colon-free module name and object name with ':' and
      splitting again gives them back. */
  lemma SplitTargetOfJoin(m: string, o: string)
    requires ':' !in m && ':' !in o
    ensures SplitTarget(m + ":" + o) == Ok(Target(m, o))
  {
    var p := m + ":" + o;
    assert OccursAt(p, ":", |m|);
    forall j: nat | j < |m|
      ensures !OccursAt(p, ":", j)
    {
      assert p[j] == m[j];
    }
    assert FindFrom(p, ":", 0) == Some(|m|);
    assert p[..|m|] == m && p[|m| + |":"|..] == o;
    ContainsChar(o, ':');
    assert ":" == [':'];
    assert FindFrom(o, ":", 0).None?;
    assert Split(o, ":") == [o];
    assert Split(p, ":") == [m] + Split(o, ":");
  }

  /** The unpacking succeeds exactly when the path has one colon. */
  lemma SplitTargetOneColon(path: string)
    ensures SplitTarget(path).Ok? <==> Count(path, ':') == 1
  {
    var r := SplitTarget(path);
    if r.Ok? {
      CountConcat(r.value.moduleName + ":", r.value.objName, ':');
      CountConcat(r.value.moduleName, ":", ':');
    }
    if Count(path, ':') == 1 {
      var i :| 0 <= i < |path| && path[i] == ':';
      assert path == path[..i] + ":" + path[i + 1..];
      CountConcat(path[..i] + ":", path[i + 1..], ':');
      CountConcat(path[..i], ":", ':');
      SplitTargetOfJoin(path[..i], path[i + 1..]);
    }
  }

  /** Lines 17-25: a path without ':' must be an alias key and is replaced
      by the alias's value; a path with ':' is used as it is. */
  function Resolve(importPath: string, alias: seq<Entry<string, string>>): (r: Result<Target>)
    ensures r.Err? ==> r.failure == ValueError
    ensures ':' !in importPath && importPath !in Keys(alias) ==> r.Err?
  {
    if importPath !in Keys(alias) && ':' !in importPath then Err(ValueError)
    else if ':' !in importPath then SplitTarget(Get(alias, importPath).value)
    else SplitTarget(importPath)
  }

  /** A path with a colon resolves the same whatever the aliases say, even
      when it is itself an alias key. */
  lemma ResolveIgnoresAliasWithColon(importPath: string, alias: seq<Entry<string, string>>)
    requires ':' in importPath
    ensures Resolve(importPath, alias) == Resolve(importPath, [])
  {
  }

  /** An alias resolves as its value would with no aliases at all. */
  lemma ResolveThroughAlias(importPath: string, alias: seq<Entry<string, string>>)
    requires ':' !in importPath && importPath in Keys(alias)
    ensures Resolve(importPath, alias) == Resolve(Get(alias, importPath).value, [])
  {
    var v := Get(alias, importPath).value;
    if ':' !in v {
      SplitTargetOneColon(v);
    }
  }

  /** With the default empty alias a path resolves exactly when it holds one
      colon, and then into the text around it. */
  lemma DefaultAliasNeedsOneColon(importPath: string)
    ensures Resolve(importPath, []).Ok? <==> Count(importPath, ':') == 1
    ensures Resolve(importPath, []).Ok? ==>
      importPath == Resolve(importPath, []).value.moduleName + ":" + Resolve(importPath, []).value.objName
  {
    SplitTargetOneColon(importPath);
  }

  /** Lines 9-31: resolve, import, fetch. A module that fails to import is
      reported through `log` and ends the run with status 1; with the
      default `log=None` the report itself fails, `None.error` raising
      AttributeError. A missing attribute raises AttributeError. */
  function Import(importPath: string, alias: seq<Entry<string, string>>, logGiven: bool, modules: string -> Option<set<string>>): (r: Result<Target>)
    ensures Resolve(importPath, alias).Err? ==> r == Resolve(importPath, alias)
    ensures Resolve(importPath, alias).Ok? && modules(Resolve(importPath, alias).value.moduleName).None? ==>
      r == Err(if logGiven then Exit(1) else AttributeError)
    ensures r.Err? ==> r.failure in {ValueError, Exit(1), AttributeError}
    ensures r.Err? && r.failure == Exit(1) ==> logGiven
    ensures r.Ok? <==> (
      && Resolve(importPath, alias).Ok?
      && var t := Resolve(importPath, alias).value;
      modules(t.moduleName).Some? && t.objName in modules(t.moduleName).value)
    ensures r.Ok? ==> Resolve(importPath, alias) == r
  {
    var t :- Resolve(importPath, alias);
    match modules(t.moduleName)
    case None => Err(if logGiven then Exit(1) else AttributeError)
    case Some(names) => if t.objName in names then Ok(t) else Err(AttributeError)
  }
}
