/** The Python `str` operations the wrapper uses to derive names and paths:
    `in`, `split`, `replace`, `os.path.basename`, `int()` and decimal formatting. */
module Strings {
  import opened Wrappers

  /** `pat` occurs in `s` starting at position `i`. */
  predicate OccursAt(s: string, pat: string, i: nat)
  {
    i + |pat| <= |s| && s[i..i + |pat|] == pat
  }

  /** `s.find(pat, from)`: the first occurrence at or after `from`. */
  function FindFrom(s: string, pat: string, from: nat): (r: Option<nat>)
    ensures r.Some? ==> from <= r.value && OccursAt(s, pat, r.value)
    ensures r.Some? ==> forall j :: from <= j < r.value ==> !OccursAt(s, pat, j)
    ensures r.None? ==> forall j: nat :: from <= j ==> !OccursAt(s, pat, j)
    decreases |s| - from
  {
    if from + |pat| > |s| then None
    else if s[from..from + |pat|] == pat then Some(from)
    else FindFrom(s, pat, from + 1)
  }

  /** Python's `pat in s`. */
  predicate Contains(s: string, pat: string)
  {
    FindFrom(s, pat, 0).Some?
  }

  lemma ContainsIff(s: string, pat: string)
    ensures Contains(s, pat) <==> exists i: nat :: OccursAt(s, pat, i)
  {
  }

  /** Searching a suffix finds what searching the whole string from the
      suffix's start finds, shifted by the suffix's start. */
  lemma FindFromSuffix(s: string, pat: string, off: nat)
    requires off <= |s|
    ensures FindFrom(s, pat, off) ==
      match FindFrom(s[off..], pat, 0)
      case None => None
      case Some(k) => Some(off + k)
  {
    var t := s[off..];
    forall j: nat
      ensures OccursAt(t, pat, j) <==> OccursAt(s, pat, off + j)
    {
      if j + |pat| <= |t| {
        assert t[j..j + |pat|] == s[off + j..off + j + |pat|];
      }
    }
    var a := FindFrom(s, pat, off);
    match FindFrom(t, pat, 0)
    case None =>
      forall j: nat | off <= j
        ensures !OccursAt(s, pat, j)
      {
        assert OccursAt(t, pat, j - off) <==> OccursAt(s, pat, j);
      }
    case Some(k) =>
      assert OccursAt(s, pat, off + k);
      if a.Some? {
        assert OccursAt(t, pat, a.value - off);
        assert !(a.value < off + k) && !(off + k < a.value);
      }
  }

  /** `s.split(sep)` for a non-empty separator (Python rejects an empty one). */
  function Split(s: string, sep: string): (parts: seq<string>)
    requires |sep| > 0
    ensures |parts| >= 1
    decreases |s|
  {
    match FindFrom(s, sep, 0)
    case None => [s]
    case Some(i) => [s[..i]] + Split(s[i + |sep|..], sep)
  }

  /** Where the text from `from` on ends: at the next `pat`, or at the end. */
  function FindOrEnd(s: string, pat: string, from: nat): (j: nat)
    requires from <= |s|
    ensures from <= j <= |s|
  {
    match FindFrom(s, pat, from)
    case None => |s|
    case Some(j) => j
  }

  /** `s.split(sep)[1]` exists exactly when `sep` occurs in `s`, and is the
      text from the end of the first occurrence to the next one, or to the
      end. */
  lemma SplitSecond(s: string, sep: string)
    requires |sep| > 0
    ensures |Split(s, sep)| >= 2 <==> Contains(s, sep)
    ensures Contains(s, sep) ==>
      var i := FindFrom(s, sep, 0).value;
      Split(s, sep)[1] == s[i + |sep|..FindOrEnd(s, sep, i + |sep|)]
  {
    match FindFrom(s, sep, 0)
    case None =>
    case Some(i) =>
      var from := i + |sep|;
      var rest := s[from..];
      assert Split(s, sep) == [s[..i]] + Split(rest, sep);
      SplitHead(rest, sep);
      FindOrEndSuffix(s, sep, from);
      assert rest[..FindOrEnd(rest, sep, 0)] == s[from..FindOrEnd(s, sep, from)];
  }

  /** The first piece of a split runs up to the first separator, or to the end. */
  lemma SplitHead(s: string, sep: string)
    requires |sep| > 0
    ensures Split(s, sep)[0] == s[..FindOrEnd(s, sep, 0)]
  {
  }

  lemma FindOrEndSuffix(s: string, pat: string, off: nat)
    requires off <= |s|
    ensures FindOrEnd(s, pat, off) == off + FindOrEnd(s[off..], pat, 0)
  {
    FindFromSuffix(s, pat, off);
  }

  /** `sep.join(parts)`. */
  function Join(parts: seq<string>, sep: string): string
  {
    if |parts| == 0 then ""
    else if |parts| == 1 then parts[0]
    else parts[0] + sep + Join(parts[1..], sep)
  }

  /** Joining the pieces of a split with the same separator gives back the string. */
  lemma {:induction false} SplitJoin(s: string, sep: string)
    requires |sep| > 0
    ensures Join(Split(s, sep), sep) == s
    decreases |s|
  {
    match FindFrom(s, sep, 0)
    case None =>
    case Some(i) =>
      var rest := s[i + |sep|..];
      SplitJoin(rest, sep);
      JoinCons(s[..i], Split(rest, sep), sep);
      AroundOccurrence(s, sep, i);
  }

  lemma JoinCons(head: string, tail: seq<string>, sep: string)
    requires |tail| >= 1
    ensures Join([head] + tail, sep) == head + sep + Join(tail, sep)
  {
    assert ([head] + tail)[1..] == tail;
  }

  lemma AroundOccurrence(s: string, pat: string, i: nat)
    requires OccursAt(s, pat, i)
    ensures s == s[..i] + pat + s[i + |pat|..]
  {
    assert s == s[..i] + s[i..i + |pat|] + s[i + |pat|..];
  }

  /** No piece of a split contains the separator. */
  lemma {:induction false} SplitPartsFree(s: string, sep: string)
    requires |sep| > 0
    ensures forall k :: 0 <= k < |Split(s, sep)| ==> !Contains(Split(s, sep)[k], sep)
    decreases |s|
  {
    match FindFrom(s, sep, 0)
    case None =>
      NoOccurrenceNotContains(s, sep);
    case Some(i) =>
      SplitPartsFree(s[i + |sep|..], sep);
      var head := s[..i];
      forall j: nat | OccursAt(head, sep, j)
        ensures false
      {
        assert head[j..j + |sep|] == s[j..j + |sep|];
        assert OccursAt(s, sep, j);
      }
      NoOccurrenceNotContains(head, sep);
  }

  lemma NoOccurrenceNotContains(s: string, pat: string)
    requires forall j: nat :: !OccursAt(s, pat, j)
    ensures !Contains(s, pat)
  {
  }

  /** Python's `s.replace(target, repl)`: every non-overlapping occurrence of `target`,
      scanned left to right, becomes `repl`; an empty `target` inserts `repl` before
      every character and at the end. */
  function Replace(s: string, target: string, repl: string): string
  {
    if |target| == 0 then InsertEverywhere(s, repl)
    else Join(Split(s, target), repl)
  }

  function InsertEverywhere(s: string, repl: string): string
  {
    if |s| == 0 then repl else repl + [s[0]] + InsertEverywhere(s[1..], repl)
  }

  /** A replacement that cannot find `target` changes nothing, and replacing a
      pattern by itself is the identity. */
  lemma ReplaceIdentity(s: string, target: string, repl: string)
    requires |target| > 0
    requires !Contains(s, target) || repl == target
    ensures Replace(s, target, repl) == s
  {
    if repl == target {
      SplitJoin(s, target);
    } else {
      assert Split(s, target) == [s];
    }
  }

  /** Replacing by the empty string removes every piece equal to `target`: what is
      left is the concatenation of the pieces of the split. */
  lemma ReplaceByEmptyConcatenates(s: string, target: string)
    requires |target| > 0
    ensures Replace(s, target, "") == Concat(Split(s, target))
  {
    JoinEmpty(Split(s, target));
  }

  function Concat(parts: seq<string>): string
  {
    if |parts| == 0 then "" else parts[0] + Concat(parts[1..])
  }

  lemma {:induction false} JoinEmpty(parts: seq<string>)
    ensures Join(parts, "") == Concat(parts)
  {
    if |parts| > 1 {
      JoinEmpty(parts[1..]);
    }
  }

  /** Replacing a pattern that opens the string, and nowhere else occurs,
      swaps just that opening. */
  lemma ReplaceLeading(t: string, rest: string, repl: string)
    requires |t| > 0 && !Contains(rest, t)
    ensures Replace(t + rest, t, repl) == repl + rest
  {
    var s := t + rest;
    assert s[0..|t|] == t;
    assert s[|t|..] == rest;
    assert Split(rest, t) == [rest];
    assert Split(s, t) == [""] + [rest];
    var parts := [""] + [rest];
    assert parts[1..] == [rest];
    assert Join(parts, repl) == "" + repl + rest;
  }

  /** Replacing a pattern that closes the string, and occurs nowhere before,
      swaps just that ending. */
  lemma ReplaceTrailing(front: string, t: string, repl: string)
    requires |t| > 0
    requires forall j: nat :: j < |front| ==> !OccursAt(front + t, t, j)
    ensures Replace(front + t, t, repl) == front + repl
  {
    var s := front + t;
    assert OccursAt(s, t, |front|) by {
      assert s[|front|..|front| + |t|] == t;
    }
    var r := FindFrom(s, t, 0);
    assert r == Some(|front|);
    assert s[..|front|] == front;
    assert s[|front| + |t|..] == "";
    assert Split("", t) == [""];
    var parts := [front] + [""];
    assert Split(s, t) == parts;
    assert parts[1..] == [""];
    assert Join(parts, repl) == front + repl + "";
  }

  /** `os.path.basename`: the text after the last '/'. */
  function Basename(p: string): (r: string)
    ensures '/' !in r
    ensures |r| <= |p| && p[|p| - |r|..] == r
    ensures |r| < |p| ==> p[|p| - |r| - 1] == '/'
  {
    if '/' !in p then p
    else
      var i :| 0 <= i < |p| && p[i] == '/';
      BasenameAfter(p, i)
  }

  function BasenameAfter(p: string, i: nat): (r: string)
    requires i < |p| && p[i] == '/'
    ensures '/' !in r
    ensures |r| < |p| && p[|p| - |r|..] == r && p[|p| - |r| - 1] == '/'
    decreases |p| - i
  {
    var tail := p[i + 1..];
    if '/' !in tail then tail
    else
      var j :| 0 <= j < |tail| && tail[j] == '/';
      BasenameAfter(p, i + 1 + j)
  }

  /** The base name of `dir/file` is `file`. */
  lemma BasenameOfJoin(dir: string, file: string)
    requires '/' !in file
    ensures Basename(dir + "/" + file) == file
  {
    var p := dir + "/" + file;
    assert p[|dir|] == '/';
    assert p[|p| - |file|..] == file;
  }

  // ---------------------------------------------------------------- numbers

  predicate IsDigit(c: char) { '0' <= c <= '9' }

  function DigitValue(c: char): nat
    requires IsDigit(c)
  {
    (c as int - '0' as int) as nat
  }

  function DigitChar(d: nat): (c: char)
    requires d < 10
    ensures IsDigit(c) && DigitValue(c) == d
  {
    ('0' as int + d) as char
  }

  /** Value of a non-empty run of decimal digits. */
  function DigitsValue(ds: string): nat
    requires forall k :: 0 <= k < |ds| ==> IsDigit(ds[k])
  {
    if |ds| == 0 then 0 else DigitsValue(ds[..|ds| - 1]) * 10 + DigitValue(ds[|ds| - 1])
  }

  /** `str(n)` / `'{}'.format(n)` for a natural number. */
  function NatToString(n: nat): (s: string)
    ensures |s| >= 1
    ensures forall k :: 0 <= k < |s| ==> IsDigit(s[k])
    ensures |s| > 1 ==> s[0] != '0'
  {
    if n < 10 then [DigitChar(n)] else NatToString(n / 10) + [DigitChar(n % 10)]
  }

  /** `int(s)` for an optional sign followed by decimal digits; anything else
      raises ValueError. */
  function ParseInt(s: string): (r: Result<int>)
    ensures r.Ok? ==> |s| > 0
    ensures r.Err? ==> r.failure == ValueError
    ensures (exists k :: 1 <= k < |s| && !IsDigit(s[k])) ==> r == Err(ValueError)
    ensures |s| > 0 && (forall k :: 0 <= k < |s| ==> IsDigit(s[k])) ==> r == Ok(DigitsValue(s) as int)
  {
    if |s| > 0 && (s[0] == '-' || s[0] == '+') then
      var body := s[1..];
      if |body| > 0 && forall k :: 0 <= k < |body| ==> IsDigit(body[k]) then
        Ok(if s[0] == '-' then -(DigitsValue(body) as int) else DigitsValue(body) as int)
      else Err(ValueError)
    else if |s| > 0 && forall k :: 0 <= k < |s| ==> IsDigit(s[k]) then Ok(DigitsValue(s) as int)
    else Err(ValueError)
  }

  /** Formatting a natural number and parsing it back is the identity. */
  lemma {:induction false} NatToStringValue(n: nat)
    ensures DigitsValue(NatToString(n)) == n
  {
    if n >= 10 {
      NatToStringValue(n / 10);
      var s := NatToString(n);
      assert s[..|s| - 1] == NatToString(n / 10);
    }
  }

  lemma ParseIntNatToString(n: nat)
    ensures ParseInt(NatToString(n)) == Ok(n)
  {
    NatToStringValue(n);
  }

  /** Distinct numbers format to distinct strings. */
  lemma NatToStringInjective(m: nat, n: nat)
    requires NatToString(m) == NatToString(n)
    ensures m == n
  {
    NatToStringValue(m);
    NatToStringValue(n);
  }
}
