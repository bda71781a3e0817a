/** Shell-like helpers that act on the current process: `overload_chars`,
    which fills a module namespace with one-letter strings, `cd` and `export`,
    which change the working directory and the environment and can undo the
    change, and the parsing and diffing half of `source`. */
module Misc {

  import opened Wrappers
  import opened PyValues
  import opened PyText

  // ---------------------------------------------------------------------
  // overload_chars

  /** `string.ascii_letters`. */
  const AsciiLetters: string := "abcdefghijklmnopqrstuvwxyzABCDEFGHIJKLMNOPQRSTUVWXYZ"

  /** A module namespace (what `locals()` returns), written in place. */
  class Namespace {
    var entries: map<string, PyValue>

    constructor (entries: map<string, PyValue>)
      ensures this.entries == entries
    {
      this.entries := entries;
    }
  }

  /** The namespace after each character of `letters`, in order, that is not
      yet a name in it has been bound to the one-character string itself. */
  function Overloaded(entries: map<string, PyValue>, letters: string): map<string, PyValue>
  {
    if letters == [] then entries
    else
      var m := Overloaded(entries, letters[..|letters| - 1]);
      var c := [letters[|letters| - 1]];
      if c in m then m else m[c := Str(c)]
  }

  /** Every one-character name drawn from `letters` is bound afterwards; a
      name that was already bound keeps its value, a new one is bound to its
      own text, and no other name appears. */
  lemma {:induction false} OverloadedEntries(entries: map<string, PyValue>, letters: string)
    ensures forall k :: k in Overloaded(entries, letters) <==> k in entries || (|k| == 1 && k[0] in letters)
    ensures forall k | k in entries :: Overloaded(entries, letters)[k] == entries[k]
    ensures forall k | k in Overloaded(entries, letters) && k !in entries :: Overloaded(entries, letters)[k] == Str(k)
  {
    if letters != [] {
      var init := letters[..|letters| - 1];
      var c := [letters[|letters| - 1]];
      OverloadedEntries(entries, init);
      assert forall k :: (|k| == 1 && k[0] in letters) <==> ((|k| == 1 && k[0] in init) || k == c) by {
        assert letters == init + [letters[|letters| - 1]];
      }
    }
  }

  /** `overload_chars(locals_)`: walks the ASCII letters and binds each one
      that is not yet a name. */
  method OverloadChars(ns: Namespace)
    modifies ns
    ensures ns.entries == Overloaded(old(ns.entries), AsciiLetters)
  {
    for i := 0 to |AsciiLetters|
      invariant ns.entries == Overloaded(old(ns.entries), AsciiLetters[..i])
    {
      var c := [AsciiLetters[i]];
      assert AsciiLetters[..i + 1][..i] == AsciiLetters[..i];
      if c in ns.entries {
        continue;
      }
      ns.entries := ns.entries[c := Str(c)];
    }
    assert AsciiLetters[..|AsciiLetters|] == AsciiLetters;
  }

  // ---------------------------------------------------------------------
  // Environment maps and ordered dictionaries

  /** `os.environ`. */
  type Env = map<string, string>

  /** A Python `dict` of strings, in insertion order (keyword arguments, the
      `env` dict `source` builds). */
  type Pairs = seq<(string, string)>

  function Lookup(m: Env, k: string): Option<string> {
    if k in m then Some(m[k]) else None
  }

  /** Two environments that agree on every name are equal. */
  lemma LookupExtensional(a: Env, b: Env)
    requires forall k :: Lookup(a, k) == Lookup(b, k)
    ensures a == b
  {
    forall k ensures k in a <==> k in b {
      assert Lookup(a, k) == Lookup(b, k);
    }
    forall k | k in a ensures a[k] == b[k] {
      assert Lookup(a, k) == Lookup(b, k);
    }
  }

  /** A dict never holds the same key twice. */
  predicate DistinctKeys(d: Pairs) {
    forall i, j | 0 <= i < j < |d| :: d[i].0 != d[j].0
  }

  /** `d.get(k)`. */
  function Get(d: Pairs, k: string): (r: Option<string>)
    ensures r == None <==> forall i | 0 <= i < |d| :: d[i].0 != k
  {
    if d == [] then None
    else if d[0].0 == k then Some(d[0].1)
    else
      assert forall i | 1 <= i < |d| :: d[i] == d[1..][i - 1];
      Get(d[1..], k)
  }

  /** `d[k] = v`: an existing key keeps its place, a new one goes last. */
  function Put(d: Pairs, k: string, v: string): (r: Pairs)
    ensures Get(r, k) == Some(v)
    ensures forall x | x != k :: Get(r, x) == Get(d, x)
    ensures DistinctKeys(d) ==> DistinctKeys(r)
  {
    if d == [] then [(k, v)]
    else if d[0].0 == k then [(k, v)] + d[1..]
    else
      var r := [d[0]] + Put(d[1..], k, v);
      assert DistinctKeys(d) ==> Get(d[1..], d[0].0) == None;
      r
  }

  /** Looking a key up in a dict with one more entry at the end. */
  lemma GetAppend(d: Pairs, p: (string, string), x: string)
    ensures Get(d + [p], x) == if Get(d, x).Some? then Get(d, x) else if p.0 == x then Some(p.1) else None
  {
    if d != [] {
      assert (d + [p])[1..] == d[1..] + [p];
      GetAppend(d[1..], p, x);
    }
  }

  /** In a dict, each entry is what a lookup of its key returns. */
  lemma GetAt(d: Pairs, i: nat)
    requires DistinctKeys(d) && i < |d|
    ensures Get(d, d[i].0) == Some(d[i].1)
  {
    if i > 0 {
      GetAt(d[1..], i - 1);
    }
  }

  /** `environ.update(kw)`. */
  function Updated(environ: Env, kw: Pairs): Env
    decreases kw
  {
    if kw == [] then environ else Updated(environ[kw[0].0 := kw[0].1], kw[1..])
  }

  /** After `environ.update(kw)`, a name given in `kw` has the given value and
      every other name is as before. */
  lemma {:induction false} UpdatedAt(environ: Env, kw: Pairs)
    requires DistinctKeys(kw)
    ensures forall x :: Lookup(Updated(environ, kw), x) == if Get(kw, x).Some? then Get(kw, x) else Lookup(environ, x)
    decreases kw
  {
    if kw != [] {
      var (k, v) := kw[0];
      UpdatedAt(environ[k := v], kw[1..]);
      assert Get(kw[1..], k) == None;
    }
  }

  // ---------------------------------------------------------------------
  // The process: its environment and working directory

  /** The state of the running process that `cd` and `export` change. The
      file system is represented by `resolve`: the absolute directory that a
      path names from a working directory, or `None` when it does not exist. */
  class ProcessState {
    var environ: Env
    var cwd: string
    const resolve: (string, string) -> Option<string>

    constructor (environ: Env, cwd: string, resolve: (string, string) -> Option<string>)
      ensures this.environ == environ && this.cwd == cwd && this.resolve == resolve
    {
      this.environ := environ;
      this.cwd := cwd;
      this.resolve := resolve;
    }

    /** `os.chdir(path)`: fails when the path names no directory. */
    method Chdir(path: string) returns (raised: Option<PyError>)
      modifies this
      ensures environ == old(environ)
      ensures resolve(old(cwd), path).Some? ==> cwd == resolve(old(cwd), path).value && raised == None
      ensures resolve(old(cwd), path).None? ==> cwd == old(cwd) && raised == Some(OSError)
    {
      match resolve(cwd, path)
      case Some(dir) =>
        cwd := dir;
        raised := None;
      case None =>
        raised := Some(OSError);
    }
  }

  // ---------------------------------------------------------------------
  // cd

  /** A `cd` object: remembers the directory to return to. */
  class Cd {
    const previousDir: string

    constructor (previousDir: string)
      ensures this.previousDir == previousDir
    {
      this.previousDir := previousDir;
    }

    /** `__exit__`: changes back to the remembered directory. */
    method Exit(state: ProcessState) returns (raised: Option<PyError>)
      modifies state
      ensures state.environ == old(state.environ)
      ensures state.resolve(old(state.cwd), previousDir).Some? ==>
        state.cwd == state.resolve(old(state.cwd), previousDir).value && raised == None
      ensures state.resolve(old(state.cwd), previousDir) == Some(previousDir) ==> state.cwd == previousDir && raised == None
      ensures state.resolve(old(state.cwd), previousDir).None? ==> state.cwd == old(state.cwd) && raised == Some(OSError)
    {
      raised := state.Chdir(previousDir);
    }
  }

  /** `cd(path)`: records the current (absolute) directory, then changes to
      `path`; when that fails the exception leaves the constructor and no
      `cd` object exists. */
  method NewCd(state: ProcessState, path: string) returns (r: Result<Cd, PyError>)
    modifies state
    ensures state.environ == old(state.environ)
    ensures r.Ok? <==> state.resolve(old(state.cwd), path).Some?
    ensures r.Ok? ==> fresh(r.value) && r.value.previousDir == old(state.cwd)
                      && state.cwd == state.resolve(old(state.cwd), path).value
    ensures r.Err? ==> r.error == OSError && state.cwd == old(state.cwd)
  {
    var previous := state.cwd;
    var raised := state.Chdir(path);
    if raised.Some? {
      return Err(raised.value);
    }
    var c := new Cd(previous);
    return Ok(c);
  }

  // ---------------------------------------------------------------------
  // export

  /** What `export.__exit__` does to the environment, key by key in the order
      the keywords were given: a name whose value is no longer the exported
      one is skipped, otherwise its previous value comes back or, when it had
      none, it is deleted. A name that has disappeared raises `KeyError` and
      stops the walk. */
  function Restore(environ: Env, previous: Env, kw: Pairs): (Env, Option<PyError>)
    decreases kw
  {
    if kw == [] then (environ, None)
    else
      var (key, value) := kw[0];
      if key !in environ then (environ, Some(KeyError(key)))
      else
        var next :=
          if environ[key] != value then environ
          else if key in previous then environ[key := previous[key]]
          else environ - {key};
        Restore(next, previous, kw[1..])
  }

  /** When every exported name is still set, leaving `export` raises nothing;
      a name that still has its exported value gets its previous value back
      (or is gone if it had none), and every other name keeps its current value. */
  lemma {:induction false} RestoreAt(environ: Env, previous: Env, kw: Pairs)
    requires DistinctKeys(kw)
    requires forall i | 0 <= i < |kw| :: kw[i].0 in environ
    ensures Restore(environ, previous, kw).1 == None
    ensures forall x :: Lookup(Restore(environ, previous, kw).0, x) == (if Get(kw, x).Some? && Lookup(environ, x) == Get(kw, x) then Lookup(previous, x) else Lookup(environ, x))
    decreases kw
  {
    if kw != [] {
      var (key, value) := kw[0];
      var next :=
        if environ[key] != value then environ
        else if key in previous then environ[key := previous[key]]
        else environ - {key};
      assert forall i | 0 <= i < |kw[1..]| :: kw[1..][i].0 in next by {
        forall i | 0 <= i < |kw[1..]| ensures kw[1..][i].0 in next {
          assert kw[1..][i] == kw[i + 1];
        }
      }
      RestoreAt(next, previous, kw[1..]);
      assert Get(kw[1..], key) == None;
    }
  }

  /** Leaving `export` raises `KeyError` exactly when one of the exported
      names is no longer set. */
  lemma {:induction false} RestoreError(environ: Env, previous: Env, kw: Pairs)
    requires DistinctKeys(kw)
    ensures Restore(environ, previous, kw).1.Some? <==> exists i | 0 <= i < |kw| :: kw[i].0 !in environ
    decreases kw
  {
    if kw != [] {
      var (key, value) := kw[0];
      if key in environ {
        var next :=
          if environ[key] != value then environ
          else if key in previous then environ[key := previous[key]]
          else environ - {key};
        RestoreError(next, previous, kw[1..]);
        forall i | 1 <= i < |kw| ensures kw[i].0 in next <==> kw[i].0 in environ {
          assert kw[i].0 != key;
        }
        if exists i | 0 <= i < |kw| :: kw[i].0 !in environ {
          var i :| 0 <= i < |kw| && kw[i].0 !in environ;
          assert kw[1..][i - 1] == kw[i];
        }
        if exists i | 0 <= i < |kw[1..]| :: kw[1..][i].0 !in next {
          var i :| 0 <= i < |kw[1..]| && kw[1..][i].0 !in next;
          assert kw[i + 1] == kw[1..][i];
        }
      }
    }
  }

  /** `with export(**kw): ...` with nothing changed inside the block leaves
      the environment exactly as it was before. */
  lemma ExportRoundTrip(environ: Env, kw: Pairs)
    requires DistinctKeys(kw)
    ensures Restore(Updated(environ, kw), environ, kw) == (environ, None)
  {
    var inside := Updated(environ, kw);
    UpdatedAt(environ, kw);
    forall i | 0 <= i < |kw| ensures kw[i].0 in inside {
      GetAt(kw, i);
      assert Lookup(inside, kw[i].0).Some?;
    }
    RestoreAt(inside, environ, kw);
    LookupExtensional(Restore(inside, environ, kw).0, environ);
  }

  /** An `export` object: the environment before it and the exported names. */
  class Export {
    const previousEnv: Env
    const kwargs: Pairs

    /** `export(**kwargs)`: snapshots the environment, then updates it. */
    constructor (state: ProcessState, kwargs: Pairs)
      modifies state
      ensures previousEnv == old(state.environ) && this.kwargs == kwargs
      ensures state.environ == Updated(old(state.environ), kwargs)
      ensures state.cwd == old(state.cwd)
    {
      previousEnv := state.environ;
      this.kwargs := kwargs;
      new;
      state.environ := Updated(state.environ, kwargs);
    }

    /** `__exit__`: the loop over the exported names. */
    method Exit(state: ProcessState) returns (raised: Option<PyError>)
      modifies state
      ensures (state.environ, raised) == Restore(old(state.environ), previousEnv, kwargs)
      ensures state.cwd == old(state.cwd)
    {
      for i := 0 to |kwargs|
        invariant Restore(state.environ, previousEnv, kwargs[i..]) == Restore(old(state.environ), previousEnv, kwargs)
        invariant state.cwd == old(state.cwd)
      {
        var (key, value) := kwargs[i];
        assert kwargs[i..][1..] == kwargs[i + 1..];
        if key !in state.environ {
          return Some(KeyError(key));
        }
        if state.environ[key] != value {
          // changed inside the block: left alone
        } else if key in previousEnv {
          state.environ := state.environ[key := previousEnv[key]];
        } else {
          state.environ := state.environ - {key};
        }
      }
      return None;
    }
  }

  // ---------------------------------------------------------------------
  // source: the `declare -x` lines and the environment diff

  const DeclarePrefix: string := "declare -x "

  predicate IsEquals(c: char) {
    c == '='
  }

  /** The line `declare -x KEY="VALUE"` that bash prints for an exported name. */
  function DeclareLine(key: string, value: string): string {
    DeclarePrefix + key + "=\"" + value + "\""
  }

  /** A name and value the pattern `^declare -x ([^=]+)="(.*)"$` can capture:
      the name is non-empty and has no `=`, and `.` matches anything but a
      newline. */
  predicate Declarable(key: string, value: string) {
    key != [] && '=' !in key && '\n' !in value
  }

  /** `re.search(r'^declare -x ([^=]+)="(.*)"$', line.strip())` and its two
      groups. The name runs up to the first `=`; the value is everything
      between the `="` after it and the final `"`. */
  function ParseDeclare(line: string): Option<(string, string)> {
    var s := Strip(line, CharIsSpace);
    var n := |DeclarePrefix|;
    if |s| < n || s[..n] != DeclarePrefix then None
    else
      var rest := s[n..];
      var k := RunLen(rest, IsEquals);
      if k == 0 || |rest| < k + 3 || rest[k + 1] != '"' || rest[|rest| - 1] != '"' then None
      else
        var value := rest[k + 2..|rest| - 1];
        if '\n' in value then None else Some((rest[..k], value))
  }

  /** A parsed line is, once stripped, exactly the `declare -x` line of what
      it yields. */
  lemma ParseDeclareSound(line: string)
    requires ParseDeclare(line).Some?
    ensures var (key, value) := ParseDeclare(line).value;
      Declarable(key, value) && Strip(line, CharIsSpace) == DeclareLine(key, value)
  {
    var s := Strip(line, CharIsSpace);
    var n := |DeclarePrefix|;
    var rest := s[n..];
    var k := RunLen(rest, IsEquals);
    var key, value := rest[..k], rest[k + 2..|rest| - 1];
    assert ParseDeclare(line) == Some((key, value));
    assert '=' !in key;
    AssignmentShape(rest, k);
    assert s == DeclarePrefix + rest;
  }

  /** The part after the prefix, when it parses, is the name, `="`, the
      value and `"`. */
  lemma AssignmentShape(rest: string, k: nat)
    requires |rest| >= k + 3 && rest[k] == '=' && rest[k + 1] == '"' && rest[|rest| - 1] == '"'
    ensures rest == rest[..k] + "=\"" + rest[k + 2..|rest| - 1] + "\""
  {
    var t := rest[..k] + "=\"" + rest[k + 2..|rest| - 1] + "\"";
    assert |t| == |rest|;
    forall i | 0 <= i < |rest| ensures t[i] == rest[i] {
      if i < k {
        assert t[i] == rest[..k][i];
      } else if i == k {
        assert t[i] == '=';
      } else if i == k + 1 {
        assert t[i] == '"';
      } else if i < |rest| - 1 {
        assert t[i] == rest[k + 2..|rest| - 1][i - k - 2];
      } else {
        assert t[i] == '"';
      }
    }
  }

  /** Every `declare -x` line of a name and value the pattern can capture,
      with any surrounding whitespace, parses back to that name and value. */
  lemma ParseDeclareComplete(line: string, key: string, value: string)
    requires Declarable(key, value) && Strip(line, CharIsSpace) == DeclareLine(key, value)
    ensures ParseDeclare(line) == Some((key, value))
  {
    var s := DeclareLine(key, value);
    var n := |DeclarePrefix|;
    assert s[..n] == DeclarePrefix;
    var rest := s[n..];
    assert rest == key + "=\"" + value + "\"";
    var k := RunLen(rest, IsEquals);
    assert rest[|key|] == '=';
    assert k == |key| by {
      assert forall i | 0 <= i < |key| :: rest[i] == key[i];
    }
    assert |rest| == k + 3 + |value|;
    assert rest[k + 1] == '"';
    assert rest[|rest| - 1] == '"';
    assert rest[..k] == key;
    assert rest[k + 2..|rest| - 1] == value;
  }

  /** `export KEY="VALUE"` in a sourced file shows up as a line that parses
      back to the same name and value. */
  lemma DeclareRoundTrip(key: string, value: string)
    requires Declarable(key, value)
    ensures ParseDeclare(DeclareLine(key, value)) == Some((key, value))
  {
    var s := DeclareLine(key, value);
    StripUnchanged(s, CharIsSpace);
    ParseDeclareComplete(s, key, value);
  }

  /** What running `source FILE && declare -x` in the shell gives back:
      whether it succeeded, and the lines of its output. The shell itself is
      not part of this model. */
  datatype ShellRun = ShellRun(ok: bool, lines: seq<string>)

  /** `reversed(s)`. */
  function Reversed<T>(s: seq<T>): (r: seq<T>)
    ensures |r| == |s|
  {
    if s == [] then [] else Reversed(s[1..]) + [s[0]]
  }

  /** Whether the loop reads a run's output. A failed run is skipped when
      `quiet`. Otherwise `result.raise_for_returncode()` is called: the
      `PipePy` class has no such method, so attribute access builds the
      command `bash raise_for_returncode`, the call runs it and returns, and
      the failed run's output is read like any other. */
  predicate Sourced(run: ShellRun, quiet: bool) {
    run.ok || !quiet
  }

  /** A declaration is recorded when its value is not what the environment
      already holds. */
  predicate Records(environ: Env, key: string, value: string) {
    Lookup(environ, key) != Some(value)
  }

  /** The inner loop of `source` over one output's lines, starting from the
      dict `env`: every parsed declaration that `Records` accepts is stored. */
  function CollectLines(environ: Env, env: Pairs, lines: seq<string>): Pairs {
    if lines == [] then env
    else
      var before := CollectLines(environ, env, lines[..|lines| - 1]);
      match ParseDeclare(lines[|lines| - 1])
      case None => before
      case Some((key, value)) =>
        if Records(environ, key, value) then Put(before, key, value) else before
  }

  /** The outer loop over the shell outputs, in the order the files are
      sourced: the output of every run that is `Sourced` is read into the
      dict. */
  function Collect(environ: Env, runs: seq<ShellRun>, quiet: bool): Pairs {
    if runs == [] then []
    else
      var env := Collect(environ, runs[..|runs| - 1], quiet);
      var run := runs[|runs| - 1];
      if Sourced(run, quiet) then CollectLines(environ, env, run.lines) else env
  }

  /** The value of the last line of `lines` that declares `x` and that
      `Records` accepts. */
  function LastIn(environ: Env, lines: seq<string>, x: string): Option<string> {
    if lines == [] then None
    else
      var p := ParseDeclare(lines[|lines| - 1]);
      if p.Some? && p.value.0 == x && Records(environ, x, p.value.1) then Some(p.value.1)
      else LastIn(environ, lines[..|lines| - 1], x)
  }

  /** The value of the last accepted declaration of `x` over the outputs
      that are read, in sourcing order. */
  function LastInRuns(environ: Env, runs: seq<ShellRun>, x: string, quiet: bool): Option<string> {
    if runs == [] then None
    else
      var run := runs[|runs| - 1];
      var found := if Sourced(run, quiet) then LastIn(environ, run.lines, x) else None;
      if found.Some? then found else LastInRuns(environ, runs[..|runs| - 1], x, quiet)
  }

  /** The dict built from one output holds, for each name, its last accepted
      declaration there, or what it held before when there is none; it stays
      a dict. */
  lemma {:induction false} CollectLinesAt(environ: Env, env: Pairs, lines: seq<string>)
    requires DistinctKeys(env)
    ensures DistinctKeys(CollectLines(environ, env, lines))
    ensures forall x :: Get(CollectLines(environ, env, lines), x) == (if LastIn(environ, lines, x).Some? then LastIn(environ, lines, x) else Get(env, x))
  {
    if lines != [] {
      CollectLinesAt(environ, env, lines[..|lines| - 1]);
    }
  }

  /** The dict `Collect` builds holds for each name exactly its last
      accepted declaration over the outputs read. */
  lemma {:induction false} CollectAt(environ: Env, runs: seq<ShellRun>, quiet: bool)
    ensures DistinctKeys(Collect(environ, runs, quiet))
    ensures forall x :: Get(Collect(environ, runs, quiet), x) == LastInRuns(environ, runs, x, quiet)
  {
    if runs != [] {
      var init := runs[..|runs| - 1];
      CollectAt(environ, init, quiet);
      var run := runs[|runs| - 1];
      if Sourced(run, quiet) {
        CollectLinesAt(environ, Collect(environ, init, quiet), run.lines);
      }
    }
  }

  /** A declaration found in one output differs from the environment. */
  lemma {:induction false} LastInChanged(environ: Env, lines: seq<string>, x: string)
    ensures LastIn(environ, lines, x).Some? ==> LastIn(environ, lines, x) != Lookup(environ, x)
  {
    if lines != [] {
      LastInChanged(environ, lines[..|lines| - 1], x);
    }
  }

  /** Every entry `source` collects differs from what the environment holds. */
  lemma {:induction false} CollectChanged(environ: Env, runs: seq<ShellRun>, quiet: bool)
    ensures forall x | Get(Collect(environ, runs, quiet), x).Some? :: Get(Collect(environ, runs, quiet), x) != Lookup(environ, x)
  {
    CollectAt(environ, runs, quiet);
    forall x | LastInRuns(environ, runs, x, quiet).Some?
      ensures LastInRuns(environ, runs, x, quiet) != Lookup(environ, x)
    {
      LastInRunsChanged(environ, runs, x, quiet);
    }
  }

  lemma {:induction false} LastInRunsChanged(environ: Env, runs: seq<ShellRun>, x: string, quiet: bool)
    ensures LastInRuns(environ, runs, x, quiet).Some? ==> LastInRuns(environ, runs, x, quiet) != Lookup(environ, x)
  {
    if runs != [] {
      var run := runs[|runs| - 1];
      LastInChanged(environ, run.lines, x);
      LastInRunsChanged(environ, runs[..|runs| - 1], x, quiet);
    }
  }

  /** The runs that succeeded, in order. */
  function Succeeded(runs: seq<ShellRun>): (r: seq<ShellRun>)
    ensures forall k | 0 <= k < |r| :: r[k].ok
  {
    if runs == [] then []
    else Succeeded(runs[..|runs| - 1]) + (if runs[|runs| - 1].ok then [runs[|runs| - 1]] else [])
  }

  /** With `quiet`, sourcing reads the outputs of the runs that succeeded
      and nothing else; it is then what the loop without `quiet` does over
      those runs alone. */
  lemma {:induction false} CollectQuiet(environ: Env, runs: seq<ShellRun>)
    ensures Collect(environ, runs, true) == Collect(environ, Succeeded(runs), false)
  {
    if runs != [] {
      var init, run := runs[..|runs| - 1], runs[|runs| - 1];
      CollectQuiet(environ, init);
      var s := Succeeded(init);
      if run.ok {
        assert Succeeded(runs) == s + [run];
        assert (s + [run])[..|s + [run]| - 1] == s;
      } else {
        assert Succeeded(runs) == s + [];
        assert s + [] == s;
      }
    }
  }

  /** The environment after `source` exports what it collected: each name
      holds its last accepted declaration, or the value it had. */
  lemma SourcedEnviron(environ: Env, runs: seq<ShellRun>, quiet: bool)
    ensures forall x :: Lookup(Updated(environ, Collect(environ, runs, quiet)), x) ==
                        (var d := LastInRuns(environ, runs, x, quiet); if d.Some? then d else Lookup(environ, x))
  {
    CollectAt(environ, runs, quiet);
    UpdatedAt(environ, Collect(environ, runs, quiet));
  }

  /** The loop at the end of `source`: outputs are taken from the file
      nearest the root to the one in the current directory, and a
      declaration is stored only when it differs from the environment. */
  method CollectDeclarations(environ: Env, found: seq<ShellRun>, quiet: bool) returns (env: Pairs)
    ensures env == Collect(environ, Reversed(found), quiet)
  {
    env := [];
    var i := |found|;
    while i > 0
      invariant 0 <= i <= |found|
      invariant env == Collect(environ, Reversed(found[i..]), quiet)
    {
      i := i - 1;
      var run := found[i];
      CollectNext(environ, found, i, quiet);
      if !run.ok {
        if quiet {
          continue;
        }
        // `result.raise_for_returncode()` runs `bash raise_for_returncode`
        // and returns; its outcome is not looked at.
      }
      env := CollectFrom(environ, env, run.lines);
    }
    assert found[0..] == found;
  }

  /** One more file, the next one towards the current directory. */
  lemma CollectNext(environ: Env, found: seq<ShellRun>, i: nat, quiet: bool)
    requires i < |found|
    ensures Collect(environ, Reversed(found[i..]), quiet) ==
      var env := Collect(environ, Reversed(found[i + 1..]), quiet);
      if Sourced(found[i], quiet) then CollectLines(environ, env, found[i].lines) else env
  {
    assert found[i..][1..] == found[i + 1..];
    var rs := Reversed(found[i..]);
    assert rs == Reversed(found[i + 1..]) + [found[i]];
    assert rs[..|rs| - 1] == Reversed(found[i + 1..]);
  }

  /** The inner loop of `source`, over the lines of one output. */
  method CollectFrom(environ: Env, start: Pairs, lines: seq<string>) returns (env: Pairs)
    ensures env == CollectLines(environ, start, lines)
  {
    env := start;
    for j := 0 to |lines|
      invariant env == CollectLines(environ, start, lines[..j])
    {
      assert lines[..j + 1][..j] == lines[..j];
      var p := ParseDeclare(lines[j]);
      if p.None? {
        continue;
      }
      var (key, value) := p.value;
      if Records(environ, key, value) {
        env := Put(env, key, value);
      }
    }
    assert lines[..|lines|] == lines;
  }

  /** `source(...)`: the files found (the current directory's first, then its
      parents') are sourced root first, and what they declare differently
      from the environment is exported. */
  method Source(state: ProcessState, found: seq<ShellRun>, quiet: bool) returns (e: Export)
    modifies state
    ensures fresh(e) && e.previousEnv == old(state.environ)
    ensures e.kwargs == Collect(old(state.environ), Reversed(found), quiet)
    ensures state.environ == Updated(old(state.environ), e.kwargs)
    ensures state.cwd == old(state.cwd)
  {
    var env := CollectDeclarations(state.environ, found, quiet);
    e := new Export(state, env);
  }
}
