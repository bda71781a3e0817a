/** The command descriptor of pipepy (`src/pipepy/pipepy.py`): how a
    `PipePy` object turns Python arguments into an argv, how calling,
    `-`, attribute access and `~` derive new descriptors, when the command is
    run and how its streams are connected, what `bool()`, iteration and
    `as_table()` make of its output, and how `|` dispatches on its operands.

    The operating system is an oracle object `Os`: it expands glob patterns,
    records every process started, and says what each process exits with and
    prints. */
module Pipepy {

  import opened Wrappers
  import opened PyValues
  import opened PyText

  // ---------------------------------------------------------------------
  // The operating system
  // ---------------------------------------------------------------------

  /** Something with a `read` method that a child's stdin can be attached to. */
  datatype Handle = OpenFile(id: nat) | StdoutOf(pid: nat)

  /** What a `PipePy` holds in `_stdin`. */
  datatype Input =
    | NoInput               // None
    | Data(bytes: Bytes)    // a bytes object: written to the child through `communicate`
    | Reader(handle: Handle) // an object with `read`: handed to the child as its stdin
    | Other                 // any other object: a pipe is opened and nothing is written to it

  /** How one standard stream of a child process is connected. */
  datatype Stream = Inherit | NewPipe | FromReader(handle: Handle)

  /** The arguments of one `subprocess.Popen` call. */
  datatype Launch = Launch(argv: seq<string>, stdin: Stream, stdout: Stream, stderr: Stream)

  /** What `communicate` and `wait` report for a process. */
  datatype Completion = Completion(returncode: int, stdout: Bytes, stderr: Bytes)

  class Os {
    /** What `glob(pattern, recursive=True)` returns for each pattern. */
    const glob: string -> seq<string>
    /** What process number `pid` exits with and prints, given the bytes
        `communicate` writes to its stdin (if any). */
    const outcome: (nat, Option<Bytes>) -> Completion
    /** Every process started so far; a process id is a position in this list. */
    var launched: seq<Launch>

    constructor (glob: string -> seq<string>, outcome: (nat, Option<Bytes>) -> Completion)
      ensures this.glob == glob && this.outcome == outcome && launched == []
    {
      this.glob := glob;
      this.outcome := outcome;
      launched := [];
    }

    /** `subprocess.Popen(argv, stdin=..., stdout=..., stderr=...)`. */
    method Popen(l: Launch) returns (pid: nat)
      modifies this
      ensures launched == old(launched) + [l] && pid == |old(launched)|
    {
      pid := |launched|;
      launched := launched + [l];
    }
  }

  // ---------------------------------------------------------------------
  // argv construction (`_convert_args`)
  // ---------------------------------------------------------------------

  /** `key.replace('_', '-')`. */
  function Dashed(key: string): (r: string)
    ensures |r| == |key|
    ensures forall k | 0 <= k < |key| :: r[k] == if key[k] == '_' then '-' else key[k]
  {
    if key == [] then [] else [if key[0] == '_' then '-' else key[0]] + Dashed(key[1..])
  }

  /** Which of the three keyword forms a value selects: `True` and `False`
      are recognised by identity, so `1` and `0` are ordinary values. */
  datatype Setting = On | Off | Valued(text: string)

  function SettingOf(v: PyValue): Setting {
    if v == Bool(true) then On else if v == Bool(false) then Off else Valued(ToStr(v))
  }

  /** The one argv token a keyword argument becomes. */
  function Flag(key: string, v: PyValue): string {
    match SettingOf(v)
    case On => "--" + Dashed(key)
    case Off => "--no-" + Dashed(key)
    case Valued(text) => "--" + Dashed(key) + "=" + text
  }

  /** The tokens of the keyword arguments, in the order they were given. */
  function KeywordFlags(kwargs: seq<(string, PyValue)>): seq<string> {
    if kwargs == [] then []
    else KeywordFlags(kwargs[..|kwargs| - 1]) + [Flag(kwargs[|kwargs| - 1].0, kwargs[|kwargs| - 1].1)]
  }

  /** Each keyword argument yields exactly one token, in order. */
  lemma {:induction false} KeywordFlagsAt(kwargs: seq<(string, PyValue)>)
    ensures |KeywordFlags(kwargs)| == |kwargs|
    ensures forall k | 0 <= k < |kwargs| :: KeywordFlags(kwargs)[k] == Flag(kwargs[k].0, kwargs[k].1)
  {
    if kwargs != [] {
      KeywordFlagsAt(kwargs[..|kwargs| - 1]);
    }
  }

  /** What one stringified positional argument becomes: its glob matches in
      the order `glob` lists them, or the argument itself when nothing matches. */
  function Matches(t: string, glob: string -> seq<string>): seq<string> {
    if glob(t) != [] then glob(t) else [t]
  }

  /** The tokens of the positional arguments. */
  function Expand(tokens: seq<string>, glob: string -> seq<string>): seq<string> {
    if tokens == [] then []
    else Expand(tokens[..|tokens| - 1], glob) + Matches(tokens[|tokens| - 1], glob)
  }

  /** The argv of `PipePy(*args, **kwargs)`: every positional-derived token
      precedes every keyword-derived one. */
  function ConvertedArgs(args: seq<PyValue>, kwargs: seq<(string, PyValue)>, glob: string -> seq<string>): seq<string> {
    Expand(ToStrs(args), glob) + KeywordFlags(kwargs)
  }

  /** `_convert_args`: stringify, glob-or-literal, then one flag per keyword. */
  method ConvertArgs(args: seq<PyValue>, kwargs: seq<(string, PyValue)>, glob: string -> seq<string>)
    returns (finalArgs: seq<string>)
    ensures finalArgs == ConvertedArgs(args, kwargs, glob)
  {
    var strs := ToStrs(args);
    finalArgs := [];
    for i := 0 to |strs|
      invariant finalArgs == Expand(strs[..i], glob)
    {
      var arg := strs[i];
      var globbed := glob(arg);
      if globbed != [] {
        finalArgs := finalArgs + globbed;
      } else {
        finalArgs := finalArgs + [arg];
      }
      ExpandStep(strs, i, glob);
    }
    assert strs[..|strs|] == strs;
    for i := 0 to |kwargs|
      invariant finalArgs == Expand(strs, glob) + KeywordFlags(kwargs[..i])
    {
      var (key, value) := kwargs[i];
      key := Dashed(key);
      var token: string;
      if value == Bool(true) {
        token := "--" + key;
      } else if value == Bool(false) {
        token := "--no-" + key;
      } else {
        token := "--" + key + "=" + ToStr(value);
      }
      assert token == Flag(kwargs[i].0, kwargs[i].1);
      finalArgs := finalArgs + [token];
      KeywordFlagsStep(kwargs, i);
      ConcatAssoc(Expand(strs, glob), KeywordFlags(kwargs[..i]), [Flag(kwargs[i].0, kwargs[i].1)]);
    }
    assert kwargs[..|kwargs|] == kwargs;
  }

  lemma ExpandStep(tokens: seq<string>, i: nat, glob: string -> seq<string>)
    requires i < |tokens|
    ensures Expand(tokens[..i + 1], glob) == Expand(tokens[..i], glob) + Matches(tokens[i], glob)
  {
    assert tokens[..i + 1][..i] == tokens[..i];
  }

  lemma KeywordFlagsStep(kwargs: seq<(string, PyValue)>, i: nat)
    requires i < |kwargs|
    ensures KeywordFlags(kwargs[..i + 1]) == KeywordFlags(kwargs[..i]) + [Flag(kwargs[i].0, kwargs[i].1)]
  {
    assert kwargs[..i + 1][..i] == kwargs[..i];
  }

  /** Expansion works token by token, so it distributes over concatenation. */
  lemma {:induction false} ExpandAppend(a: seq<string>, b: seq<string>, glob: string -> seq<string>)
    ensures Expand(a + b, glob) == Expand(a, glob) + Expand(b, glob)
    decreases |b|
  {
    if b != [] {
      var b' := b[..|b| - 1];
      assert (a + b)[..|a + b| - 1] == a + b';
      ExpandAppend(a, b', glob);
    } else {
      assert a + b == a;
    }
  }

  /** Tokens that `glob` maps to nothing or to themselves (no wildcard, or a
      file name that exists) survive expansion unchanged. */
  lemma {:induction false} ExpandStable(tokens: seq<string>, glob: string -> seq<string>)
    requires forall k | 0 <= k < |tokens| :: glob(tokens[k]) == [] || glob(tokens[k]) == [tokens[k]]
    ensures Expand(tokens, glob) == tokens
  {
    if tokens != [] {
      ExpandStable(tokens[..|tokens| - 1], glob);
    }
  }

  /** A keyword name as it appears on the command line is never ambiguous
      with the `--no-` or `=` forms. */
  predicate PlainKey(key: string) {
    '=' !in key && !(|Dashed(key)| >= 3 && Dashed(key)[..3] == "no-")
  }

  /** Position of the first `c` in `s`. */
  function IndexOf(s: string, c: char): (i: nat)
    requires c in s
    ensures i < |s| && s[i] == c && c !in s[..i]
  {
    if s[0] == c then 0 else assert c in s[1..]; 1 + IndexOf(s[1..], c)
  }

  /** How a program reading its argv would take a `--` flag apart. */
  function ReadFlag(token: string): Option<(string, Setting)> {
    if |token| < 2 || token[..2] != "--" then None
    else
      var rest := token[2..];
      if '=' in rest then
        var i := IndexOf(rest, '=');
        Some((rest[..i], Valued(rest[i + 1..])))
      else if |rest| >= 3 && rest[..3] == "no-" then Some((rest[3..], Off))
      else Some((rest, On))
  }

  /** Every keyword token can be read back as the dashed key and the setting
      its value selects. */
  lemma FlagRoundTrip(key: string, v: PyValue)
    requires PlainKey(key)
    ensures ReadFlag(Flag(key, v)) == Some((Dashed(key), SettingOf(v)))
  {
    var k := Dashed(key);
    assert '=' !in k;
    match SettingOf(v)
    case On => ReadOn(k);
    case Off => ReadOff(k);
    case Valued(text) => ReadValued(k, text);
  }

  lemma ReadOn(k: string)
    requires '=' !in k && !(|k| >= 3 && k[..3] == "no-")
    ensures ReadFlag("--" + k) == Some((k, On))
  {
    assert ("--" + k)[2..] == k;
  }

  lemma ReadOff(k: string)
    requires '=' !in k
    ensures ReadFlag("--no-" + k) == Some((k, Off))
  {
    var rest := ("--no-" + k)[2..];
    assert rest == "no-" + k && rest[3..] == k;
    assert '=' !in rest;
  }

  lemma ReadValued(k: string, text: string)
    requires '=' !in k
    ensures ReadFlag("--" + k + "=" + text) == Some((k, Valued(text)))
  {
    var rest := ("--" + k + "=" + text)[2..];
    assert rest == k + "=" + text;
    assert rest[|k|] == '=' && rest[..|k|] == k;
    assert IndexOf(rest, '=') == |k|;
    assert rest[|k| + 1..] == text;
  }

  // ---------------------------------------------------------------------
  // Descriptors
  // ---------------------------------------------------------------------

  /** The settings of a `PipePy` object, fixed when it is built. */
  datatype Descriptor = Descriptor(
    args: seq<string>,
    lazy: bool,
    stdin: Input,
    streamStdout: bool,
    streamStderr: bool,
    wait: bool)

  /** A keyword of `__call__` that was either left at the `_NONE` sentinel or given. */
  datatype Override<T> = Keep | Set(value: T) {
    function Or(inherited: T): T {
      if Set? then value else inherited
    }
  }

  /** `__call__`'s overrides, bundled. */
  datatype Overrides = Overrides(
    stdin: Override<Input>,
    streamStdout: Override<bool>,
    streamStderr: Override<bool>,
    wait: Override<bool>)

  const NoOverrides := Overrides(Keep, Keep, Keep, Keep)

  /** The descriptor `d(*args, **kwargs, ...)` builds: the parent's argv
      followed by the new arguments, all passed through `_convert_args`
      again; always lazy; each override left at `_NONE` inherits. */
  function Called(d: Descriptor, args: seq<PyValue>, kwargs: seq<(string, PyValue)>, o: Overrides,
                  glob: string -> seq<string>): Descriptor {
    Descriptor(
      ConvertedArgs(Strs(d.args) + args, kwargs, glob),
      true,
      o.stdin.Or(d.stdin),
      o.streamStdout.Or(d.streamStdout),
      o.streamStderr.Or(d.streamStderr),
      o.wait.Or(d.wait))
  }

  /** `__call__` evaluates the new descriptor at once exactly when it was
      given nothing at all. */
  predicate Forces(args: seq<PyValue>, kwargs: seq<(string, PyValue)>, o: Overrides) {
    args == [] && kwargs == [] && o == NoOverrides
  }

  /** `**kwargs` holds the name `_lazy`. */
  predicate PassesLazy(kwargs: seq<(string, PyValue)>) {
    exists k | 0 <= k < |kwargs| :: kwargs[k].0 == "_lazy"
  }

  /** The parent's argv is re-expanded in front of the new tokens; when glob
      leaves every parent token as it is, the new argv extends the parent's. */
  lemma CalledArgs(d: Descriptor, args: seq<PyValue>, kwargs: seq<(string, PyValue)>, o: Overrides,
                   glob: string -> seq<string>)
    ensures Called(d, args, kwargs, o, glob).args == Expand(d.args, glob) + ConvertedArgs(args, kwargs, glob)
    ensures (forall k | 0 <= k < |d.args| :: glob(d.args[k]) == [] || glob(d.args[k]) == [d.args[k]]) ==>
      Called(d, args, kwargs, o, glob).args == d.args + ConvertedArgs(args, kwargs, glob)
  {
    var a, kf := ToStrs(args), KeywordFlags(kwargs);
    ToStrsAppend(Strs(d.args), args);
    ToStrsOfStrs(d.args);
    assert ToStrs(Strs(d.args) + args) == d.args + a;
    ExpandAppend(d.args, a, glob);
    var e, ea := Expand(d.args, glob), Expand(a, glob);
    assert Called(d, args, kwargs, o, glob).args == (e + ea) + kf;
    ConcatAssoc(e, ea, kf);
    if forall k | 0 <= k < |d.args| :: glob(d.args[k]) == [] || glob(d.args[k]) == [d.args[k]] {
      ExpandStable(d.args, glob);
    }
  }

  lemma ConcatAssoc<T>(a: seq<T>, b: seq<T>, c: seq<T>)
    ensures (a + b) + c == a + (b + c)
  {
  }

  /** The switch `left - s` adds: one dash for a single character, two otherwise. */
  function SwitchToken(s: string): string {
    if |s| == 1 then "-" + s else "--" + s
  }

  /** `d - s`, which is `d(SwitchToken(s))`. */
  function Switched(d: Descriptor, s: string, glob: string -> seq<string>): Descriptor {
    Called(d, [Str(SwitchToken(s))], [], NoOverrides, glob)
  }

  /** `d.attr`: a fresh, non-lazy descriptor with default settings whose
      argv is the parent's followed by the attribute name. */
  function Attribute(d: Descriptor, name: string, glob: string -> seq<string>): Descriptor {
    Descriptor(ConvertedArgs(Strs(d.args + [name]), [], glob), false, NoInput, false, false, true)
  }

  /** `~d`: keep stdout in the terminal and capture stderr if stderr was
      streamed, the other way round otherwise. */
  function Inverted(d: Descriptor, glob: string -> seq<string>): Descriptor {
    Called(d, [], [], Overrides(Keep, Set(d.streamStderr), Set(!d.streamStderr), Keep), glob)
  }

  /** What `-` adds to the argv, when glob leaves the tokens alone. */
  lemma SwitchArgs(d: Descriptor, s: string, glob: string -> seq<string>)
    requires forall k | 0 <= k < |d.args| :: glob(d.args[k]) == [] || glob(d.args[k]) == [d.args[k]]
    requires glob(SwitchToken(s)) == []
    ensures Switched(d, s, glob).args == d.args + [if |s| == 1 then "-" + s else "--" + s]
    ensures Switched(d, s, glob).lazy && Switched(d, s, glob).stdin == d.stdin
  {
    var t := SwitchToken(s);
    CalledArgs(d, [Str(t)], [], NoOverrides, glob);
    ConvertedLiteral(t, glob);
  }

  /** A single `str` argument that matches no file is passed through. */
  lemma ConvertedLiteral(t: string, glob: string -> seq<string>)
    requires glob(t) == []
    ensures ConvertedArgs([Str(t)], [], glob) == [t]
  {
    assert ToStrs([Str(t)]) == [t];
    assert Expand([t], glob) == Expand([], glob) + Matches(t, glob);
  }

  /** What attribute access puts in the argv, when glob leaves the tokens alone. */
  lemma AttributeArgs(d: Descriptor, name: string, glob: string -> seq<string>)
    requires forall k | 0 <= k < |d.args| :: glob(d.args[k]) == [] || glob(d.args[k]) == [d.args[k]]
    requires glob(name) == []
    ensures Attribute(d, name, glob).args == d.args + [name]
    ensures !Attribute(d, name, glob).lazy && Attribute(d, name, glob).stdin == NoInput
  {
    var t := d.args + [name];
    assert forall k | 0 <= k < |t| :: glob(t[k]) == [] || glob(t[k]) == [t[k]];
    ConvertedStable(t, glob);
  }

  /** Strings that `glob` leaves alone are passed through unchanged. */
  lemma ConvertedStable(t: seq<string>, glob: string -> seq<string>)
    requires forall k | 0 <= k < |t| :: glob(t[k]) == [] || glob(t[k]) == [t[k]]
    ensures ConvertedArgs(Strs(t), [], glob) == t
  {
    ToStrsOfStrs(t);
    ExpandStable(t, glob);
    assert ConvertedArgs(Strs(t), [], glob) == t + [];
  }

  /** After `~` exactly one of the two streams goes to the terminal, and a
      second `~` swaps them. */
  lemma InvertedStreams(d: Descriptor, glob: string -> seq<string>)
    ensures var e := Inverted(d, glob);
      && (e.streamStdout, e.streamStderr) == (if d.streamStderr then (true, false) else (false, true))
      && e.lazy && e.stdin == d.stdin && e.wait == d.wait
    ensures var e, f := Inverted(d, glob), Inverted(Inverted(d, glob), glob);
      f.streamStdout == !e.streamStdout && f.streamStderr == !e.streamStderr
  {
  }

  /** The stdin connection `_evaluate` picks: a readable object is passed
      through, any other value gets a pipe, and with no value a pipe is
      opened only for a command that is not waited for. */
  function StdinStream(stdin: Input, wait: bool): Stream {
    if stdin != NoInput then
      if stdin.Reader? then FromReader(stdin.handle) else NewPipe
    else if !wait then NewPipe
    else Inherit
  }

  /** stdout and stderr are captured unless they are streamed. */
  function OutputStream(streamed: bool): Stream {
    if streamed then Inherit else NewPipe
  }

  /** The `Popen` call `_evaluate` makes for a descriptor. */
  function LaunchOf(d: Descriptor): Launch {
    Launch(d.args, StdinStream(d.stdin, d.wait), OutputStream(d.streamStdout), OutputStream(d.streamStderr))
  }

  /** What `_wait_process` hands to `communicate`: only bytes are written. */
  function CommunicateInput(stdin: Input): Option<Bytes> {
    if stdin.Data? then Some(stdin.bytes) else None
  }

  /** The stream modes of a launch, by cases. */
  lemma LaunchStreams(d: Descriptor)
    ensures LaunchOf(d).argv == d.args
    ensures LaunchOf(d).stdout == NewPipe <==> !d.streamStdout
    ensures LaunchOf(d).stderr == NewPipe <==> !d.streamStderr
    ensures LaunchOf(d).stdin == Inherit <==> d.stdin == NoInput && d.wait
    ensures LaunchOf(d).stdin.FromReader? <==> d.stdin.Reader?
  {
  }

  // ---------------------------------------------------------------------
  // Output parsing
  // ---------------------------------------------------------------------

  /** One row of `as_table()`: header word to field. */
  type Row = map<Bytes, Bytes>

  /** The dict built by `item[keys[i]] = values[i]` for i in order: a
      repeated key keeps the value assigned last. */
  function Zip(keys: seq<Bytes>, values: seq<Bytes>): Row
    requires |values| <= |keys|
  {
    if values == [] then map[]
    else Zip(keys, values[..|values| - 1])[keys[|values| - 1] := values[|values| - 1]]
  }

  /** The keys of `Zip` are the first `|values|` keys, and each maps to the
      value at its last position. */
  lemma {:induction false} ZipAt(keys: seq<Bytes>, values: seq<Bytes>)
    requires |values| <= |keys|
    ensures Zip(keys, values).Keys == (set k | 0 <= k < |values| :: keys[k])
    ensures forall k | 0 <= k < |values| && (forall j | k < j < |values| :: keys[j] != keys[k]) ::
      Zip(keys, values)[keys[k]] == values[k]
  {
    if values != [] {
      var n := |values| - 1;
      ZipAt(keys, values[..n]);
      assert forall k | 0 <= k < n :: values[..n][k] == values[k];
    }
  }

  /** The dict `as_table()` builds for one line under the given headers.
      With no headers `maxsplit` is -1, so any field raises `IndexError`. */
  function TableRow(headers: seq<Bytes>, line: Bytes): Result<Row, PyError> {
    if headers == [] then
      if Split(line, ByteIsSpace) == [] then Ok(map[]) else Err(IndexError)
    else
      var fields := SplitMax(line, ByteIsSpace, |headers| - 1);
      SplitMaxFields(line, 0, ByteIsSpace, |headers| - 1);
      Ok(Zip(headers, fields))
  }

  /** The rows for the given lines; the first line that raises ends the table. */
  function TableRows(headers: seq<Bytes>, lines: seq<Bytes>): Result<seq<Row>, PyError> {
    if lines == [] then Ok([])
    else
      match TableRows(headers, lines[..|lines| - 1])
      case Err(e) => Err(e)
      case Ok(rows) =>
        match TableRow(headers, lines[|lines| - 1])
        case Err(e) => Err(e)
        case Ok(row) => Ok(rows + [row])
  }

  /** `as_table()` on the captured stdout: `None` has no `splitlines`, an
      empty output has no header line. */
  function Table(stdout: Option<Bytes>): Result<seq<Row>, PyError> {
    if stdout.None? then Err(AttributeError)
    else
      var lines := SplitLines(stdout.value, ByteIsLineBreak, 13, 10);
      if lines == [] then Err(IndexError)
      else TableRows(Split(lines[0], ByteIsSpace), lines[1..])
  }

  /** `iter(x)`: the whitespace-separated words of the captured stdout. */
  function Words(stdout: Option<Bytes>): Result<seq<Bytes>, PyError> {
    if stdout.None? then Err(AttributeError) else Ok(Split(stdout.value, ByteIsSpace))
  }

  /** Under non-empty headers a line always makes a row: its keys are the
      first headers, one per field; a header not repeated later among them
      maps to its field; all fields but the last are words of the line. */
  lemma TableRowFields(headers: seq<Bytes>, line: Bytes)
    requires headers != []
    ensures var fields := SplitMax(line, ByteIsSpace, |headers| - 1);
      var words := Split(line, ByteIsSpace);
      && |fields| == (if |words| < |headers| then |words| else |headers|)
      && TableRow(headers, line).Ok?
      && TableRow(headers, line).value.Keys == (set k | 0 <= k < |fields| :: headers[k])
      && (forall k | 0 <= k < |fields| && (forall j | k < j < |fields| :: headers[j] != headers[k]) ::
            TableRow(headers, line).value[headers[k]] == fields[k])
      && (forall k | 0 <= k < |fields| - 1 :: fields[k] == words[k])
  {
    var fields := SplitMax(line, ByteIsSpace, |headers| - 1);
    SplitMaxFields(line, 0, ByteIsSpace, |headers| - 1);
    ZipAt(headers, fields);
    var words := Split(line, ByteIsSpace);
    if fields != [] {
      forall k | 0 <= k < |fields| - 1 ensures fields[k] == words[k] {
        assert fields[..|fields| - 1][k] == fields[k];
        assert words[..|fields| - 1][k] == words[k];
      }
    }
  }

  /** A table has one row per line after the header line. */
  lemma {:induction false} TableRowsLength(headers: seq<Bytes>, lines: seq<Bytes>)
    requires TableRows(headers, lines).Ok?
    ensures |TableRows(headers, lines).value| == |lines|
    ensures forall k | 0 <= k < |lines| ::
      TableRow(headers, lines[k]).Ok? && TableRows(headers, lines).value[k] == TableRow(headers, lines[k]).value
  {
    if lines != [] {
      var n := |lines| - 1;
      TableRowsLength(headers, lines[..n]);
    }
  }

  /** The table fails exactly on the first line that fails. */
  lemma {:induction false} TableRowsErr(headers: seq<Bytes>, lines: seq<Bytes>)
    ensures TableRows(headers, lines).Err? <==> exists k | 0 <= k < |lines| :: TableRow(headers, lines[k]).Err?
  {
    if lines != [] {
      var n := |lines| - 1;
      TableRowsErr(headers, lines[..n]);
      if TableRows(headers, lines).Err? && TableRows(headers, lines[..n]).Ok? {
        assert TableRow(headers, lines[n]).Err?;
      }
      if exists k | 0 <= k < |lines| :: TableRow(headers, lines[k]).Err? {
        var k :| 0 <= k < |lines| && TableRow(headers, lines[k]).Err?;
        if k < n {
          assert lines[..n][k] == lines[k];
        }
      }
    }
  }

  /** Failing lines after the first error do not matter: an error among the
      first lines is the table's error. */
  lemma {:induction false} TableRowsErrPrefix(headers: seq<Bytes>, lines: seq<Bytes>, m: nat)
    requires m <= |lines| && TableRows(headers, lines[..m]).Err?
    ensures TableRows(headers, lines) == TableRows(headers, lines[..m])
    decreases |lines| - m
  {
    if m < |lines| {
      assert lines[..m + 1][..m] == lines[..m];
      TableRowsErrPrefix(headers, lines, m + 1);
    } else {
      assert lines[..m] == lines;
    }
  }

  /** When `as_table()` fails: no output captured, no lines, or no header
      words while some later line has a word. Otherwise it has one row per
      line after the first. */
  lemma TableOutcome(stdout: Option<Bytes>)
    ensures Table(stdout).Err? <==>
      || stdout.None?
      || SplitLines(stdout.value, ByteIsLineBreak, 13, 10) == []
      || var lines := SplitLines(stdout.value, ByteIsLineBreak, 13, 10);
         Split(lines[0], ByteIsSpace) == [] && exists k | 1 <= k < |lines| :: Split(lines[k], ByteIsSpace) != []
    ensures Table(stdout).Ok? ==>
      |Table(stdout).value| == |SplitLines(stdout.value, ByteIsLineBreak, 13, 10)| - 1
  {
    if stdout.Some? {
      var lines := SplitLines(stdout.value, ByteIsLineBreak, 13, 10);
      if lines != [] {
        var headers := Split(lines[0], ByteIsSpace);
        var rest := lines[1..];
        TableRowsErr(headers, rest);
        if headers != [] {
          forall k | 0 <= k < |rest| ensures TableRow(headers, rest[k]).Ok? {
            TableRowFields(headers, rest[k]);
          }
        } else {
          if exists k | 1 <= k < |lines| :: Split(lines[k], ByteIsSpace) != [] {
            var k :| 1 <= k < |lines| && Split(lines[k], ByteIsSpace) != [];
            assert rest[k - 1] == lines[k];
          }
          if exists k | 0 <= k < |rest| :: TableRow(headers, rest[k]).Err? {
            var k :| 0 <= k < |rest| && TableRow(headers, rest[k]).Err?;
            assert lines[k + 1] == rest[k];
          }
        }
        if TableRows(headers, rest).Ok? {
          TableRowsLength(headers, rest);
        }
      }
    }
  }

  /** The inner loop of `as_table()`: one dict for one line. */
  method ParseRow(fields: seq<Bytes>, line: Bytes) returns (r: Result<Row, PyError>)
    ensures r == TableRow(fields, line)
  {
    var values: seq<Bytes>;
    if fields == [] {
      values := Split(line, ByteIsSpace);
    } else {
      values := SplitMax(line, ByteIsSpace, |fields| - 1);
      SplitMaxFields(line, 0, ByteIsSpace, |fields| - 1);
    }
    var item: Row := map[];
    for i := 0 to |values|
      invariant i <= |fields| && item == Zip(fields, values[..i])
    {
      if i >= |fields| {
        return Err(IndexError);
      }
      item := item[fields[i] := values[i]];
      assert values[..i + 1][..i] == values[..i];
    }
    assert values[..|values|] == values;
    r := Ok(item);
  }

  /** The body of `as_table()` once stdout is captured: the header words
      of the first line, then one dict per further line. */
  method ParseTable(out: Option<Bytes>) returns (r: Result<seq<Row>, PyError>)
    ensures r == Table(out)
  {
    if out.None? {
      return Err(AttributeError);
    }
    var lines := SplitLines(out.value, ByteIsLineBreak, 13, 10);
    if lines == [] {
      return Err(IndexError);
    }
    var fields := Split(lines[0], ByteIsSpace);
    var rest := lines[1..];
    var result: seq<Row> := [];
    for j := 0 to |rest|
      invariant TableRows(fields, rest[..j]) == Ok(result)
    {
      var item := ParseRow(fields, rest[j]);
      assert rest[..j + 1][..j] == rest[..j];
      if item.Err? {
        TableRowsErrPrefix(fields, rest, j + 1);
        return Err(item.error);
      }
      result := result + [item.value];
    }
    assert rest[..|rest|] == rest;
    r := Ok(result);
  }

  // ---------------------------------------------------------------------
  // The PipePy object
  // ---------------------------------------------------------------------

  class PipePy {
    /** `_args`, `_lazy`, `_stdin`, `_stream_stdout`, `_stream_stderr`, `_wait`. */
    const desc: Descriptor
    var returncode: Option<int>
    var stdout: Option<Bytes>
    var stderr: Option<Bytes>
    /** `_process`, as the id of the started process. */
    var process: Option<nat>

    /** Nothing has run yet. */
    predicate Unevaluated()
      reads this
    {
      returncode == None && stdout == None && stderr == None && process == None
    }

    /** The results `_wait_process` stores for completion `c`: stdout and
        stderr are `None` when they were not captured. */
    predicate Collected(c: Completion)
      reads this
    {
      && returncode == Some(c.returncode)
      && stdout == (if desc.streamStdout then None else Some(c.stdout))
      && stderr == (if desc.streamStderr then None else Some(c.stderr))
    }

    /** The effect of `_evaluate` between the previous state and this one. */
    twostate predicate EvaluatedFrom(os: Os)
      reads this, os
    {
      if old(returncode).Some? && desc.lazy then
        && returncode == old(returncode) && stdout == old(stdout) && stderr == old(stderr)
        && process == old(process) && os.launched == old(os.launched)
      else
        var pid := |old(os.launched)|;
        && os.launched == old(os.launched) + [LaunchOf(desc)]
        && process == Some(pid)
        && if desc.wait then Collected(os.outcome(pid, CommunicateInput(desc.stdin)))
           else returncode == old(returncode) && stdout == old(stdout) && stderr == old(stderr)
    }

    /** `PipePy(*args, _lazy=..., _stdin=..., ..., **kwargs)`. */
    constructor (args: seq<PyValue>, kwargs: seq<(string, PyValue)>, lazy: bool, stdin: Input,
                 streamStdout: bool, streamStderr: bool, wait: bool, os: Os)
      ensures desc == Descriptor(ConvertedArgs(args, kwargs, os.glob), lazy, stdin, streamStdout, streamStderr, wait)
      ensures Unevaluated()
    {
      var argv := ConvertArgs(args, kwargs, os.glob);
      desc := Descriptor(argv, lazy, stdin, streamStdout, streamStderr, wait);
      returncode, stdout, stderr, process := None, None, None, None;
    }

    /** `_evaluate`: a lazy object that already has a return code is left
        alone; otherwise the command is started, and waited for when `_wait`. */
    method Evaluate(os: Os)
      modifies this, os
      ensures EvaluatedFrom(os)
    {
      if returncode.Some? && desc.lazy {
        return;
      }
      var stdinMode: Stream;
      if desc.stdin != NoInput {
        if desc.stdin.Reader? {
          stdinMode := FromReader(desc.stdin.handle);
        } else {
          stdinMode := NewPipe;
        }
      } else if !desc.wait {
        stdinMode := NewPipe;
      } else {
        stdinMode := Inherit;
      }
      var stdoutMode := if desc.streamStdout then Inherit else NewPipe;
      var stderrMode := if desc.streamStderr then Inherit else NewPipe;
      var pid := os.Popen(Launch(desc.args, stdinMode, stdoutMode, stderrMode));
      process := Some(pid);
      if desc.wait {
        WaitProcess(os);
      }
    }

    /** `_wait_process`: `communicate` (writing `_stdin` only if it is
        bytes), then `wait`. */
    method WaitProcess(os: Os)
      requires process.Some? && process.value < |os.launched|
      modifies this
      ensures process == old(process)
      ensures var l, c := os.launched[process.value], os.outcome(process.value, CommunicateInput(desc.stdin));
        && returncode == Some(c.returncode)
        && stdout == (if l.stdout == NewPipe then Some(c.stdout) else None)
        && stderr == (if l.stderr == NewPipe then Some(c.stderr) else None)
    {
      var input := if desc.stdin.Data? then Some(desc.stdin.bytes) else None;
      var pid := process.value;
      var c := os.outcome(pid, input);
      stdout := if os.launched[pid].stdout == NewPipe then Some(c.stdout) else None;
      stderr := if os.launched[pid].stderr == NewPipe then Some(c.stderr) else None;
      returncode := Some(c.returncode);
    }

    /** The `returncode` property. */
    method Returncode(os: Os) returns (rc: Option<int>)
      modifies this, os
      ensures EvaluatedFrom(os) && rc == returncode
    {
      Evaluate(os);
      rc := returncode;
    }

    /** The `stdout` property. */
    method Stdout(os: Os) returns (out: Option<Bytes>)
      modifies this, os
      ensures EvaluatedFrom(os) && out == stdout
    {
      Evaluate(os);
      out := stdout;
    }

    /** The `stderr` property. */
    method Stderr(os: Os) returns (err: Option<Bytes>)
      modifies this, os
      ensures EvaluatedFrom(os) && err == stderr
    {
      Evaluate(os);
      err := stderr;
    }

    /** `bool(x)`: the command succeeded. A command that is not waited for
        has no return code and is false. */
    method Truthy(os: Os) returns (b: bool)
      modifies this, os
      ensures EvaluatedFrom(os)
      ensures b <==> returncode == Some(0)
    {
      var rc := Returncode(os);
      b := rc == Some(0);
    }

    /** `iter(x)`. */
    method Iterate(os: Os) returns (r: Result<seq<Bytes>, PyError>)
      modifies this, os
      ensures EvaluatedFrom(os) && r == Words(stdout)
    {
      var out := Stdout(os);
      if out.None? {
        return Err(AttributeError);
      }
      r := Ok(Split(out.value, ByteIsSpace));
    }

    /** `as_table()`. */
    method AsTable(os: Os) returns (r: Result<seq<Row>, PyError>)
      modifies this, os
      ensures EvaluatedFrom(os) && r == Table(stdout)
    {
      var out := Stdout(os);
      r := ParseTable(out);
    }

    /** Reading the return code twice: a lazy, waited-for command runs at
        most once, any other command runs on every access. */
    method ReturncodeTwice(os: Os) returns (first: Option<int>, second: Option<int>)
      modifies this, os
      ensures desc.lazy && (desc.wait || old(returncode).Some?) ==>
        first == second && |os.launched| <= |old(os.launched)| + 1
      ensures !desc.lazy ==> |os.launched| == |old(os.launched)| + 2
    {
      first := Returncode(os);
      second := Returncode(os);
    }

    /** `x(*args, _stdin=..., ..., **kwargs)`: a new lazy object, evaluated
        at once when the call was given nothing. The parent is not changed.
        `kwargs` is what Python leaves for `**kwargs`, so it never names
        `_stdin`, `_stream_stdout`, `_stream_stderr` or `_wait`; a `_lazy` in
        it clashes with the `_lazy=True` that `__call__` passes itself. */
    method Call(os: Os, args: seq<PyValue>, kwargs: seq<(string, PyValue)>, o: Overrides)
      returns (result: Result<PipePy, PyError>)
      modifies os
      ensures PassesLazy(kwargs) ==> result == Err(TypeError) && os.launched == old(os.launched)
      ensures !PassesLazy(kwargs) ==>
        result.Ok? && fresh(result.value) && result.value.desc == Called(desc, args, kwargs, o, os.glob)
      ensures Forces(args, kwargs, o) ==>
        var pid := |old(os.launched)|;
        && os.launched == old(os.launched) + [LaunchOf(result.value.desc)]
        && result.value.process == Some(pid)
        && if result.value.desc.wait then result.value.Collected(os.outcome(pid, CommunicateInput(result.value.desc.stdin)))
           else result.value.returncode == None && result.value.stdout == None && result.value.stderr == None
      ensures !Forces(args, kwargs, o) && result.Ok? ==> os.launched == old(os.launched) && result.value.Unevaluated()
    {
      if exists k | 0 <= k < |kwargs| :: kwargs[k].0 == "_lazy" {
        return Err(TypeError);
      }
      var force := args == [] && kwargs == [] && o.stdin.Keep? && o.streamStdout.Keep?
        && o.streamStderr.Keep? && o.wait.Keep?;
      var allArgs := Strs(desc.args) + args;
      var p := new PipePy(allArgs, kwargs, true, o.stdin.Or(desc.stdin), o.streamStdout.Or(desc.streamStdout),
                          o.streamStderr.Or(desc.streamStderr), o.wait.Or(desc.wait), os);
      if force {
        p.Evaluate(os);
      }
      return Ok(p);
    }

    /** `x - s`. */
    method Sub(os: Os, s: string) returns (result: PipePy)
      modifies os
      ensures fresh(result) && result.desc == Switched(desc, s, os.glob) && result.Unevaluated()
      ensures os.launched == old(os.launched)
    {
      var c: Result<PipePy, PyError>;
      if |s| == 1 {
        c := Call(os, [Str("-" + s)], [], NoOverrides);
      } else {
        c := Call(os, [Str("--" + s)], [], NoOverrides);
      }
      result := c.value;
    }

    /** `x.name` for a name that is not an attribute of the object. */
    method GetAttr(os: Os, name: string) returns (result: PipePy)
      ensures fresh(result) && result.desc == Attribute(desc, name, os.glob) && result.Unevaluated()
    {
      result := new PipePy(Strs(desc.args + [name]), [], false, NoInput, false, false, true, os);
    }

    /** `~x`. */
    method Invert(os: Os) returns (result: PipePy)
      modifies os
      ensures fresh(result) && result.desc == Inverted(desc, os.glob) && result.Unevaluated()
      ensures os.launched == old(os.launched)
    {
      var c: Result<PipePy, PyError>;
      if desc.streamStderr {
        c := Call(os, [], [], Overrides(Keep, Set(true), Set(false), Keep));
      } else {
        c := Call(os, [], [], Overrides(Keep, Set(false), Set(true), Keep));
      }
      result := c.value;
    }
  }

  // ---------------------------------------------------------------------
  // The `|` operator
  // ---------------------------------------------------------------------

  /** An operand of `|`, by what `_pipe` tests about it. */
  datatype Operand =
    | Command(cmd: PipePy)
    | BytesValue(data: Bytes)
    | Callable(id: nat)        // a function: not iterable
    | Generator                // a generator object: iterable, not callable
    | Iterable                 // any other iterable (str, list, file, ...)
    | Opaque                   // neither callable nor iterable

  /** What `_pipe` returns. */
  datatype PipeOutcome =
    | Piped(cmd: PipePy)
    /** The callable right operand was called with these keyword arguments;
        what it returns is its own business. */
    | CallbackCalled(id: nat, returncode: Option<int>, stdout: Option<Bytes>, stderr: Option<Bytes>)
    /** A generator or iterable branch: output and input are interleaved
        while the processes run, which this model does not follow. */
    | Interleaved
    | Raised(error: PyError)

  /** `left | right` (through `__or__` when the left operand is a `PipePy`,
      through `__ror__` otherwise). */
  method Pipe(left: Operand, right: Operand, os: Os) returns (r: PipeOutcome)
    requires left.Command? || right.Command?
    modifies os, if left.Command? then {left.cmd} else {}
    ensures left.Command? && right.Command? && old(left.cmd.stdout).Some? ==>
      && r.Piped? && fresh(r.cmd) && r.cmd.Unevaluated() && os.launched == old(os.launched)
      && r.cmd.desc == Called(right.cmd.desc, [], [], Overrides(Set(Data(old(left.cmd.stdout).value)), Keep, Keep, Keep), os.glob)
    ensures left.Command? && right.Command? && old(left.cmd.stdout).None? ==>
      var upstream := Called(Called(left.cmd.desc, [], [], Overrides(Keep, Keep, Keep, Set(false)), os.glob), [], [], NoOverrides, os.glob);
      && os.launched == old(os.launched) + [LaunchOf(upstream)]
      && r.Piped? && fresh(r.cmd) && r.cmd.Unevaluated()
    ensures left.Command? && right.Command? && old(left.cmd.stdout).None? && !left.cmd.desc.streamStdout ==>
      r.Piped? && r.cmd.desc == Called(right.cmd.desc, [], [], Overrides(Set(Reader(StdoutOf(|old(os.launched)|))), Keep, Keep, Keep), os.glob)
    ensures left.Command? && right.Command? && old(left.cmd.stdout).None? && left.cmd.desc.streamStdout ==>
      r.Piped? && r.cmd.desc == Called(right.cmd.desc, [], [], Overrides(Set(NoInput), Keep, Keep, Keep), os.glob)
    ensures left.Command? && !right.Callable? ==> unchanged(left.cmd)
    ensures left.Command? && right.Callable? ==> r.CallbackCalled? && r.id == right.id
    ensures left.Command? && right.Callable? && left.cmd.desc.lazy && left.cmd.desc.wait ==>
      && r.returncode.Some? && r.returncode == left.cmd.returncode
      && r.stdout == left.cmd.stdout && r.stderr == left.cmd.stderr
      && if old(left.cmd.returncode).Some? then os.launched == old(os.launched)
            && left.cmd.returncode == old(left.cmd.returncode) && left.cmd.stdout == old(left.cmd.stdout)
            && left.cmd.stderr == old(left.cmd.stderr) && left.cmd.process == old(left.cmd.process)
         else os.launched == old(os.launched) + [LaunchOf(left.cmd.desc)]
              && left.cmd.process == Some(|old(os.launched)|)
              && left.cmd.Collected(os.outcome(|old(os.launched)|, CommunicateInput(left.cmd.desc.stdin)))
    ensures left.Command? && right.Callable? && !left.cmd.desc.lazy ==>
      var n, input := |old(os.launched)|, CommunicateInput(left.cmd.desc.stdin);
      && os.launched == old(os.launched) + [LaunchOf(left.cmd.desc), LaunchOf(left.cmd.desc), LaunchOf(left.cmd.desc)]
      && (left.cmd.desc.wait ==>
           && r.returncode == Some(os.outcome(n, input).returncode)
           && r.stdout == (if left.cmd.desc.streamStdout then None else Some(os.outcome(n + 1, input).stdout))
           && r.stderr == (if left.cmd.desc.streamStderr then None else Some(os.outcome(n + 2, input).stderr)))
    ensures left.Command? && right.Callable? && !left.cmd.desc.wait ==>
      && r.returncode == old(left.cmd.returncode) && r.stdout == old(left.cmd.stdout) && r.stderr == old(left.cmd.stderr)
      && os.launched == old(os.launched) + (if left.cmd.desc.lazy && old(left.cmd.returncode).Some? then []
                                            else [LaunchOf(left.cmd.desc), LaunchOf(left.cmd.desc), LaunchOf(left.cmd.desc)])
    ensures left.Command? && right.Callable? && !left.cmd.desc.lazy ==>
      && left.cmd.process == Some(|old(os.launched)| + 2)
      && (left.cmd.desc.wait ==> left.cmd.Collected(os.outcome(|old(os.launched)| + 2, CommunicateInput(left.cmd.desc.stdin))))
    ensures left.Command? && right.Callable? && !left.cmd.desc.wait ==>
      && left.cmd.returncode == old(left.cmd.returncode) && left.cmd.stdout == old(left.cmd.stdout)
      && left.cmd.stderr == old(left.cmd.stderr)
      && left.cmd.process == (if left.cmd.desc.lazy && old(left.cmd.returncode).Some? then old(left.cmd.process)
                              else Some(|old(os.launched)| + 2))
    ensures left.Command? && (right.Opaque? || right.BytesValue? || right.Iterable?) ==> r == Raised(TypeError)
    ensures left.BytesValue? ==>
      && r.Piped? && fresh(r.cmd) && r.cmd.Unevaluated() && os.launched == old(os.launched)
      && r.cmd.desc == Called(right.cmd.desc, [], [], Overrides(Set(Data(left.data)), Keep, Keep, Keep), os.glob)
    ensures (left.Callable? || left.Opaque?) ==> r == Raised(TypeError)
  {
    if left.Command? {
      var l := left.cmd;
      if right.Command? {
        var stdin: Input;
        if l.stdout.Some? {
          stdin := Data(l.stdout.value);
        } else {
          var background := l.Call(os, [], [], Overrides(Keep, Keep, Keep, Set(false)));
          var started := background.value.Call(os, [], [], NoOverrides);
          // `_process.stdout` is `None` when stdout went to the terminal
          if started.value.desc.streamStdout {
            stdin := NoInput;
          } else {
            stdin := Reader(StdoutOf(started.value.process.value));
          }
        }
        var p := right.cmd.Call(os, [], [], Overrides(Set(stdin), Keep, Keep, Keep));
        r := Piped(p.value);
      } else if right.Callable? {
        var rc := l.Returncode(os);
        ghost var afterFirst := (l.returncode, l.stdout, l.stderr, l.process);
        var out := l.Stdout(os);
        var err := l.Stderr(os);
        assert l.desc.lazy && old(l.returncode).Some? ==>
          afterFirst == old((l.returncode, l.stdout, l.stderr, l.process)) == (l.returncode, l.stdout, l.stderr, l.process)
          && os.launched == old(os.launched);
        r := CallbackCalled(right.id, rc, out, err);
      } else if right.Generator? {
        r := Interleaved;
      } else {
        r := Raised(TypeError);
      }
    } else if left.BytesValue? {
      var p := right.cmd.Call(os, [], [], Overrides(Set(Data(left.data)), Keep, Keep, Keep));
      r := Piped(p.value);
    } else if left.Generator? || left.Iterable? {
      r := Interleaved;
    } else {
      r := Raised(TypeError);
    }
  }
}
