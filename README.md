# pipepy in Dafny

pipepy lets Python code run shell commands as if they were Python functions.
`PipePy('ls')('-l', color=True)` is a lazy command descriptor. It builds its
argv from the Python arguments and runs the process the first time its return
code or output is needed. `|` connects descriptors, bytes and callables.
`cd`, `export` and `source` change the working directory and the environment
of the current process, and can undo the change as context managers.
`overload_chars` fills a module namespace with one-letter strings so that
`ls -l` reads as Python. `pymake` is a small task runner over the functions
of a `Makefile.py`: `key=value` arguments set parameters, other arguments
name targets, and callable parameters run as dependencies, at most once per
process. The test helper `strip_leading_spaces` removes a common indentation
from a block of text.

The model is split into these files:

- `wrappers.dfy` (`Wrappers`): `Option` and `Result`.
- `pyvalues.dfy` (`PyValues`): the Python values passed as arguments, their
  `str()`, and the exceptions the modelled code raises.
- `pytext.dfy` (`PyText`): `split()`, `split(maxsplit=m)`, `strip()`,
  `splitlines()` and `join`. They are written once over any element type and
  used for both `str` and `bytes`.
- `pipepy.py` is modelled in `pipepy.dfy` (`Pipepy`):
  - argv construction, as functions and the imperative `ConvertArgs`;
  - the descriptor algebra of `__call__`, `-`, attribute access and `~`, as
    functions on a `Descriptor` value;
  - the `PipePy` class, whose fields `_returncode`, `_stdout`, `_stderr` and
    `_process` are updated in place by `Evaluate`;
  - `as_table` and iteration;
  - the dispatch of `|`.
  The operating system is an `Os` object. It expands glob patterns, records
  every `Popen` call, and says what each process returns and prints.
- `misc.py` is modelled in `misc.dfy` (`Misc`):
  - `overload_chars` over a `Namespace` object;
  - `cd` and `export` over a `ProcessState` object that holds `os.environ`
    and the working directory;
  - the parsing and diffing loop of `source`.
- `pymake.py` is modelled in `pymake.dfy` (`Pymake`):
  - reading the command line;
  - parameter resolution;
  - shell completion;
  - a `Runner` object that holds the module globals `command_args` and
    `already_run` and runs targets and their dependencies.
- `src/tests/utils.py` is modelled in `testutils.dfy` (`TestUtils`):
  `strip_leading_spaces` as a specification function, and the two loops of
  the source as methods proved against it.

In this generation of `pipepy.py`, a non-boolean keyword argument always
becomes `--key=value`, even when the key is one letter. Later versions of the
library turn a one-letter key into `-k value`. The model follows this
version of pipepy.

## Model

| member | source | states |
|---|---|---|
| PyValues.IntDecimalRoundTrip | src/pipepy/pipepy.py:140 | `str()` of an integer reads back as that integer, so distinct integers give distinct arguments |
| PyValues.ToStrsAppend | src/pipepy/pipepy.py:42 | stringifying the parent's args followed by new args is stringifying each part |
| PyValues.ToStrsOfStrs | src/pipepy/pipepy.py:140 | `str()` of string arguments gives them back unchanged |
| PyText.SpaceLen | src/tests/utils.py:11 | the length of the leading whitespace run: every element before it is whitespace, the next one is not |
| PyText.StripEmptyIffBlank | src/tests/utils.py:8 | `line.strip()` is empty exactly when every character of the line is whitespace |
| PyText.SplitJoinRoundTrip | src/pipepy/pipepy.py:216 | words without whitespace, joined by one whitespace element, split back into the same words |
| PyText.SplitMaxFields | src/pipepy/pipepy.py:210 | `split(maxsplit=m)` gives min(#words, m+1) fields; all but the last are the first words, and with at most m+1 words it equals `split()` |
| PyText.SplitMaxLastField | src/pipepy/pipepy.py:210 | the last field starts at a non-whitespace position and only whitespace follows it; when all m cuts were made it is the whole remainder of the line |
| PyText.SplitLinesJoinRoundTrip | src/tests/utils.py:6 | lines without line breaks (last one non-empty) joined by `\n` split back into the same lines |
| Pipepy.Dashed | src/pipepy/pipepy.py:152 | same length as the key; `_` becomes `-` and every other character is kept |
| Pipepy.KeywordFlagsAt | src/pipepy/pipepy.py:151-158 | each keyword argument yields exactly one token, in the order given: `--key`, `--no-key` or `--key=value` |
| Pipepy.FlagRoundTrip | src/pipepy/pipepy.py:152-158 | a keyword token reads back as the dashed key and the setting the value selects (`True`, `False`, or the text of any other value) |
| Pipepy.ExpandAppend | src/pipepy/pipepy.py:143-149 | glob expansion works token by token, so it distributes over concatenation |
| Pipepy.ExpandStable | src/pipepy/pipepy.py:145-149 | tokens that glob maps to nothing or to themselves survive expansion unchanged |
| Pipepy.ConvertArgs | src/pipepy/pipepy.py:138-159 | the argv is every positional argument's glob matches (or the argument itself when nothing matches), followed by one flag per keyword |
| Pipepy.CalledArgs | src/pipepy/pipepy.py:42-59 | the new argv is the parent's argv, passed through glob again, followed by the converted new arguments; it extends the parent's argv when glob leaves the parent's tokens alone |
| Pipepy.SwitchArgs | src/pipepy/pipepy.py:81-84 | `x - s` appends `-s` for a one-character `s` and `--s` otherwise; the result is lazy and keeps the parent's stdin |
| Pipepy.AttributeArgs | src/pipepy/pipepy.py:97 | `x.name` has argv `x._args + [name]`, is not lazy and has no stdin |
| Pipepy.InvertedStreams | src/pipepy/pipepy.py:341-345 | after `~` exactly one of stdout and stderr is streamed, chosen by the parent's stderr flag; a second `~` swaps them |
| Pipepy.LaunchStreams | src/pipepy/pipepy.py:103-125 | stdout or stderr is a pipe iff it is not streamed; stdin is inherited iff there is no stdin and the command is waited for; a readable stdin is passed through |
| Pipepy.ZipAt | src/pipepy/pipepy.py:209-211 | a row's keys are the first headers, one per field, and a header not repeated later maps to its field |
| Pipepy.TableRowFields | src/pipepy/pipepy.py:210-211 | under non-empty headers every line makes a row with min(#words, #headers) entries keyed by the first headers; all fields but the last are words of the line |
| Pipepy.TableRowsLength | src/pipepy/pipepy.py:207-213 | a table has one row per line after the header line, each row that line's dict |
| Pipepy.TableRowsErr | src/pipepy/pipepy.py:208-212 | building the rows fails exactly when some line fails |
| Pipepy.TableOutcome | src/pipepy/pipepy.py:205-213 | `as_table()` fails exactly when nothing was captured, the output has no lines, or the header line has no words while a later line has one; otherwise it has one row per line after the first |
| Pipepy.ParseRow | src/pipepy/pipepy.py:209-211 | the inner loop builds exactly the row dict of the line, or raises `IndexError` |
| Pipepy.ParseTable | src/pipepy/pipepy.py:205-213 | the nested loops build exactly the table, stopping at the first line that raises |
| Pipepy.Os.Popen | src/pipepy/pipepy.py:124-125 | a process start is recorded with its argv and stream modes; its id is its position in the record |
| Pipepy.PipePy.constructor | src/pipepy/pipepy.py:18-30 | the argv is the converted arguments, the settings are the given ones, and nothing has run |
| Pipepy.PipePy.Evaluate | src/pipepy/pipepy.py:99-128 | a lazy object with a return code is left alone; otherwise exactly one process is started with the launch the settings select, and when waited for its results are stored |
| Pipepy.PipePy.WaitProcess | src/pipepy/pipepy.py:130-136 | only bytes stdin is written; the return code is stored, and stdout or stderr only where it was piped |
| Pipepy.PipePy.Returncode | src/pipepy/pipepy.py:161-164 | evaluates, then gives the stored return code |
| Pipepy.PipePy.Stdout | src/pipepy/pipepy.py:179-182 | evaluates, then gives the captured stdout |
| Pipepy.PipePy.Stderr | src/pipepy/pipepy.py:187-190 | evaluates, then gives the captured stderr |
| Pipepy.PipePy.Truthy | src/pipepy/pipepy.py:166-177 | `bool(x)` holds iff the return code is 0 |
| Pipepy.PipePy.Iterate | src/pipepy/pipepy.py:215-216 | the words of the captured stdout; `AttributeError` when stdout was not captured |
| Pipepy.PipePy.AsTable | src/pipepy/pipepy.py:192-213 | evaluates, then gives the table of the captured stdout |
| Pipepy.PipePy.ReturncodeTwice | src/pipepy/pipepy.py:99-101 | a lazy object that is waited for runs at most once over two accesses, and both give the same code; a non-lazy object runs on every access |
| Pipepy.PipePy.Call | src/pipepy/pipepy.py:32-64 | a `_lazy` keyword raises `TypeError` and nothing runs; otherwise a fresh lazy object whose settings inherit every override left out; it is evaluated at once exactly when the call had no arguments and no overrides, and otherwise nothing is started; the parent is not changed |
| Pipepy.PipePy.Sub | src/pipepy/pipepy.py:66-84 | a fresh object with the switch appended; nothing runs |
| Pipepy.PipePy.GetAttr | src/pipepy/pipepy.py:86-97 | a fresh non-lazy object with the attribute name appended; nothing runs |
| Pipepy.PipePy.Invert | src/pipepy/pipepy.py:341-345 | a fresh object with the streams toggled; nothing runs |
| Pipepy.Pipe | src/pipepy/pipepy.py:288-339 | command into command: captured stdout becomes the right side's stdin; otherwise the left side starts in the background and its stdout pipe is the right side's stdin, or no stdin at all when the left side streams its stdout; command into callable: a lazy waited-for left side with a return code starts nothing, one not run yet starts once, and a non-lazy one starts three times (for the return code, stdout and stderr), and the callable gets the return code and output those runs give; a left side not waited for passes the values it already held, after starting three processes unless it is lazy with a return code; afterwards a non-lazy left object holds the third process and, when waited for, its results; a left object not waited for keeps the results it held, and its process moves to the third one unless it is lazy with a return code; a lazy waited-for left object holds the one run's process and results; bytes into command: stdin is the bytes; `TypeError` for the two unrecognised cases; except with a callable on the right, the left object is not changed |
| Misc.OverloadedEntries | src/pipepy/misc.py:22-25 | every ASCII letter is bound afterwards; a name already bound keeps its value, a new one is bound to its own text, and no other name appears |
| Misc.OverloadChars | src/pipepy/misc.py:10-25 | the loop leaves the namespace as `Overloaded` of the old one |
| Misc.Put | src/pipepy/misc.py:227 | `env[key] = value` binds the key, changes no other key and keeps the dict free of duplicates |
| Misc.UpdatedAt | src/pipepy/misc.py:133 | after `os.environ.update(kw)` an exported name has its new value and every other name is unchanged |
| Misc.ProcessState.Chdir | src/pipepy/misc.py:77 | the working directory becomes the resolved path, or `OSError` leaves it unchanged |
| Misc.NewCd | src/pipepy/misc.py:75-77 | `cd(path)` remembers the old absolute directory and changes to the path; it fails with `OSError` iff the path resolves to nothing |
| Misc.Cd.Exit | src/pipepy/misc.py:82-83 | changes back to the remembered directory; the environment is untouched |
| Misc.Export.constructor | src/pipepy/misc.py:129-133 | snapshots the environment, then updates it with the keywords |
| Misc.Export.Exit | src/pipepy/misc.py:138-148 | the loop leaves the environment and the raised error as `Restore` of the old environment |
| Misc.RestoreAt | src/pipepy/misc.py:139-148 | when every exported name is still set, nothing is raised; a name still holding its exported value gets its previous value back (or is deleted if it had none); every other name keeps its current value |
| Misc.RestoreError | src/pipepy/misc.py:140 | leaving `export` raises `KeyError` exactly when an exported name is no longer set |
| Misc.ExportRoundTrip | src/pipepy/misc.py:129-148 | `with export(**kw)` with nothing changed inside leaves the environment exactly as before |
| Misc.ParseDeclareSound | src/pipepy/misc.py:222 | a line that parses is, once stripped, exactly the `declare -x` line of the name and value it yields, and these are capturable |
| Misc.ParseDeclareComplete | src/pipepy/misc.py:222 | every `declare -x KEY="VALUE"` line with capturable name and value, with any surrounding whitespace, parses to that name and value |
| Misc.DeclareRoundTrip | src/pipepy/misc.py:222 | generating a declaration line and parsing it gives back the name and value |
| Misc.CollectLinesAt | src/pipepy/misc.py:221-227 | after one output, each name holds its last accepted declaration there, or its earlier value; the dict keeps distinct keys |
| Misc.CollectAt | src/pipepy/misc.py:212-227 | each name holds exactly its last declaration that differs from the environment, over the outputs the loop reads in sourcing order: every successful run, and a failed run too unless `quiet` (`raise_for_returncode()` returns) |
| Misc.CollectDeclarations | src/pipepy/misc.py:212-227 | the nested loops over the files, root first, and their lines compute exactly `Collect`, failed runs included |
| Misc.CollectFrom | src/pipepy/misc.py:221-227 | the inner loop over one output's lines computes exactly `CollectLines` |
| Misc.CollectChanged | src/pipepy/misc.py:226-227 | every name `source` collects holds a value that differs from the environment's |
| Misc.CollectQuiet | src/pipepy/misc.py:216-218 | with `quiet` a failed run is skipped: sourcing reads exactly the successful runs, as the loop without `quiet` would over those alone |
| Misc.SourcedEnviron | src/pipepy/misc.py:212-228 | after `source` each name holds its last declaration that differs from the environment, or the value it had |
| Misc.Source | src/pipepy/misc.py:212-228 | collects the declarations root first and returns an `export` of them: the snapshot is the old environment, and the environment is updated with the collected dict; the working directory is unchanged |
| Pymake.MemberValue | src/pipepy/pymake.py:62 | a Makefile attribute is callable exactly when it is a callable member (a function, a class or a callable object such as a `PipePy` command) |
| Pymake.ClassifyRoundTrip | src/pipepy/pymake.py:35-37 | `key=value` with no other `=` splits into that key and value |
| Pymake.ClassifySound | src/pipepy/pymake.py:35-37 | an argument read as an assignment is exactly `key=value` with no other `=` |
| Pymake.SettleError | src/pipepy/pymake.py:34-37 | reading the command line fails exactly when some argument holds more than one `=` |
| Pymake.SettleTargets | src/pipepy/pymake.py:33-39 | on success the targets are the arguments without `=`, in order |
| Pymake.SettleAssignments | src/pipepy/pymake.py:34-37 | on success each parameter holds its last assignment, or what it held before |
| Pymake.RunList | src/pipepy/pymake.py:41-42 | the list of targets run is never empty: the default target stands in when none is named |
| Pymake.ResolveAsWrittenDiffers | src/pipepy/pymake.py:55-60 | the resolution as written and the corrected one differ exactly for a parameter without default, set on the command line and not defined in the Makefile; there the code as written raises `AttributeError` and the corrected lookup gives the command-line value |
| Pymake.CommandLineValueIgnored | src/pipepy/pymake.py:57-58 | `def deploy(env)` with no `env` attribute, run as `pymake deploy env=prod`: the code as written raises, and the corrected lookup gives `prod` |
| Pymake.MemoArgs | src/pipepy/pymake.py:63-65 | results memoised while a dependency ran do not change the arguments already collected |
| Pymake.CandidatesAt | src/pipepy/pymake.py:89-96 | bash completion offers exactly the names that start with the word and are functions defined in the Makefile module |
| Pymake.BashCompletion | src/pipepy/pymake.py:85-97 | the loop over `dir(Makefile)` computes exactly the candidates, in order |
| Pymake.CompleteDispatch | src/pipepy/pymake.py:82-140 | completion handles the command line iff it starts with one of the four flags; it fails only for `--complete-bash` without a word |
| Pymake.PymakeComplete | src/pipepy/pymake.py:72-140 | the completion step, with its bash loop, gives exactly `Complete` |
| Pymake.Runner.constructor | src/pipepy/pymake.py:6-8 | the memo, the command-line settings and the call record start empty |
| Pymake.Runner.Run | src/pipepy/pymake.py:48-67 | `RecursionError` when out of depth, `AttributeError` for an unknown target, `TypeError` for a non-callable one; a run of a function already in progress (a dependency cycle) never succeeds; the calls it makes before the target's own are dependency runs of functions with no memoised result, each run once, and the memo afterwards is the old memo plus exactly each one's result; on success the target was called last, with one argument per parameter as the corrected resolution and the memo give it, and its result is returned |
| Pymake.Runner.Arguments | src/pipepy/pymake.py:55-67 | the loop over the parameters gives one argument per parameter, as the resolution and the final memo give it, or stops at the first that raises; every call it makes is a dependency run |
| Pymake.Runner.Argument | src/pipepy/pymake.py:56-67 | a parameter's argument: its value, or for a callable value the memoised result of the function of its name, run first when it has none |
| Pymake.Runner.RunDependency | src/pipepy/pymake.py:63-64 | a dependency with no memoised result is run and its result memoised under its name; the run is a dependency run |
| Pymake.Runner.ReadCommandLine | src/pipepy/pymake.py:33-39 | the loop leaves `command_args`, the targets and the error as `Settle` gives them |
| Pymake.Runner.RunTargets | src/pipepy/pymake.py:44-45 | each target is run in order, without looking at the memo: the targets' own calls are recorded at strictly increasing positions; every other call, across all the targets, is a dependency run of a function with no memoised result before the loop, no function is run twice that way, and the memo afterwards is the old memo plus exactly their results (so a dependency shared by several targets runs at most once); when a target raises, the targets before it ran in order; earlier calls stay recorded |
| Pymake.Runner.Pymake | src/pipepy/pymake.py:27-45 | a completion request is answered and nothing else changes; otherwise `command_args` is read, a bad argument stops before any target runs, on success every target in the run list has been called, in order, and over the whole command every call that is not a target's own is a dependency run made once, with its result memoised |
| TestUtils.FirstNonBlank | src/tests/utils.py:7-14 | the first line that is not blank, with all lines before it blank; `None` iff every line is blank |
| TestUtils.FindFirstNonBlank | src/tests/utils.py:7-12 | the first loop finds exactly `FirstNonBlank` |
| TestUtils.DedentAt | src/tests/utils.py:16-22 | dedenting succeeds iff every line's first `n` characters are whitespace, and then keeps every line, in order, without them (a shorter line becomes empty); otherwise it fails at the first line that is not indented |
| TestUtils.DedentErrPrefix | src/tests/utils.py:19-20 | once a line has failed, later lines are not looked at |
| TestUtils.DedentLoop | src/tests/utils.py:16-21 | the second loop computes exactly `Dedent` |
| TestUtils.StripLeadingSpacesLoop | src/tests/utils.py:5-22 | the function with its two loops gives exactly `StripLeadingSpaces` |
| TestUtils.NoNonEmptyLines | src/tests/utils.py:13-14 | "Text has no non-empty lines" is raised exactly when every character of every line is whitespace |
| TestUtils.DedentRoundTrip | src/tests/utils.py:5-22 | indenting every line by the same spaces, when the first non-blank line starts with a non-space, is undone |

## Left out

- Processes: `subprocess.Popen`, `communicate` and `wait` are the `Os` oracle. A process's result depends only on its id and on the bytes written to it.
- Pipepy.Pipe: the generator and iterable branches write into a running process while reading from it; the model only reports that they were taken (`Interleaved`).
- Pipepy.PipePy.Call: a keyword that names one of the other overrides (`_stdin`, `_stream_stdout`, `_stream_stderr`, `_wait`, `_text`, `_encoding`) is not part of the keyword arguments here; the overrides are separate parameters.
- Redirection (`>`, `>>`, `<`), `__repr__`, `__str__`, `set_encoding` and decoding: file I/O and codecs.
- `glob` is an uninterpreted function from a pattern to the list of matches.
- Pipepy.CalledArgs: `__call__` passes the parent's argv through glob again. The model states this, and proves that the parent's argv is kept only when glob leaves its tokens alone.
- The exec-path scan at import time of `misc.py`: it reads directories and file modes.
- `source`: the file-system walk for the files and the shell runs are inputs. Each run is given as its success and its output lines. In this version of pipepy, `source` does not work on real output. A `str` on the left of `|` goes through `__ror__` into the iterable branch of `_pipe` (src/pipepy/pipepy.py:285-286, 331-336), which writes the string's characters, as `str`, to the binary stdin pipe of the shell: `TypeError` at misc.py:215, before any output is read. Past that, iterating a `PipePy` yields the `bytes` words of its output, not its lines, and these would meet a `str` regular expression. The model takes the output lines as text, as the regular expression expects.
- `source` when a run fails and `quiet` is false: `raise_for_returncode` is not a method of the `PipePy` class in this version of pipepy, so `result.raise_for_returncode()` starts the command `bash raise_for_returncode` and returns. That extra process is not modelled; the failed run's output is read as usual.
- `declare -x` lists inherited variables as well as the sourced ones. The model reads whatever lines the run gives.
- Misc.Cd.Exit: the directory restored is the remembered one only if that absolute path still resolves to itself. The file system is the `resolve` oracle.
- `export` with a value that is not a string (`TypeError` from `os.environ`): keyword values are strings here.
- `_load_makefile` and `inspect.signature` are inputs: the Makefile is a value listing `dir(Makefile)`, its attributes and each function's parameters. Keyword-only and variadic parameters are not modelled, and neither is a missing `Makefile.py`, where `Makefile` is `None`.
- What a Makefile function does besides returning a value: `invoke` gives its result, and `calls` records each call.
- Pymake.Runner.Run: Python's recursion limit is the `depth` argument. The contract states that a dependency cycle never succeeds, not that the error it ends in is `RecursionError`: a cycle through a parameter that fails to resolve raises that error first.
- Pymake.Runner.Run: it uses the corrected parameter resolution (see Findings). The resolution as written is `ResolveAsWritten`.
- The text printed by `_pymake_complete`: bash and zsh candidates are the names, without the zsh script text or the docstrings.
- `src/pipepy/utils.py`, `src/pipepy/exceptions.py` and the demo and playground scripts are not part of this model.

## Findings

| source | as written | input that shows it | evidently intended | confidence | as-written member | corrected member |
|---|---|---|---|---|---|---|
| src/pipepy/pymake.py:57-58 | `getattr(Makefile, name)` is evaluated before `command_args.get` looks the name up | `def deploy(env)` with no `env` attribute, `pymake deploy env=prod`: raises `AttributeError` | the command-line value `prod` is passed | not executed | Pymake.CommandLineValueIgnored | Pymake.ResolveAsWrittenDiffers |
