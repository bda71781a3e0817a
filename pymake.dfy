/** `pymake`: a task runner over the functions of a `Makefile.py`. The command
    line sets parameters (`key=value`) and names targets; a target's
    parameters are filled from the command line, their defaults or Makefile
    attributes of the same name, and a callable one is first run as a
    dependency, at most once per process thanks to the `already_run` memo. */
module Pymake {

  import opened Wrappers
  import opened PyValues
  import opened PyText

  // ---------------------------------------------------------------------
  // The Makefile module

  /** A value bound to a Makefile name, given as a default, or returned by a
      Makefile function: a plain Python value, or some callable object. */
  datatype Value = Plain(v: PyValue) | Callable(id: nat)

  /** A parameter of a Makefile function, with its default value if it has one. */
  datatype Param = Param(name: string, default: Option<Value>)

  /** An attribute of the loaded Makefile module: a callable (a function,
      a class or a callable object such as a `PipePy` command) with its
      parameters and `__module__`, or a value that cannot be called. */
  datatype Member = Function(params: seq<Param>, moduleName: string, id: nat) | Data(value: PyValue)

  /** The loaded Makefile module: `dir(Makefile)` and its attributes. */
  datatype Makefile = Makefile(names: seq<string>, members: map<string, Member>)

  const DefaultTargetName: string := "DEFAULT_PYMAKE_TARGET"
  const MakefileModule: string := "Makefile"

  /** `getattr(Makefile, name)` seen as a value. */
  function MemberValue(m: Member): (v: Value)
    ensures v.Callable? <==> m.Function?
  {
    match m
    case Function(_, _, id) => Callable(id)
    case Data(x) => Plain(x)
  }

  // ---------------------------------------------------------------------
  // The command line

  /** How `_pymake` reads one command-line argument. */
  datatype ArgKind = Target(name: string) | Assignment(key: string, value: string) | TooManyEquals

  /** An argument without `=` is a target; one with a single `=` sets a
      parameter; `key, value = arg.split('=')` fails on any other. */
  function Classify(arg: string): ArgKind {
    if '=' !in arg then Target(arg)
    else
      var k := RunLen(arg, c => c == '=');
      if '=' in arg[k + 1..] then TooManyEquals else Assignment(arg[..k], arg[k + 1..])
  }

  /** `key=value` with no other `=` reads back as that assignment. */
  lemma ClassifyRoundTrip(key: string, value: string)
    requires '=' !in key && '=' !in value
    ensures Classify(key + "=" + value) == Assignment(key, value)
  {
    var arg := key + "=" + value;
    assert arg[|key|] == '=';
    var k := RunLen(arg, c => c == '=');
    assert k == |key| by {
      assert forall i | 0 <= i < |key| :: arg[i] == key[i];
    }
    assert arg[..k] == key;
    assert arg[k + 1..] == value;
  }

  /** An assignment is exactly `key=value` with no other `=`. */
  lemma ClassifySound(arg: string)
    requires Classify(arg).Assignment?
    ensures '=' !in Classify(arg).key && '=' !in Classify(arg).value
    ensures arg == Classify(arg).key + "=" + Classify(arg).value
  {
    var k := RunLen(arg, c => c == '=');
    assert arg == arg[..k] + [arg[k]] + arg[k + 1..];
    assert '=' !in arg[..k] by {
      assert forall i | 0 <= i < k :: arg[..k][i] == arg[i];
    }
  }

  /** The loop over the command line: assignments go into `commandArgs`,
      targets are collected in order, and the first argument with more than
      one `=` raises `ValueError`, leaving the assignments made before it. */
  function Settle(commandArgs: map<string, string>, targets: seq<string>, args: seq<string>)
    : (map<string, string>, seq<string>, Option<PyError>)
    decreases args
  {
    if args == [] then (commandArgs, targets, None)
    else
      match Classify(args[0])
      case Target(t) => Settle(commandArgs, targets + [t], args[1..])
      case Assignment(k, v) => Settle(commandArgs[k := v], targets, args[1..])
      case TooManyEquals => (commandArgs, targets, Some(ValueError("too many values to unpack (expected 2)")))
  }

  /** The arguments that name targets, in order. */
  function TargetsOf(args: seq<string>): (ts: seq<string>)
    ensures forall t | t in ts :: t in args && '=' !in t
  {
    if args == [] then []
    else if '=' !in args[0] then [args[0]] + TargetsOf(args[1..])
    else TargetsOf(args[1..])
  }

  /** The value the last assignment of `key` on the command line gives it. */
  function LastAssigned(args: seq<string>, key: string): Option<string> {
    if args == [] then None
    else
      var later := LastAssigned(args[1..], key);
      var a := Classify(args[0]);
      if later.Some? then later else if a.Assignment? && a.key == key then Some(a.value) else None
  }

  /** Reading the command line fails exactly when some argument holds more
      than one `=`. */
  lemma {:induction false} SettleError(commandArgs: map<string, string>, targets: seq<string>, args: seq<string>)
    ensures Settle(commandArgs, targets, args).2.Some? <==> exists i | 0 <= i < |args| :: Classify(args[i]).TooManyEquals?
    decreases args
  {
    if args != [] {
      match Classify(args[0])
      case Target(t) =>
        SettleError(commandArgs, targets + [t], args[1..]);
        ExistsShift(args);
      case Assignment(k, v) =>
        SettleError(commandArgs[k := v], targets, args[1..]);
        ExistsShift(args);
      case TooManyEquals =>
    }
  }

  /** When reading the command line succeeds, the targets are the arguments
      without `=`, in their order, after those already collected. */
  lemma {:induction false} SettleTargets(commandArgs: map<string, string>, targets: seq<string>, args: seq<string>)
    requires Settle(commandArgs, targets, args).2.None?
    ensures Settle(commandArgs, targets, args).1 == targets + TargetsOf(args)
    decreases args
  {
    if args != [] {
      match Classify(args[0])
      case Target(t) =>
        SettleTargets(commandArgs, targets + [t], args[1..]);
        assert targets + [t] + TargetsOf(args[1..]) == targets + TargetsOf(args);
      case Assignment(k, v) =>
        SettleTargets(commandArgs[k := v], targets, args[1..]);
      case TooManyEquals =>
    }
  }

  /** When reading the command line succeeds, each parameter holds the value
      of its last assignment, or what it held before when it has none. */
  lemma {:induction false} SettleAssignments(commandArgs: map<string, string>, targets: seq<string>, args: seq<string>)
    requires Settle(commandArgs, targets, args).2.None?
    ensures forall key :: key in Settle(commandArgs, targets, args).0 <==> key in commandArgs || LastAssigned(args, key).Some?
    ensures forall key | key in Settle(commandArgs, targets, args).0 ::
      Settle(commandArgs, targets, args).0[key] == (if LastAssigned(args, key).Some? then LastAssigned(args, key).value else commandArgs[key])
    decreases args
  {
    if args != [] {
      match Classify(args[0])
      case Target(t) =>
        SettleAssignments(commandArgs, targets + [t], args[1..]);
      case Assignment(k, v) =>
        SettleAssignments(commandArgs[k := v], targets, args[1..]);
      case TooManyEquals =>
    }
  }

  lemma ExistsShift(args: seq<string>)
    requires args != [] && !Classify(args[0]).TooManyEquals?
    ensures (exists i | 0 <= i < |args| :: Classify(args[i]).TooManyEquals?) <==>
            (exists i | 0 <= i < |args[1..]| :: Classify(args[1..][i]).TooManyEquals?)
  {
    if exists i | 0 <= i < |args| :: Classify(args[i]).TooManyEquals? {
      var i :| 0 <= i < |args| && Classify(args[i]).TooManyEquals?;
      assert args[1..][i - 1] == args[i];
    }
    if exists i | 0 <= i < |args[1..]| :: Classify(args[1..][i]).TooManyEquals? {
      var i :| 0 <= i < |args[1..]| && Classify(args[1..][i]).TooManyEquals?;
      assert args[1..][i] == args[i + 1];
    }
  }

  /** With no target named, the one `Makefile.DEFAULT_PYMAKE_TARGET` names. */
  function DefaultTarget(mf: Makefile): Result<string, PyError> {
    if DefaultTargetName !in mf.members then Err(AttributeError)
    else
      match mf.members[DefaultTargetName]
      case Data(Str(t)) => Ok(t)
      case _ => Err(TypeError)
  }

  /** The targets `_pymake` runs, in order. */
  function RunList(mf: Makefile, targets: seq<string>): (r: Result<seq<string>, PyError>)
    ensures r.Ok? ==> r.value != []
  {
    if targets != [] then Ok(targets)
    else
      match DefaultTarget(mf)
      case Ok(t) => Ok([t])
      case Err(e) => Err(e)
  }

  // ---------------------------------------------------------------------
  // Parameter values

  /** `_run`'s choice of a parameter's value, as written: when the parameter
      has no default, `getattr(Makefile, name)` is evaluated as the fallback
      of `command_args.get` before the lookup, so a missing attribute raises
      even when the command line gives the value. */
  function ResolveAsWritten(mf: Makefile, commandArgs: map<string, string>, p: Param): Result<Value, PyError> {
    match p.default
    case None =>
      if p.name !in mf.members then Err(AttributeError)
      else if p.name in commandArgs then Ok(Plain(Str(commandArgs[p.name])))
      else Ok(MemberValue(mf.members[p.name]))
    case Some(d) =>
      if p.name in commandArgs then Ok(Plain(Str(commandArgs[p.name]))) else Ok(d)
  }

  /** A parameter's value: the command line's, else its default, else the
      Makefile attribute of the same name (`AttributeError` when there is
      none). */
  function Resolve(mf: Makefile, commandArgs: map<string, string>, p: Param): Result<Value, PyError> {
    if p.name in commandArgs then Ok(Plain(Str(commandArgs[p.name])))
    else
      match p.default
      case Some(d) => Ok(d)
      case None =>
        if p.name in mf.members then Ok(MemberValue(mf.members[p.name])) else Err(AttributeError)
  }

  /** The two resolutions differ in one case only: a parameter without a
      default that the command line sets and the Makefile does not define,
      where the code as written raises and the intended lookup takes the
      command-line value. */
  lemma ResolveAsWrittenDiffers(mf: Makefile, commandArgs: map<string, string>, p: Param)
    ensures ResolveAsWritten(mf, commandArgs, p) != Resolve(mf, commandArgs, p) <==>
      p.default.None? && p.name in commandArgs && p.name !in mf.members
    ensures ResolveAsWritten(mf, commandArgs, p) != Resolve(mf, commandArgs, p) ==>
      ResolveAsWritten(mf, commandArgs, p) == Err(AttributeError)
      && Resolve(mf, commandArgs, p) == Ok(Plain(Str(commandArgs[p.name])))
  {
  }

  /** `def deploy(env): ...` with no `env` attribute in the Makefile, run as
      `pymake deploy env=prod`: the code as written raises `AttributeError`. */
  lemma CommandLineValueIgnored()
    ensures var mf := Makefile(["deploy"], map["deploy" := Function([Param("env", None)], MakefileModule, 0)]);
            var p := Param("env", None);
            var commandArgs := Settle(map[], [], ["deploy", "env=prod"]).0;
            ResolveAsWritten(mf, commandArgs, p) == Err(AttributeError)
            && Resolve(mf, commandArgs, p) == Ok(Plain(Str("prod")))
  {
    DeployCommandLine();
  }

  /** `pymake deploy env=prod` sets `env` to `prod`. */
  lemma DeployCommandLine()
    ensures Settle(map[], [], ["deploy", "env=prod"]) == (map["env" := "prod"], ["deploy"], None)
  {
    DeployTarget();
    EnvAssignment();
  }

  lemma DeployTarget()
    ensures Settle(map[], [], ["deploy", "env=prod"]) == Settle(map[], ["deploy"], ["env=prod"])
  {
    assert Classify("deploy") == Target("deploy");
    var args := ["deploy", "env=prod"];
    assert args[0] == "deploy" && args[1..] == ["env=prod"];
    var none: seq<string> := [];
    assert none + ["deploy"] == ["deploy"];
  }

  lemma EnvAssignment()
    ensures Settle(map[], ["deploy"], ["env=prod"]) == (map["env" := "prod"], ["deploy"], None)
  {
    EnvClassified();
    var args := ["env=prod"];
    assert args[0] == "env=prod" && args[1..] == [];
  }

  lemma EnvClassified()
    ensures Classify("env=prod") == Assignment("env", "prod")
  {
    ClassifyRoundTrip("env", "prod");
    assert "env" + "=" + "prod" == "env=prod";
  }

  /** The argument a parameter contributes, given the memo: its value, or
      for a callable value the memoised result of the Makefile function of
      the parameter's name. */
  function ArgOf(mf: Makefile, commandArgs: map<string, string>, memo: map<string, Value>, p: Param): Option<Value> {
    match Resolve(mf, commandArgs, p)
    case Err(_) => None
    case Ok(Callable(_)) => if p.name in memo then Some(memo[p.name]) else None
    case Ok(v) => Some(v)
  }

  /** `m` keeps every entry of `m0`. */
  ghost predicate Extends(m0: map<string, Value>, m: map<string, Value>) {
    forall k | k in m0 :: k in m && m[k] == m0[k]
  }

  /** A call of a Makefile function and the arguments it received. */
  datatype Call = Call(target: string, args: seq<Value>)

  // ---------------------------------------------------------------------
  // Completion

  /** What `_pymake_complete` does for a command line. */
  datatype CompletionAction =
    | NotCompletion
    | SetupBash
    | BashCandidates(names: seq<string>)
    | SetupZsh
    | ZshCandidates(names: seq<string>)

  /** A name completion offers: a callable defined in the Makefile itself. */
  predicate IsTask(mf: Makefile, name: string) {
    name in mf.members && mf.members[name].Function? && mf.members[name].moduleName == MakefileModule
  }

  /** The names of `names` that start with `word` and are tasks, in order. */
  function Candidates(mf: Makefile, names: seq<string>, word: string): seq<string> {
    if names == [] then []
    else
      var n := names[|names| - 1];
      Candidates(mf, names[..|names| - 1], word) + (if word <= n && IsTask(mf, n) then [n] else [])
  }

  /** Exactly the names that start with `word` and are tasks are offered. */
  lemma {:induction false} CandidatesAt(mf: Makefile, names: seq<string>, word: string)
    ensures forall n :: n in Candidates(mf, names, word) <==> n in names && word <= n && IsTask(mf, n)
  {
    if names != [] {
      var init := names[..|names| - 1];
      CandidatesAt(mf, init, word);
      assert names == init + [names[|names| - 1]];
    }
  }

  /** The `--complete-bash` loop over `dir(Makefile)`. */
  method BashCompletion(mf: Makefile, word: string) returns (result: seq<string>)
    ensures result == Candidates(mf, mf.names, word)
  {
    result := [];
    for i := 0 to |mf.names|
      invariant result == Candidates(mf, mf.names[..i], word)
    {
      var attr := mf.names[i];
      assert mf.names[..i + 1][..i] == mf.names[..i];
      if !(word <= attr) {
        continue;
      }
      if !IsTask(mf, attr) {
        continue;
      }
      result := result + [attr];
    }
    assert mf.names[..|mf.names|] == mf.names;
  }

  /** `_pymake_complete(*args)`: the first argument picks a completion
      action; `--complete-bash` completes the second-to-last argument. */
  function Complete(mf: Makefile, args: seq<string>): Result<CompletionAction, PyError> {
    if args == [] then Ok(NotCompletion)
    else if args[0] == "--setup-bash-completion" then Ok(SetupBash)
    else if args[0] == "--complete-bash" then
      if |args| < 2 then Err(IndexError) else Ok(BashCandidates(Candidates(mf, mf.names, args[|args| - 2])))
    else if args[0] == "--setup-zsh-completion" then Ok(SetupZsh)
    else if args[0] == "--complete-zsh" then Ok(ZshCandidates(Candidates(mf, mf.names, "")))
    else Ok(NotCompletion)
  }

  /** The completion flags. */
  const CompletionFlags: set<string> :=
    {"--setup-bash-completion", "--complete-bash", "--setup-zsh-completion", "--complete-zsh"}

  /** `_pymake_complete` handles the command line exactly when it starts with
      one of the four flags, and fails only for `--complete-bash` without a
      word to complete. */
  lemma CompleteDispatch(mf: Makefile, args: seq<string>)
    ensures Complete(mf, args) == Ok(NotCompletion) <==> args == [] || args[0] !in CompletionFlags
    ensures Complete(mf, args).Err? <==> args != [] && args[0] == "--complete-bash" && |args| < 2
  {
  }

  /** `_pymake_complete(*args)`, the bash branch running its loop. */
  method PymakeComplete(mf: Makefile, args: seq<string>) returns (r: Result<CompletionAction, PyError>)
    ensures r == Complete(mf, args)
  {
    if args != [] && args[0] == "--complete-bash" {
      if |args| < 2 {
        return Err(IndexError);
      }
      var names := BashCompletion(mf, args[|args| - 2]);
      return Ok(BashCandidates(names));
    }
    return Complete(mf, args);
  }

  // ---------------------------------------------------------------------
  // The runner

  /** The module-level state of `pymake` in one process: the loaded
      Makefile, the `command_args` and `already_run` dictionaries, and the
      Makefile functions called so far. What a Makefile function returns is
      given by `invoke`; what else it does is not part of this model. */
  class Runner {
    const makefile: Makefile
    const invoke: (string, seq<Value>) -> Value
    var commandArgs: map<string, string>
    var alreadyRun: map<string, Value>
    var calls: seq<Call>

    constructor (makefile: Makefile, invoke: (string, seq<Value>) -> Value)
      ensures this.makefile == makefile && this.invoke == invoke
      ensures commandArgs == map[] && alreadyRun == map[] && calls == []
    {
      this.makefile := makefile;
      this.invoke := invoke;
      commandArgs := map[];
      alreadyRun := map[];
      calls := [];
    }

    /** The runs in progress below the one about to start: `pending` maps
        each Makefile function whose run is waiting for a dependency to the
        index of the parameter it is resolving. That dependency is in
        progress too, or is `next`, the run about to start. No function in
        progress has a memoised result. */
    ghost predicate InProgress(pending: map<string, nat>, next: string)
      reads this
    {
      forall x | x in pending ::
        && x !in alreadyRun
        && x in makefile.members && makefile.members[x].Function?
        && pending[x] < |makefile.members[x].params|
        && var p := makefile.members[x].params[pending[x]];
           && Resolve(makefile, commandArgs, p).Ok? && Resolve(makefile, commandArgs, p).value.Callable?
           && (p.name in pending || p.name == next)
    }

    /** `_run(target)`. `depth` is how many more nested calls the
        interpreter allows before it raises `RecursionError`. Each parameter
        is resolved in order; a callable value is replaced by the result of
        running the Makefile function of the parameter's name, which is run
        only if `already_run` has no result for it yet and whose result is
        then memoised. `pending` holds the runs this one was started from
        (see `InProgress`): a run of a function already in progress, a
        dependency cycle, never succeeds. */
    method Run(target: string, depth: nat, ghost pending: map<string, nat>) returns (r: Result<Value, PyError>)
      requires InProgress(pending, target)
      requires pending == map[] || target !in alreadyRun
      modifies this`alreadyRun, this`calls
      decreases depth, 2
      ensures |old(calls)| <= |calls| && calls[..|old(calls)|] == old(calls)
      ensures depth == 0 ==> r == Err(RecursionError)
      ensures depth > 0 && target !in makefile.members ==> r == Err(AttributeError)
      ensures depth > 0 && target in makefile.members && makefile.members[target].Data? ==> r == Err(TypeError)
      ensures r.Ok? ==>
        target in makefile.members && makefile.members[target].Function?
        && |calls| > |old(calls)| && calls[|calls| - 1].target == target
        && r.value == invoke(target, calls[|calls| - 1].args)
        && Resolves(makefile, commandArgs, alreadyRun, makefile.members[target].params, calls[|calls| - 1].args)
      ensures DependencyRuns(old(alreadyRun), alreadyRun, calls, |old(calls)|, if r.Ok? then |calls| - 1 else |calls|, invoke)
      ensures target in pending ==> r.Err?
      ensures forall x | x in pending :: x !in alreadyRun
      ensures target !in old(alreadyRun) ==> target !in alreadyRun
    {
      NoDependencyRuns(alreadyRun, calls, invoke);
      if depth == 0 {
        return Err(RecursionError);
      }
      if target !in makefile.members {
        return Err(AttributeError);
      }
      if makefile.members[target].Data? {
        return Err(TypeError);
      }
      var args := Arguments(target, depth, pending);
      if args.Err? {
        return Err(args.error);
      }
      ExtendDependencyRuns(old(alreadyRun), alreadyRun, calls, |old(calls)|, Call(target, args.value), invoke);
      calls := calls + [Call(target, args.value)];
      return Ok(invoke(target, args.value));
    }

    /** The loop of `_run` over the parameters of `target`, in order. */
    method Arguments(target: string, depth: nat, ghost pending: map<string, nat>) returns (r: Result<seq<Value>, PyError>)
      requires depth > 0 && target in makefile.members && makefile.members[target].Function?
      requires InProgress(pending, target)
      requires pending == map[] || target !in alreadyRun
      modifies this`alreadyRun, this`calls
      decreases depth, 1
      ensures |old(calls)| <= |calls| && calls[..|old(calls)|] == old(calls)
      ensures r.Ok? ==> Resolves(makefile, commandArgs, alreadyRun, makefile.members[target].params, r.value)
      ensures DependencyRuns(old(alreadyRun), alreadyRun, calls, |old(calls)|, |calls|, invoke)
      ensures target in pending ==> r.Err?
      ensures InProgress(pending, target)
      ensures target !in old(alreadyRun) ==> target !in alreadyRun
    {
      NoDependencyRuns(alreadyRun, calls, invoke);
      var params := makefile.members[target].params;
      var args: seq<Value> := [];
      for i := 0 to |params|
        invariant |old(calls)| <= |calls| && calls[..|old(calls)|] == old(calls)
        invariant Resolves(makefile, commandArgs, alreadyRun, params[..i], args)
        invariant DependencyRuns(old(alreadyRun), alreadyRun, calls, |old(calls)|, |calls|, invoke)
        invariant InProgress(pending, target)
        invariant pending == map[] || target !in alreadyRun
        invariant target !in old(alreadyRun) ==> target !in alreadyRun
        invariant target in pending ==> i <= pending[target]
      {
        ghost var memoBefore := alreadyRun;
        ghost var callsBefore := calls;
        var arg := Argument(target, i, depth, pending);
        assert calls[..|old(calls)|] == callsBefore[..|old(calls)|];
        JoinDependencyRuns(old(alreadyRun), memoBefore, alreadyRun, callsBefore, calls, |old(calls)|, |calls|, invoke);
        if arg.Err? {
          return Err(arg.error);
        }
        DependencyRunsExtend(memoBefore, alreadyRun, calls, |callsBefore|, |calls|, invoke);
        ResolvesNext(makefile, commandArgs, memoBefore, alreadyRun, params, i, args, arg.value);
        args := args + [arg.value];
      }
      assert params[..|params|] == params;
      return Ok(args);
    }

    /** One parameter of `_run`: its value, where a callable value is
        replaced by the memoised result of the Makefile function of the
        parameter's name, which is run first when it has none. */
    method Argument(target: string, i: nat, depth: nat, ghost pending: map<string, nat>) returns (r: Result<Value, PyError>)
      requires depth > 0 && target in makefile.members && makefile.members[target].Function?
      requires i < |makefile.members[target].params|
      requires InProgress(pending, target)
      requires pending == map[] || target !in alreadyRun
      requires target in pending ==> i <= pending[target]
      modifies this`alreadyRun, this`calls
      decreases depth, 0
      ensures |old(calls)| <= |calls| && calls[..|old(calls)|] == old(calls)
      ensures r.Ok? ==> ArgOf(makefile, commandArgs, alreadyRun, makefile.members[target].params[i]) == Some(r.value)
      ensures DependencyRuns(old(alreadyRun), alreadyRun, calls, |old(calls)|, |calls|, invoke)
      ensures target in pending && i == pending[target] ==> r.Err?
      ensures InProgress(pending, target)
      ensures target !in old(alreadyRun) ==> target !in alreadyRun
    {
      NoDependencyRuns(alreadyRun, calls, invoke);
      var p := makefile.members[target].params[i];
      var value := Resolve(makefile, commandArgs, p);
      if value.Err? {
        return Err(value.error);
      }
      if !value.value.Callable? {
        return Ok(value.value);
      }
      if p.name !in alreadyRun {
        ghost var inner := if target in alreadyRun then pending else pending[target := i];
        var dep := RunDependency(p.name, depth - 1, inner);
        if dep.Err? {
          return dep;
        }
      }
      return Ok(alreadyRun[p.name]);
    }

    /** `_pymake(*args)`: completion requests are answered and nothing else
        happens; otherwise the command line is read into `command_args` and
        the targets, and each target is run in order without looking at the
        memo, so a target named on the command line runs even when it
        already ran as a dependency. `ran` holds the position in `calls` of
        each target's own call. */
    method Pymake(args: seq<string>, depth: nat) returns (action: CompletionAction, raised: Option<PyError>, ghost ran: seq<nat>)
      modifies this
      ensures Complete(makefile, args).Err? ==> raised == Some(Complete(makefile, args).error) && unchanged(this)
      ensures Complete(makefile, args).Ok? && Complete(makefile, args).value != NotCompletion ==>
        action == Complete(makefile, args).value && raised == None && unchanged(this)
      ensures Complete(makefile, args) == Ok(NotCompletion) ==>
        action == NotCompletion && commandArgs == Settle(old(commandArgs), [], args).0
        && Extends(old(alreadyRun), alreadyRun)
        && |old(calls)| <= |calls| && calls[..|old(calls)|] == old(calls)
        && Fresh(old(alreadyRun), alreadyRun, Without(calls, |old(calls)|, ran), invoke)
      ensures Complete(makefile, args) == Ok(NotCompletion) && Settle(old(commandArgs), [], args).2.Some? ==>
        raised == Settle(old(commandArgs), [], args).2 && alreadyRun == old(alreadyRun) && calls == old(calls)
      ensures Complete(makefile, args) == Ok(NotCompletion) && raised == None ==>
        var ts := RunList(makefile, Settle(old(commandArgs), [], args).1);
        ts.Ok? && RanInOrder(calls, |old(calls)|, ts.value, ran)
    {
      var c := PymakeComplete(makefile, args);
      if c.Err? {
        return NotCompletion, Some(c.error), [];
      }
      if c.value != NotCompletion {
        return c.value, None, [];
      }
      action := NotCompletion;
      var targets, settled := ReadCommandLine(args);
      NoneWithout(alreadyRun, calls, invoke);
      if settled.Some? {
        return action, settled, [];
      }
      var list := RunList(makefile, targets);
      if list.Err? {
        return action, Some(list.error), [];
      }
      raised, ran := RunTargets(list.value, depth);
    }

    /** The loop of `_pymake` that reads `key=value` arguments into
        `command_args` and collects the others as targets; it stops at an
        argument with two `=`. */
    method ReadCommandLine(args: seq<string>) returns (targets: seq<string>, raised: Option<PyError>)
      modifies this`commandArgs
      ensures (commandArgs, targets, raised) == Settle(old(commandArgs), [], args)
    {
      targets := [];
      for i := 0 to |args|
        invariant Settle(commandArgs, targets, args[i..]) == Settle(old(commandArgs), [], args)
      {
        assert args[i..][1..] == args[i + 1..];
        match Classify(args[i])
        case Target(t) =>
          targets := targets + [t];
        case Assignment(key, value) =>
          commandArgs := commandArgs[key := value];
        case TooManyEquals =>
          return targets, Some(ValueError("too many values to unpack (expected 2)"));
      }
      assert args[|args|..] == [];
      return targets, None;
    }

    /** A dependency with no memoised result: it is run, and what it
        returns is memoised under its name. */
    method RunDependency(name: string, depth: nat, ghost pending: map<string, nat>) returns (r: Result<Value, PyError>)
      requires InProgress(pending, name) && name !in alreadyRun
      modifies this`alreadyRun, this`calls
      decreases depth, 3
      ensures |old(calls)| <= |calls| && calls[..|old(calls)|] == old(calls)
      ensures DependencyRuns(old(alreadyRun), alreadyRun, calls, |old(calls)|, |calls|, invoke)
      ensures r.Ok? ==> name in alreadyRun && alreadyRun[name] == r.value
      ensures name in pending ==> r.Err?
      ensures forall x | x in pending :: x !in alreadyRun
    {
      r := Run(name, depth, pending);
      if r.Ok? {
        AddDependencyRun(old(alreadyRun), alreadyRun, calls, |old(calls)|, invoke);
        alreadyRun := alreadyRun[name := r.value];
      }
    }

    /** One target of the run list: `_run` from the top, with nothing in
        progress. */
    method RunTarget(target: string, depth: nat) returns (r: Result<Value, PyError>)
      modifies this`alreadyRun, this`calls
      ensures |old(calls)| <= |calls| && calls[..|old(calls)|] == old(calls)
      ensures r.Ok? ==> |calls| > |old(calls)| && calls[|calls| - 1].target == target
      ensures DependencyRuns(old(alreadyRun), alreadyRun, calls, |old(calls)|, if r.Ok? then |calls| - 1 else |calls|, invoke)
    {
      r := Run(target, depth, map[]);
    }

    /** The next target of the run list. `m0`, `from`, `targets` and `ran`
        are the memo, the first call, the targets run and their own calls
        since the run list started: the targets keep their order, and the
        calls outside `ran` stay dependency runs, each made once and
        memoised. */
    method NextTarget(target: string, depth: nat, ghost m0: map<string, Value>, ghost from: nat,
                      ghost targets: seq<string>, ghost ran: seq<nat>)
      returns (r: Result<Value, PyError>)
      requires RanInOrder(calls, from, targets, ran) && After(from, ran) == |calls|
      requires Fresh(m0, alreadyRun, Without(calls, from, ran), invoke)
      modifies this`alreadyRun, this`calls
      ensures Extends(old(alreadyRun), alreadyRun)
      ensures |old(calls)| <= |calls| && calls[..|old(calls)|] == old(calls)
      ensures r.Ok? ==>
        && |calls| > |old(calls)|
        && RanInOrder(calls, from, targets + [target], ran + [|calls| - 1])
        && Fresh(m0, alreadyRun, Without(calls, from, ran + [|calls| - 1]), invoke)
      ensures r.Err? ==>
        && RanInOrder(calls, from, targets, ran)
        && Memoised(alreadyRun, calls, |old(calls)|, invoke)
        && Fresh(m0, alreadyRun, Without(calls, from, ran), invoke)
    {
      r := RunTarget(target, depth);
      if r.Err? {
        FailedStep(m0, old(alreadyRun), alreadyRun, old(calls), calls, from, targets, ran, invoke);
      } else {
        TargetStep(m0, old(alreadyRun), alreadyRun, old(calls), calls, from, targets, ran, target, invoke);
      }
    }

    /** The loop of `_pymake` that runs each target in order, stopping at
        the first that raises. `ran` holds the position in `calls` of each
        target's own call. */
    method RunTargets(runList: seq<string>, depth: nat) returns (raised: Option<PyError>, ghost ran: seq<nat>)
      modifies this`alreadyRun, this`calls
      ensures Extends(old(alreadyRun), alreadyRun)
      ensures |old(calls)| <= |calls| && calls[..|old(calls)|] == old(calls)
      ensures raised == None ==> RanInOrder(calls, |old(calls)|, runList, ran)
      ensures raised.Some? ==>
        |ran| < |runList| && RanInOrder(calls, |old(calls)|, runList[..|ran|], ran)
        && Memoised(alreadyRun, calls, After(|old(calls)|, ran), invoke)
      ensures Fresh(old(alreadyRun), alreadyRun, Without(calls, |old(calls)|, ran), invoke)
    {
      ran := [];
      NoneWithout(old(alreadyRun), calls, invoke);
      for i := 0 to |runList|
        invariant Extends(old(alreadyRun), alreadyRun)
        invariant |old(calls)| <= |calls| && calls[..|old(calls)|] == old(calls)
        invariant RanInOrder(calls, |old(calls)|, runList[..i], ran)
        invariant After(|old(calls)|, ran) == |calls|
        invariant Fresh(old(alreadyRun), alreadyRun, Without(calls, |old(calls)|, ran), invoke)
      {
        ghost var callsBefore := calls;
        var r := NextTarget(runList[i], depth, old(alreadyRun), |old(calls)|, runList[..i], ran);
        assert calls[..|old(calls)|] == callsBefore[..|old(calls)|];
        if r.Err? {
          return Some(r.error), ran;
        }
        assert runList[..i + 1] == runList[..i] + [runList[i]];
        ran := ran + [|calls| - 1];
      }
      assert runList[..|runList|] == runList;
      return None, ran;
    }
  }

  /** The functions run by the calls `cs`, which are dependency runs. */
  function Targets(cs: seq<Call>): set<string> {
    if cs == [] then {} else Targets(cs[..|cs| - 1]) + {cs[|cs| - 1].target}
  }

  /** No function is run twice by the calls `cs`. */
  predicate Once(cs: seq<Call>) {
    cs == [] || (Once(cs[..|cs| - 1]) && cs[|cs| - 1].target !in Targets(cs[..|cs| - 1]))
  }

  /** The memo entries dependency runs `cs` leave: each function mapped to
      what its run returned. */
  function MemoOf(cs: seq<Call>, invoke: (string, seq<Value>) -> Value): map<string, Value> {
    if cs == [] then map[]
    else MemoOf(cs[..|cs| - 1], invoke)[cs[|cs| - 1].target := invoke(cs[|cs| - 1].target, cs[|cs| - 1].args)]
  }

  /** The calls `calls[from..end]` are dependency runs made between memo
      `m0` and memo `m`: each ran a Makefile function that had no memoised
      result, none ran twice, and the memo afterwards is the one before plus
      exactly their results. */
  ghost predicate DependencyRuns(m0: map<string, Value>, m: map<string, Value>, calls: seq<Call>, from: nat, end: nat,
                                 invoke: (string, seq<Value>) -> Value)
  {
    && from <= end <= |calls|
    && Fresh(m0, m, calls[from..end], invoke)
  }

  /** The dependency runs `cs` took memo `m0` to memo `m`. */
  ghost predicate Fresh(m0: map<string, Value>, m: map<string, Value>, cs: seq<Call>, invoke: (string, seq<Value>) -> Value) {
    Once(cs) && Targets(cs) !! m0.Keys && m == m0 + MemoOf(cs, invoke)
  }

  lemma {:induction false} TargetsAppend(a: seq<Call>, b: seq<Call>)
    ensures Targets(a + b) == Targets(a) + Targets(b)
  {
    if b != [] {
      assert (a + b)[..|a + b| - 1] == a + b[..|b| - 1];
      TargetsAppend(a, b[..|b| - 1]);
    } else {
      assert a + b == a;
    }
  }

  lemma {:induction false} MemoAppend(a: seq<Call>, b: seq<Call>, invoke: (string, seq<Value>) -> Value)
    ensures MemoOf(a + b, invoke) == MemoOf(a, invoke) + MemoOf(b, invoke)
  {
    if b != [] {
      assert (a + b)[..|a + b| - 1] == a + b[..|b| - 1];
      MemoAppend(a, b[..|b| - 1], invoke);
    } else {
      assert a + b == a;
    }
  }

  lemma {:induction false} OnceAppend(a: seq<Call>, b: seq<Call>)
    requires Once(a) && Once(b) && Targets(a) !! Targets(b)
    ensures Once(a + b)
  {
    if b != [] {
      var b0 := b[..|b| - 1];
      assert (a + b)[..|a + b| - 1] == a + b0;
      TargetsAppend(b0, [b[|b| - 1]]);
      assert b0 + [b[|b| - 1]] == b;
      OnceAppend(a, b0);
      TargetsAppend(a, b0);
    } else {
      assert a + b == a;
    }
  }

  lemma {:induction false} MemoKeys(cs: seq<Call>, invoke: (string, seq<Value>) -> Value)
    ensures MemoOf(cs, invoke).Keys == Targets(cs)
  {
    if cs != [] {
      MemoKeys(cs[..|cs| - 1], invoke);
    }
  }

  /** Dependency runs made one after the other. */
  lemma FreshJoin(m0: map<string, Value>, mb: map<string, Value>, m1: map<string, Value>, a: seq<Call>, b: seq<Call>,
                  invoke: (string, seq<Value>) -> Value)
    requires Fresh(m0, mb, a, invoke) && Fresh(mb, m1, b, invoke)
    ensures Fresh(m0, m1, a + b, invoke)
  {
    MemoKeys(a, invoke);
    TargetsAppend(a, b);
    OnceAppend(a, b);
    MemoAppend(a, b, invoke);
    assert m1 == (m0 + MemoOf(a, invoke)) + MemoOf(b, invoke);
  }

  /** The memo only grows over dependency runs. */
  lemma DependencyRunsExtend(m0: map<string, Value>, m: map<string, Value>, calls: seq<Call>, from: nat, end: nat,
                             invoke: (string, seq<Value>) -> Value)
    requires DependencyRuns(m0, m, calls, from, end, invoke)
    ensures Extends(m0, m)
  {
    MemoKeys(calls[from..end], invoke);
  }

  /** No calls, no dependency runs. */
  lemma NoDependencyRuns(m: map<string, Value>, calls: seq<Call>, invoke: (string, seq<Value>) -> Value)
    ensures DependencyRuns(m, m, calls, |calls|, |calls|, invoke)
  {
    assert calls[|calls|..|calls|] == [];
    assert m + map[] == m;
  }

  /** Dependency runs recorded one after the other in `calls`. */
  lemma JoinDependencyRuns(m0: map<string, Value>, mb: map<string, Value>, m1: map<string, Value>,
                           c0: seq<Call>, c1: seq<Call>, from: nat, end: nat, invoke: (string, seq<Value>) -> Value)
    requires DependencyRuns(m0, mb, c0, from, |c0|, invoke)
    requires |c0| <= |c1| && c1[..|c0|] == c0
    requires DependencyRuns(mb, m1, c1, |c0|, end, invoke)
    ensures DependencyRuns(m0, m1, c1, from, end, invoke)
  {
    assert c0[from..|c0|] == c1[from..|c0|];
    assert c1[from..end] == c1[from..|c0|] + c1[|c0|..end];
    FreshJoin(m0, mb, m1, c1[from..|c0|], c1[|c0|..end], invoke);
  }

  /** The dependency just run is memoised. */
  lemma AddDependencyRun(m0: map<string, Value>, m: map<string, Value>, calls: seq<Call>, from: nat,
                         invoke: (string, seq<Value>) -> Value)
    requires from < |calls| && DependencyRuns(m0, m, calls, from, |calls| - 1, invoke)
    requires calls[|calls| - 1].target !in m
    ensures var last := calls[|calls| - 1];
      DependencyRuns(m0, m[last.target := invoke(last.target, last.args)], calls, from, |calls|, invoke)
  {
    var last := calls[|calls| - 1];
    var one := [last];
    assert one[..0] == [];
    assert MemoOf(one, invoke) == map[last.target := invoke(last.target, last.args)];
    assert Targets(one) == {last.target} && Once(one);
    assert Fresh(m, m[last.target := invoke(last.target, last.args)], one, invoke);
    assert calls[from..|calls|] == calls[from..|calls| - 1] + one;
    FreshJoin(m0, m, m[last.target := invoke(last.target, last.args)], calls[from..|calls| - 1], one, invoke);
  }

  /** A call made after the dependency runs leaves them as they were. */
  lemma ExtendDependencyRuns(m0: map<string, Value>, m: map<string, Value>, calls: seq<Call>, from: nat, c: Call,
                             invoke: (string, seq<Value>) -> Value)
    requires DependencyRuns(m0, m, calls, from, |calls|, invoke)
    ensures DependencyRuns(m0, m, calls + [c], from, |calls|, invoke)
  {
    assert (calls + [c])[from..|calls|] == calls[from..|calls|];
  }

  /** Each function run by the calls from `from` on ran once, and the memo
      holds what its run returned. */
  ghost predicate Memoised(m: map<string, Value>, calls: seq<Call>, from: nat, invoke: (string, seq<Value>) -> Value) {
    from <= |calls| && Once(calls[from..]) && Extends(MemoOf(calls[from..], invoke), m)
  }

  /** A run that raised made only dependency runs, all memoised. */
  lemma FailedRunMemoised(m0: map<string, Value>, m: map<string, Value>, calls: seq<Call>, from: nat,
                          invoke: (string, seq<Value>) -> Value)
    requires DependencyRuns(m0, m, calls, from, |calls|, invoke)
    ensures Memoised(m, calls, from, invoke)
  {
    assert calls[from..|calls|] == calls[from..];
    MemoKeys(calls[from..], invoke);
  }

  /** The position in `calls` after the last of the calls `ran`, or `from`
      when there is none. */
  function After(from: nat, ran: seq<nat>): nat {
    if ran == [] then from else ran[|ran| - 1] + 1
  }

  /** The calls from position `from` on that are not at a position in
      `ran`: with `ran` the targets' own calls, the dependency runs. */
  function Without(cs: seq<Call>, from: nat, ran: seq<nat>): seq<Call> {
    if |cs| <= from then []
    else Without(cs[..|cs| - 1], from, ran) + (if |cs| - 1 in ran then [] else [cs[|cs| - 1]])
  }

  /** Before any run there are no dependency runs. */
  lemma NoneWithout(m: map<string, Value>, calls: seq<Call>, invoke: (string, seq<Value>) -> Value)
    ensures Fresh(m, m, Without(calls, |calls|, []), invoke)
  {
    assert m + map[] == m;
  }

  /** Calls appended at positions not in `ran` are kept, in order. */
  lemma {:induction false} WithoutAppend(c: seq<Call>, d: seq<Call>, from: nat, ran: seq<nat>)
    requires from <= |c| && forall k | 0 <= k < |ran| :: ran[k] < |c|
    ensures Without(c + d, from, ran) == Without(c, from, ran) + d
  {
    if d == [] {
      assert c + d == c;
    } else {
      var d0 := d[..|d| - 1];
      assert (c + d)[..|c + d| - 1] == c + d0;
      WithoutAppend(c, d0, from, ran);
      assert |c + d| - 1 !in ran;
    }
  }

  /** A position past the end of the calls changes nothing. */
  lemma {:induction false} WithoutBeyond(c: seq<Call>, from: nat, ran: seq<nat>, p: nat)
    requires |c| <= p
    ensures Without(c, from, ran + [p]) == Without(c, from, ran)
  {
    if from < |c| {
      WithoutBeyond(c[..|c| - 1], from, ran, p);
      assert (|c| - 1 in ran + [p]) == (|c| - 1 in ran);
    }
  }

  /** After one more target that returned, the calls outside `ran` are
      those before it followed by the ones it made; its own call, the last
      one, is left out. */
  lemma WithoutTarget(c0: seq<Call>, c1: seq<Call>, from: nat, ran: seq<nat>)
    requires from <= |c0| < |c1| && c1[..|c0|] == c0
    requires forall k | 0 <= k < |ran| :: ran[k] < |c0|
    ensures Without(c1, from, ran + [|c1| - 1]) == Without(c0, from, ran) + c1[|c0|..|c1| - 1]
  {
    var end := |c1| - 1;
    var d := c1[|c0|..end];
    assert c1[..end] == c0 + d;
    WithoutAppend(c0, d, from, ran);
    WithoutBeyond(c1[..end], from, ran, end);
    assert end in ran + [end];
    assert Without(c1, from, ran + [end]) == Without(c1[..end], from, ran + [end]) + [];
  }

  /** After one more target that raised, every call it made is outside
      `ran`. */
  lemma WithoutFailed(c0: seq<Call>, c1: seq<Call>, from: nat, ran: seq<nat>)
    requires from <= |c0| <= |c1| && c1[..|c0|] == c0
    requires forall k | 0 <= k < |ran| :: ran[k] < |c0|
    ensures Without(c1, from, ran) == Without(c0, from, ran) + c1[|c0|..|c1|]
  {
    var d := c1[|c0|..];
    assert c1[|c0|..|c1|] == d;
    assert c1 == c0 + d;
    WithoutAppend(c0, d, from, ran);
  }

  /** One more target that returned: it follows the targets before it, and
      its dependency runs follow theirs. */
  lemma TargetStep(m0: map<string, Value>, mb: map<string, Value>, m1: map<string, Value>,
                   c0: seq<Call>, c1: seq<Call>, from: nat, targets: seq<string>, ran: seq<nat>, t: string,
                   invoke: (string, seq<Value>) -> Value)
    requires RanInOrder(c0, from, targets, ran) && After(from, ran) == |c0|
    requires |c0| < |c1| && c1[..|c0|] == c0 && c1[|c1| - 1].target == t
    requires Fresh(m0, mb, Without(c0, from, ran), invoke)
    requires DependencyRuns(mb, m1, c1, |c0|, |c1| - 1, invoke)
    ensures Extends(mb, m1)
    ensures RanInOrder(c1, from, targets + [t], ran + [|c1| - 1])
    ensures Fresh(m0, m1, Without(c1, from, ran + [|c1| - 1]), invoke)
  {
    DependencyRunsExtend(mb, m1, c1, |c0|, |c1| - 1, invoke);
    RanInOrderKept(c0, c1, from, targets, ran);
    RanNext(c1, from, targets, ran, t);
    WithoutTarget(c0, c1, from, ran);
    FreshJoin(m0, mb, m1, Without(c0, from, ran), c1[|c0|..|c1| - 1], invoke);
  }

  /** A target that raised: the targets before it keep their order, and its
      dependency runs follow theirs. */
  lemma FailedStep(m0: map<string, Value>, mb: map<string, Value>, m1: map<string, Value>,
                   c0: seq<Call>, c1: seq<Call>, from: nat, targets: seq<string>, ran: seq<nat>,
                   invoke: (string, seq<Value>) -> Value)
    requires RanInOrder(c0, from, targets, ran) && After(from, ran) == |c0|
    requires |c0| <= |c1| && c1[..|c0|] == c0
    requires Fresh(m0, mb, Without(c0, from, ran), invoke)
    requires DependencyRuns(mb, m1, c1, |c0|, |c1|, invoke)
    ensures Extends(mb, m1)
    ensures RanInOrder(c1, from, targets, ran)
    ensures Memoised(m1, c1, |c0|, invoke)
    ensures Fresh(m0, m1, Without(c1, from, ran), invoke)
  {
    DependencyRunsExtend(mb, m1, c1, |c0|, |c1|, invoke);
    FailedRunMemoised(mb, m1, c1, |c0|, invoke);
    RanInOrderKept(c0, c1, from, targets, ran);
    WithoutFailed(c0, c1, from, ran);
    FreshJoin(m0, mb, m1, Without(c0, from, ran), c1[|c0|..|c1|], invoke);
  }

  /** `ran[k]` is the position in `calls`, from `from` on and in increasing
      order, of a call of `targets[k]`. */
  ghost predicate RanInOrder(calls: seq<Call>, from: nat, targets: seq<string>, ran: seq<nat>) {
    && |ran| == |targets|
    && (forall k | 0 <= k < |ran| :: from <= ran[k] < |calls| && calls[ran[k]].target == targets[k])
    && (forall k, k' | 0 <= k < k' < |ran| :: ran[k] < ran[k'])
  }

  /** The target whose call was made last follows the ones before it. */
  lemma RanNext(calls: seq<Call>, from: nat, targets: seq<string>, ran: seq<nat>, t: string)
    requires RanInOrder(calls, from, targets, ran)
    requires After(from, ran) < |calls| && calls[|calls| - 1].target == t
    ensures RanInOrder(calls, from, targets + [t], ran + [|calls| - 1])
  {
  }

  /** Calls recorded stay recorded as more calls are made. */
  lemma RanInOrderKept(c0: seq<Call>, c: seq<Call>, from: nat, targets: seq<string>, ran: seq<nat>)
    requires |c0| <= |c| && c[..|c0|] == c0
    requires RanInOrder(c0, from, targets, ran)
    ensures RanInOrder(c, from, targets, ran)
  {
    forall k | 0 <= k < |ran| ensures c[ran[k]] == c0[ran[k]] {
      assert c[..|c0|][ran[k]] == c[ran[k]];
    }
  }

  /** `args` are the arguments the parameters `params` receive, one each,
      given the command line and the memo. */
  ghost predicate Resolves(mf: Makefile, commandArgs: map<string, string>, memo: map<string, Value>,
                           params: seq<Param>, args: seq<Value>)
  {
    |args| == |params| && forall k | 0 <= k < |args| :: ArgOf(mf, commandArgs, memo, params[k]) == Some(args[k])
  }

  /** One more parameter resolved, after the memo grew. */
  lemma ResolvesNext(mf: Makefile, commandArgs: map<string, string>, m0: map<string, Value>, m: map<string, Value>,
                     ps: seq<Param>, i: nat, args: seq<Value>, v: Value)
    requires i < |ps| && Extends(m0, m)
    requires Resolves(mf, commandArgs, m0, ps[..i], args) && ArgOf(mf, commandArgs, m, ps[i]) == Some(v)
    ensures Resolves(mf, commandArgs, m, ps[..i + 1], args + [v])
  {
    MemoArgs(mf, commandArgs, m0, m, ps[..i]);
    assert ps[..i + 1] == ps[..i] + [ps[i]];
  }

  /** Results memoised while a dependency ran leave the arguments already
      collected as they were. */
  lemma MemoArgs(mf: Makefile, commandArgs: map<string, string>, m0: map<string, Value>, m: map<string, Value>, ps: seq<Param>)
    requires Extends(m0, m)
    ensures forall k | 0 <= k < |ps| && ArgOf(mf, commandArgs, m0, ps[k]).Some? ::
      ArgOf(mf, commandArgs, m, ps[k]) == ArgOf(mf, commandArgs, m0, ps[k])
  {
  }
}
