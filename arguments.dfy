/** `AppArguments::new` (src/main.rs:16-70): the command line, read element
    by element by a four-context automaton, becomes an execution path, a map
    of named arguments and a list of plain parameters.

    The command line is a parameter here. `Run` states the automaton as a
    fold of `Step` over the elements; `NewAppArguments` is the loop as the
    source runs it and is proved to compute it; `Tokens` is an independent
    grammar of the same command line, and `NewFollowsGrammar` ties the two. */
module Arguments {

  /** `AppArguments`: named arguments, execution path, plain parameters. */
  datatype AppArguments = AppArguments(arguments: map<string, string>, execPath: string, parameters: seq<string>)

  /** `Contexts` (src/main.rs:29-34). */
  datatype Context = ExecutionPath | ArgumentName | ArgumentValue | Parameter

  /** The automaton's variables: its context, the result built so far and
      `last_arg`, the key waiting for its value. */
  datatype Builder = Builder(context: Context, built: AppArguments, lastArg: string)

  const Start := Builder(ExecutionPath, AppArguments(map[], "", []), "")

  /** `starts_with("-")`. */
  predicate StartsWithDash(s: string) {
    |s| > 0 && s[0] == '-'
  }

  /** `chars().skip(1).collect()`: the element without its first character. */
  function Key(s: string): (k: string)
    ensures |s| > 0 ==> s == [s[0]] + k
    ensures s == [] ==> k == []
  {
    if s == [] then [] else s[1..]
  }

  /** One pass of the loop body (src/main.rs:40-66): in the parameter
      context an element starting with '-' switches to the name context
      before the element is dispatched on the context. */
  function Step(b: Builder, arg: string): Builder
  {
    var context := if b.context == Parameter && StartsWithDash(arg) then ArgumentName else b.context;
    match context
    case ExecutionPath =>
      Builder(Parameter, b.built.(execPath := arg), b.lastArg)
    case ArgumentName =>
      Builder(ArgumentValue, b.built, Key(arg))
    case ArgumentValue =>
      Builder(Parameter, b.built.(arguments := b.built.arguments[b.lastArg := arg]), b.lastArg)
    case Parameter =>
      Builder(Parameter, b.built.(parameters := b.built.parameters + [arg]), b.lastArg)
  }

  /** The loop over the remaining elements, from the first. */
  function Run(b: Builder, args: seq<string>): Builder
    decreases |args|
  {
    if args == [] then b else Run(Step(b, args[0]), args[1..])
  }

  /** The value `AppArguments::new` returns for a command line. */
  function New(appArgs: seq<string>): AppArguments
  {
    Run(Start, appArgs).built
  }

  /** `AppArguments::new`, with the command line given. */
  method NewAppArguments(appArgs: seq<string>) returns (r: AppArguments)
    ensures r == New(appArgs)
  {
    var arguments: map<string, string> := map[];
    var parameters: seq<string> := [];
    var lastArg: string := "";
    var execPath: string := "";
    var context := ExecutionPath;
    for i := 0 to |appArgs|
      invariant Run(Builder(context, AppArguments(arguments, execPath, parameters), lastArg), appArgs[i..]) == Run(Start, appArgs)
    {
      var appArg := appArgs[i];
      assert appArgs[i..][1..] == appArgs[i + 1..];
      if context == Parameter {
        if |appArg| > 0 && appArg[0] == '-' {
          context := ArgumentName;
        }
      }
      match context {
        case ExecutionPath =>
          execPath := appArg;
          context := Parameter;
        case ArgumentName =>
          lastArg := if appArg == [] then [] else appArg[1..];
          context := ArgumentValue;
        case ArgumentValue =>
          arguments := arguments[lastArg := appArg];
          context := Parameter;
        case Parameter =>
          parameters := parameters + [appArg];
          context := Parameter;
      }
    }
    return AppArguments(arguments, execPath, parameters);
  }

  // ---------------------------------------------------------------------
  // The command line as a grammar

  /** What an element after the first stands for: a named argument with its
      value, or a plain parameter. */
  datatype Token = Named(key: string, value: string) | Plain(parameter: string)

  /** Elements after the first, read from the front: an element starting with
      '-' names an argument whose value is the next element, whatever it is;
      a last element starting with '-' stands for nothing; any other element
      is a parameter. */
  function Tokens(args: seq<string>): (ts: seq<Token>)
    ensures forall t | t in ts && t.Plain? :: !StartsWithDash(t.parameter)
    decreases |args|
  {
    if args == [] then []
    else if !StartsWithDash(args[0]) then [Plain(args[0])] + Tokens(args[1..])
    else if |args| == 1 then []
    else [Named(Key(args[0]), args[1])] + Tokens(args[2..])
  }

  /** The named arguments, each later one replacing an earlier one with the
      same key. */
  function Insert(m: map<string, string>, ts: seq<Token>): map<string, string>
    decreases |ts|
  {
    if ts == [] then m
    else if ts[0].Named? then Insert(m[ts[0].key := ts[0].value], ts[1..])
    else Insert(m, ts[1..])
  }

  /** The parameters, in order. */
  function Parameters(ts: seq<Token>): (ps: seq<string>)
    ensures forall p | p in ps :: Plain(p) in ts
    ensures |ps| <= |ts|
    decreases |ts|
  {
    if ts == [] then []
    else if ts[0].Plain? then [ts[0].parameter] + Parameters(ts[1..])
    else Parameters(ts[1..])
  }

  /** In the parameter context, an element not starting with '-' is appended
      to the parameters. */
  lemma PlainStep(b: Builder, arg: string)
    requires b.context == Parameter && !StartsWithDash(arg)
    ensures Step(b, arg) == Builder(Parameter, b.built.(parameters := b.built.parameters + [arg]), b.lastArg)
  {
  }

  /** In the parameter context, a flag and the element after it store that
      element under the flag's key. */
  lemma FlagSteps(b: Builder, flag: string, value: string)
    requires b.context == Parameter && StartsWithDash(flag)
    ensures Step(b, flag).built == b.built && Step(b, flag).context == ArgumentValue
    ensures Step(Step(b, flag), value) ==
      Builder(Parameter, b.built.(arguments := b.built.arguments[Key(flag) := value]), Key(flag))
  {
  }

  /** What the grammar makes of `args` read after `built`. */
  function ReadOn(built: AppArguments, args: seq<string>): AppArguments
  {
    AppArguments(Insert(built.arguments, Tokens(args)), built.execPath, built.parameters + Parameters(Tokens(args)))
  }

  /** A plain element, then the rest, read as the grammar does. */
  lemma PlainReadOn(built: AppArguments, args: seq<string>)
    requires args != [] && !StartsWithDash(args[0])
    ensures ReadOn(built.(parameters := built.parameters + [args[0]]), args[1..]) == ReadOn(built, args)
  {
    var ts := Tokens(args[1..]);
    var ps := built.parameters;
    assert Tokens(args) == [Plain(args[0])] + ts;
    assert Parameters(Tokens(args)) == [args[0]] + Parameters(ts);
    assert ps + [args[0]] + Parameters(ts) == ps + ([args[0]] + Parameters(ts));
  }

  /** A flag and its value, then the rest, read as the grammar does. */
  lemma FlagReadOn(built: AppArguments, args: seq<string>)
    requires |args| >= 2 && StartsWithDash(args[0])
    ensures ReadOn(built.(arguments := built.arguments[Key(args[0]) := args[1]]), args[2..]) == ReadOn(built, args)
  {
    assert Tokens(args) == [Named(Key(args[0]), args[1])] + Tokens(args[2..]);
  }

  /** From the parameter context, the loop reads the remaining elements as
      the grammar does. */
  lemma {:induction false} RunFollowsGrammar(b: Builder, args: seq<string>)
    requires b.context == Parameter
    ensures Run(b, args).built == ReadOn(b.built, args)
    decreases |args|
  {
    if args == [] {
      assert b.built.parameters + [] == b.built.parameters;
    } else if !StartsWithDash(args[0]) {
      PlainStep(b, args[0]);
      RunFollowsGrammar(Step(b, args[0]), args[1..]);
      PlainReadOn(b.built, args);
    } else if |args| == 1 {
      FlagSteps(b, args[0], "");
      assert Run(b, args) == Run(Step(b, args[0]), []);
      assert b.built.parameters + [] == b.built.parameters;
    } else {
      FlagSteps(b, args[0], args[1]);
      assert args[1..][1..] == args[2..];
      assert Run(b, args) == Run(Step(Step(b, args[0]), args[1]), args[2..]);
      RunFollowsGrammar(Step(Step(b, args[0]), args[1]), args[2..]);
      FlagReadOn(b.built, args);
    }
  }

  /** `AppArguments::new` against the grammar: the first element is the
      execution path, the rest are read as `Tokens`. */
  lemma NewFollowsGrammar(appArgs: seq<string>)
    ensures appArgs == [] ==> New(appArgs) == AppArguments(map[], "", [])
    ensures appArgs != [] ==> New(appArgs) == AppArguments(
      Insert(map[], Tokens(appArgs[1..])), appArgs[0], Parameters(Tokens(appArgs[1..])))
  {
    if appArgs != [] {
      RunFollowsGrammar(Step(Start, appArgs[0]), appArgs[1..]);
    }
  }

  // ---------------------------------------------------------------------
  // Properties

  /** Running over two lists is running over the first, then the second. */
  lemma {:induction false} RunConcat(b: Builder, xs: seq<string>, ys: seq<string>)
    ensures Run(b, xs + ys) == Run(Run(b, xs), ys)
    decreases |xs|
  {
    if xs == [] {
      assert xs + ys == ys;
    } else {
      assert (xs + ys)[1..] == xs[1..] + ys;
      RunConcat(Step(b, xs[0]), xs[1..], ys);
    }
  }

  /** Once past the first element, the automaton waiting for a fresh element
      is in the parameter context. */
  predicate AwaitsElement(appArgs: seq<string>) {
    Run(Start, appArgs).context == Parameter
  }

  /** An element not starting with '-' is appended to the parameters. */
  lemma ParameterAppended(appArgs: seq<string>, p: string)
    requires AwaitsElement(appArgs) && !StartsWithDash(p)
    ensures New(appArgs + [p]) == New(appArgs).(parameters := New(appArgs).parameters + [p])
    ensures AwaitsElement(appArgs + [p])
  {
    RunConcat(Start, appArgs, [p]);
    assert [p][1..] == [];
  }

  /** A flag stores the next element under the flag without its first
      character, even when that element starts with '-', and replaces any
      earlier value under that key. */
  lemma FlagTakesNextElement(appArgs: seq<string>, flag: string, value: string)
    requires AwaitsElement(appArgs) && StartsWithDash(flag)
    ensures New(appArgs + [flag, value]) ==
      New(appArgs).(arguments := New(appArgs).arguments[flag[1..] := value])
    ensures AwaitsElement(appArgs + [flag, value])
  {
    RunConcat(Start, appArgs, [flag, value]);
    var b := Run(Start, appArgs);
    assert [flag, value][1..] == [value];
    assert [value][1..] == [];
    assert Run(b, [flag, value]) == Run(Step(b, flag), [value]);
    assert Run(Step(b, flag), [value]) == Step(Step(b, flag), value);
  }

  /** A flag with nothing after it changes no part of the result. */
  lemma TrailingFlagIgnored(appArgs: seq<string>, flag: string)
    requires AwaitsElement(appArgs) && StartsWithDash(flag)
    ensures New(appArgs + [flag]) == New(appArgs)
  {
    RunConcat(Start, appArgs, [flag]);
    assert [flag][1..] == [];
  }

  /** The first element is the execution path; the automaton then waits for
      a fresh element. */
  lemma FirstElementIsExecPath(exec: string)
    ensures New([exec]) == AppArguments(map[], exec, [])
    ensures AwaitsElement([exec])
  {
    assert [exec][1..] == [];
    assert Run(Start, [exec]) == Step(Start, exec);
  }

  /** `app --mapdir src`: the key keeps the second dash. */
  lemma MapdirExample()
    ensures New(["app", "--mapdir", "src"]).arguments == map["-mapdir" := "src"]
  {
    RunConcat(Start, ["app"], ["--mapdir", "src"]);
    assert ["app"] + ["--mapdir", "src"] == ["app", "--mapdir", "src"];
    FlagTakesNextElement(["app"], "--mapdir", "src");
    assert "--mapdir"[1..] == "-mapdir";
  }
}
