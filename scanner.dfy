/**
 * The tokenizer/resolver of FlagSet.Parse as pure functions over the parse
 * state: parseOne (params.go:995-1062) classifies the next token or the next
 * rune of a pending cluster, parseFlagArg (params.go:1071-1147) resolves a
 * name by its arity, and the loop of Parse (params.go:1155-1188) applies the
 * error policy. Process exit and panics are returned as outcomes.
 */
module Scanner {
  import opened Options
  import opened Text
  import opened Values
  import opened Errors
  import opened Splitting
  import opened FlagRegistry

  /**
   * The FlagSet fields a parse moves: `args` (positional arguments found),
   * `procArgs` (tokens still to read) and `procFlag` (the rest of a short
   * cluster, or a value attached with `=`).
   */
  datatype Cursor = Cursor(args: seq<string>, procArgs: seq<string>, procFlag: string)

  /** What a parse changes: the registry, the cursor and the package-level ErrHelp text. */
  datatype State = State(reg: Registry, cursor: Cursor, errHelp: string)

  /** An ErrorHandling integer other than the three Go names (0, 1 and 2). */
  type UnlistedCode = code: int | code < 0 || code > 2 witness 3

  /**
   * FlagSet.errorHandling; Go accepts any integer, names 0, 1 and 2, and the
   * parse loop ignores the values it does not list.
   */
  datatype ErrorHandling = ContinueOnError | ExitOnError | PanicOnError | Unlisted(code: UnlistedCode)

  /** The FlagSet settings a parse reads, and the conversion library of the value types. */
  datatype Config = Config(allowIntersperse: bool, knownAs: string, handling: ErrorHandling, lib: Library)

  /** The results of parseOne. */
  datatype Token = Token(name: string, long: bool, finished: bool, err: Option<Error>)

  /** The results of parseFlagArg: success, an error, or a Go runtime panic. */
  datatype FlagArgResult = ArgOk | ArgErr(e: Error) | ArgPanic

  /**
   * How Parse ends: nil, the error (ContinueOnError), os.Exit(code)
   * (ExitOnError), panic(err) (PanicOnError), or a runtime panic raised by
   * an index or slice out of range.
   */
  datatype Outcome = Parsed | Failed(e: Error) | Exited(code: int) | Raised(e: Error) | Crashed

  datatype Next = Continue | Stop(outcome: Outcome)

  /** The lexicographic measure (|procArgs|, |procFlag|) went down. */
  predicate Decreases(after: Cursor, before: Cursor)
  {
    |after.procArgs| < |before.procArgs| ||
    (|after.procArgs| == |before.procArgs| && |after.procFlag| < |before.procFlag|)
  }

  /** The lexicographic measure (|procArgs|, |procFlag|) did not go up. */
  predicate NoGrowth(after: Cursor, before: Cursor)
  {
    |after.procArgs| < |before.procArgs| ||
    (|after.procArgs| == |before.procArgs| && |after.procFlag| <= |before.procFlag|)
  }

  predicate IsPrefix(s: seq<string>, t: seq<string>)
  {
    |s| <= |t| && t[..|s|] == s
  }

  predicate IsSuffix(s: seq<string>, t: seq<string>)
  {
    |s| <= |t| && s == t[|t| - |s|..]
  }

  /** A token parseOne treats as a positional argument. */
  predicate Positional(a: string)
  {
    a == "-" || a == "" || a[0] != '-'
  }

  /** parseOne. */
  function ParseOneStep(c: Cursor, allowIntersperse: bool, knownAs: string): (r: (Cursor, Token))
    ensures !r.1.finished ==> Decreases(r.0, c)
    ensures r.1.finished ==> r.1.name == "" && r.1.err.None?
    ensures r.1.err.Some? ==> r.1.name == ""
    ensures r.1.err.Some? ==>
      && |c.procArgs| > 0 && c.procFlag == "" && |c.procArgs[0]| > 3 && c.procArgs[0][..3] == "--="
      && r == (c.(procFlag := c.procArgs[0][3..], procArgs := c.procArgs[1..]),
               Token("", true, false, Some(EmptyFlagName(knownAs, c.procArgs[0]))))
    ensures IsSuffix(r.0.procArgs, c.procArgs)
    ensures IsPrefix(c.args, r.0.args)
    ensures r.1.name != "" ==> r.0.args == c.args
  {
    if |c.procArgs| == 0 then
      (c, Token("", false, true, None))
    else if |c.procFlag| > 0 then
      // the next rune of a pending short cluster
      (c.(procFlag := c.procFlag[1..]), Token(c.procFlag[..1], false, false, None))
    else
      var a := c.procArgs[0];
      if a == "-" || a == "" || a[0] != '-' then
        if allowIntersperse then
          (Cursor(c.args + [a], c.procArgs[1..], c.procFlag), Token("", false, false, None))
        else
          (Cursor(c.args + c.procArgs, [], c.procFlag), Token("", false, true, None))
      else if a == "--" then
        (Cursor(c.args + c.procArgs[1..], [], c.procFlag), Token("", false, true, None))
      else if a[1] == '-' then
        SplitInTwo(a, '=');
        var parts := Split(a, '=', 2).value;
        if |parts| > 1 then
          var name := parts[0][2..];
          (c.(procFlag := parts[1], procArgs := c.procArgs[1..]),
           Token(name, true, false, if name == "" then Some(EmptyFlagName(knownAs, a)) else None))
        else
          (c.(procArgs := c.procArgs[1..]), Token(a[2..], true, false, None))
      else
        var b := a[1..];
        if |b| > 1 && b[1] == '=' then
          (c.(procFlag := b[2..], procArgs := c.procArgs[1..]), Token(b[..1], false, false, None))
        else
          (c.(procFlag := b[1..], procArgs := c.procArgs[1..]), Token(b[..1], false, false, None))
  }

  /** The help names parseFlagArg special-cases when they are not registered. */
  predicate IsHelpName(name: string)
  {
    name == "help" || name == "h"
  }

  /**
   * What parseFlagArg guarantees once `name` is registered: the records
   * keep everything but their values, the cursor does not grow, ErrHelp is
   * untouched, and `actual` gains `name` exactly on success.
   */
  ghost predicate ResolvedRegistered(st: State, r: (State, FlagArgResult), name: string)
    requires name in st.reg.formal
  {
    Valid(r.0.reg) &&
    r.0.reg.formal == st.reg.formal && SameRecords(r.0.reg.flags, st.reg.flags) &&
    NoGrowth(r.0.cursor, st.cursor) && IsSuffix(r.0.cursor.procArgs, st.cursor.procArgs) &&
    r.0.cursor.args == st.cursor.args && r.0.errHelp == st.errHelp &&
    (r.1.ArgOk? ==> r.0.reg.actual == st.reg.actual[name := st.reg.formal[name]]) &&
    (!r.1.ArgOk? ==> r.0.reg.actual == st.reg.actual) &&
    !(r.1.ArgErr? && r.1.e.HelpRequested?)
  }

  /** Stores `v` in the flag behind `name` and, when `err` is None, records `name` in `actual`. */
  function StoreValue(st: State, name: string, v: Value, c: Cursor, err: Option<Error>): (r: (State, FlagArgResult))
    requires Valid(st.reg) && name in st.reg.formal && st.reg.formal[name] < |st.reg.flags|
    requires SameKind(st.reg.flags[st.reg.formal[name]].value, v)
    requires NoGrowth(c, st.cursor) && IsSuffix(c.procArgs, st.cursor.procArgs) && c.args == st.cursor.args
    requires err.None? || !err.value.HelpRequested?
    ensures ResolvedRegistered(st, r, name)
    ensures r.1 == (if err.Some? then ArgErr(err.value) else ArgOk)
    ensures r.0.cursor == c && r.0.reg.flags[st.reg.formal[name]].value == v
  {
    assert Points(st.reg, name);
    var i := st.reg.formal[name];
    WithValueValid(st.reg, i, v);
    WithValueSameRecords(st.reg, i, v);
    var reg1 := WithValue(st.reg, i, v);
    if err.Some? then
      (State(reg1, c, st.errHelp), ArgErr(err.value))
    else
      TriggerValid(reg1, name);
      (State(Trigger(reg1, name), c, st.errHelp), ArgOk)
  }

  /** parseFlagArg, case 0: a flag that takes no parameter. */
  function ResolveNoParameter(st: State, cfg: Config, name: string, long: bool): (r: (State, FlagArgResult))
    requires Valid(st.reg) && name in st.reg.formal
    requires st.reg.formal[name] < |st.reg.flags|
    ensures ResolvedRegistered(st, r, name)
    ensures r.1.ArgPanic? <==> Assign(st.reg.flags[st.reg.formal[name]].value, [], cfg.lib).IndexPanic?
    ensures r.1.ArgErr? <==> !r.1.ArgPanic? && st.cursor.procFlag != "" && long
    ensures r.1.ArgErr? ==>
      r.1.e == UnwantedArgument(cfg.knownAs, st.cursor.procFlag, FlagWithMinus(name)) && r.0.cursor.procFlag == ""
    ensures r.1.ArgOk? ==> r.0.cursor == st.cursor
    ensures !r.1.ArgPanic? ==>
      r.0.reg.flags[st.reg.formal[name]].value == Assign(st.reg.flags[st.reg.formal[name]].value, [], cfg.lib).value
  {
    var flag := st.reg.flags[st.reg.formal[name]];
    var c := st.cursor;
    // Set([]) runs before any check, and the error it returns is discarded
    match Assign(flag.value, [], cfg.lib)
    case IndexPanic => (st, ArgPanic)
    case Stored(v, _) =>
      if c.procFlag != "" && long then
        StoreValue(st, name, v, c.(procFlag := ""), Some(UnwantedArgument(cfg.knownAs, c.procFlag, FlagWithMinus(name))))
      else
        StoreValue(st, name, v, c, None)
  }

  /** Where parseFlagArg takes a single parameter from: the attached value, else the next token. */
  function TakeParameter(c: Cursor): (r: (string, Cursor))
    requires c.procFlag != "" || |c.procArgs| > 0
    ensures NoGrowth(r.1, c) && IsSuffix(r.1.procArgs, c.procArgs) && r.1.args == c.args
    ensures c.procFlag != "" ==> r == (c.procFlag, c.(procFlag := ""))
    ensures c.procFlag == "" ==> r == (c.procArgs[0], c.(procArgs := c.procArgs[1..]))
  {
    if c.procFlag != "" then (c.procFlag, c.(procFlag := "")) else (c.procArgs[0], c.(procArgs := c.procArgs[1..]))
  }

  /** parseFlagArg, case 1: an attached value wins, otherwise the next token is consumed. */
  function ResolveOneParameter(st: State, cfg: Config, name: string): (r: (State, FlagArgResult))
    requires Valid(st.reg) && name in st.reg.formal
    requires st.reg.formal[name] < |st.reg.flags|
    ensures ResolvedRegistered(st, r, name)
    ensures st.cursor.procFlag == "" && |st.cursor.procArgs| == 0 ==>
      r == (st, ArgErr(NeedsParameter(cfg.knownAs, FlagWithMinus(name))))
    ensures st.cursor.procFlag != "" || |st.cursor.procArgs| > 0 ==> r.0.cursor == TakeParameter(st.cursor).1
    ensures st.cursor.procFlag != "" || |st.cursor.procArgs| > 0 ==>
      var v := TakeParameter(st.cursor).0;
      var a := Assign(st.reg.flags[st.reg.formal[name]].value, [v], cfg.lib);
      && a.Stored?
      && r.0.reg.flags[st.reg.formal[name]].value == a.value
      && r.1 == if a.err.Some? then ArgErr(InvalidValue(v, cfg.knownAs, FlagWithMinus(name), a.err.value)) else ArgOk
    ensures !r.1.ArgPanic?
  {
    if st.cursor.procFlag == "" && |st.cursor.procArgs| == 0 then
      (st, ArgErr(NeedsParameter(cfg.knownAs, FlagWithMinus(name))))
    else
      var (value, c1) := TakeParameter(st.cursor);
      // a single token: Value.Set cannot index out of range
      var a := Assign(st.reg.flags[st.reg.formal[name]].value, [value], cfg.lib);
      StoreValue(st, name, a.value, c1,
        if a.err.Some? then Some(InvalidValue(value, cfg.knownAs, FlagWithMinus(name), a.err.value)) else None)
  }

  /** parseFlagArg, default case: N parameters are read from procArgs but not consumed. */
  function ResolveParameters(st: State, cfg: Config, name: string): (r: (State, FlagArgResult))
    requires Valid(st.reg) && name in st.reg.formal
    requires st.reg.formal[name] < |st.reg.flags|
    requires st.reg.flags[st.reg.formal[name]].argsNeeded < 0 || st.reg.flags[st.reg.formal[name]].argsNeeded > 1
    ensures ResolvedRegistered(st, r, name)
    ensures r.0.cursor == st.cursor
    ensures r.1.ArgPanic? <==> st.cursor.procFlag == "" && st.reg.flags[st.reg.formal[name]].argsNeeded < 0
    ensures st.cursor.procFlag != "" ==> r == (st, ArgErr(NeedsMoreThanOne(cfg.knownAs, FlagWithMinus(name))))
    ensures st.cursor.procFlag == "" && |st.cursor.procArgs| < st.reg.flags[st.reg.formal[name]].argsNeeded ==>
      r == (st, ArgErr(NotEnoughParameters(cfg.knownAs, FlagWithMinus(name))))
    ensures st.cursor.procFlag == "" && 0 <= st.reg.flags[st.reg.formal[name]].argsNeeded <= |st.cursor.procArgs| ==>
      var values := st.cursor.procArgs[..st.reg.flags[st.reg.formal[name]].argsNeeded];
      var a := Assign(st.reg.flags[st.reg.formal[name]].value, values, cfg.lib);
      && a.Stored?
      && r.0.reg.flags[st.reg.formal[name]].value == a.value
      && r.1 == if a.err.Some? then ArgErr(InvalidValues(values, cfg.knownAs, FlagWithMinus(name), a.err.value)) else ArgOk
  {
    var n := st.reg.flags[st.reg.formal[name]].argsNeeded;
    var c := st.cursor;
    if c.procFlag != "" then
      (st, ArgErr(NeedsMoreThanOne(cfg.knownAs, FlagWithMinus(name))))
    else if |c.procArgs| < n then
      (st, ArgErr(NotEnoughParameters(cfg.knownAs, FlagWithMinus(name))))
    else if n < 0 then
      (st, ArgPanic)  // procArgs[:N] with N < 0 is out of range
    else
      // n >= 2 tokens: Value.Set cannot index out of range
      var values := c.procArgs[..n];
      var a := Assign(st.reg.flags[st.reg.formal[name]].value, values, cfg.lib);
      StoreValue(st, name, a.value, c,
        if a.err.Some? then Some(InvalidValues(values, cfg.knownAs, FlagWithMinus(name), a.err.value)) else None)
  }

  /** parseFlagArg. */
  function ParseFlagArgStep(st: State, cfg: Config, name: string, long: bool): (r: (State, FlagArgResult))
    requires Valid(st.reg)
    ensures Valid(r.0.reg)
    ensures r.0.reg.formal == st.reg.formal && SameRecords(r.0.reg.flags, st.reg.flags)
    ensures NoGrowth(r.0.cursor, st.cursor) && IsSuffix(r.0.cursor.procArgs, st.cursor.procArgs)
    ensures r.0.cursor.args == st.cursor.args
    ensures r.1.ArgOk? ==> name in st.reg.formal && r.0.reg.actual == st.reg.actual[name := st.reg.formal[name]]
    ensures !r.1.ArgOk? ==> r.0.reg.actual == st.reg.actual
    ensures (r.1.ArgErr? && r.1.e.HelpRequested?) <==> name !in st.reg.formal && IsHelpName(name)
    ensures r.1.ArgErr? && r.1.e.HelpRequested? ==>
      r.0.errHelp == cfg.knownAs + ": " + st.errHelp && r.1.e.text == r.0.errHelp
    ensures !(r.1.ArgErr? && r.1.e.HelpRequested?) ==> r.0.errHelp == st.errHelp
    ensures name !in st.reg.formal && !IsHelpName(name) ==>
      r == (st, ArgErr(NotDefined(cfg.knownAs, FlagWithMinus(name))))
    ensures name in st.reg.formal && st.reg.formal[name] < |st.reg.flags| ==>
      var n := st.reg.flags[st.reg.formal[name]].argsNeeded;
      r == if n == 0 then ResolveNoParameter(st, cfg, name, long)
           else if n == 1 then ResolveOneParameter(st, cfg, name)
           else ResolveParameters(st, cfg, name)
  {
    if name !in st.reg.formal then
      if name == "help" || name == "h" then
        // ErrHelp is reassigned before it is returned
        var text := cfg.knownAs + ": " + st.errHelp;
        (st.(errHelp := text), ArgErr(HelpRequested(text)))
      else
        (st, ArgErr(NotDefined(cfg.knownAs, FlagWithMinus(name))))
    else
      assert Points(st.reg, name);
      var n := st.reg.flags[st.reg.formal[name]].argsNeeded;
      if n == 0 then ResolveNoParameter(st, cfg, name, long)
      else if n == 1 then ResolveOneParameter(st, cfg, name)
      else ResolveParameters(st, cfg, name)
  }

  /**
   * What a stretch of parsing keeps: the registry stays valid, the records
   * and `formal` are untouched, `actual` only grows, found positionals are
   * kept, and procArgs only loses tokens from its front.
   */
  ghost predicate Preserves(st: State, st2: State)
  {
    Valid(st2.reg) &&
    st2.reg.formal == st.reg.formal && SameRecords(st2.reg.flags, st.reg.flags) &&
    (forall n :: n in st.reg.actual ==> n in st2.reg.actual && st2.reg.actual[n] == st.reg.actual[n]) &&
    IsPrefix(st.cursor.args, st2.cursor.args) &&
    IsSuffix(st2.cursor.procArgs, st.cursor.procArgs)
  }

  lemma PreservesTransitive(a: State, b: State, c: State)
    requires Preserves(a, b) && Preserves(b, c)
    ensures Preserves(a, c)
  {
    forall i | 0 <= i < |a.reg.flags|
      ensures SameKind(a.reg.flags[i].value, c.reg.flags[i].value)
    {
      SameKindTransitive(a.reg.flags[i].value, b.reg.flags[i].value, c.reg.flags[i].value);
    }
    assert c.cursor.args[..|b.cursor.args|][..|a.cursor.args|] == c.cursor.args[..|a.cursor.args|];
  }

  /** The error policy of Parse (params.go:1167-1179). */
  function Handle(handling: ErrorHandling, e: Error): (n: Next)
    ensures n.Continue? <==> handling.Unlisted?
    ensures handling.ExitOnError? ==> n == Stop(Exited(if e.HelpRequested? then 0 else 2))
    ensures handling.ContinueOnError? ==> n == Stop(Failed(e))
    ensures handling.PanicOnError? ==> n == Stop(Raised(e))
  {
    match handling
    case ContinueOnError => Stop(Failed(e))
    case ExitOnError => Stop(Exited(if e.HelpRequested? then 0 else 2))
    case PanicOnError => Stop(Raised(e))
    case Unlisted(_) => Continue
  }

  /** One iteration of the loop in Parse. */
  function Step(st: State, cfg: Config): (r: (State, Next))
    requires Valid(st.reg)
    ensures Valid(r.0.reg)
    ensures r.1.Continue? ==> Decreases(r.0.cursor, st.cursor)
  {
    var (c1, tok) := ParseOneStep(st.cursor, cfg.allowIntersperse, cfg.knownAs);
    AfterToken(st.(cursor := c1), cfg, tok)
  }

  /**
   * The rest of a turn once parseOne has returned `tok`: parseFlagArg for a
   * flag name, then the error policy for an error, else go on or finish.
   */
  function AfterToken(st: State, cfg: Config, tok: Token): (r: (State, Next))
    requires Valid(st.reg)
    ensures Valid(r.0.reg)
    ensures NoGrowth(r.0.cursor, st.cursor)
    ensures r.1.Continue? ==> !tok.finished || tok.err.Some?
  {
    if !tok.finished && tok.name != "" then
      var (st2, res) := ParseFlagArgStep(st, cfg, tok.name, tok.long);
      match res
      case ArgPanic => (st2, Stop(Crashed))
      case ArgErr(e) => (st2, Handle(cfg.handling, e))
      case ArgOk => (st2, Continue)
    else if tok.err.Some? then
      (st, Handle(cfg.handling, tok.err.value))
    else if !tok.finished then
      (st, Continue)
    else
      (st, Stop(Parsed))
  }

  /** The loop of Parse from a given state; it ends because every Continue lowers the measure. */
  function Run(st: State, cfg: Config): (r: (State, Outcome))
    requires Valid(st.reg)
    ensures Valid(r.0.reg)
    decreases |st.cursor.procArgs|, |st.cursor.procFlag|
  {
    var (st1, next) := Step(st, cfg);
    if next.Stop? then (st1, next.outcome) else Run(st1, cfg)
  }

  /** A step keeps the records, extends `actual`, and reads procArgs from the front. */
  lemma StepPreserves(st: State, cfg: Config)
    requires Valid(st.reg)
    ensures Preserves(st, Step(st, cfg).0)
  {
    var (c1, tok) := ParseOneStep(st.cursor, cfg.allowIntersperse, cfg.knownAs);
    var st1 := st.(cursor := c1);
    assert Preserves(st, st1);
    if !tok.finished && tok.name != "" {
      var st2 := ParseFlagArgStep(st1, cfg, tok.name, tok.long).0;
      assert Preserves(st1, st2);
      PreservesTransitive(st, st1, st2);
      assert Step(st, cfg).0 == st2;
    } else {
      assert Step(st, cfg).0 == st1;
    }
  }

  /** So does a whole parse. */
  lemma {:induction false} RunPreserves(st: State, cfg: Config)
    requires Valid(st.reg)
    ensures Preserves(st, Run(st, cfg).0)
    decreases |st.cursor.procArgs|, |st.cursor.procFlag|
  {
    StepPreserves(st, cfg);
    var (st1, next) := Step(st, cfg);
    if next.Continue? {
      RunPreserves(st1, cfg);
      PreservesTransitive(st, st1, Run(st1, cfg).0);
    }
  }

  /**
   * Parse(arguments): `args`, `procArgs` and `procFlag` are reset, `actual`
   * and the values are not, and the loop runs. So Parse never clears
   * `actual` (a name set before stays set, on the same record), keeps
   * `formal` and every record but its value, and what it leaves unread is a
   * suffix of `arguments`.
   */
  function ParseArguments(st: State, cfg: Config, arguments: seq<string>): (r: (State, Outcome))
    requires Valid(st.reg)
    ensures Valid(r.0.reg)
    ensures r.0.reg.formal == st.reg.formal && SameRecords(r.0.reg.flags, st.reg.flags)
    ensures forall n :: n in st.reg.actual ==> n in r.0.reg.actual && r.0.reg.actual[n] == st.reg.actual[n]
    ensures IsSuffix(r.0.cursor.procArgs, arguments)
  {
    RunPreserves(st.(cursor := Cursor([], arguments, "")), cfg);
    Run(st.(cursor := Cursor([], arguments, "")), cfg)
  }

}
