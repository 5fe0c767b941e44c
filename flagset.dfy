/**
 * The FlagSet object of params.go (lines 261-286) and its methods, written
 * step by step as the Go code is, each proved to compute what the functions
 * of FlagRegistry and Scanner specify.
 */
module FlagSets {
  import opened Options
  import opened Text
  import opened Values
  import opened Errors
  import opened Splitting
  import opened Sorting
  import opened FlagRegistry
  import opened Scanner
  import opened ParseProperties

  /**
   * The package-level ErrHelp variable (params.go:46): one error shared by
   * every FlagSet, whose text parseFlagArg rewrites before returning it.
   */
  class HelpSentinel {
    var text: string

    constructor ()
      ensures text == "help requested"
    {
      text := "help requested";
    }
  }

  class FlagSet {
    var name: string
    var parsed: bool
    /** The records behind the `*Flag` pointers; `formal` and `actual` hold indices into it. */
    var flags: seq<Flag>
    var formal: map<string, nat>
    var actual: map<string, nat>
    var args: seq<string>
    var procArgs: seq<string>
    var procFlag: string
    var allowIntersperse: bool
    var errorHandling: ErrorHandling
    var flagKnownAs: string
    /** The ErrHelp variable this FlagSet reports through. */
    const help: HelpSentinel
    /** The strconv, time and fmt routines the value types call. */
    const lib: Library

    function Reg(): Registry
      reads this
    {
      Registry(flags, formal, actual)
    }

    function Cur(): Cursor
      reads this
    {
      Cursor(args, procArgs, procFlag)
    }

    function Cfg(): Config
      reads this
    {
      Config(allowIntersperse, flagKnownAs, errorHandling, lib)
    }

    function St(): State
      reads this, help
    {
      State(Reg(), Cur(), help.text)
    }

    ghost predicate Valid()
      reads this
    {
      FlagRegistry.Valid(Reg())
    }

    /** NewFlagSet (params.go:1228-1230): flags are known as "parameter". */
    constructor (name: string, errorHandling: ErrorHandling, help: HelpSentinel, lib: Library)
      ensures Valid() && !parsed && this.name == name
      ensures Reg() == Empty() && Cur() == Cursor([], [], "")
      ensures Cfg() == Config(false, "parameter", errorHandling, lib)
      ensures this.help == help
    {
      this.name := name;
      this.errorHandling := errorHandling;
      flagKnownAs := "parameter";
      parsed := false;
      flags, formal, actual := [], map[], map[];
      args, procArgs, procFlag := [], [], "";
      allowIntersperse := false;
      this.help := help;
      this.lib := lib;
    }

    /** NewFlagSetWithFlagKnownAs (params.go:1236-1243). */
    constructor WithKnownAs(name: string, errorHandling: ErrorHandling, aka: string, help: HelpSentinel, lib: Library)
      ensures Valid() && !parsed && this.name == name
      ensures Reg() == Empty() && Cur() == Cursor([], [], "")
      ensures Cfg() == Config(false, aka, errorHandling, lib)
      ensures this.help == help
    {
      this.name := name;
      this.errorHandling := errorHandling;
      flagKnownAs := aka;
      parsed := false;
      flags, formal, actual := [], map[], map[];
      args, procArgs, procFlag := [], [], "";
      allowIntersperse := false;
      this.help := help;
      this.lib := lib;
    }

    /** Init (params.go:1248-1251). */
    method Init(name: string, errorHandling: ErrorHandling)
      modifies this`name, this`errorHandling
      ensures this.name == name && this.errorHandling == errorHandling
    {
      this.name := name;
      this.errorHandling := errorHandling;
    }

    /** SetAllowIntersperse (params.go:374-376). */
    method SetAllowIntersperse(allowIntersperse: bool)
      modifies this`allowIntersperse
      ensures this.allowIntersperse == allowIntersperse
    {
      this.allowIntersperse := allowIntersperse;
    }

    /**
     * Var: registers `value` under every name of `flagStr`. `panicked` is
     * Go's redefinition panic; the names inserted before it stay registered.
     * A name list whose splitting never ends is excluded.
     */
    method Var(value: Value, flagStr: string, usage: string, typeExp: string, argsNeeded: int)
      returns (panicked: bool)
      requires Valid() && Split(flagStr, ' ', -1).Some?
      modifies this`flags, this`formal
      ensures (Reg(), panicked) == Register(old(Reg()), value, flagStr, usage, typeExp, argsNeeded, lib)
      ensures Valid()
    {
      var names := SplitNames(flagStr);
      var idx := |flags|;
      flags := flags + [Flag(names, usage, value, StringOf(value, lib), typeExp, argsNeeded)];
      panicked := AddNames(names, idx);
      RegisterParts(old(Reg()), value, flagStr, usage, typeExp, argsNeeded, lib);
    }

    /** The insertion loop of Var (params.go:951-959): stops at the first name already registered. */
    method AddNames(names: seq<string>, idx: nat) returns (panicked: bool)
      modifies this`formal
      ensures (formal, panicked) == InsertNames(old(formal), names, idx)
    {
      assert names[0..] == names;
      var i := 0;
      panicked := false;
      while i < |names|
        invariant 0 <= i <= |names|
        invariant InsertNames(formal, names[i..], idx) == InsertNames(old(formal), names, idx)
        invariant !panicked
      {
        InsertNamesAt(formal, names, i, idx);
        if names[i] in formal {
          panicked := true;
          return;
        }
        formal := formal[names[i] := idx];
        i := i + 1;
      }
      assert names[i..] == [];
    }

    /** Set (params.go:444-458); `value` is handed to the flag's Value.Set as a list of tokens. */
    method Set(name: string, value: seq<string>) returns (r: SetResult)
      requires Valid()
      modifies this`flags, this`actual
      ensures (Reg(), r) == SetFlag(old(Reg()), name, value, lib, flagKnownAs)
      ensures Valid()
    {
      if name !in formal {
        return SetErr(NoSuchFlag(flagKnownAs, name));
      }
      var i := formal[name];
      assert Points(Reg(), name);
      var a := Assign(flags[i].value, value, lib);
      if a.IndexPanic? {
        return SetPanic;
      }
      flags := flags[i := flags[i].(value := a.value)];
      if a.err.Some? {
        return SetErr(ValueError(a.err.value));
      }
      actual := actual[name := i];
      r := SetOk;
    }

    /** Lookup (params.go:433-435): the flag registered under `name`, or nil. */
    function Lookup(name: string): (r: Option<Flag>)
      reads this
      requires Valid()
      ensures r.Some? <==> name in formal
      ensures r.Some? ==> formal[name] < |flags| && r.value == flags[formal[name]]
      ensures r.Some? ==> name in r.value.names && r.value.names[0] in formal && formal[r.value.names[0]] == formal[name]
    {
      if name in formal then
        assert Points(Reg(), name);
        Some(flags[formal[name]])
      else None
    }

    /** NFlag (params.go:644): the number of names flags were set through. */
    function NFlag(): nat
      reads this
    {
      |actual|
    }

    /** Arg (params.go:651-656). */
    function Arg(i: int): string
      reads this
    {
      if i < 0 || i >= |args| then "" else args[i]
    }

    /** NArg (params.go:665). */
    function NArg(): nat
      reads this
    {
      |args|
    }

    /** Args (params.go:671). */
    function Args(): seq<string>
      reads this
    {
      args
    }

    /** Parsed (params.go:1191-1193). */
    function Parsed(): bool
      reads this
    {
      parsed
    }

    /** Arg indexes exactly the NArg positional arguments that Args returns, and is "" elsewhere. */
    lemma ArgsByIndex(i: int)
      ensures NArg() == |Args()|
      ensures 0 <= i < NArg() ==> Arg(i) == Args()[i]
      ensures !(0 <= i < NArg()) ==> Arg(i) == ""
    {
    }

    /** Once any Set through `name` has succeeded, a later successful Set leaves NFlag unchanged. */
    lemma SetCountsOnce(name: string, value: seq<string>)
      requires Valid()
      ensures var r := SetFlag(Reg(), name, value, lib, flagKnownAs);
        |r.0.actual| == NFlag() + (if r.1.SetOk? && name !in actual then 1 else 0)
    {
      SetCountsName(Reg(), name, value, lib, flagKnownAs);
    }

    /**
     * The first loop of sortFlags (params.go:327-332): the first name of the
     * record behind every key of `m`, in the unspecified order of Go's range
     * over a map. Each name occurs once per key whose record it heads.
     */
    method FirstNames(m: map<string, nat>) returns (list: seq<string>)
      requires Valid()
      requires forall k :: k in m ==> k in formal && m[k] == formal[k]
      ensures |list| == |m|
      ensures forall s :: multiset(list)[s] == |KeysNamed(Reg(), m, m.Keys, s)|
    {
      ghost var reg := Reg();
      list := [];
      var keys := m.Keys;
      while keys != {}
        invariant keys <= m.Keys
        invariant |list| + |keys| == |m.Keys|
        invariant forall s :: multiset(list)[s] + |KeysNamed(reg, m, keys, s)| == |KeysNamed(reg, m, m.Keys, s)|
        decreases |keys|
      {
        var k :| k in keys;
        assert Points(reg, k);
        CountStep(reg, m, keys, k, list);
        list := list + [flags[m[k]].names[0]];
        keys := keys - {k};
      }
      assert |m.Keys| == |m|;
    }

    /**
     * sortFlags (params.go:326-339) over `m`, which is `formal` or `actual`:
     * the first names of the records behind the keys, sorted, each looked up
     * again in `m` (None is Go's nil). SortedUnique shows that `order` does
     * not depend on the order the map was walked in.
     */
    method SortFlags(m: map<string, nat>) returns (result: seq<Option<nat>>, ghost order: seq<string>)
      requires Valid()
      requires forall k :: k in m ==> k in formal && m[k] == formal[k]
      ensures |result| == |order| == |m|
      ensures Sorted(order)
      ensures forall s :: multiset(order)[s] == |KeysNamed(Reg(), m, m.Keys, s)|
      ensures forall i :: 0 <= i < |result| ==> result[i] == Find(m, order[i])
    {
      var list := FirstNames(m);
      var sorted := SortStrings(list);
      result := FindEach(m, sorted);
      order := sorted;
    }

    /**
     * VisitAll (params.go:406-410): the records handed to fn, in order. Every
     * entry is a record, under its first name, sorted by that name; a record
     * with several names is visited once per name.
     */
    method VisitAll() returns (visited: seq<nat>, ghost order: seq<string>)
      requires Valid()
      ensures |visited| == |order| == |formal| && Sorted(order)
      ensures forall s :: multiset(order)[s] == |KeysNamed(Reg(), formal, formal.Keys, s)|
      ensures forall i :: 0 <= i < |visited| ==>
        order[i] in formal && visited[i] == formal[order[i]] && visited[i] < |flags| &&
        flags[visited[i]].names[0] == order[i]
    {
      var result;
      result, order := SortFlags(formal);
      visited := [];
      var i := 0;
      while i < |result|
        invariant 0 <= i <= |result| && |visited| == i
        invariant forall j :: 0 <= j < i ==>
          order[j] in formal && visited[j] == formal[order[j]] && visited[j] < |flags| &&
          flags[visited[j]].names[0] == order[j]
      {
        FirstNameRegistered(order, i);
        visited := visited + [result[i].value];
        i := i + 1;
      }
    }

    /** A name counted by KeysNamed over `formal` is itself a registered first name. */
    lemma FirstNameRegistered(order: seq<string>, i: nat)
      requires Valid() && i < |order|
      requires forall s :: multiset(order)[s] == |KeysNamed(Reg(), formal, formal.Keys, s)|
      ensures order[i] in formal && formal[order[i]] < |flags| && flags[formal[order[i]]].names[0] == order[i]
    {
      var s := order[i];
      assert s in multiset(order);
      var ks := KeysNamed(Reg(), formal, formal.Keys, s);
      assert |ks| > 0;
      var k :| k in ks;
      assert Points(Reg(), k);
    }

    /**
     * Visit (params.go:420-424): like VisitAll over `actual`. An entry is
     * None (Go's nil) exactly when its flag was set only through names
     * other than its first.
     */
    method Visit() returns (visited: seq<Option<nat>>, ghost order: seq<string>)
      requires Valid()
      ensures |visited| == |order| == |actual| && Sorted(order)
      ensures forall s :: multiset(order)[s] == |KeysNamed(Reg(), actual, actual.Keys, s)|
      ensures forall i :: 0 <= i < |visited| ==> visited[i] == Find(actual, order[i])
    {
      visited, order := SortFlags(actual);
    }

    /** parseOne (params.go:995-1062). */
    method ParseOne() returns (flagName: string, long: bool, finished: bool, err: Option<Error>)
      modifies this`args, this`procArgs, this`procFlag
      ensures (Cur(), Token(flagName, long, finished, err)) == ParseOneStep(old(Cur()), allowIntersperse, flagKnownAs)
    {
      flagName, long, finished, err := "", false, false, None;
      if |procArgs| == 0 {
        finished := true;
        return;
      }
      // the next rune of a pending short cluster
      if |procFlag| > 0 {
        var flag := procFlag;
        procFlag := flag[1..];
        flagName := flag[..1];
        return;
      }
      var a := procArgs[0];
      if a == "-" || a == "" || a[0] != '-' {
        if allowIntersperse {
          args := args + [a];
          procArgs := procArgs[1..];
          return;
        }
        args := args + procArgs;
        procArgs := [];
        finished := true;
        return;
      }
      if procArgs[0] == "--" {
        args := args + procArgs[1..];
        procArgs := [];
        finished := true;
        return;
      }
      if a[1] == '-' {
        long := true;
        SplitInTwo(a, '=');
        var parts := SplitOn(a, '=', 2);
        if |parts| > 1 {
          flagName := parts[0][2..];
          procFlag := parts[1];
          procArgs := procArgs[1..];
          if flagName == "" {
            err := Some(EmptyFlagName(flagKnownAs, a));
          }
          return;
        }
        flagName := a[2..];
        procArgs := procArgs[1..];
        return;
      }
      // some number of single-rune flags
      a := a[1..];
      if |a| > 1 && a[1] == '=' {
        flagName := a[..1];
        procFlag := a[2..];
        procArgs := procArgs[1..];
        return;
      }
      flagName := a[..1];
      procFlag := a[1..];
      procArgs := procArgs[1..];
    }

    /** parseFlagArg (params.go:1071-1147); Go's `finished` result is always false and is dropped. */
    method ParseFlagArg(name: string, long: bool) returns (res: FlagArgResult)
      requires Valid()
      modifies this`flags, this`actual, this`procArgs, this`procFlag, help`text
      ensures (St(), res) == ParseFlagArgStep(old(St()), Cfg(), name, long)
      ensures Valid()
    {
      if name !in formal {
        if name == "help" || name == "h" {
          help.text := flagKnownAs + ": " + help.text;
          return ArgErr(HelpRequested(help.text));
        }
        return ArgErr(NotDefined(flagKnownAs, FlagWithMinus(name)));
      }
      assert Points(Reg(), name);
      var n := flags[formal[name]].argsNeeded;
      if n == 0 {
        res := TakeNoParameter(name, long);
      } else if n == 1 {
        res := TakeOneParameter(name);
      } else {
        res := TakeParameters(name);
      }
    }

    /** parseFlagArg, case 0 (params.go:1084-1093, 1142-1146). */
    method TakeNoParameter(name: string, long: bool) returns (res: FlagArgResult)
      requires Valid() && name in formal && formal[name] < |flags|
      modifies this`flags, this`actual, this`procFlag
      ensures (St(), res) == ResolveNoParameter(old(St()), Cfg(), name, long)
    {
      var i := formal[name];
      // Set([]) runs before any check, and its error is discarded
      var a := Assign(flags[i].value, [], lib);
      if a.IndexPanic? {
        return ArgPanic;
      }
      flags := flags[i := flags[i].(value := a.value)];
      if procFlag != "" && long {
        var found := procFlag;
        procFlag := "";
        return ArgErr(UnwantedArgument(flagKnownAs, found, FlagWithMinus(name)));
      }
      actual := actual[name := i];
      res := ArgOk;
    }

    /** parseFlagArg, case 1 (params.go:1097-1127, 1142-1146). */
    method TakeOneParameter(name: string) returns (res: FlagArgResult)
      requires Valid() && name in formal && formal[name] < |flags|
      modifies this`flags, this`actual, this`procArgs, this`procFlag
      ensures (St(), res) == ResolveOneParameter(old(St()), Cfg(), name)
    {
      var i := formal[name];
      var hasValue := false;
      var value := "";
      if procFlag != "" {
        // the value directly follows the flag
        value := procFlag;
        hasValue := true;
        procFlag := "";
      }
      if !hasValue && |procArgs| > 0 {
        // the value is the next argument
        value, procArgs := procArgs[0], procArgs[1..];
        hasValue := true;
      }
      if !hasValue {
        return ArgErr(NeedsParameter(flagKnownAs, FlagWithMinus(name)));
      }
      var a := Assign(flags[i].value, [value], lib);
      flags := flags[i := flags[i].(value := a.value)];
      if a.err.Some? {
        return ArgErr(InvalidValue(value, flagKnownAs, FlagWithMinus(name), a.err.value));
      }
      actual := actual[name := i];
      res := ArgOk;
    }

    /** parseFlagArg, default case (params.go:1128-1146): the parameters stay in procArgs. */
    method TakeParameters(name: string) returns (res: FlagArgResult)
      requires Valid() && name in formal && formal[name] < |flags|
      requires flags[formal[name]].argsNeeded < 0 || flags[formal[name]].argsNeeded > 1
      modifies this`flags, this`actual
      ensures (St(), res) == ResolveParameters(old(St()), Cfg(), name)
    {
      var i := formal[name];
      var n := flags[i].argsNeeded;
      if procFlag != "" {
        return ArgErr(NeedsMoreThanOne(flagKnownAs, FlagWithMinus(name)));
      }
      if |procArgs| < n {
        return ArgErr(NotEnoughParameters(flagKnownAs, FlagWithMinus(name)));
      }
      if n < 0 {
        // procArgs[:n] is out of range
        return ArgPanic;
      }
      var values := procArgs[..n];
      var a := Assign(flags[i].value, values, lib);
      flags := flags[i := flags[i].(value := a.value)];
      if a.err.Some? {
        return ArgErr(InvalidValues(values, flagKnownAs, FlagWithMinus(name), a.err.value));
      }
      actual := actual[name := i];
      res := ArgOk;
    }

    /**
     * Parse (params.go:1155-1188): resets the cursor and loops until the
     * arguments are used up or the error policy stops it.
     */
    method Parse(arguments: seq<string>) returns (outcome: Outcome)
      requires Valid()
      modifies this`parsed, this`flags, this`actual, this`args, this`procArgs, this`procFlag, help`text
      ensures (St(), outcome) == ParseArguments(old(St()), Cfg(), arguments)
      ensures Valid() && parsed
    {
      Reset(arguments);
      outcome := Loop(ParseArguments(old(St()), Cfg(), arguments));
    }

    /** The loop of Parse (params.go:1160-1187), which ends as `goal` says. */
    method Loop(ghost goal: (State, Outcome)) returns (outcome: Outcome)
      requires Valid() && RunIs(St(), Cfg(), goal)
      modifies this`flags, this`actual, this`args, this`procArgs, this`procFlag, help`text
      ensures goal == (St(), outcome)
      ensures Valid()
    {
      while true
        invariant Valid() && RunIs(St(), Cfg(), goal)
        decreases |procArgs|, |procFlag|
      {
        var next := ParseTurn(goal);
        if next.Stop? {
          return next.outcome;
        }
      }
    }

    /** The start of Parse: parsed is set and the cursor holds every argument. */
    method Reset(arguments: seq<string>)
      modifies this`parsed, this`args, this`procArgs, this`procFlag
      ensures St() == old(St()).(cursor := Cursor([], arguments, "")) && parsed
    {
      parsed := true;
      procArgs := arguments;
      procFlag := "";
      args := [];
    }

    /**
     * One turn of the loop of Parse, seen from the whole run: a turn that
     * stops ends the run as `goal`; one that continues leaves the rest of
     * the run unchanged and lowers the measure.
     */
    method ParseTurn(ghost goal: (State, Outcome)) returns (next: Next)
      requires Valid() && RunIs(St(), Cfg(), goal)
      modifies this`flags, this`actual, this`args, this`procArgs, this`procFlag, help`text
      ensures next.Stop? ==> goal == (St(), next.outcome)
      ensures next.Continue? ==> RunIs(St(), Cfg(), goal) && Decreases(Cur(), old(Cur()))
      ensures Valid()
    {
      ghost var st := St();
      next := Turn();
      TurnRun(st, Cfg(), St(), next, goal);
    }

    /**
     * One turn of the loop of Parse (params.go:1161-1186): parseOne, then
     * the rest of the turn; Stop carries what Parse returns, or the exit or
     * panic that ends it.
     */
    method Turn() returns (next: Next)
      requires Valid()
      modifies this`flags, this`actual, this`args, this`procArgs, this`procFlag, help`text
      ensures (St(), next) == Step(old(St()), Cfg())
      ensures Valid()
    {
      var name, long, finished, err := ParseOne();
      next := Dispatch(Token(name, long, finished, err));
    }

    /**
     * The loop body of Parse after parseOne (params.go:1163-1186):
     * parseFlagArg for a flag name (a runtime panic ends everything), then
     * the switch on errorHandling, then `break` when parseOne finished.
     */
    method Dispatch(tok: Token) returns (next: Next)
      requires Valid()
      modifies this`flags, this`actual, this`procArgs, this`procFlag, help`text
      ensures (St(), next) == AfterToken(old(St()), Cfg(), tok)
      ensures Valid()
    {
      var finished, err := tok.finished, tok.err;
      if !finished && tok.name != "" {
        var res := ParseFlagArg(tok.name, tok.long);
        if res.ArgPanic? {
          return Stop(Crashed);
        }
        finished, err := false, if res.ArgErr? then Some(res.e) else None;
      }
      if err.Some? {
        match errorHandling
        case ContinueOnError =>
          return Stop(Failed(err.value));
        case ExitOnError =>
          return Stop(Exited(if err.value.HelpRequested? then 0 else 2));
        case PanicOnError =>
          return Stop(Raised(err.value));
        case Unlisted(_) =>
      }
      if !finished {
        return Continue;
      }
      // `break` only without an error; parseOne never reports one with finished
      next := if err.None? then Stop(Outcome.Parsed) else Continue;
    }

  }

  /** Go's `m[name]`: the record index, or None for nil. */
  function Find(m: map<string, nat>, name: string): (r: Option<nat>)
  {
    if name in m then Some(m[name]) else None
  }

  /** The second loop of sortFlags (params.go:334-337): every name looked up again in `m`. */
  method FindEach(m: map<string, nat>, names: seq<string>) returns (result: seq<Option<nat>>)
    ensures |result| == |names|
    ensures forall i :: 0 <= i < |result| ==> result[i] == Find(m, names[i])
  {
    result := [];
    var i := 0;
    while i < |names|
      invariant 0 <= i <= |names| && |result| == i
      invariant forall j :: 0 <= j < i ==> result[j] == Find(m, names[j])
    {
      result := result + [Find(m, names[i])];
      i := i + 1;
    }
  }

  /** The names of Var (params.go:931-938): split at spaces, the single-rune name second. */
  method SplitNames(flagStr: string) returns (names: seq<string>)
    requires Split(flagStr, ' ', -1).Some?
    ensures names == NamesOf(flagStr)
  {
    names := SplitOn(flagStr, ' ', -1);
    SwapNormalizes(names);
    if |names| > 1 && |names[0]| == 1 && |names[1]| > 1 {
      names := names[0 := names[1]][1 := names[0]];
    }
  }

  /** The swap Var applies in place gives the order NormalizeNames describes. */
  lemma SwapNormalizes(names: seq<string>)
    ensures (if |names| > 1 && |names[0]| == 1 && |names[1]| > 1 then names[0 := names[1]][1 := names[0]] else names)
      == NormalizeNames(names)
  {
    if |names| > 1 && |names[0]| == 1 && |names[1]| > 1 {
      assert names[0 := names[1]][1 := names[0]] == [names[1], names[0]] + names[2..];
    }
  }

  /** One turn of the insertion loop of Var. */
  lemma InsertNamesAt(formal: map<string, nat>, names: seq<string>, i: nat, idx: nat)
    requires i < |names|
    ensures InsertNames(formal, names[i..], idx) ==
      if names[i] in formal then (formal, true) else InsertNames(formal[names[i] := idx], names[i + 1..], idx)
  {
    assert names[i..][1..] == names[i + 1..];
  }

  /** Register, component by component. */
  lemma RegisterParts(reg: Registry, value: Value, flagStr: string, usage: string, typeExp: string,
                      args: int, lib: Library)
    requires Split(flagStr, ' ', -1).Some? && Valid(reg)
    ensures var ins := InsertNames(reg.formal, NamesOf(flagStr), |reg.flags|);
      Register(reg, value, flagStr, usage, typeExp, args, lib) ==
        (Registry(reg.flags + [Flag(NamesOf(flagStr), usage, value, StringOf(value, lib), typeExp, args)], ins.0, reg.actual), ins.1)
  {
  }

  /** The counting invariant of sortFlags' first loop survives taking key `k`. */
  lemma CountStep(reg: Registry, m: map<string, nat>, keys: set<string>, k: string, list: seq<string>)
    requires k in keys && k in m && m[k] < |reg.flags| && |reg.flags[m[k]].names| > 0
    requires forall s :: multiset(list)[s] + |KeysNamed(reg, m, keys, s)| == |KeysNamed(reg, m, m.Keys, s)|
    ensures forall s ::
      multiset(list + [reg.flags[m[k]].names[0]])[s] + |KeysNamed(reg, m, keys - {k}, s)| == |KeysNamed(reg, m, m.Keys, s)|
  {
    forall s
      ensures multiset(list + [reg.flags[m[k]].names[0]])[s] + |KeysNamed(reg, m, keys - {k}, s)| ==
        |KeysNamed(reg, m, m.Keys, s)|
    {
      KeysNamedRemove(reg, m, keys, k, s);
    }
  }

  /** The loop of Parse, from `st`, ends as `r`. */
  ghost predicate RunIs(st: State, cfg: Config, r: (State, Outcome))
  {
    Valid(st.reg) && Run(st, cfg) == r
  }

  /** A turn that continues leaves the rest of the run unchanged and lowers the measure; one that stops ends it. */
  lemma TurnRun(st: State, cfg: Config, st2: State, next: Next, goal: (State, Outcome))
    requires Valid(st.reg) && Step(st, cfg) == (st2, next) && RunIs(st, cfg, goal)
    ensures next.Stop? ==> goal == (st2, next.outcome)
    ensures next.Continue? ==> RunIs(st2, cfg, goal) && Decreases(st2.cursor, st.cursor)
  {
    if next.Stop? {
      RunStops(st, cfg);
    } else {
      RunContinues(st, cfg);
    }
  }

}
