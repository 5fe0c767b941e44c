/**
 * Properties of the command-line grammar that FlagSet.Parse accepts
 * (params.go:995-1188), stated over the functions of module Scanner.
 */
module ParseProperties {
  import opened Options
  import opened Text
  import opened Values
  import opened Errors
  import opened Splitting
  import opened FlagRegistry
  import opened Scanner

  lemma RunStops(st: State, cfg: Config)
    requires Valid(st.reg) && Step(st, cfg).1.Stop?
    ensures Run(st, cfg) == (Step(st, cfg).0, Step(st, cfg).1.outcome)
  {
  }

  lemma RunContinues(st: State, cfg: Config)
    requires Valid(st.reg) && Step(st, cfg).1.Continue?
    ensures Valid(Step(st, cfg).0.reg)
    ensures Run(st, cfg) == Run(Step(st, cfg).0, cfg)
  {
  }

  /** The one-rune flag `x` is registered, takes no parameter, and its Set never indexes a token. */
  ghost predicate Switch(reg: Registry, x: char)
  {
    [x] in reg.formal && reg.formal[[x]] < |reg.flags| &&
    reg.flags[reg.formal[[x]]].argsNeeded == 0 &&
    !ReadsFirstToken(reg.flags[reg.formal[[x]]].value)
  }

  /** Each rune of a cluster written as its own token: "abc" becomes "-a", "-b", "-c". */
  function Dashed(p: string): (r: seq<string>)
    ensures |r| == |p|
    ensures forall k :: 0 <= k < |p| ==> r[k] == ['-', p[k]]
  {
    if p == [] then [] else [['-', p[0]]] + Dashed(p[1..])
  }

  lemma DashedHead(p: string, rest: seq<string>)
    requires |p| > 0
    ensures Dashed(p) + rest == [['-', p[0]]] + (Dashed(p[1..]) + rest)
  {
  }

  /** The registry after the switch `x` was applied: its value set with no tokens, and `actual` updated. */
  function Switched(reg: Registry, x: char, lib: Library): Registry
  {
    if [x] in reg.formal && reg.formal[[x]] < |reg.flags| then
      var i := reg.formal[[x]];
      match Assign(reg.flags[i].value, [], lib)
      case IndexPanic => reg
      case Stored(v, _) => Trigger(WithValue(reg, i, v), [x])
    else reg
  }

  /** The registry after the switches of `p` were applied from left to right. */
  function ApplySwitches(reg: Registry, p: string, lib: Library): Registry
    decreases |p|
  {
    if p == [] then reg else ApplySwitches(Switched(reg, p[0], lib), p[1..], lib)
  }

  lemma SwitchedKeeps(reg: Registry, x: char, lib: Library, y: char)
    requires Valid(reg) && Switch(reg, x)
    ensures Valid(Switched(reg, x, lib))
    ensures Switched(reg, x, lib).formal == reg.formal
    ensures Switched(reg, x, lib).actual == reg.actual[[x] := reg.formal[[x]]]
    ensures Switch(reg, y) ==> Switch(Switched(reg, x, lib), y)
  {
    assert Points(reg, [x]);
    var i := reg.formal[[x]];
    var a := Assign(reg.flags[i].value, [], lib);
    WithValueValid(reg, i, a.value);
    TriggerValid(WithValue(reg, i, a.value), [x]);
    if Switch(reg, y) {
      var j := reg.formal[[y]];
      if j == i {
        assert SameKind(reg.flags[i].value, a.value);
      }
    }
  }

  /** One step with the switch `x` next in the pending cluster applies it and continues. */
  lemma PendingSwitchStep(st: State, cfg: Config)
    requires Valid(st.reg) && |st.cursor.procArgs| > 0 && |st.cursor.procFlag| > 0
    requires Switch(st.reg, st.cursor.procFlag[0])
    ensures var x := st.cursor.procFlag[0];
      Step(st, cfg) ==
        (State(Switched(st.reg, x, cfg.lib), st.cursor.(procFlag := st.cursor.procFlag[1..]), st.errHelp), Continue)
  {
    var x := st.cursor.procFlag[0];
    assert st.cursor.procFlag[..1] == [x];
  }

  /** One step on the token "-x" of the switch `x` applies it and continues. */
  lemma DashedSwitchStep(st: State, cfg: Config, x: char, rest: seq<string>)
    requires Valid(st.reg) && st.cursor.procFlag == "" && st.cursor.procArgs == [['-', x]] + rest
    requires x != '-' && Switch(st.reg, x)
    ensures Step(st, cfg) ==
      (State(Switched(st.reg, x, cfg.lib), st.cursor.(procArgs := rest), st.errHelp), Continue)
  {
    var a := ['-', x];
    assert a[1..][..1] == [x] && a[1..][1..] == "";
    assert st.cursor.procArgs[1..] == rest;
  }

  lemma {:induction false} ApplySwitchesValid(reg: Registry, p: string, lib: Library)
    requires Valid(reg) && forall k :: 0 <= k < |p| ==> Switch(reg, p[k])
    ensures Valid(ApplySwitches(reg, p, lib))
    decreases |p|
  {
    if p != [] {
      forall k | 0 <= k < |p[1..]| ensures Switch(Switched(reg, p[0], lib), p[1..][k]) {
        SwitchedKeeps(reg, p[0], lib, p[1..][k]);
      }
      ApplySwitchesValid(Switched(reg, p[0], lib), p[1..], lib);
    }
  }

  /** A parse with the switch `x` next in the pending cluster goes on as one with `x` applied. */
  lemma PendingSwitchRun(st: State, cfg: Config)
    requires Valid(st.reg) && |st.cursor.procArgs| > 0 && |st.cursor.procFlag| > 0
    requires Switch(st.reg, st.cursor.procFlag[0])
    ensures Valid(Switched(st.reg, st.cursor.procFlag[0], cfg.lib))
    ensures Run(st, cfg) == Run(State(Switched(st.reg, st.cursor.procFlag[0], cfg.lib),
      st.cursor.(procFlag := st.cursor.procFlag[1..]), st.errHelp), cfg)
  {
    SwitchedKeeps(st.reg, st.cursor.procFlag[0], cfg.lib, st.cursor.procFlag[0]);
    PendingSwitchStep(st, cfg);
    RunContinues(st, cfg);
  }

  /** A parse at the token "-x" of the switch `x` goes on as one with `x` applied. */
  lemma DashedSwitchRun(st: State, cfg: Config, x: char, rest: seq<string>)
    requires Valid(st.reg) && st.cursor.procFlag == "" && st.cursor.procArgs == [['-', x]] + rest
    requires x != '-' && Switch(st.reg, x)
    ensures Valid(Switched(st.reg, x, cfg.lib))
    ensures Run(st, cfg) == Run(State(Switched(st.reg, x, cfg.lib), st.cursor.(procArgs := rest), st.errHelp), cfg)
  {
    SwitchedKeeps(st.reg, x, cfg.lib, x);
    DashedSwitchStep(st, cfg, x, rest);
    RunContinues(st, cfg);
  }

  /** A parse at the cluster "-xyz" goes on with `x` applied and "yz" pending. */
  lemma ClusterRun(st: State, cfg: Config, p: string, rest: seq<string>)
    requires Valid(st.reg) && st.cursor.procFlag == "" && st.cursor.procArgs == ["-" + p] + rest
    requires |p| > 0 && p[0] != '-' && (|p| > 1 ==> p[1] != '=') && Switch(st.reg, p[0])
    ensures Valid(Switched(st.reg, p[0], cfg.lib))
    ensures Run(st, cfg) == Run(State(Switched(st.reg, p[0], cfg.lib), Cursor(st.cursor.args, rest, p[1..]), st.errHelp), cfg)
  {
    SwitchedKeeps(st.reg, p[0], cfg.lib, p[0]);
    ClusterStep(st, cfg, p, rest);
    RunContinues(st, cfg);
  }

  /** The switches pending in a cluster are applied in order while more tokens follow. */
  lemma {:induction false} PendingSwitches(st: State, cfg: Config)
    requires Valid(st.reg) && |st.cursor.procArgs| > 0
    requires forall k :: 0 <= k < |st.cursor.procFlag| ==> Switch(st.reg, st.cursor.procFlag[k])
    ensures Valid(ApplySwitches(st.reg, st.cursor.procFlag, cfg.lib)) && Run(st, cfg) ==
      Run(State(ApplySwitches(st.reg, st.cursor.procFlag, cfg.lib), st.cursor.(procFlag := ""), st.errHelp), cfg)
    decreases |st.cursor.procFlag|
  {
    var p := st.cursor.procFlag;
    ApplySwitchesValid(st.reg, p, cfg.lib);
    if p != [] {
      PendingSwitchRun(st, cfg);
      forall k | 0 <= k < |p[1..]| ensures Switch(Switched(st.reg, p[0], cfg.lib), p[1..][k]) {
        SwitchedKeeps(st.reg, p[0], cfg.lib, p[1..][k]);
      }
      PendingSwitches(State(Switched(st.reg, p[0], cfg.lib), st.cursor.(procFlag := p[1..]), st.errHelp), cfg);
    } else {
      assert st.cursor.(procFlag := "") == st.cursor;
    }
  }

  /** The tokens "-a", "-b", ... of switches are applied in order. */
  lemma {:induction false} DashedSwitches(st: State, cfg: Config, p: string, rest: seq<string>)
    requires Valid(st.reg) && st.cursor.procFlag == "" && st.cursor.procArgs == Dashed(p) + rest
    requires forall k :: 0 <= k < |p| ==> p[k] != '-' && Switch(st.reg, p[k])
    ensures Valid(ApplySwitches(st.reg, p, cfg.lib)) &&
      Run(st, cfg) == Run(State(ApplySwitches(st.reg, p, cfg.lib), Cursor(st.cursor.args, rest, ""), st.errHelp), cfg)
    decreases |p|
  {
    ApplySwitchesValid(st.reg, p, cfg.lib);
    if p != [] {
      var st1 := DashedSwitchesHead(st, cfg, p, rest);
      DashedSwitches(st1, cfg, p[1..], rest);
    } else {
      assert Dashed(p) + rest == rest;
    }
  }

  /** The first token "-a" of the list applies `a`, leaving a shorter list of switches. */
  lemma DashedSwitchesHead(st: State, cfg: Config, p: string, rest: seq<string>) returns (st1: State)
    requires Valid(st.reg) && st.cursor.procFlag == "" && st.cursor.procArgs == Dashed(p) + rest && |p| > 0
    requires forall k :: 0 <= k < |p| ==> p[k] != '-' && Switch(st.reg, p[k])
    ensures Valid(st1.reg) && st1.cursor == Cursor(st.cursor.args, Dashed(p[1..]) + rest, "")
    ensures forall k :: 0 <= k < |p[1..]| ==> p[1..][k] != '-' && Switch(st1.reg, p[1..][k])
    ensures ApplySwitches(st1.reg, p[1..], cfg.lib) == ApplySwitches(st.reg, p, cfg.lib) && st1.errHelp == st.errHelp
    ensures Run(st, cfg) == Run(st1, cfg)
  {
    st1 := DashedSwitchesRun(st, cfg, p, rest);
    SwitchedKeepsRest(st.reg, p, cfg.lib);
  }

  lemma DashedSwitchesRun(st: State, cfg: Config, p: string, rest: seq<string>) returns (st1: State)
    requires Valid(st.reg) && st.cursor.procFlag == "" && st.cursor.procArgs == Dashed(p) + rest && |p| > 0
    requires p[0] != '-' && Switch(st.reg, p[0])
    ensures st1 == State(Switched(st.reg, p[0], cfg.lib), Cursor(st.cursor.args, Dashed(p[1..]) + rest, ""), st.errHelp)
    ensures Valid(st1.reg) && Run(st, cfg) == Run(st1, cfg)
  {
    DashedHead(p, rest);
    DashedSwitchRun(st, cfg, p[0], Dashed(p[1..]) + rest);
    st1 := State(Switched(st.reg, p[0], cfg.lib), Cursor(st.cursor.args, Dashed(p[1..]) + rest, ""), st.errHelp);
  }

  /** Applying the first switch of `p` keeps the others switches. */
  lemma SwitchedKeepsRest(reg: Registry, p: string, lib: Library)
    requires Valid(reg) && |p| > 0
    requires forall k :: 0 <= k < |p| ==> p[k] != '-' && Switch(reg, p[k])
    ensures forall k :: 0 <= k < |p[1..]| ==> p[1..][k] != '-' && Switch(Switched(reg, p[0], lib), p[1..][k])
  {
    forall k | 0 <= k < |p[1..]| ensures Switch(Switched(reg, p[0], lib), p[1..][k]) {
      SwitchedKeeps(reg, p[0], lib, p[1..][k]);
    }
  }

  /**
   * While more tokens follow, the switches pending in a cluster act exactly
   * as if each had been written as its own token.
   */
  lemma PendingCluster(st: State, cfg: Config)
    requires Valid(st.reg) && |st.cursor.procArgs| > 0
    requires forall k :: 0 <= k < |st.cursor.procFlag| ==>
      st.cursor.procFlag[k] != '-' && Switch(st.reg, st.cursor.procFlag[k])
    ensures Run(st, cfg) ==
      Run(st.(cursor := Cursor(st.cursor.args, Dashed(st.cursor.procFlag) + st.cursor.procArgs, "")), cfg)
  {
    PendingSwitches(st, cfg);
    DashedSwitches(st.(cursor := Cursor(st.cursor.args, Dashed(st.cursor.procFlag) + st.cursor.procArgs, "")),
      cfg, st.cursor.procFlag, st.cursor.procArgs);
  }

  /** One step on a cluster "-xyz" whose first rune is a switch applies that switch and queues the rest. */
  lemma ClusterStep(st: State, cfg: Config, p: string, rest: seq<string>)
    requires Valid(st.reg) && st.cursor.procFlag == "" && st.cursor.procArgs == ["-" + p] + rest
    requires |p| > 0 && p[0] != '-' && (|p| > 1 ==> p[1] != '=') && Switch(st.reg, p[0])
    ensures Step(st, cfg) ==
      (State(Switched(st.reg, p[0], cfg.lib), Cursor(st.cursor.args, rest, p[1..]), st.errHelp), Continue)
  {
    var a := "-" + p;
    assert a[1..] == p && p[..1] == [p[0]];
    assert st.cursor.procArgs[1..] == rest;
  }

  /**
   * A cluster "-abc" of switches followed by more tokens applies a, b and c
   * in order, exactly as "-a", "-b", "-c" do.
   */
  lemma ClusterEqualsSeparateSwitches(st: State, cfg: Config, p: string, rest: seq<string>)
    requires Valid(st.reg) && st.cursor.procFlag == "" && st.cursor.procArgs == ["-" + p] + rest
    requires |rest| > 0 && |p| > 0 && (|p| > 1 ==> p[1] != '=')
    requires forall k :: 0 <= k < |p| ==> p[k] != '-' && Switch(st.reg, p[k])
    ensures Run(st, cfg) == Run(st.(cursor := st.cursor.(procArgs := Dashed(p) + rest)), cfg)
    ensures Valid(ApplySwitches(st.reg, p, cfg.lib)) &&
      Run(st, cfg) == Run(State(ApplySwitches(st.reg, p, cfg.lib), Cursor(st.cursor.args, rest, ""), st.errHelp), cfg)
  {
    var reg1 := Switched(st.reg, p[0], cfg.lib);
    ClusterRun(st, cfg, p, rest);
    forall k | 0 <= k < |p[1..]| ensures Switch(reg1, p[1..][k]) {
      SwitchedKeeps(st.reg, p[0], cfg.lib, p[1..][k]);
    }
    PendingSwitches(State(reg1, Cursor(st.cursor.args, rest, p[1..]), st.errHelp), cfg);
    DashedSwitches(st.(cursor := st.cursor.(procArgs := Dashed(p) + rest)), cfg, p, rest);
  }

  /**
   * When a cluster is the last token, only its first switch is applied: the
   * rest stays in procFlag and the parse ends.
   */
  lemma ClusterAsLastTokenAppliesFirstOnly(st: State, cfg: Config, p: string)
    requires Valid(st.reg) && st.cursor.procFlag == "" && st.cursor.procArgs == ["-" + p]
    requires |p| > 1 && p[0] != '-' && p[1] != '=' && Switch(st.reg, p[0])
    ensures Run(st, cfg).1 == Parsed
    ensures Run(st, cfg).0.cursor == Cursor(st.cursor.args, [], p[1..])
    ensures Run(st, cfg).0.reg.actual == st.reg.actual[[p[0]] := st.reg.formal[[p[0]]]]
  {
    assert st.cursor.procArgs == ["-" + p] + [];
    ClusterStep(st, cfg, p, []);
    SwitchedKeeps(st.reg, p[0], cfg.lib, p[0]);
    RunContinues(st, cfg);
    var st1 := State(Switched(st.reg, p[0], cfg.lib), Cursor(st.cursor.args, [], p[1..]), st.errHelp);
    assert Step(st1, cfg) == (st1, Stop(Parsed));
    RunStops(st1, cfg);
  }

  /** "--" ends the flags: every later token is positional, whatever it looks like. */
  lemma DoubleDashEndsFlags(st: State, cfg: Config, rest: seq<string>)
    requires Valid(st.reg) && st.cursor.procFlag == "" && st.cursor.procArgs == ["--"] + rest
    ensures Run(st, cfg) == (st.(cursor := Cursor(st.cursor.args + rest, [], "")), Parsed)
  {
    assert st.cursor.procArgs[1..] == rest;
    assert Step(st, cfg) == (st.(cursor := Cursor(st.cursor.args + rest, [], "")), Stop(Parsed));
    RunStops(st, cfg);
  }

  /**
   * Without interspersing, the first positional argument ends the flags:
   * it and everything after it are positional.
   */
  lemma FirstPositionalEndsFlags(st: State, cfg: Config)
    requires Valid(st.reg) && !cfg.allowIntersperse && st.cursor.procFlag == ""
    requires |st.cursor.procArgs| > 0 && Positional(st.cursor.procArgs[0])
    ensures Run(st, cfg) == (st.(cursor := Cursor(st.cursor.args + st.cursor.procArgs, [], "")), Parsed)
  {
    assert Step(st, cfg) == (st.(cursor := Cursor(st.cursor.args + st.cursor.procArgs, [], "")), Stop(Parsed));
    RunStops(st, cfg);
  }

  /** With interspersing, a positional argument is collected and parsing goes on. */
  lemma PositionalStep(st: State, cfg: Config)
    requires Valid(st.reg) && cfg.allowIntersperse && st.cursor.procFlag == ""
    requires |st.cursor.procArgs| > 0 && Positional(st.cursor.procArgs[0])
    ensures Step(st, cfg) ==
      (st.(cursor := Cursor(st.cursor.args + [st.cursor.procArgs[0]], st.cursor.procArgs[1..], "")), Continue)
  {
  }

  lemma PositionalRun(st: State, cfg: Config)
    requires Valid(st.reg) && cfg.allowIntersperse && st.cursor.procFlag == ""
    requires |st.cursor.procArgs| > 0 && Positional(st.cursor.procArgs[0])
    ensures Run(st, cfg) ==
      Run(st.(cursor := Cursor(st.cursor.args + [st.cursor.procArgs[0]], st.cursor.procArgs[1..], "")), cfg)
  {
    PositionalStep(st, cfg);
    RunContinues(st, cfg);
  }

  /** With no token left the parse ends, keeping any pending cluster. */
  lemma RunAtEnd(st: State, cfg: Config)
    requires Valid(st.reg) && |st.cursor.procArgs| == 0
    ensures Run(st, cfg) == (st, Parsed)
  {
    assert Step(st, cfg) == (st, Stop(Parsed));
    RunStops(st, cfg);
  }

  /** Every token is one parseOne treats as positional. */
  predicate AllPositional(s: seq<string>)
  {
    |s| == 0 || (Positional(s[0]) && AllPositional(s[1..]))
  }

  /** A command line of positional arguments only is collected in order and changes no flag. */
  lemma {:induction false} PositionalsOnly(st: State, cfg: Config)
    requires Valid(st.reg) && st.cursor.procFlag == "" && AllPositional(st.cursor.procArgs)
    ensures Run(st, cfg) == (st.(cursor := Cursor(st.cursor.args + st.cursor.procArgs, [], "")), Parsed)
    decreases |st.cursor.procArgs|
  {
    if |st.cursor.procArgs| == 0 {
      RunAtEnd(st, cfg);
      assert st.cursor.args + st.cursor.procArgs == st.cursor.args;
    } else if !cfg.allowIntersperse {
      FirstPositionalEndsFlags(st, cfg);
    } else {
      PositionalsOnlyTail(st, cfg);
    }
  }

  /** With interspersing, the first positional is collected and the rest follow by induction. */
  lemma {:induction false} PositionalsOnlyTail(st: State, cfg: Config)
    requires Valid(st.reg) && st.cursor.procFlag == "" && |st.cursor.procArgs| > 0
    requires AllPositional(st.cursor.procArgs) && cfg.allowIntersperse
    ensures Run(st, cfg) == (st.(cursor := Cursor(st.cursor.args + st.cursor.procArgs, [], "")), Parsed)
    decreases |st.cursor.procArgs|, 0
  {
    var c := st.cursor;
    var st1 := st.(cursor := Cursor(c.args + [c.procArgs[0]], c.procArgs[1..], ""));
    PositionalRun(st, cfg);
    PositionalsOnly(st1, cfg);
    AppendHead(c.args, c.procArgs);
  }

  /** Moving the head of `s` onto `a` keeps the concatenation. */
  lemma AppendHead(a: seq<string>, s: seq<string>)
    requires |s| > 0
    ensures (a + [s[0]]) + s[1..] == a + s
  {
    assert s == [s[0]] + s[1..];
  }

  /**
   * The name a message shows for a flag reads back as that flag: "-x" for a
   * one-rune name, "--name" for a longer one without '='.
   */
  lemma FlagWithMinusReparses(c: Cursor, allowIntersperse: bool, knownAs: string, name: string, rest: seq<string>)
    requires c.procFlag == "" && c.procArgs == [FlagWithMinus(name)] + rest
    requires |name| > 0 && (|name| == 1 ==> name[0] != '-') && (|name| > 1 ==> '=' !in name)
    ensures ParseOneStep(c, allowIntersperse, knownAs) ==
      (c.(procArgs := rest), Token(name, |name| > 1, false, None))
  {
    var a := FlagWithMinus(name);
    assert c.procArgs[1..] == rest;
    if |name| > 1 {
      assert a == "--" + name;
      SplitInTwo(a, '=');
      assert '=' !in a;
      assert IndexOf(a, '=') == |a|;
    } else {
      assert a == ['-', name[0]];
      assert a[1..][..1] == name;
    }
  }

  /** "--name=value" names `name` and queues `value`; with an empty value the name keeps its '='. */
  lemma LongFormWithEquals(c: Cursor, allowIntersperse: bool, knownAs: string, name: string, v: string, rest: seq<string>)
    requires c.procFlag == "" && c.procArgs == ["--" + name + "=" + v] + rest
    requires |name| > 0 && '=' !in name
    ensures |v| > 0 ==>
      ParseOneStep(c, allowIntersperse, knownAs) == (c.(procArgs := rest, procFlag := v), Token(name, true, false, None))
    ensures |v| == 0 ==>
      ParseOneStep(c, allowIntersperse, knownAs) == (c.(procArgs := rest), Token(name + "=", true, false, None))
  {
    var a := "--" + name + "=" + v;
    assert c.procArgs[1..] == rest;
    SplitInTwo(a, '=');
    assert a[..|name| + 2] == "--" + name && a[|name| + 2] == '=';
    assert '=' !in a[..|name| + 2];
    assert IndexOf(a, '=') == |name| + 2;
    assert a[|name| + 3..] == v;
    assert (a[..|name| + 2])[2..] == name;
    assert a[2..] == name + "=" + v;
    if |v| == 0 {
      assert name + "=" + v == name + "=";
    }
  }

  /** "--=value" with a non-empty value is the one token parseOne rejects: an empty name, value queued. */
  lemma EmptyLongName(c: Cursor, allowIntersperse: bool, knownAs: string, v: string, rest: seq<string>)
    requires c.procFlag == "" && c.procArgs == ["--=" + v] + rest && |v| > 0
    ensures ParseOneStep(c, allowIntersperse, knownAs) ==
      (c.(procFlag := v, procArgs := rest), Token("", true, false, Some(EmptyFlagName(knownAs, "--=" + v))))
  {
    var a := "--=" + v;
    assert c.procArgs[1..] == rest;
    SplitInTwo(a, '=');
    assert IndexOf(a, '=') == 2 by { assert a[..2] == "--" && a[2] == '='; }
    assert a[3..] == v;
  }

  /** The empty-name error goes to the error policy; nothing but the cursor moves. */
  lemma EmptyLongNameHandled(st: State, cfg: Config, v: string, rest: seq<string>)
    requires Valid(st.reg)
    requires st.cursor.procFlag == "" && st.cursor.procArgs == ["--=" + v] + rest && |v| > 0
    ensures Step(st, cfg) ==
      (st.(cursor := st.cursor.(procFlag := v, procArgs := rest)),
       Handle(cfg.handling, EmptyFlagName(cfg.knownAs, "--=" + v)))
  {
    EmptyLongName(st.cursor, cfg.allowIntersperse, cfg.knownAs, v, rest);
  }

  /** "-x=value" names `x` and queues `value` (an empty value queues nothing). */
  lemma ShortFormWithEquals(c: Cursor, allowIntersperse: bool, knownAs: string, x: char, v: string, rest: seq<string>)
    requires c.procFlag == "" && c.procArgs == [['-', x, '='] + v] + rest && x != '-'
    ensures ParseOneStep(c, allowIntersperse, knownAs) ==
      (c.(procArgs := rest, procFlag := v), Token([x], false, false, None))
  {
    var a := ['-', x, '='] + v;
    assert c.procArgs[1..] == rest;
    assert a[1..][..1] == [x] && a[1..][2..] == v;
  }

  /** "-xvalue" names `x` and queues `value`, unless `value` starts with '='. */
  lemma ShortFormGlued(c: Cursor, allowIntersperse: bool, knownAs: string, x: char, v: string, rest: seq<string>)
    requires c.procFlag == "" && c.procArgs == [['-', x] + v] + rest && x != '-'
    requires |v| > 0 ==> v[0] != '='
    ensures ParseOneStep(c, allowIntersperse, knownAs) ==
      (c.(procArgs := rest, procFlag := v), Token([x], false, false, None))
  {
    var a := ['-', x] + v;
    assert c.procArgs[1..] == rest;
    assert a[1..][..1] == [x] && a[1..][1..] == v;
  }

  /** For a flag with one parameter, an attached value and the following token are the same. */
  lemma AttachedOrNextParameter(st: State, cfg: Config, name: string, long: bool, v: string, rest: seq<string>)
    requires Valid(st.reg) && name in st.reg.formal
    requires st.reg.formal[name] < |st.reg.flags| && st.reg.flags[st.reg.formal[name]].argsNeeded == 1
    requires |v| > 0
    ensures ParseFlagArgStep(st.(cursor := st.cursor.(procArgs := rest, procFlag := v)), cfg, name, long) ==
      ParseFlagArgStep(st.(cursor := st.cursor.(procArgs := [v] + rest, procFlag := "")), cfg, name, long)
  {
    var stA := st.(cursor := st.cursor.(procArgs := rest, procFlag := v));
    var stB := st.(cursor := st.cursor.(procArgs := [v] + rest, procFlag := ""));
    assert ([v] + rest)[1..] == rest;
    assert TakeParameter(stA.cursor) == TakeParameter(stB.cursor);
    assert ParseFlagArgStep(stA, cfg, name, long) == ResolveOneParameter(stA, cfg, name);
    assert ParseFlagArgStep(stB, cfg, name, long) == ResolveOneParameter(stB, cfg, name);
  }

  /**
   * A flag with one parameter written as its own token ("--port 8080",
   * "-p 8080") takes the next token: that token alone is handed to Set,
   * whatever Set stores is kept, and the turn goes on exactly when Set
   * reports no error; otherwise the error policy receives "invalid value".
   */
  lemma OneParameterTakesNextToken(st: State, cfg: Config, name: string, v: string, rest: seq<string>)
    requires Valid(st.reg) && st.cursor.procFlag == "" && st.cursor.procArgs == [FlagWithMinus(name), v] + rest
    requires |name| > 0 && (|name| == 1 ==> name[0] != '-') && (|name| > 1 ==> '=' !in name)
    requires name in st.reg.formal && st.reg.formal[name] < |st.reg.flags|
    requires st.reg.flags[st.reg.formal[name]].argsNeeded == 1
    ensures var i := st.reg.formal[name];
      var a := Assign(st.reg.flags[i].value, [v], cfg.lib);
      var (st1, next) := Step(st, cfg);
      && a.Stored?
      && st1.reg.flags[i].value == a.value
      && st1.cursor == st.cursor.(procArgs := rest)
      && (a.err.None? ==> next == Continue && st1.reg.actual == st.reg.actual[name := i])
      && (a.err.Some? ==>
            next == Handle(cfg.handling, InvalidValue(v, cfg.knownAs, FlagWithMinus(name), a.err.value))
            && st1.reg.actual == st.reg.actual)
  {
    assert [FlagWithMinus(name), v] + rest == [FlagWithMinus(name)] + ([v] + rest);
    FlagWithMinusReparses(st.cursor, cfg.allowIntersperse, cfg.knownAs, name, [v] + rest);
    var st0 := st.(cursor := st.cursor.(procArgs := [v] + rest));
    var tok := Token(name, |name| > 1, false, None);
    assert Step(st, cfg) == AfterToken(st0, cfg, tok);
    OneParameterTurn(st0, cfg, name, |name| > 1, v, rest);
  }

  /** The rest of the turn once parseOne has named a one-parameter flag and the value is the next token. */
  lemma OneParameterTurn(st: State, cfg: Config, name: string, long: bool, v: string, rest: seq<string>)
    requires Valid(st.reg) && st.cursor.procFlag == "" && st.cursor.procArgs == [v] + rest && name != ""
    requires name in st.reg.formal && st.reg.formal[name] < |st.reg.flags|
    requires st.reg.flags[st.reg.formal[name]].argsNeeded == 1
    ensures var i := st.reg.formal[name];
      var a := Assign(st.reg.flags[i].value, [v], cfg.lib);
      var (st1, next) := AfterToken(st, cfg, Token(name, long, false, None));
      && a.Stored?
      && st1.reg.flags[i].value == a.value
      && st1.cursor == st.cursor.(procArgs := rest)
      && (a.err.None? ==> next == Continue && st1.reg.actual == st.reg.actual[name := i])
      && (a.err.Some? ==>
            next == Handle(cfg.handling, InvalidValue(v, cfg.knownAs, FlagWithMinus(name), a.err.value))
            && st1.reg.actual == st.reg.actual)
  {
    assert ([v] + rest)[1..] == rest;
    assert ParseFlagArgStep(st, cfg, name, long) == ResolveOneParameter(st, cfg, name);
  }

  /**
   * "--flag=value" on a flag that takes no parameter is an error, yet the
   * flag's Set has already run; the flag is not recorded as set.
   */
  lemma LongSwitchRejectsValue(st: State, cfg: Config, name: string, v: string)
    requires Valid(st.reg) && name in st.reg.formal && st.reg.formal[name] < |st.reg.flags|
    requires st.reg.flags[st.reg.formal[name]].argsNeeded == 0
    requires !ReadsFirstToken(st.reg.flags[st.reg.formal[name]].value)
    requires st.cursor.procFlag == v && |v| > 0
    ensures var r := ParseFlagArgStep(st, cfg, name, true);
      r.1 == ArgErr(UnwantedArgument(cfg.knownAs, v, FlagWithMinus(name))) &&
      r.0.reg.actual == st.reg.actual && r.0.cursor == st.cursor.(procFlag := "") &&
      r.0.reg.flags[st.reg.formal[name]].value == Assign(st.reg.flags[st.reg.formal[name]].value, [], cfg.lib).value
  {
  }

  /**
   * "-x=value" on a one-rune flag that takes no parameter is accepted, and
   * `value` stays queued to be read as a cluster of flags.
   */
  lemma ShortSwitchKeepsValueQueued(st: State, cfg: Config, x: char, v: string, rest: seq<string>)
    requires Valid(st.reg) && st.cursor.procFlag == "" && st.cursor.procArgs == [['-', x, '='] + v] + rest
    requires x != '-' && Switch(st.reg, x)
    ensures Step(st, cfg) ==
      (State(Switched(st.reg, x, cfg.lib), Cursor(st.cursor.args, rest, v), st.errHelp), Continue)
  {
    ShortFormWithEquals(st.cursor, cfg.allowIntersperse, cfg.knownAs, x, v, rest);
  }

  /**
   * A flag with N >= 2 parameters reads the next N tokens but leaves them in
   * place, so they are parsed again afterwards.
   */
  lemma ParametersStayQueued(st: State, cfg: Config, name: string, long: bool)
    requires Valid(st.reg) && name in st.reg.formal && st.reg.formal[name] < |st.reg.flags|
    requires st.cursor.procFlag == ""
    requires 2 <= st.reg.flags[st.reg.formal[name]].argsNeeded <= |st.cursor.procArgs|
    ensures var n := st.reg.flags[st.reg.formal[name]].argsNeeded;
      var a := Assign(st.reg.flags[st.reg.formal[name]].value, st.cursor.procArgs[..n], cfg.lib);
      var r := ParseFlagArgStep(st, cfg, name, long);
      r.0.cursor == st.cursor &&
      (a.Stored? ==> r.0.reg.flags[st.reg.formal[name]].value == a.value) &&
      (r.1.ArgOk? <==> a.Stored? && a.err.None?)
  {
    assert ParseFlagArgStep(st, cfg, name, long) == ResolveParameters(st, cfg, name);
  }

  /**
   * Asking for help when no help flag is registered: ErrHelp gains the
   * FlagKnownAs word as a prefix and ExitOnError exits with status 0; any
   * other undefined flag exits with status 2.
   */
  lemma HelpExitsWithZero(st: State, cfg: Config, name: string, rest: seq<string>)
    requires Valid(st.reg) && st.cursor.procFlag == "" && st.cursor.procArgs == [FlagWithMinus(name)] + rest
    requires |name| > 0 && (|name| == 1 ==> name[0] != '-') && (|name| > 1 ==> '=' !in name)
    requires name !in st.reg.formal && cfg.handling == ExitOnError
    ensures Step(st, cfg).1 == Stop(Exited(if IsHelpName(name) then 0 else 2))
    ensures Step(st, cfg).0.errHelp == if IsHelpName(name) then cfg.knownAs + ": " + st.errHelp else st.errHelp
  {
    FlagWithMinusReparses(st.cursor, cfg.allowIntersperse, cfg.knownAs, name, rest);
  }
}
