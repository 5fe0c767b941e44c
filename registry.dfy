/**
 * The flag registry of a FlagSet (params.go:261-297): one record per `Var`
 * call, the `formal` map from every registered name to its record, and the
 * `actual` map from every name a flag was triggered through to its record.
 * Go's shared `*Flag` pointer becomes an index into `flags`, so the aliasing
 * of several names onto one record is explicit.
 */
module FlagRegistry {
  import opened Options
  import opened Values
  import opened Errors
  import opened Splitting
  import opened Text

  /** A Flag: its names, usage text, current value, default text, type hint and arity. */
  datatype Flag = Flag(names: seq<string>, usage: string, value: Value, defValue: string,
                       typeExpected: string, argsNeeded: int)

  datatype Registry = Registry(flags: seq<Flag>, formal: map<string, nat>, actual: map<string, nat>)

  /** The registry every new FlagSet starts with. */
  function Empty(): Registry
  {
    Registry([], map[], map[])
  }

  /**
   * `n` names the record `formal[n]`, and that record is also reachable
   * through its first name (Var inserts names[0] first).
   */
  ghost predicate Points(reg: Registry, n: string)
    requires n in reg.formal
  {
    var i := reg.formal[n];
    && i < |reg.flags|
    && n in reg.flags[i].names
    && reg.flags[i].names[0] in reg.formal
    && reg.formal[reg.flags[i].names[0]] == i
  }

  /** Every formal name points at a record; `actual` is a sub-map of `formal`. */
  ghost predicate Valid(reg: Registry)
  {
    && (forall n :: n in reg.formal ==> Points(reg, n))
    && (forall n :: n in reg.actual ==> n in reg.formal && reg.actual[n] == reg.formal[n])
  }

  lemma EmptyValid()
    ensures Valid(Empty())
  {
  }

  /** The record's value replaced, as `Value.Set` does through the shared pointer. */
  function WithValue(reg: Registry, i: nat, v: Value): (r: Registry)
    requires i < |reg.flags|
  {
    reg.(flags := reg.flags[i := reg.flags[i].(value := v)])
  }

  /** `actual[name] = flag`. */
  function Trigger(reg: Registry, name: string): (r: Registry)
    requires name in reg.formal
  {
    reg.(actual := reg.actual[name := reg.formal[name]])
  }

  lemma WithValueValid(reg: Registry, i: nat, v: Value)
    requires Valid(reg) && i < |reg.flags|
    ensures Valid(WithValue(reg, i, v))
  {
    var r := WithValue(reg, i, v);
    forall n | n in r.formal ensures Points(r, n) {
      assert Points(reg, n);
    }
  }

  /** Replacing a value by one of the same kind keeps every record's other fields. */
  lemma WithValueSameRecords(reg: Registry, i: nat, v: Value)
    requires i < |reg.flags| && SameKind(reg.flags[i].value, v)
    ensures SameRecords(WithValue(reg, i, v).flags, reg.flags)
  {
    var a := WithValue(reg, i, v).flags;
    forall j | 0 <= j < |a| ensures SameKind(reg.flags[j].value, a[j].value) {
      if j == i {
        assert a[j].value == v;
      } else {
        SameKindReflexive(reg.flags[j].value);
      }
    }
  }

  lemma TriggerValid(reg: Registry, name: string)
    requires Valid(reg) && name in reg.formal
    ensures Valid(Trigger(reg, name))
  {
    var r := Trigger(reg, name);
    forall n | n in r.formal ensures Points(r, n) {
      assert Points(reg, n);
    }
  }

  // ---------------------------------------------------------------------
  // Registration: Var (params.go:930-960)
  // ---------------------------------------------------------------------

  /**
   * The name order Var stores: when the first name is one rune and the
   * second is longer, the two are swapped, so the single-rune name is second.
   */
  function NormalizeNames(names: seq<string>): (r: seq<string>)
    ensures |r| == |names| && multiset(r) == multiset(names)
    ensures |r| > 1 ==> !(|r[0]| == 1 && |r[1]| > 1)
    ensures |r| > 1 ==> {r[0], r[1]} == {names[0], names[1]}
    ensures |r| > 2 ==> r[2..] == names[2..]
    ensures |names| > 1 && |names[0]| == 1 && |names[1]| > 1 ==> r[0] == names[1] && r[1] == names[0]
    ensures !(|names| > 1 && |names[0]| == 1 && |names[1]| > 1) ==> r == names
  {
    if |names| > 1 && |names[0]| == 1 && |names[1]| > 1 then
      var r := [names[1], names[0]] + names[2..];
      assert names == [names[0], names[1]] + names[2..];
      assert r[2..] == names[2..];
      r
    else names
  }

  /** No name is registered already and none occurs twice. */
  ghost predicate Fresh(formal: map<string, nat>, names: seq<string>)
  {
    && (forall k :: 0 <= k < |names| ==> names[k] !in formal)
    && (forall j, k :: 0 <= j < k < |names| ==> names[j] != names[k])
  }

  /**
   * The insertion loop of Var: each name in turn is mapped to record `idx`;
   * the first name already present stops it with a panic (the `bool`), and the
   * names inserted before it stay registered.
   */
  function InsertNames(formal: map<string, nat>, names: seq<string>, idx: nat): (r: (map<string, nat>, bool))
    ensures forall n :: n in formal ==> n in r.0 && r.0[n] == formal[n]
    ensures forall n :: n in r.0 && n !in formal ==> n in names && r.0[n] == idx
    ensures !r.1 ==> forall n :: n in names ==> n in r.0
    ensures forall n :: n in r.0 && n !in formal ==> |names| > 0 && names[0] in r.0 && names[0] !in formal
    decreases |names|
  {
    if |names| == 0 then (formal, false)
    else if names[0] in formal then (formal, true)
    else
      InsertNames(formal[names[0] := idx], names[1..], idx)
  }

  lemma {:induction false} FreshStep(formal: map<string, nat>, names: seq<string>, idx: nat)
    requires |names| > 0 && names[0] !in formal
    ensures Fresh(formal, names) <==> Fresh(formal[names[0] := idx], names[1..])
  {
    assert forall k :: 1 <= k < |names| ==> names[k] == names[1..][k - 1];
    if Fresh(formal[names[0] := idx], names[1..]) {
      forall j, k | 0 <= j < k < |names| ensures names[j] != names[k] {
        if j > 0 {
          assert names[1..][j - 1] != names[1..][k - 1];
        } else {
          assert names[1..][k - 1] !in formal[names[0] := idx];
        }
      }
    }
    if Fresh(formal, names) {
      forall k | 0 <= k < |names[1..]| ensures names[1..][k] !in formal[names[0] := idx] {
        assert names[0] != names[k + 1];
      }
    }
  }

  /** Var panics exactly when a name is already registered or given twice. */
  lemma {:induction false} InsertNamesPanics(formal: map<string, nat>, names: seq<string>, idx: nat)
    ensures !InsertNames(formal, names, idx).1 <==> Fresh(formal, names)
    decreases |names|
  {
    if |names| > 0 && names[0] !in formal {
      FreshStep(formal, names, idx);
      InsertNamesPanics(formal[names[0] := idx], names[1..], idx);
    }
  }

  /** The index of the first name that makes Var panic, or |names| when none does. */
  function FirstClash(keys: set<string>, names: seq<string>): (k: nat)
    ensures k <= |names|
    decreases |names|
  {
    if |names| == 0 || names[0] in keys then 0
    else 1 + FirstClash(keys + {names[0]}, names[1..])
  }

  /**
   * Exactly the names before the first clash get registered: Var leaves a
   * partial registration behind when it panics.
   */
  lemma {:induction false} InsertNamesPrefix(formal: map<string, nat>, names: seq<string>, idx: nat)
    ensures var k := FirstClash(formal.Keys, names);
      InsertNames(formal, names, idx).0.Keys == formal.Keys + set j | 0 <= j < k :: names[j]
    decreases |names|
  {
    if |names| > 0 && names[0] !in formal {
      InsertNamesPrefix(formal[names[0] := idx], names[1..], idx);
      assert formal[names[0] := idx].Keys == formal.Keys + {names[0]};
      PrefixNamesCons(names, FirstClash(formal.Keys, names));
    }
  }

  /** The first `k` names are the head and the first `k - 1` names of the tail. */
  lemma PrefixNamesCons(names: seq<string>, k: nat)
    requires 0 < k <= |names|
    ensures (set j | 0 <= j < k :: names[j]) == {names[0]} + set j | 0 <= j < k - 1 :: names[1..][j]
  {
    var lhs := set j | 0 <= j < k :: names[j];
    var rhs := {names[0]} + set j | 0 <= j < k - 1 :: names[1..][j];
    forall x | x in lhs ensures x in rhs {
      var j :| 0 <= j < k && names[j] == x;
      if j > 0 { assert names[1..][j - 1] == x; }
    }
    forall x | x in rhs ensures x in lhs {
      if x != names[0] {
        var j :| 0 <= j < k - 1 && names[1..][j] == x;
        assert names[j + 1] == x;
      }
    }
  }

  /** The names Var registers for `flagStr`. */
  function NamesOf(flagStr: string): seq<string>
    requires Split(flagStr, ' ', -1).Some?
  {
    NormalizeNames(Split(flagStr, ' ', -1).value)
  }

  /**
   * Var: a new record with `DefValue = value.String()` taken now, every name
   * mapped to it, and a panic (true) on the first name already registered.
   */
  function Register(reg: Registry, value: Value, flagStr: string, usage: string, typeExp: string,
                    args: int, lib: Library): (r: (Registry, bool))
    requires Split(flagStr, ' ', -1).Some?
    requires Valid(reg)
    ensures Valid(r.0)
    ensures |r.0.flags| == |reg.flags| + 1 && r.0.flags[..|reg.flags|] == reg.flags
    ensures r.0.flags[|reg.flags|] == Flag(NamesOf(flagStr), usage, value, StringOf(value, lib), typeExp, args)
    ensures r.0.actual == reg.actual
    ensures forall n :: n in reg.formal ==> n in r.0.formal && r.0.formal[n] == reg.formal[n]
    ensures forall n :: n in r.0.formal && n !in reg.formal ==> n in NamesOf(flagStr) && r.0.formal[n] == |reg.flags|
    ensures r.1 <==> !Fresh(reg.formal, NamesOf(flagStr))
    ensures !r.1 ==> forall n :: n in NamesOf(flagStr) ==> n in r.0.formal && r.0.formal[n] == |reg.flags|
  {
    var names := NamesOf(flagStr);
    var idx := |reg.flags|;
    var flag := Flag(names, usage, value, StringOf(value, lib), typeExp, args);
    var (formal, panicked) := InsertNames(reg.formal, names, idx);
    InsertNamesPanics(reg.formal, names, idx);
    var r := Registry(reg.flags + [flag], formal, reg.actual);
    forall n | n in r.formal ensures Points(r, n) {
      if n in reg.formal {
        assert Points(reg, n);
      }
    }
    (r, panicked)
  }

  /**
   * Alias identity: after a Var that did not panic, every name given to it
   * resolves to the one new record, whose default text is the value's text.
   */
  lemma RegisterAliases(reg: Registry, value: Value, flagStr: string, usage: string, typeExp: string,
                        args: int, lib: Library, n1: string, n2: string)
    requires Split(flagStr, ' ', -1).Some? && Valid(reg)
    requires n1 in Split(flagStr, ' ', -1).value && n2 in Split(flagStr, ' ', -1).value
    requires !Register(reg, value, flagStr, usage, typeExp, args, lib).1
    ensures var r := Register(reg, value, flagStr, usage, typeExp, args, lib).0;
      && n1 in r.formal && n2 in r.formal && r.formal[n1] == r.formal[n2]
      && r.flags[r.formal[n1]].defValue == StringOf(value, lib)
  {
    var raw := Split(flagStr, ' ', -1).value;
    assert multiset(NamesOf(flagStr)) == multiset(raw);
    assert n1 in multiset(raw) && n2 in multiset(raw);
  }

  /** The same records in the same places; only their values may differ. */
  ghost predicate SameRecords(a: seq<Flag>, b: seq<Flag>)
  {
    |a| == |b| &&
    forall i :: 0 <= i < |a| ==>
      a[i].names == b[i].names && a[i].usage == b[i].usage && a[i].defValue == b[i].defValue &&
      a[i].typeExpected == b[i].typeExpected && a[i].argsNeeded == b[i].argsNeeded &&
      SameKind(b[i].value, a[i].value)
  }

  /** The keys of `m` whose record has `s` as its first name. */
  ghost function KeysNamed(reg: Registry, m: map<string, nat>, keys: set<string>, s: string): set<string>
  {
    set k | k in keys && k in m && m[k] < |reg.flags| && |reg.flags[m[k]].names| > 0 && reg.flags[m[k]].names[0] == s
  }

  /** Taking one key out of `keys` lowers exactly the count of its record's first name. */
  lemma KeysNamedRemove(reg: Registry, m: map<string, nat>, keys: set<string>, k: string, s: string)
    requires k in keys && k in m && m[k] < |reg.flags| && |reg.flags[m[k]].names| > 0
    ensures |KeysNamed(reg, m, keys, s)| ==
      |KeysNamed(reg, m, keys - {k}, s)| + (if reg.flags[m[k]].names[0] == s then 1 else 0)
  {
    if reg.flags[m[k]].names[0] == s {
      assert KeysNamed(reg, m, keys, s) == KeysNamed(reg, m, keys - {k}, s) + {k};
    } else {
      assert KeysNamed(reg, m, keys, s) == KeysNamed(reg, m, keys - {k}, s);
    }
  }

  // ---------------------------------------------------------------------
  // FlagSet.Set (params.go:444-458)
  // ---------------------------------------------------------------------

  datatype SetResult = SetOk | SetErr(e: Error) | SetPanic

  /**
   * FlagSet.Set: an unknown name is an error; otherwise the record's Value.Set
   * runs, and only when it reports no error is the name added to `actual`.
   */
  function SetFlag(reg: Registry, name: string, tokens: seq<string>, lib: Library, knownAs: string): (r: (Registry, SetResult))
    requires Valid(reg)
    ensures Valid(r.0)
    ensures r.0.formal == reg.formal && |r.0.flags| == |reg.flags|
    ensures name !in reg.formal ==> r == (reg, SetErr(NoSuchFlag(knownAs, name)))
    ensures r.1.SetOk? <==> name in reg.formal && Assign(reg.flags[reg.formal[name]].value, tokens, lib).Stored?
                            && Assign(reg.flags[reg.formal[name]].value, tokens, lib).err.None?
    ensures r.1.SetOk? ==> r.0.actual == reg.actual[name := reg.formal[name]]
    ensures !r.1.SetOk? ==> r.0.actual == reg.actual
    ensures name in reg.formal ==>
      (r.1.SetPanic? <==> Assign(reg.flags[reg.formal[name]].value, tokens, lib).IndexPanic?)
    ensures name in reg.formal && Assign(reg.flags[reg.formal[name]].value, tokens, lib).IndexPanic? ==> r.0 == reg
    ensures name in reg.formal && Assign(reg.flags[reg.formal[name]].value, tokens, lib).Stored?
            && Assign(reg.flags[reg.formal[name]].value, tokens, lib).err.Some? ==>
      r.1 == SetErr(ValueError(Assign(reg.flags[reg.formal[name]].value, tokens, lib).err.value))
    ensures name in reg.formal && Assign(reg.flags[reg.formal[name]].value, tokens, lib).Stored? ==>
      r.0.flags == reg.flags[reg.formal[name] := reg.flags[reg.formal[name]].(
        value := Assign(reg.flags[reg.formal[name]].value, tokens, lib).value)]
  {
    if name !in reg.formal then (reg, SetErr(NoSuchFlag(knownAs, name)))
    else
      var i := reg.formal[name];
      assert Points(reg, name);
      match Assign(reg.flags[i].value, tokens, lib)
      case IndexPanic => (reg, SetPanic)
      case Stored(v, err) =>
        var reg1 := WithValue(reg, i, v);
        WithValueValid(reg, i, v);
        if err.Some? then (reg1, SetErr(ValueError(err.value)))
        else
          TriggerValid(reg1, name);
          (Trigger(reg1, name), SetOk)
  }

  /**
   * NFlag counts names, not flags: a successful Set adds one to |actual|
   * exactly when the name used was not yet recorded, even if the same flag
   * was already set through another of its names.
   */
  lemma SetCountsName(reg: Registry, name: string, tokens: seq<string>, lib: Library, knownAs: string)
    requires Valid(reg)
    ensures var r := SetFlag(reg, name, tokens, lib, knownAs);
      |r.0.actual| == |reg.actual| + (if r.1.SetOk? && name !in reg.actual then 1 else 0)
  {
    if SetFlag(reg, name, tokens, lib, knownAs).1.SetOk? {
      MapUpdateSize(reg.actual, name, reg.formal[name]);
    }
  }

  lemma MapUpdateSize(m: map<string, nat>, k: string, v: nat)
    ensures |m[k := v]| == |m| + (if k in m then 0 else 1)
  {
    if k in m {
      assert m[k := v].Keys == m.Keys;
    } else {
      assert m[k := v].Keys == m.Keys + {k};
    }
  }

  /**
   * Setting through any alias mutates the same record the same way; only the
   * key recorded in `actual` differs.
   */
  lemma SetThroughAlias(reg: Registry, n1: string, n2: string, tokens: seq<string>, lib: Library, knownAs: string)
    requires Valid(reg)
    requires n1 in reg.formal && n2 in reg.formal && reg.formal[n1] == reg.formal[n2]
    ensures SetFlag(reg, n1, tokens, lib, knownAs).0.flags == SetFlag(reg, n2, tokens, lib, knownAs).0.flags
    ensures SetFlag(reg, n1, tokens, lib, knownAs).1 == SetFlag(reg, n2, tokens, lib, knownAs).1
  {
  }

}
