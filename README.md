# go-params in Dafny

A model of `params.go` from the Go package `github.com/pschou/go-params`. The package parses GNU-style command lines:

- one-rune flags (`-x`) and long flags (`--name`);
- clusters of one-rune flags (`-abc`);
- values attached to a flag (`-p8080`, `-p=8080`, `--port=8080`) or given as the next token;
- several names aliasing one flag;
- flags that take no parameter, one parameter or N parameters.

The model has three layers.

- **Value layer**: the pure functions of the package, as datatypes and functions.
  - `Splitting` models `splitOn`.
  - `Text` models `flagWithMinus`, `rlen` and string order.
  - `Sorting` models the sort inside `sortFlags`.
  - `Values` models the value variants' `Set` and `String`.
  - `FlagRegistry` models `Var`, `Set`, `formal` and `actual`.
  - `Scanner` models `parseOne`, `parseFlagArg` and the loop of `Parse`.
- **Object layer**: the `FlagSet` object itself, in module `FlagSets`.
  - It is a class whose fields are the Go struct's fields.
  - Its methods follow the Go code statement by statement: loops, early returns and the `switch` on `errorHandling`.
  - Each method is proved to produce exactly the state and result that the value layer specifies.
- **Properties**: `ParseProperties` proves properties of the command-line grammar that `Parse` accepts, over the value layer.

Representation choices:

- A Go `*Flag` pointer becomes an index into the sequence `flags`. `formal` and `actual` map names to such indices, so all the names of one flag visibly share one record.
- Strings are sequences of runes.
- `ErrHelp`, the package-level variable that `parseFlagArg` rewrites, is an object (`HelpSentinel`) that FlagSets share.
- A Go runtime panic is an outcome:
  - `IndexPanic` and `ArgPanic` for an index or slice out of range;
  - `SetPanic`, and `Crashed` for the whole parse;
  - `panicked` for a redefined flag name in `Var`.
- `os.Exit(code)` and `panic(err)` chosen by the error policy are the outcomes `Exited(code)` and `Raised(err)`.
- The conversions and formatting that the value types take from `strconv`, `time` and `fmt` are parameters, bundled as a `Library` record of functions.

Where the package's documented behaviour and its code differ, the model follows the code:

- `Parse` resets `args`, `procArgs` and `procFlag` but not `actual`. Flags set by an earlier parse or by `Set` stay "set" (`Scanner.ParseArguments`).
- The converting `Set`s (bool, int, int64, uint, uint64, float64, duration) store the converted value even when the conversion fails. No prior value is kept.
- A flag with N ≥ 2 parameters reads the next N tokens but does not remove them. They are parsed again as flags or positionals afterwards.
- A flag with a negative `ArgsNeeded` panics at `procArgs[:N]` when no value is attached; with a value attached it reports "needs more than one parameter" first.
- Zero-parameter flags call `Set([])` before any check and ignore its error. For every value variant except present and func (bool, the integers, string, float64, duration) this indexes `s[0]` and panics.
- `IsBoolFlag` is never consulted. `-b0` on a switch `b` queues `0` as the next flag of the cluster.
- `Var` puts a one-rune name second, not first, when the second name is longer.
- A redefined name panics, but the names inserted before it stay registered.
- `sortFlags` sorts the first names of the records behind the map's keys. `VisitAll` therefore lists a record with k names k times.
- `Visit` hands `nil` to its callback for a flag that was set only through a name other than its first.
- `NFlag` counts the names flags were set through, not the flags.
- `--name=` (an empty value) gives the flag name `name=`, because `splitOn` drops the empty piece.

## Model

| member | source | states |
|---|---|---|
| Text.FlagWithMinus | params.go:1064-1069 | `--name` for a name longer than one rune, `-name` otherwise: the result is the name behind one or two dashes |
| Text.LeTotal | params.go:333 | the string order used by the sort is total |
| Text.LeTransitive | params.go:333 | the string order is transitive |
| Text.LeAntisymmetric | params.go:333 | two strings ordered both ways are equal |
| Splitting.SplitOn | params.go:300-323 | the imperative loop (a rune buffer, early `break` at count - 1 pieces) returns exactly the pieces `Split` defines, whenever the Go loop terminates |
| Splitting.Split | params.go:300-323 | every piece is non-empty; pieces before the count limit hold no separator; at most `count` pieces when count ≥ 2; joining the pieces with the separator gives back the input, up to one trailing separator |
| Splitting.SplitLoopFacts | params.go:307-322 | the loop state invariant (pieces so far + buffer = input read so far) carries to the returned pieces |
| Splitting.UnlimitedSplitHangs | params.go:309-312 | with no limit (count < 2, including Var's -1) splitOn never returns if and only if a separator starts the string or follows another |
| Splitting.SplitInTwo | params.go:1035 | with count 2 splitOn returns unless the string starts with the separator, and then cuts only at the first separator, dropping an empty tail |
| Splitting.JoinSnoc | params.go:300-323 | joining one more piece appends the separator and the piece |
| Splitting.IndexOf | params.go:300-323 | the first position of the separator, or the length: no separator before it |
| Sorting.Insert | params.go:333 | inserting into a sorted list keeps it sorted and adds exactly the element |
| Sorting.SortStrings | params.go:333 | the result is sorted and a permutation of the input |
| Sorting.SortedUnique | params.go:326-339 | two sorted permutations of the same names are equal, so sortFlags' order does not depend on the order Go's map range visits keys |
| Values.Assign | params.go:52-233 | Set of each variant: an index panic exactly when there are no tokens and the variant reads `s[0]`; the variant is kept; present and string values never fail, string stores `s[0]`; each converting variant stores the conversion's value and returns the conversion's error; a func value passes all tokens to its callback |
| Values.StringOf | params.go:66-233 | String of each variant: booleans as "true"/"false" by their value, a string as itself, a func value as "", numbers and durations through the formatting routine |
| Values.PresentSetShowsTrue | params.go:54-66 | a present value shows "false" when created and "true" after any Set |
| Values.StringSetRoundTrip | params.go:184-191 | a string value shows the first token it was Set with |
| Values.ConvertingSetStoresOnError | params.go:85-223 | every converting value (bool, int, int64, uint, uint64, float64, duration) shows the conversion's result after Set and returns its error, so the result is kept even when the conversion fails |
| Values.SameKindTransitive | params.go:237-244 | agreement of variants composes, so a value that each Set keeps in its variant keeps it across a series of Sets |
| FlagRegistry.EmptyValid | params.go:1228-1243 | a new FlagSet's empty registry satisfies the registry invariant |
| FlagRegistry.WithValueValid | params.go:444-458 | storing a new value in a record keeps the registry invariant |
| FlagRegistry.TriggerValid | params.go:1142-1145 | recording a registered name in `actual` keeps the registry invariant |
| FlagRegistry.WithValueSameRecords | params.go:444-458 | storing a value of the same variant keeps every record's names, usage, default, type hint and arity |
| FlagRegistry.NormalizeNames | params.go:933-938 | exactly when the first name has one rune and the second more, the two are swapped; otherwise the list is unchanged; the rest is never touched and no one-rune name is left before a longer second name |
| FlagRegistry.InsertNames | params.go:951-959 | the insertion loop keeps old names, maps new names only from the list to the new record, and on success maps every listed name |
| FlagRegistry.InsertNamesPanics | params.go:951-956 | Var panics if and only if some name is already registered or repeated in the list |
| FlagRegistry.InsertNamesPrefix | params.go:951-959 | exactly the names before the first clash end up registered |
| FlagRegistry.Register | params.go:930-960 | Var appends one record with the normalised names and `DefValue = value.String()`, keeps `actual` and every old name, and panics exactly on a clash |
| FlagRegistry.RegisterAliases | params.go:930-960 | after a successful Var, any two names of the list point at the same record, whose default text is the value's String |
| FlagRegistry.SetFlag | params.go:444-458 | Set: "no such flag" for an unknown name; success exactly when the value's Set succeeds; only then is the name used recorded in `actual`; the value is stored even when Set fails, and the value's own error is returned unwrapped; a panic exactly when the value's Set indexes a missing token, and then nothing changes |
| FlagRegistry.SetCountsName | params.go:444-458 | a successful Set grows `actual` by one exactly when the name used was not in it yet |
| FlagRegistry.SetThroughAlias | params.go:444-458 | Set through two aliases of one record changes the records identically and returns the same result |
| FlagRegistry.KeysNamedRemove | params.go:326-332 | removing one key lowers only the count of its record's first name |
| FlagRegistry.MapUpdateSize | params.go:1142-1145 | adding a key to a map grows it by one exactly when the key is new |
| Scanner.ParseOneStep | params.go:995-1062 | parseOne: unless it finishes, the measure (\|procArgs\|, \|procFlag\|) drops; finishing carries no name and no error; procArgs only loses tokens from its front and `args` only grows; an error comes only for a token `--=v` with non-empty `v`, and it is "empty name in argument", with `v` queued and the token consumed |
| Scanner.StoreValue | params.go:1142-1146 | storing a value keeps formal, records and ErrHelp, and records the name in `actual` exactly when there is no error |
| Scanner.ResolveNoParameter | params.go:1084-1093 | arity 0: a panic exactly when `Set([])` indexes a token; otherwise what `Set([])` stored is kept, and an "unwanted argument" error comes exactly for a long flag with an attached value, which is then dropped; on success the cursor is untouched |
| Scanner.TakeParameter | params.go:1098-1119 | an attached value wins and is emptied; otherwise the next token is consumed |
| Scanner.ResolveOneParameter | params.go:1097-1127 | arity 1: "needs a parameter" with nothing attached and no token left; otherwise the taken value alone is handed to Set, what Set stores is kept, and the result is success exactly when Set reports no error, else "invalid value" with Set's cause; the cursor moves as TakeParameter says; never panics |
| Scanner.ResolveParameters | params.go:1128-1140 | arity N: the cursor is never moved; an attached value is an error; fewer than N tokens is "not enough parameters"; a panic exactly for a negative N with nothing attached; otherwise the next N tokens go to Set, what it stores is kept, and the result is success exactly when Set reports no error, else "invalid values" |
| Scanner.ParseFlagArgStep | params.go:1071-1147 | parseFlagArg keeps formal and the records, never grows the measure, adds the name to `actual` exactly on success, returns the help error exactly for an unregistered `h`/`help` after rewriting ErrHelp, "not defined" for any other unregistered name, and for a registered name resolves by its arity (0, 1, anything else) |
| Scanner.Handle | params.go:1167-1179 | the error policy: return the error, exit 0 for help and 2 otherwise, or panic; an unlisted policy (any integer other than 0, 1 and 2) goes on |
| Scanner.AfterToken | params.go:1162-1186 | the rest of a turn keeps the registry invariant and never grows the measure; it continues only while parseOne has not finished |
| Scanner.Step | params.go:1161-1186 | one turn keeps the registry invariant, and a turn that continues strictly lowers the measure, so Parse terminates |
| Scanner.Run | params.go:1160-1187 | the loop of Parse terminates and keeps the registry invariant |
| Scanner.PreservesTransitive | params.go:1160-1187 | what a stretch of parsing keeps composes |
| Scanner.StepPreserves | params.go:1161-1186 | a turn keeps formal and the records, never removes from `actual`, only appends to `args` and only drops procArgs from the front |
| Scanner.RunPreserves | params.go:1160-1187 | so does the whole loop |
| Scanner.ParseArguments | params.go:1155-1188 | Parse never clears `actual`, keeps formal and the records (all but their values), keeps the registry invariant, and leaves a suffix of the arguments unread |
| ParseProperties.RunStops | params.go:1160-1187 | a turn that stops ends the parse with its outcome |
| ParseProperties.RunContinues | params.go:1160-1187 | after a turn that continues, the parse goes on from the new state |
| ParseProperties.Dashed | params.go:1049-1061 | each rune of a cluster as its own `-x` token |
| ParseProperties.DashedHead | params.go:1049-1061 | splitting off the first dashed token |
| ParseProperties.SwitchedKeeps | params.go:1084-1093 | applying a switch keeps the invariant and formal, records its own name in `actual`, and keeps other switches switches |
| ParseProperties.PendingSwitchStep | params.go:1002-1007 | the next rune of a pending cluster applies that switch and continues |
| ParseProperties.DashedSwitchStep | params.go:1049-1061 | the token `-x` of a switch applies it and continues |
| ParseProperties.ApplySwitchesValid | params.go:1084-1093 | applying any list of switches keeps the registry invariant |
| ParseProperties.PendingSwitchRun | params.go:1002-1007 | a parse with a switch pending goes on as one with it applied |
| ParseProperties.DashedSwitchRun | params.go:1049-1061 | a parse at `-x` goes on as one with `x` applied |
| ParseProperties.ClusterRun | params.go:1049-1061 | a parse at `-xyz` goes on with `x` applied and `yz` pending |
| ParseProperties.PendingSwitches | params.go:1002-1007 | the switches pending in a cluster are applied in order while tokens follow |
| ParseProperties.DashedSwitches | params.go:1049-1061 | the tokens `-a`, `-b`, ... are applied in order |
| ParseProperties.DashedSwitchesHead | params.go:1049-1061 | the first dashed token applies its switch and leaves the rest a list of switches |
| ParseProperties.DashedSwitchesRun | params.go:1049-1061 | the first dashed token goes on as the registry with that switch applied |
| ParseProperties.SwitchedKeepsRest | params.go:1084-1093 | applying the first switch keeps the remaining ones switches |
| ParseProperties.PendingCluster | params.go:996-1007 | while tokens follow, a pending cluster acts exactly like its runes written as separate tokens |
| ParseProperties.ClusterStep | params.go:1049-1061 | one turn on `-xyz` applies `x` and queues `yz` |
| ParseProperties.ClusterEqualsSeparateSwitches | params.go:996-1061 | `-abc` followed by more tokens gives the same parse as `-a -b -c`, and applies a, b, c in order |
| ParseProperties.ClusterAsLastTokenAppliesFirstOnly | params.go:996-1007 | as the last token `-abc` applies only `a`, leaves `bc` in procFlag and ends the parse |
| ParseProperties.DoubleDashEndsFlags | params.go:1025-1030 | `--` appends every later token to `args` unread and finishes |
| ParseProperties.FirstPositionalEndsFlags | params.go:1012-1021 | without interspersing, the first positional and everything after it go to `args` and the parse finishes |
| ParseProperties.PositionalStep | params.go:1012-1016 | with interspersing, a positional goes alone to `args` and parsing continues |
| ParseProperties.PositionalRun | params.go:1012-1016 | so the parse goes on from the next token |
| ParseProperties.RunAtEnd | params.go:996-999 | with no token left the parse ends, keeping any pending cluster |
| ParseProperties.PositionalsOnly | params.go:1011-1030 | a command line of positionals is collected in order into `args` and changes no flag |
| ParseProperties.PositionalsOnlyTail | params.go:1012-1016 | with interspersing, positionals are collected one per turn, in order, and the parse finishes with all of them in `args` |
| ParseProperties.FlagWithMinusReparses | params.go:1033-1061 | the name a message shows for a flag (`-x`, `--name`) parses back as that flag |
| ParseProperties.EmptyLongName | params.go:1033-1041 | `--=v` with non-empty `v` yields the empty-name error, consumes the token and queues `v` |
| ParseProperties.EmptyLongNameHandled | params.go:1160-1179 | that error goes straight to the error policy, and only the cursor moves |
| ParseProperties.LongFormWithEquals | params.go:1033-1046 | `--name=v` names `name` and queues `v`; with empty `v` the name is `name=` |
| ParseProperties.ShortFormWithEquals | params.go:1049-1056 | `-x=v` names `x` and queues `v` |
| ParseProperties.ShortFormGlued | params.go:1058-1061 | `-xv` names `x` and queues `v` |
| ParseProperties.OneParameterTakesNextToken | params.go:1097-1127 | `--name v` or `-x v` on a one-parameter flag hands exactly `v` to Set, keeps what Set stores, consumes `v`, and goes on (recording the name) exactly when Set reports no error; otherwise the error policy receives "invalid value" |
| ParseProperties.OneParameterTurn | params.go:1097-1127 | the same for the part of the turn after parseOne |
| ParseProperties.AttachedOrNextParameter | params.go:1097-1127 | for an arity-1 flag, an attached value and the next token give the same result |
| ParseProperties.LongSwitchRejectsValue | params.go:1084-1093 | `--flag=v` on a zero-arity flag runs Set, fails with "unwanted argument", drops `v` and leaves `actual` unchanged |
| ParseProperties.ShortSwitchKeepsValueQueued | params.go:1052-1056 | `-x=v` on a switch applies it and leaves `v` queued as a cluster |
| ParseProperties.ParametersStayQueued | params.go:1128-1140 | arity N ≥ 2 passes the next N tokens to Set but leaves them in place; success exactly when Set succeeds |
| ParseProperties.HelpExitsWithZero | params.go:1071-1083 | an unregistered `-h`/`--help` under ExitOnError exits 0 after prefixing ErrHelp; any other unknown flag exits 2 |
| FlagSets.HelpSentinel.constructor | params.go:46 | ErrHelp starts as "help requested" |
| FlagSets.FlagSet.constructor | params.go:1228-1230 | NewFlagSet: empty valid registry, empty cursor, not parsed, flags known as "parameter", no interspersing |
| FlagSets.FlagSet.WithKnownAs | params.go:1236-1243 | NewFlagSetWithFlagKnownAs: the same with the given word |
| FlagSets.FlagSet.Init | params.go:1248-1251 | Init sets the name and the error policy |
| FlagSets.FlagSet.SetAllowIntersperse | params.go:374-376 | sets the interspersion flag |
| FlagSets.FlagSet.Var | params.go:930-960 | the registry and panic flag afterwards are exactly what Register specifies, and the registry invariant holds |
| FlagSets.SplitNames | params.go:931-938 | splitOn at spaces followed by the in-place swap gives NamesOf |
| FlagSets.SwapNormalizes | params.go:933-938 | swapping elements 0 and 1 in place is NormalizeNames |
| FlagSets.FlagSet.AddNames | params.go:951-959 | the insertion loop leaves `formal` and the panic flag exactly as InsertNames specifies |
| FlagSets.InsertNamesAt | params.go:951-959 | one turn of the insertion loop |
| FlagSets.RegisterParts | params.go:930-960 | Register, component by component |
| FlagSets.FlagSet.Set | params.go:444-458 | the registry and result afterwards are exactly what SetFlag specifies |
| FlagSets.FlagSet.SetCountsOnce | params.go:644 | the accessor NFlag: a successful Set raises it by one exactly for a name not used before |
| FlagSets.FlagSet.Lookup | params.go:433-435 | a flag exactly for a registered name, and that flag is the record the name points at; it carries the name, and its first name points at it too |
| FlagSets.FlagSet.ArgsByIndex | params.go:651-671 | the accessors Arg, NArg and Args: NArg is the length of Args; Arg(i) is Args()[i] in range and "" outside |
| FlagSets.FlagSet.FirstNames | params.go:327-332 | the first loop of sortFlags lists, for each key, the first name of its record: each name as many times as keys lead to it |
| FlagSets.CountStep | params.go:327-332 | the counting invariant of that loop survives one key |
| FlagSets.FindEach | params.go:334-337 | the second loop looks every name up again; a missing name gives nil |
| FlagSets.FlagSet.SortFlags | params.go:326-339 | sortFlags returns, in sorted order of first names (with their counts), the lookup of each name in the map |
| FlagSets.FlagSet.VisitAll | params.go:406-410 | every registered record, under its first name, in sorted order, once per name it has |
| FlagSets.FlagSet.FirstNameRegistered | params.go:326-339 | every name sortFlags lists over `formal` is a registered first name |
| FlagSets.FlagSet.Visit | params.go:420-424 | the records set so far in sorted order of first names; nil where the first name itself was never used |
| FlagSets.FlagSet.ParseOne | params.go:995-1062 | the cursor and token afterwards are exactly what ParseOneStep specifies |
| FlagSets.FlagSet.ParseFlagArg | params.go:1071-1147 | the state and result afterwards are exactly what ParseFlagArgStep specifies, and the registry invariant holds |
| FlagSets.FlagSet.TakeNoParameter | params.go:1084-1093 | the switch case 0 is ResolveNoParameter |
| FlagSets.FlagSet.TakeOneParameter | params.go:1097-1127 | the switch case 1 is ResolveOneParameter |
| FlagSets.FlagSet.TakeParameters | params.go:1128-1140 | the default case is ResolveParameters |
| FlagSets.FlagSet.Parse | params.go:1155-1188 | the state and outcome afterwards are exactly ParseArguments; `parsed` is set; the registry invariant holds |
| FlagSets.FlagSet.Loop | params.go:1160-1187 | the loop ends in exactly the state and outcome that Run gives from where it starts, keeping the registry invariant |
| FlagSets.FlagSet.Reset | params.go:1156-1159 | parsed is set and the cursor holds every argument, nothing else changes |
| FlagSets.FlagSet.ParseTurn | params.go:1160-1187 | a turn that stops ends the run with the expected outcome; one that continues lowers the measure and leaves the rest of the run unchanged |
| FlagSets.FlagSet.Turn | params.go:1161-1186 | one loop iteration is exactly Step |
| FlagSets.FlagSet.Dispatch | params.go:1162-1186 | the iteration after parseOne is exactly AfterToken |
| FlagSets.TurnRun | params.go:1160-1187 | how one Step relates to the whole Run |

## Left out

- I/O:
  - `usage`, `failf`, `defaultUsage` and `Usage` are not modelled.
  - `PrintDefaults` and `SetUsageIndent` are not modelled.
  - `Output` and `SetOutput` are not modelled.
  - The message printed before Var's redefinition panic is not modelled.
- Process control: `os.Exit` and `panic` are outcomes, not effects.
- Go's `%q`/`%v` rendering of messages: an error is a datatype variant holding the message's parts.
- The `CommandLine` FlagSet, `os.Args` and every package-level wrapper function. They only forward to a FlagSet.
- The typed definers (`BoolVar`, `Int`, `Pres`, …). They build a value and call `Var`, which is modelled for every built-in value variant.
- FlagRegistry.Register: each record owns its value. In Go, `Var` keeps the caller's `Value` and the typed definers wrap the caller's pointer (params.go:54-57, 941-948), so two flags defined over one `Value` or one variable share storage and a `Set` through one shows in the other. The model treats such flags as independent.
- User-defined `Value` types. They are not modelled beyond `FuncValue`, whose callback is a parameter.
- Scanner.ResolveParameters: Go hands `Set` the slice `procArgs[:N]` (params.go:1137), which shares storage with the queued tokens, so a callback could rewrite tokens that are parsed again afterwards. The model's callback is a pure function of a copied list, so that aliasing is not captured.
- The `Name`, `ErrorHandling` and `Get` accessors, which only read a field. `NFlag`, `Arg`, `NArg`, `Args` and `Parsed` are modelled as functions without contracts of their own; `SetCountsOnce`, `ArgsByIndex` and `Parse` (which sets `parsed`) state their behaviour.
- `strconv`, `time` and `fmt` conversions, and floating point. They are the parameters in `Library`.
- Strings that are not valid UTF-8: strings are sequences of runes, and `rlen` (params.go:518-520) is their length.
- Commented-out code and the test and example files, which use functions that `params.go` does not define.
- Splitting.SplitOn: requires that `Split` returns. The Go loop spins forever on a leading or doubled separator; `UnlimitedSplitHangs` states when that happens.
- FlagSets.FlagSet.Var: carries the same requirement. A name list whose splitting never ends is not modelled.
- FlagSets.FlagSet.SortFlags: the sorted names are a ghost output. The model's sort is the function `SortStrings`, not Go's `sort.StringSlice`.
- FlagSets.FlagSet.VisitAll: returns the visited records instead of calling `fn`. A callback that changes the FlagSet is not modelled.
- FlagSets.FlagSet.Visit: the same limitation as VisitAll.
