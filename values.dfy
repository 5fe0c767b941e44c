/**
 * The value types of params.go (lines 51-233): each variant's `Set` and
 * `String`. The conversions and formatting the Go code takes from strconv,
 * time and fmt are parameters (a `Library`), not modelled.
 */
module Values {
  import opened Options

  type Int64 = x: int | -0x8000_0000_0000_0000 <= x < 0x8000_0000_0000_0000
  type Uint64 = x: int | 0 <= x < 0x1_0000_0000_0000_0000
  /** The IEEE-754 bit pattern of a float64; no floating-point arithmetic is modelled. */
  type Float64 = bv64

  /** Why a `Set` failed: strconv's ErrSyntax / ErrRange, or an error a callback reported. */
  datatype Cause = ErrSyntax | ErrRange | Reported(message: string)

  /** What a conversion returns: the converted value and, possibly, an error. */
  datatype Conv<T> = Conv(value: T, err: Option<Cause>)

  /**
   * The library routines the value types call: strconv.ParseBool, ParseInt
   * and ParseUint (base 0, 64 bits), ParseFloat (64 bits), time.ParseDuration,
   * and the `%v` formatting of numbers and durations.
   */
  datatype Library = Library(
    parseBool: string -> Conv<bool>,
    parseInt: string -> Conv<Int64>,
    parseUint: string -> Conv<Uint64>,
    parseFloat: string -> Conv<Float64>,
    parseDuration: string -> Conv<Int64>,
    formatInt: Int64 -> string,
    formatUint: Uint64 -> string,
    formatFloat: Float64 -> string,
    formatDuration: Int64 -> string)

  /** The built-in Value implementations; a Func value carries its callback. */
  datatype Value =
    | PresentValue(present: bool)
    | BoolValue(b: bool)
    | IntValue(i: Int64)
    | Int64Value(i: Int64)
    | UintValue(u: Uint64)
    | Uint64Value(u: Uint64)
    | StringValue(s: string)
    | Float64Value(f: Float64)
    | DurationValue(d: Int64)
    | FuncValue(callback: seq<string> -> Option<Cause>)

  /** Whether `Set` reads its first token (`s[0]`), and so panics on an empty list. */
  predicate ReadsFirstToken(v: Value)
  {
    !(v.PresentValue? || v.FuncValue?)
  }

  predicate SameKind(v: Value, w: Value)
  {
    match v
    case PresentValue(_) => w.PresentValue?
    case BoolValue(_) => w.BoolValue?
    case IntValue(_) => w.IntValue?
    case Int64Value(_) => w.Int64Value?
    case UintValue(_) => w.UintValue?
    case Uint64Value(_) => w.Uint64Value?
    case StringValue(_) => w.StringValue?
    case Float64Value(_) => w.Float64Value?
    case DurationValue(_) => w.DurationValue?
    case FuncValue(_) => w.FuncValue?
  }

  lemma SameKindReflexive(v: Value)
    ensures SameKind(v, v)
  {
  }

  lemma SameKindTransitive(u: Value, v: Value, w: Value)
    requires SameKind(u, v) && SameKind(v, w)
    ensures SameKind(u, w)
  {
  }

  /** The result of Value.Set: the value now stored and the error returned, or a Go index panic. */
  datatype Assigned = Stored(value: Value, err: Option<Cause>) | IndexPanic

  function BoolText(b: bool): string
  {
    if b then "true" else "false"
  }

  /**
   * Value.String(): booleans as "true"/"false", a string as itself, a func
   * value as "", and the numbers and durations through the library's formatting.
   */
  function StringOf(v: Value, lib: Library): (r: string)
    ensures v.PresentValue? ==> (r == "true" <==> v.present) && (r == "false" <==> !v.present)
    ensures v.BoolValue? ==> (r == "true" <==> v.b) && (r == "false" <==> !v.b)
    ensures v.StringValue? ==> r == v.s
    ensures v.FuncValue? ==> r == ""
    ensures (v.IntValue? || v.Int64Value?) ==> r == lib.formatInt(v.i)
    ensures (v.UintValue? || v.Uint64Value?) ==> r == lib.formatUint(v.u)
    ensures v.Float64Value? ==> r == lib.formatFloat(v.f)
    ensures v.DurationValue? ==> r == lib.formatDuration(v.d)
  {
    match v
    case PresentValue(p) => BoolText(p)
    case BoolValue(b) => BoolText(b)
    case IntValue(i) => lib.formatInt(i)
    case Int64Value(i) => lib.formatInt(i)
    case UintValue(u) => lib.formatUint(u)
    case Uint64Value(u) => lib.formatUint(u)
    case StringValue(s) => s
    case Float64Value(f) => lib.formatFloat(f)
    case DurationValue(d) => lib.formatDuration(d)
    case FuncValue(_) => ""
  }

  /**
   * Value.Set(tokens). A converting variant stores what the conversion
   * produced even when the conversion also reports an error.
   */
  function Assign(v: Value, tokens: seq<string>, lib: Library): (r: Assigned)
    ensures r.IndexPanic? <==> |tokens| == 0 && ReadsFirstToken(v)
    ensures r.Stored? ==> SameKind(v, r.value)
    ensures r.Stored? && (v.PresentValue? || v.StringValue?) ==> r.err.None?
    ensures r.Stored? && v.FuncValue? ==> r.value == v && r.err == v.callback(tokens)
    ensures |tokens| > 0 && v.StringValue? ==> r == Stored(StringValue(tokens[0]), None)
    // a converting variant stores the conversion's value and returns its error, whatever the error is
    ensures |tokens| > 0 && v.BoolValue? ==>
      r == Stored(BoolValue(lib.parseBool(tokens[0]).value), lib.parseBool(tokens[0]).err)
    ensures |tokens| > 0 && v.IntValue? ==>
      r == Stored(IntValue(lib.parseInt(tokens[0]).value), lib.parseInt(tokens[0]).err)
    ensures |tokens| > 0 && v.Int64Value? ==>
      r == Stored(Int64Value(lib.parseInt(tokens[0]).value), lib.parseInt(tokens[0]).err)
    ensures |tokens| > 0 && v.UintValue? ==>
      r == Stored(UintValue(lib.parseUint(tokens[0]).value), lib.parseUint(tokens[0]).err)
    ensures |tokens| > 0 && v.Uint64Value? ==>
      r == Stored(Uint64Value(lib.parseUint(tokens[0]).value), lib.parseUint(tokens[0]).err)
    ensures |tokens| > 0 && v.Float64Value? ==>
      r == Stored(Float64Value(lib.parseFloat(tokens[0]).value), lib.parseFloat(tokens[0]).err)
    ensures |tokens| > 0 && v.DurationValue? ==>
      r == Stored(DurationValue(lib.parseDuration(tokens[0]).value), lib.parseDuration(tokens[0]).err)
  {
    match v
    case PresentValue(_) => Stored(PresentValue(true), None)
    case FuncValue(callback) => Stored(v, callback(tokens))
    // the other variants read s[0] first
    case BoolValue(_) =>
      if |tokens| == 0 then IndexPanic else var c := lib.parseBool(tokens[0]); Stored(BoolValue(c.value), c.err)
    case IntValue(_) =>
      if |tokens| == 0 then IndexPanic else var c := lib.parseInt(tokens[0]); Stored(IntValue(c.value), c.err)
    case Int64Value(_) =>
      if |tokens| == 0 then IndexPanic else var c := lib.parseInt(tokens[0]); Stored(Int64Value(c.value), c.err)
    case UintValue(_) =>
      if |tokens| == 0 then IndexPanic else var c := lib.parseUint(tokens[0]); Stored(UintValue(c.value), c.err)
    case Uint64Value(_) =>
      if |tokens| == 0 then IndexPanic else var c := lib.parseUint(tokens[0]); Stored(Uint64Value(c.value), c.err)
    case StringValue(_) =>
      if |tokens| == 0 then IndexPanic else Stored(StringValue(tokens[0]), None)
    case Float64Value(_) =>
      if |tokens| == 0 then IndexPanic else var c := lib.parseFloat(tokens[0]); Stored(Float64Value(c.value), c.err)
    case DurationValue(_) =>
      if |tokens| == 0 then IndexPanic else var c := lib.parseDuration(tokens[0]); Stored(DurationValue(c.value), c.err)
  }

  /**
   * A present value reads "false" when created (newPresentValue) and "true"
   * after any Set, whatever tokens Set is given.
   */
  lemma PresentSetShowsTrue(b: bool, tokens: seq<string>, lib: Library)
    ensures StringOf(PresentValue(false), lib) == "false"
    ensures Assign(PresentValue(b), tokens, lib).Stored?
    ensures StringOf(Assign(PresentValue(b), tokens, lib).value, lib) == "true"
  {
  }

  /** A string value's String() gives back the first token it was Set with. */
  lemma StringSetRoundTrip(old_: string, tokens: seq<string>, lib: Library)
    requires |tokens| > 0
    ensures Assign(StringValue(old_), tokens, lib).Stored?
    ensures StringOf(Assign(StringValue(old_), tokens, lib).value, lib) == tokens[0]
  {
  }

  /**
   * Every converting value (bool, int, int64, uint, uint64, float64,
   * duration) shows the conversion's result after Set and returns the
   * conversion's error: the result is kept even when the conversion failed,
   * and nothing of the value held before survives.
   */
  lemma ConvertingSetStoresOnError(v: Value, tokens: seq<string>, lib: Library)
    requires |tokens| > 0 && ReadsFirstToken(v) && !v.StringValue?
    ensures var r := Assign(v, tokens, lib);
      && r.Stored?
      && (v.BoolValue? ==>
            StringOf(r.value, lib) == BoolText(lib.parseBool(tokens[0]).value) && r.err == lib.parseBool(tokens[0]).err)
      && (v.IntValue? || v.Int64Value? ==>
            StringOf(r.value, lib) == lib.formatInt(lib.parseInt(tokens[0]).value) && r.err == lib.parseInt(tokens[0]).err)
      && (v.UintValue? || v.Uint64Value? ==>
            StringOf(r.value, lib) == lib.formatUint(lib.parseUint(tokens[0]).value) && r.err == lib.parseUint(tokens[0]).err)
      && (v.Float64Value? ==>
            StringOf(r.value, lib) == lib.formatFloat(lib.parseFloat(tokens[0]).value) && r.err == lib.parseFloat(tokens[0]).err)
      && (v.DurationValue? ==>
            StringOf(r.value, lib) == lib.formatDuration(lib.parseDuration(tokens[0]).value)
            && r.err == lib.parseDuration(tokens[0]).err)
  {
  }

}
