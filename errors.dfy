/**
 * The errors FlagSet.Set, parseOne and parseFlagArg return, one variant per
 * message format (params.go:447, 1040, 1077, 1081, 1091, 1121, 1125, 1130,
 * 1134, 1138). `knownAs` is the FlagSet's FlagKnownAs word and `shown` the
 * flag as flagWithMinus prints it; Go's %q/%v rendering is not modelled.
 */
module Errors {
  import opened Values

  datatype Error =
    | HelpRequested(text: string)
    | NoSuchFlag(knownAs: string, name: string)
    | ValueError(cause: Cause)
    | EmptyFlagName(knownAs: string, argument: string)
    | NotDefined(knownAs: string, shown: string)
    | UnwantedArgument(knownAs: string, found: string, shown: string)
    | NeedsParameter(knownAs: string, shown: string)
    | InvalidValue(value: string, knownAs: string, shown: string, cause: Cause)
    | NeedsMoreThanOne(knownAs: string, shown: string)
    | NotEnoughParameters(knownAs: string, shown: string)
    | InvalidValues(values: seq<string>, knownAs: string, shown: string, cause: Cause)

}
