/** The error values the router and the converters return, with their payloads. */
module Errors {
  import Strconv
  import opened FlagValues
  import opened Tree

  /**
    The `Expected` and `Got` fields of the two type errors hold Go values
    whose dynamic type is the point: `Expected` is the zero value of the
    wanted type.
   */
  datatype Error =
      /** `UnknownFlagNameError`: a `--` token naming no visible flag. */
    | UnknownFlagName(name: string)
      /** `DuplicateFlagNameError`: two visible flags share a lower-cased name or alias. */
    | DuplicateFlagName(name: string)
      /** `UnexpectedFlagValueError`: `--name=value` for a flag that takes no value. */
    | UnexpectedFlagValue(flag: string, value: string)
      /** `UnexpectedCommandArgError`: a positional argument where none is accepted. */
    | UnexpectedCommandArg(arg: string)
      /** `UnexpectedFlagPriorTypeError`: a list converter handed a prior value of another type. */
    | UnexpectedFlagPriorType(name: string, expected: Flag, got: Flag)
      /** `UnexpectedFlagValueTypeError`: a list converter's element converter returned another type. */
    | UnexpectedFlagValueType(name: string, expected: Flag, got: Flag)
      /** A `*strconv.NumError` returned by a converter, propagated unchanged. */
    | Conversion(cause: Strconv.NumError)
      /** `ExtraInputError`: input left over once no further subcommand matched. */
    | ExtraInput(
        application: Application,
        commandPath: seq<Command>,
        matchedFlags: map<string, Flag>,
        matchedArgs: seq<string>,
        extraInput: seq<string>)
}
