# clif's router, modelled in Dafny

clif is a Go library that turns a command line into a call of a
command's handler. An `Application` holds a tree of `Command`s and some
global `FlagDef`s. `Route` walks the input one level of the tree at a
time. `parse` reads the tokens of one level. It binds `--name`,
`--name=value` and `--name value` flags through each definition's
converter (a `FlagParser`). It collects positional arguments. It stops at
the first token that names a subcommand, and hands the rest of the input
to that subcommand. `Application.Run` turns the routing outcome into an
exit code.

The project models that core:

- **The namespace of one level** (`FlagDefs`). `listFlagDefs` collects the
  flags a level can see: all of the node's own flags, and the unrestricted
  flags of every descendant. A restricted flag is one marked
  `OnlyAfterCommandName`. The namespace maps every lower-cased name and
  alias to its definition. It refuses a key that is already taken, naming
  the first clash.
- **`parse`** (`CommandParse`). The token loop is written as one step
  function per kind of token, plus a recursive `Scan`. The loop tracks a
  pending flag: one that takes a value and has not received it yet. Every
  branch of `command.go`'s token loop is modelled, including these edge
  cases:
  - a pending flag is closed with an empty value when another flag or a
    subcommand follows;
  - a pending flag is dropped when the input ends;
  - the last token is a positional argument, even with a flag pending,
    when the level accepts arguments;
  - an unknown `--` token is let through, when allowed, as its bare
    lower-cased name.
- **The built-in converters** (`Parsers`, with `Strconv`). These are the
  bool, string, int and uint parsers and their list forms. `flags.go` and
  the `flagtypes` package contain the same code, so one definition covers
  both. The `strconv` functions they call are modelled for base 10 and 64
  bits: the accepted bool spellings, and the syntax and range errors.
- **`Route`** (`Router`). Its loop merges each level's flags over those
  already bound, so a later level overwrites an equal key. It appends
  each level's positional arguments. A structural reference descent
  (`Levels`) is proved equal to the loop.
- **`Run`'s exit-code logic** (`App`).
- **The repository's own examples** (`Examples`). These are the
  list-flag cases of `command_test.go` and `route_test.go`, and every
  invocation of `ExampleApplication` in `application_test.go`. Each is
  stated and proved as a concrete equation.

## Where the model follows the code

- `route.go` calls a five-argument `parse` that takes a namespace built
  once. `command.go` defines a four-argument `parse` that builds the
  namespace of each level itself. The model follows `command.go`.
  - Each level's namespace therefore holds that level's own flags,
    restricted or not, and its descendants' unrestricted ones.
  - `Route` first checks the application's namespace for duplicate names,
    as `route.go` does.
- `ExtraInputError` is documented (route.go:10-11) as the error for a
  command that gets more input than it knows what to do with, and
  `Route` returns it when a level leaves tokens without matching a
  subcommand (route.go:96-104). That can never happen: every level that
  matches no subcommand consumes all of its input (`Parse`'s contract).
  A leftover token after a leaf command is refused by the leaf's own
  `parse` as an unexpected argument instead (`RouteHelpSurplus`). The
  check is modelled in `RouteLoop`, and `Route`'s contract shows the
  error never comes out.
- Flags bound at different levels are merged by overwriting (`maps.Copy`,
  route.go:84 and 93). Two levels can bind the same key, because every
  level's namespace includes the unrestricted flags below it; the deeper
  level's value then wins.
- A value-taking flag still pending when the input ends is neither
  converted nor bound (`PendingFlagDropped`). The same holds when the
  last token is taken as a positional argument instead
  (`LastWordDropsPending`). The model keeps
  this behaviour.
- A bound flag is stored under the lower-cased name it was invoked with.
  Two aliases of one list flag therefore accumulate separately.

## Model

| member | source | states |
|---|---|---|
| Text.ToLower | command.go:89-96 | lower-casing keeps the length, maps each character through the ASCII lower-case table, and leaves no upper-case letter |
| Text.ToLowerIdempotent | command.go:116-169 | lower-casing an already lower-cased flag name again changes nothing |
| Text.Cut | command.go:114-115 | `Cut` finds the first `=`: when present the text is head, `=`, tail with no `=` in the head; otherwise the head is the whole text and the value is empty |
| CommandParse.FlagKey | command.go:113-116 | the key of a `--` token is no longer than the token less its `--` and contains no `=` |
| CommandParse.FlagKeyLowered | command.go:116-169 | a flag key is already lower-cased, so lower-casing it again, as `parse` does for the following match, changes nothing |
| Text.CutJoined | command.go:115 | a token built as name `=` value, with no `=` in the name, cuts back into exactly that name and value |
| Text.Join | flags.go:439 | joining no pieces gives the empty text; otherwise the text starts with the first piece |
| Text.SplitJoin | flags.go:433-440 | splitting a `", "`-joined list of comma-free pieces gives back the pieces |
| Strconv.ParseBool | flags.go:199-204 | `ParseBool` succeeds exactly on Go's true and false spellings, returns true exactly for the true ones, and otherwise fails with a syntax error naming `ParseBool` and the input |
| Strconv.FormatBool | flags.go:435-439 | `true` renders as a `ParseBool` true spelling and `false` as a false spelling |
| Strconv.ParseFormatBool | flags.go:433-440 | the rendering of every bool reads back as that bool |
| Strconv.ScanUint | flags.go:273-283 | the digit loop succeeds exactly on an all-digit text whose value fits in 64 bits and returns that value; a syntax error means a non-digit, a range error means a prefix that overflowed |
| Strconv.ParseUint | flags.go:273-283 | `ParseUint(s, 10, 64)` succeeds exactly on a non-empty digit string whose value is at most 2^64-1 and returns that value; an all-digit text that is too large is a range error; every error names `ParseUint` and the input |
| Strconv.FormatInt | flags.go:540-544 | the rendering starts with `-` exactly for a negative number; the digits after it denote the absolute value, with no leading zero except for `0` itself |
| Strconv.ParseInt | flags.go:248-258 | `ParseInt(s, 10, 64)` succeeds exactly on an optionally signed digit string whose value lies in the int64 range, and returns the signed value; every error names `ParseInt` and the input |
| Strconv.FormatUint | flags.go:568-602 | the rendering is a non-empty digit string that denotes the number, with no leading zero; 0 renders as `0` |
| Strconv.ParseFormatUint | flags.go:568-602 | every uint64 rendered by `FormatUint` reads back unchanged |
| Strconv.ParseFormatInt | flags.go:513-547 | every int64 rendered by `FormatInt` reads back unchanged |
| Strconv.FormatsHaveNoComma | flags.go:433-440 | the renderings of bools, ints and uints never contain the list separator's comma |
| FlagValues.FlagType | flags.go:446-448 | a list converter's type tag is `[]` followed by the tag of the scalar converter of its element kind, and no scalar tag contains `[` |
| FlagValues.FlagTypeInjective | flags.go:213-289 | distinct converters advertise distinct type tags |
| Parsers.ParseBasic | flags.go:194-283 | each scalar converter keeps the invoked name and the text as typed. An empty bool value is true; otherwise a bool succeeds exactly on a `ParseBool` spelling. A string always succeeds with the text. Int and uint succeed exactly on the texts `ParseInt`/`ParseUint` accept, within 64 bits, with the signed or unsigned decimal value of the digits. A failure carries `strconv`'s own error unchanged, naming the function and the input |
| Parsers.PriorValues | flags.go:409-420 | a list converter starts from the empty list without a prior; from the prior's list when the prior is a list of its element type; otherwise it fails with `UnexpectedFlagPriorTypeError` carrying the name, the zero list and the prior |
| Parsers.ParseList | flags.go:408-442 | a prior of the wrong type is refused first. Then the element converter's error is returned unchanged. When the prior fits and the element converts, the list converter succeeds. On success the result carries the invoked name and the prior list with the new element appended. Its raw value is every element's canonical rendering joined by `", "`. `UnexpectedFlagValueTypeError` never arises |
| Parsers.Convert | flags.go:113-124 | a converter's result carries the invoked name and the converter's own flag type. Given a prior of its own type, it fails only with a conversion error. It keeps every value within its declared type and 64 bits |
| Parsers.ParseBasicFormat | flags.go:433-440 | the canonical rendering of any in-range value converts back to that value with that rendering as raw text |
| Parsers.ListRawValueReadsBack | flags.go:433-440 | the raw value of a non-empty bool, int or uint list determines its list: it splits into one piece per element, and each piece converts back to the element in its position |
| FlagDefs.OwnVisible | flags.go:139-143 | a definition is kept exactly when it is the node's and is unrestricted or the node is active; an active node keeps all, in order |
| FlagDefs.CommandFlagDefs | flags.go:137-148 | an inactive command contributes no restricted definition |
| FlagDefs.SubcommandFlagDefs | flags.go:144-146 | what the subcommands contribute holds no restricted definition |
| FlagDefs.ListFlagDefs | flags.go:137-148 | a restricted definition appears only when the node is active and owns it |
| FlagDefs.CommandFlagDefsAreUnrestrictedSubtree | flags.go:137-148 | an inactive command contributes exactly the unrestricted definitions of its whole subtree, in tree order |
| FlagDefs.SubcommandFlagDefsAreUnrestrictedForest | flags.go:144-146 | a list of subcommands contributes exactly the unrestricted definitions of their subtrees, in order |
| FlagDefs.ActiveListing | flags.go:137-148 | the active node's listing is all of its own definitions followed by every unrestricted definition below it |
| FlagDefs.DefEntries | command.go:88-102 | a definition contributes its lower-cased name first, then each lower-cased alias in order, all mapped to itself |
| FlagDefs.AliasEntries | command.go:95-102 | each alias contributes its lower-cased form, in order |
| FlagDefs.InsertEntries | command.go:86-103 | insertion succeeds exactly when no key clashes with the map or an earlier key. The result then holds exactly the old keys and the new ones, maps each new key to its definition, and keeps the old entries. On failure the error names the first clashing key |
| FlagDefs.BuildNamespace | command.go:86-103 | the namespace exists exactly when all lower-cased names and aliases are distinct; its keys are exactly those, each mapped to its definition; otherwise the error is `DuplicateFlagNameError` naming the first key, in insertion order, that is already taken |
| CommandParse.Lookup | command.go:122 | a missing key reads as no prior value, a present key as its flag |
| CommandParse.Bind | command.go:143-147 | binding runs the definition's converter with the flag's prior value. It succeeds exactly when that succeeds, and stores the result under the key. Every other bound flag is kept, and the namespace agreement is preserved. A failure is a conversion error |
| CommandParse.Close | command.go:121-129 | closing a pending flag binds it to the empty value; with nothing pending the flags are unchanged |
| CommandParse.MatchChild | command.go:177-211 | the result is the first subcommand whose lower-cased name or alias equals the lower-cased token; there is none exactly when no subcommand is so named |
| CommandParse.FlagStep | command.go:113-161 | a known flag token first binds the pending flag to the empty value, and that conversion's error ends the level. Then a value given to a flag that takes none is refused with `UnexpectedFlagValueError` naming the key and value. A flag with `=value`, or one that takes no value, is bound at once. A value-taking flag without one becomes pending under its key |
| CommandParse.WordStep | command.go:169-257 | a token naming a subcommand ends the level with that subcommand, the arguments so far, and the rest of the input. The pending flag is bound to the empty value first, and the level ends in success exactly when that succeeds. Without a pending flag, a level taking no arguments refuses the token with `UnexpectedCommandArgError`. A level taking arguments collects the token when nothing is pending or it is the last token. Otherwise it is bound as the pending flag's value |
| CommandParse.TokenStep | command.go:106-167 | one token never drops a bound flag or an argument, adds no argument on a level that accepts none, and ends the level only on a subcommand or a parse error. A `--` token naming no visible flag is refused with `UnknownFlagNameError` in any state when unknown flags are not allowed |
| CommandParse.Scan | command.go:104-259 | the loop fails only with a parse error. On success it keeps every flag bound before, in agreement with the namespace, and keeps the arguments collected. A level that accepts none gains no argument. Without a subcommand all input is consumed. With one, what is left is a strictly shorter suffix of the input |
| CommandParse.Parse | command.go:79-260 | empty input gives an empty result. A duplicate name in the level's namespace is reported before anything is read. Every flag sits under its invoked name with a value of its type. A level that accepts no arguments returns none. A result without a subcommand consumed all input, and one with a subcommand leaves a strictly shorter suffix |
| CommandParse.SpacedFlagOpens | command.go:154-161 | `--name` for a flag that takes a value leaves it pending under its lower-cased name |
| CommandParse.JoinedFlagBinds | command.go:141-149 | `--name=value` for a flag that takes a value binds that value at once |
| CommandParse.SwitchFlagBinds | command.go:141-149 | `--name` for a flag that takes no value binds it at once to the empty value |
| CommandParse.WordIsValue | command.go:221-257 | with a flag pending, a token that names no subcommand is bound as the flag's value unless it is the last token of a level that accepts arguments |
| CommandParse.ScanSpacedFlag | command.go:154-161 | the loop goes on after `--name` with the flag pending and nothing else changed |
| CommandParse.ScanJoinedFlag | command.go:141-149 | the loop goes on after `--name=value` with the value bound and nothing pending |
| CommandParse.ScanSwitchFlag | command.go:141-149 | the loop goes on after a value-less `--name` with the flag bound to the empty value |
| CommandParse.ScanFlagValue | command.go:221-232 | the loop goes on after the pending flag's value with the value bound and nothing pending |
| CommandParse.ScanSubcommand | command.go:189-210 | a token naming a subcommand, with nothing pending, ends the level with that subcommand and hands back exactly the tokens after it |
| CommandParse.ParseRunsScan | command.go:83-104 | on non-empty input with a valid namespace, `parse` is the token loop from an empty state |
| CommandParse.FlagValueForms | command.go:113-161 | `--name value` and `--name=value` parse identically when the value is no flag, names no subcommand, and is not the last token of a level that takes arguments |
| CommandParse.PendingFlagDropped | command.go:259 | a value-taking flag given as the only token, without a value, leaves no flag bound and no error |
| CommandParse.ScanArgument | command.go:233-248 | on a level that takes arguments, a word naming no subcommand is appended to the arguments when nothing is pending or it is the last token, and the loop goes on unchanged otherwise |
| CommandParse.ScanPlainArguments | command.go:233-238 | on a level that takes arguments, a run of words naming no subcommand is appended to the arguments in order, and nothing else changes |
| CommandParse.PlainArguments | command.go:79-260 | `parse` of a level that takes arguments returns every word of an input of plain words as its arguments, in order, with no flag bound and no subcommand |
| CommandParse.LastWordDropsPending | command.go:241-248 | `--name word` on a level that takes arguments gives the argument `word` and no flag: the last token is an argument and the pending flag is dropped |
| CommandParse.ScanClosesBeforeFlag | command.go:119-129 | a pending flag followed by a known flag token is bound to the empty value before that token is read |
| CommandParse.ScanClosesBeforeSubcommand | command.go:198-204 | a pending flag followed by a subcommand token is bound to the empty value before the level ends |
| CommandParse.UnknownFlagLetThrough | command.go:113-117 | with unknown flags allowed, a `--` token naming no visible flag is read as the word of its lower-cased key, with no exception |
| CommandParse.ScanUnknownFlag | command.go:113-169 | with unknown flags allowed, the loop goes on from such a token as from the word of its lower-cased key |
| CommandParse.ScanUnknownFlagAsKey | command.go:113-169 | when that key does not itself start with `--`, the loop treats the token exactly as it treats the key given in its place |
| CommandParse.ScanUnknownFlagRefused | command.go:162-166 | without that allowance, such a token ends the level with `UnknownFlagNameError` carrying its lower-cased name, whatever is pending or bound |
| CommandParse.UnknownFlagRefused | command.go:162-166 | a `--` token naming no visible flag is refused with `UnknownFlagNameError` carrying its lower-cased name, when unknown flags are not allowed |
| CommandParse.ApplicationRefusesArgument | application.go:20-22 | the application's parseable view offers its commands as subcommands and accepts no arguments: a first word naming no command is an `UnexpectedCommandArgError` (command.go:217-218) |
| CommandParse.LeadingSubcommand | command.go:177-210 | a first token naming a subcommand selects the first such subcommand, binds nothing and hands back the rest of the input |
| Router.RouteLoop | route.go:86-105 | the loop fails only with a duplicate name or a parse error, or with extra input when a level leaves tokens without a subcommand. Without a subcommand it succeeds exactly on empty leftovers. It only appends arguments, and keeps every flag under its invoked name |
| Router.Route | route.go:57-106 | a duplicate name in the application's namespace is reported first. Empty input routes to the zero command with nothing bound. Routing fails only with a duplicate name or a parse error, never extra input, and returns flags stored under their invoked names |
| Router.RouteRunsLoop | route.go:79-95 | once the namespace is valid and the application level parses, routing is the loop started from that level's flags and arguments |
| Router.RouteLoopStep | route.go:86-95 | one turn of the loop parses the matched command's leftover input with its own unknown-flag setting, merges that level's flags over the bound ones and appends its arguments |
| Router.RouteLoopEnd | route.go:96-105 | the loop ends successfully, unchanged, at a level with no subcommand and no leftover input |
| Router.RouteLoopLeaf | route.go:86-105 | a matched command whose level binds `bound`, matches no further subcommand and takes no argument ends routing with that command and `bound` merged over the flags already bound |
| Router.RouteLoopBare | route.go:86-105 | a matched command given no input of its own ends routing with that command and nothing added |
| Router.RouteLoopFails | route.go:89-92 | a level that fails to parse ends routing with its error |
| Router.RouteThrough | route.go:57-106 | once the application level parses, routing returns what the descent from it returns |
| Router.Levels | route.go:86-95 | the reference chain of levels: each level's command is the previous level's subcommand and a child of the previous command, and the last level matches no subcommand |
| Router.RouteLoopDescends | route.go:86-105 | the loop equals the reference descent: the deepest command, every level's flags merged in order over those bound, every level's arguments appended, or the first level error |
| Router.RouteIsDescent | route.go:57-106 | routing is the namespace check, the application level's parse, then the reference descent from it |
| Router.RouteArgsComeFromSubcommands | application.go:20 | the application takes no arguments, so the routed arguments are exactly those of the subcommand levels, in order |
| Router.RouteWithoutSubcommand | route.go:79-105 | when the application level matches no subcommand, routing returns the zero command with that level's flags and no arguments |
| App.Run | application.go:43-63 | a routing error or a routed command without a handler gives 1. Otherwise a positive code left by `Build` is returned without handling, else the code left by `Handle` |
| App.RunWithoutInput | application.go:43-52 | with no input the zero command has no handler, so the code is 1 |
| App.RunWithoutCommand | application.go:49-52 | input matching no subcommand at the application level gives 1, whatever the handlers do |
| App.RunSucceedsOnlyThroughHandler | application.go:43-63 | any code other than 1 comes from a successfully routed command that has a handler |
| Examples.ThirdNameUse | command_test.go:36 | the third use of the string-list flag yields the list foo, bar, baaz with raw value `"foo, bar, baaz"` |
| Examples.ListFlagsCase | command_test.go:31-37 | `--name=foo --name bar --name baaz hello` at the application level binds the string list foo, bar, baaz with raw value `"foo, bar, baaz"` and selects `hello` |
| Examples.RouteListFlagsCase | route_test.go:29-35 | `hello --name=foo --name bar --name baaz` routes to `hello` with the same list flag and no arguments |
| Examples.RouteHelp | application_test.go:74 | `help` routes to the help command with no flags and no arguments |
| Examples.RouteFooBarQuux | application_test.go:76 | `foo bar --quux hello` routes to `bar` with `quux` bound to `hello` and no arguments |
| Examples.RouteFooQuuxBar | application_test.go:78 | `foo --quux hello bar` routes to `bar` with the same flag, bound at `foo`'s level |
| Examples.RouteQuuxFooBar | application_test.go:80 | `--quux hello foo bar` routes to `bar` with the same flag, bound at the application level |
| Examples.RouteFooBarQuuxJoined | application_test.go:82 | `foo bar --quux=hello` routes to `bar` with the same flag |
| Examples.RouteFooQuuxJoinedBar | application_test.go:84 | `foo --quux=hello bar` routes to `bar` with the same flag |
| Examples.RouteQuuxJoinedFooBar | application_test.go:86 | `--quux=hello foo bar` routes to `bar` with the same flag |
| Examples.RouteBaazFooBarQuux | application_test.go:88 | `--baaz foo bar --quux hello` routes to `bar` with `baaz` true with an empty raw value and `quux` bound to `hello` |
| Examples.RunFooBarQuux | application_test.go:76 | `Run` on `foo bar --quux hello` builds `bar`'s handler from the routed flags and no arguments and returns its code |
| Examples.RouteHelpSurplus | command.go:217-219 | `help surplus` is refused by the leaf `help` as an unexpected argument `surplus`, not reported as extra input |

## Left out

- The float, time and duration converters and their list forms, in `flags.go` and in `flagtypes/float.go`, `duration.go` and `timestamp.go`. They rest on floating-point and time parsing.
- User-defined `FlagParser` implementations. The model's converters are the closed set of built-in ones.
- The `flagtypes` package's own `BasicFlag`, `ListFlag` and error types. They are separate Go types with the same shape as `flags.go`'s, and are modelled as the same values. A flag's prior value always comes from that flag's one definition, so the two packages' types never meet.
- Text.ToLower: lower-cases the ASCII letters only. Go's `strings.ToLower` also maps non-ASCII upper-case letters.
- Strconv.ParseInt: models base 10 and 64 bits only. Those are the only arguments the converters pass.
- `context.Context`, `RunOptions` and `os.Args` (options.go), and the output and error streams. `Response` (response.go) is kept only as the exit code that `Build` and `Handle` leave. The `Error()` message texts are also left out.
- The handlers' business logic (handler.go). `Build` and `Handle` are parameters of `Run` that map the routed handler, flags and arguments to a code. `handler.go` declares `Build` over a flag slice while `Route` returns a map; `Run` passes the map.
- Help output (help.go), and the `Description` and `Hidden` fields. The routing logic never reads them.
- The partial result that `parse` and `Route` return alongside an error (command.go:124, 135, 145, 165, 201, 218, 226, 252; route.go:68, 75, 82, 91). The model returns only the error: neither `Run` (application.go:43-47) nor the repository's tests read the result once an error is set.
- `MissingFlagValueError`: declared in `flags.go`, but no code path returns it.
- `Route`'s namespace argument to `parse`. As described above, the model follows `command.go`'s four-argument `parse`.
