/**
  `Route`: parse the application level, then keep descending into the
  matched subcommand with the input it left unparsed, merging the flags
  (a later level overwrites an equal key) and concatenating the positional
  arguments, until a level matches no subcommand.

  `route.go` passes a namespace built once up front to a five-argument
  `parse`; the `parse` in `command.go` takes four arguments and builds the
  namespace of each level itself. The model follows `command.go`'s
  signature, and keeps `Route`'s up-front duplicate check as a separate
  validation of the application's namespace before the first level.
 */
module Router {
  import opened Wrappers
  import opened FlagValues
  import opened Tree
  import opened Errors
  import FlagDefs
  import opened CommandParse

  /** `RouteResult`: the command to run, with its flags and positional arguments. */
  datatype RouteResult = RouteResult(command: Command, flags: map<string, Flag>, args: seq<string>)

  /** Every flag sits under the name it was invoked with and holds values of its type. */
  predicate FlagsNamed(flags: map<string, Flag>) {
    forall k :: k in flags ==> flags[k].name == k && WellTyped(flags[k])
  }

  /** What one call of `parse` leaves for the loop: a subcommand with strictly less input, or nothing. */
  ghost predicate Settled(p: Parsed) {
    p.subcommand.None? ==> p.unparsed == []
  }

  /** The descent measure: the input left, plus one while a subcommand is still to be parsed. */
  function Remaining(p: Parsed): nat {
    |p.unparsed| + if p.subcommand.Some? then 1 else 0
  }

  /**
    The `for parsed.subcommand != nil` loop and the extra-input check after
    it. `acc` is the result so far and `path` the commands matched so far.
   */
  function RouteLoop(app: Application, parsed: Parsed, acc: RouteResult, path: seq<Command>)
    : (r: Result<RouteResult, Error>)
    ensures r.Failure? ==>
      || r.error.DuplicateFlagName? || ScanError(r.error)
      || (r.error.ExtraInput? && parsed.subcommand.None? && parsed.unparsed != [])
    ensures parsed.subcommand.None? ==> (r.Success? <==> parsed.unparsed == [])
    ensures r.Success? && parsed.subcommand.None? ==> r.value == acc
    ensures r.Success? ==> acc.args <= r.value.args
    ensures r.Success? && FlagsNamed(acc.flags) ==> FlagsNamed(r.value.flags)
    decreases Remaining(parsed)
  {
    match parsed.subcommand
    case None =>
      if |parsed.unparsed| > 0 then Failure(ExtraInput(app, path, acc.flags, acc.args, parsed.unparsed))
      else Success(acc)
    case Some(cmd) =>
      var next :- Parse(CommandNode(cmd), parsed.unparsed, cmd.allowNonFlagFlags);
      NamedMerge(acc.flags, next.flags);
      RouteLoop(app, next, RouteResult(cmd, acc.flags + next.flags, acc.args + next.args), path + [cmd])
  }

  /** Merging two maps whose flags sit under their invoked names keeps that so. */
  lemma NamedMerge(a: map<string, Flag>, b: map<string, Flag>)
    ensures FlagsNamed(a) && FlagsNamed(b) ==> FlagsNamed(a + b)
  {
  }

  /** The application's namespace, which `Route` validates before parsing anything. */
  function RootNamespace(app: Application): Result<map<string, FlagDef>, Error> {
    FlagDefs.BuildNamespace(FlagDefs.ListFlagDefs(AppNode(app), true))
  }

  /**
    `Route(ctx, root, input)`. The application level never lets unknown
    `--` tokens through; each subcommand level uses that command's own
    `AllowNonFlagFlags`.
   */
  function Route(app: Application, input: seq<string>): (r: Result<RouteResult, Error>)
    ensures RootNamespace(app).Failure? ==> r == Failure(RootNamespace(app).error)
    ensures input == [] && RootNamespace(app).Success? ==> r == Success(RouteResult(ZeroCommand, map[], []))
    ensures r.Failure? ==> r.error.DuplicateFlagName? || ScanError(r.error)
    ensures r.Success? ==> FlagsNamed(r.value.flags)
  {
    var _ :- RootNamespace(app);
    var parsed :- Parse(AppNode(app), input, false);
    RouteLoop(app, parsed, RouteResult(ZeroCommand, parsed.flags, parsed.args), [])
  }

  /** Once the namespace is valid and the application level parses, `Route` is the descent from that level. */
  lemma RouteRunsLoop(app: Application, input: seq<string>, root: Parsed)
    requires RootNamespace(app).Success? && Parse(AppNode(app), input, false) == Success(root)
    ensures Route(app, input) == RouteLoop(app, root, RouteResult(ZeroCommand, root.flags, root.args), [])
  {
  }

  /** One turn of the loop: parse the matched subcommand's input and fold that level into the result. */
  lemma RouteLoopStep(app: Application, parsed: Parsed, acc: RouteResult, path: seq<Command>, cmd: Command, next: Parsed)
    requires parsed.subcommand == Some(cmd)
    requires Parse(CommandNode(cmd), parsed.unparsed, cmd.allowNonFlagFlags) == Success(next)
    ensures RouteLoop(app, parsed, acc, path)
         == RouteLoop(app, next, RouteResult(cmd, acc.flags + next.flags, acc.args + next.args), path + [cmd])
  {
  }

  /** A level that binds nothing and takes no argument only changes the command. */
  lemma RouteLoopQuietStep(app: Application, parsed: Parsed, acc: RouteResult, path: seq<Command>, cmd: Command, next: Parsed)
    requires parsed.subcommand == Some(cmd)
    requires Parse(CommandNode(cmd), parsed.unparsed, cmd.allowNonFlagFlags) == Success(next)
    requires next.flags == map[] && next.args == []
    ensures RouteLoop(app, parsed, acc, path) == RouteLoop(app, next, RouteResult(cmd, acc.flags, acc.args), path + [cmd])
  {
    NothingMerged(acc, cmd, next.flags, next.args);
    RouteLoopStep(app, parsed, acc, path, cmd, next);
  }

  /** Merging no flags and appending no arguments leaves the result as it was, but for the command. */
  lemma NothingMerged(acc: RouteResult, cmd: Command, flags: map<string, Flag>, args: seq<string>)
    requires flags == map[] && args == []
    ensures RouteResult(cmd, acc.flags + flags, acc.args + args) == RouteResult(cmd, acc.flags, acc.args)
  {
    assert acc.flags + flags == acc.flags;
    assert acc.args + args == acc.args;
  }

  /** The loop ends, successfully, at a level that matched no subcommand and left no input. */
  lemma RouteLoopEnd(app: Application, parsed: Parsed, acc: RouteResult, path: seq<Command>)
    requires parsed.subcommand.None? && parsed.unparsed == []
    ensures RouteLoop(app, parsed, acc, path) == Success(acc)
  {
  }

  /** A last level, one that matches no subcommand and takes no argument, merges its flags and ends the loop. */
  lemma RouteLoopLeaf(app: Application, parsed: Parsed, acc: RouteResult, path: seq<Command>, cmd: Command, bound: map<string, Flag>)
    requires parsed.subcommand == Some(cmd)
    requires Parse(CommandNode(cmd), parsed.unparsed, cmd.allowNonFlagFlags) == Success(Parsed(None, bound, [], []))
    ensures RouteLoop(app, parsed, acc, path) == Success(RouteResult(cmd, acc.flags + bound, acc.args))
  {
    var last := Parsed(None, bound, [], []);
    RouteLoopStep(app, parsed, acc, path, cmd, last);
    assert acc.args + [] == acc.args;
  }

  /** A matched command given no input of its own is where the loop ends, with nothing added. */
  lemma RouteLoopBare(app: Application, parsed: Parsed, acc: RouteResult, path: seq<Command>, cmd: Command)
    requires parsed.subcommand == Some(cmd) && parsed.unparsed == []
    ensures RouteLoop(app, parsed, acc, path) == Success(RouteResult(cmd, acc.flags, acc.args))
  {
    var empty: map<string, Flag> := map[];
    RouteLoopLeaf(app, parsed, acc, path, cmd, empty);
    NothingMerged(acc, cmd, empty, []);
  }

  /** A level that fails to parse ends the loop with its error. */
  lemma RouteLoopFails(app: Application, parsed: Parsed, acc: RouteResult, path: seq<Command>, cmd: Command, e: Error)
    requires parsed.subcommand == Some(cmd)
    requires Parse(CommandNode(cmd), parsed.unparsed, cmd.allowNonFlagFlags) == Failure(e)
    ensures RouteLoop(app, parsed, acc, path) == Failure(e)
  {
  }

  /** Once the application level parses, `Route` returns whatever the descent from it returns. */
  lemma RouteThrough(app: Application, input: seq<string>, root: Parsed, outcome: Result<RouteResult, Error>)
    requires RootNamespace(app).Success? && Parse(AppNode(app), input, false) == Success(root)
    requires RouteLoop(app, root, RouteResult(ZeroCommand, root.flags, root.args), []) == outcome
    ensures Route(app, input) == outcome
  {
  }

  // ------------------------------------------------- reference: the descent

  /** One level below the application: the command matched and what parsing its input gave. */
  datatype Level = Level(command: Command, parsed: Parsed)

  /**
    The chain of levels below a parse result, built structurally: each
    level's command is the previous level's subcommand, and each level
    parses the input the previous one left, until one matches nothing.
   */
  function Levels(parsed: Parsed): (r: Result<seq<Level>, Error>)
    ensures r.Success? ==> (|r.value| == 0 <==> parsed.subcommand.None?)
    ensures r.Success? && |r.value| > 0 ==>
      && Some(r.value[0].command) == parsed.subcommand
      && r.value[|r.value| - 1].parsed.subcommand.None?
    ensures r.Success? ==> forall i :: 0 <= i < |r.value| - 1 ==>
      r.value[i].parsed.subcommand == Some(r.value[i + 1].command)
      && r.value[i + 1].command in r.value[i].command.subcommands
    ensures r.Failure? ==> r.error.DuplicateFlagName? || ScanError(r.error)
    decreases Remaining(parsed)
  {
    match parsed.subcommand
    case None => Success([])
    case Some(cmd) =>
      var next :- Parse(CommandNode(cmd), parsed.unparsed, cmd.allowNonFlagFlags);
      var below :- Levels(next);
      Success([Level(cmd, next)] + below)
  }

  /** The flags of every level, merged in level order so that a later level overwrites. */
  function MergedFlags(levels: seq<Level>): map<string, Flag> {
    if levels == [] then map[] else levels[0].parsed.flags + MergedFlags(levels[1..])
  }

  /** The positional arguments of every level, concatenated in level order. */
  function MergedArgs(levels: seq<Level>): seq<string> {
    if levels == [] then [] else levels[0].parsed.args + MergedArgs(levels[1..])
  }

  /** The command of the deepest level, or `otherwise` when there is none. */
  function Deepest(levels: seq<Level>, otherwise: Command): Command {
    if levels == [] then otherwise else levels[|levels| - 1].command
  }

  lemma MapUnionAssociative(a: map<string, Flag>, b: map<string, Flag>, c: map<string, Flag>)
    ensures (a + b) + c == a + (b + c)
  {
    assert forall k :: k in (a + b) + c <==> k in a + (b + c);
  }

  /** What the loop should return from `acc` given the levels below: the reference result. */
  function Descended(levels: Result<seq<Level>, Error>, acc: RouteResult): Result<RouteResult, Error> {
    match levels
    case Failure(e) => Failure(e)
    case Success(ls) => Success(RouteResult(Deepest(ls, acc.command), acc.flags + MergedFlags(ls), acc.args + MergedArgs(ls)))
  }

  /** Folding the first level into the accumulator leaves the reference result unchanged. */
  lemma DescendedStep(cmd: Command, next: Parsed, below: seq<Level>, acc: RouteResult)
    ensures Descended(Success([Level(cmd, next)] + below), acc)
         == Descended(Success(below), RouteResult(cmd, acc.flags + next.flags, acc.args + next.args))
  {
    var levels := [Level(cmd, next)] + below;
    assert levels[1..] == below;
    MapUnionAssociative(acc.flags, next.flags, MergedFlags(below));
    assert acc.args + next.args + MergedArgs(below) == acc.args + (next.args + MergedArgs(below));
  }

  /**
    The loop computes the reference descent: the deepest command (or the
    one already recorded, if nothing deeper matched), every level's flags
    merged over those already bound, every level's arguments appended, and
    the first error of any level unchanged.
   */
  lemma {:induction false} RouteLoopDescends(app: Application, parsed: Parsed, acc: RouteResult, path: seq<Command>)
    requires Settled(parsed)
    ensures RouteLoop(app, parsed, acc, path) == Descended(Levels(parsed), acc)
    decreases Remaining(parsed)
  {
    match parsed.subcommand
    case None =>
      assert acc.flags + map[] == acc.flags;
      assert acc.args + [] == acc.args;
    case Some(cmd) =>
      var nextR := Parse(CommandNode(cmd), parsed.unparsed, cmd.allowNonFlagFlags);
      if nextR.Success? {
        var next := nextR.value;
        var acc' := RouteResult(cmd, acc.flags + next.flags, acc.args + next.args);
        assert RouteLoop(app, parsed, acc, path) == RouteLoop(app, next, acc', path + [cmd]);
        RouteLoopDescends(app, next, acc', path + [cmd]);
        if Levels(next).Success? {
          DescendedStep(cmd, next, Levels(next).value, acc);
        }
      }
  }

  /**
    `Route` as a whole: validate the application's namespace, parse the
    application level, then descend. The command is the deepest one
    matched, or Go's zero `Command` when the application level matched
    none; the extra-input error is never returned.
   */
  lemma RouteIsDescent(app: Application, input: seq<string>)
    ensures Route(app, input) ==
      match RootNamespace(app)
      case Failure(e) => Failure(e)
      case Success(_) =>
        match Parse(AppNode(app), input, false)
        case Failure(e) => Failure(e)
        case Success(root) => Descended(Levels(root), RouteResult(ZeroCommand, root.flags, root.args))
  {
    if RootNamespace(app).Success? && Parse(AppNode(app), input, false).Success? {
      var root := Parse(AppNode(app), input, false).value;
      RouteLoopDescends(app, root, RouteResult(ZeroCommand, root.flags, root.args), []);
    }
  }

  /** The application takes no positional arguments, so every argument `Route` returns was given to a subcommand. */
  lemma RouteArgsComeFromSubcommands(app: Application, input: seq<string>, root: Parsed, result: RouteResult)
    requires Parse(AppNode(app), input, false) == Success(root)
    requires Route(app, input) == Success(result)
    ensures Levels(root).Success? && result.args == MergedArgs(Levels(root).value)
  {
    RouteIsDescent(app, input);
    assert RootNamespace(app).Success?;
    assert root.args == [];
    DescentFromNoArgs(root, result);
  }

  /** A descent that starts with no arguments returns exactly the levels' arguments. */
  lemma DescentFromNoArgs(root: Parsed, result: RouteResult)
    requires root.args == []
    requires Descended(Levels(root), RouteResult(ZeroCommand, root.flags, root.args)) == Success(result)
    ensures Levels(root).Success? && result.args == MergedArgs(Levels(root).value)
  {
    assert [] + MergedArgs(Levels(root).value) == MergedArgs(Levels(root).value);
  }

  /** When the application level matches no subcommand, `Route` returns Go's zero `Command` and that level's flags. */
  lemma RouteWithoutSubcommand(app: Application, input: seq<string>)
    requires RootNamespace(app).Success?
    requires Parse(AppNode(app), input, false).Success? && Parse(AppNode(app), input, false).value.subcommand.None?
    ensures Route(app, input) == Success(RouteResult(ZeroCommand, Parse(AppNode(app), input, false).value.flags, []))
  {
  }
}
