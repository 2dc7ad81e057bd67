/**
  `Application.Run`'s exit-code decision. Reading `os.Args`, writing to the
  output and error streams, and the handlers' own business logic are
  outside the model: `Build` and `Handle` are given as functions from the
  routed command's handler, flags and arguments to the response code they
  leave behind.
 */
module App {
  import opened Wrappers
  import opened FlagValues
  import opened Tree
  import opened Router

  /** The response code after `Build`; the response starts at 0. */
  type Build = (HandlerBuilder, map<string, Flag>, seq<string>) -> int

  /** The response code after `Handle`, given the code `Build` left. */
  type Handle = (HandlerBuilder, map<string, Flag>, seq<string>, int) -> int

  /**
    `Run`: 1 when routing fails or the routed command has no handler;
    the code `Build` left when it is positive, without handling; otherwise
    the code after `Handle`.
   */
  function Run(app: Application, args: seq<string>, build: Build, handle: Handle): (code: int)
    ensures Route(app, args).Failure? ==> code == 1
    ensures Route(app, args).Success? && Route(app, args).value.command.handler.None? ==> code == 1
    ensures Route(app, args).Success? && Route(app, args).value.command.handler.Some? ==>
      var res := Route(app, args).value;
      var built := build(res.command.handler.value, res.flags, res.args);
      code == if built > 0 then built else handle(res.command.handler.value, res.flags, res.args, built)
  {
    match Route(app, args)
    case Failure(_) => 1
    case Success(res) =>
      match res.command.handler
      case None => 1
      case Some(h) =>
        var built := build(h, res.flags, res.args);
        if built > 0 then built else handle(h, res.flags, res.args, built)
  }

  /** With no input nothing is routed, so `Run` reports failure whatever the handlers do. */
  lemma RunWithoutInput(app: Application, build: Build, handle: Handle)
    ensures Run(app, [], build, handle) == 1
  {
  }

  /** Input that matches no subcommand at the application level makes `Run` report failure. */
  lemma RunWithoutCommand(app: Application, args: seq<string>, build: Build, handle: Handle)
    requires CommandParse.Parse(AppNode(app), args, false).Success?
    requires CommandParse.Parse(AppNode(app), args, false).value.subcommand.None?
    ensures Run(app, args, build, handle) == 1
  {
    if RootNamespace(app).Success? {
      RouteWithoutSubcommand(app, args);
    }
  }

  /** Any code other than 1 comes from the routed command's handler: routing succeeded and the command has one. */
  lemma RunSucceedsOnlyThroughHandler(app: Application, args: seq<string>, build: Build, handle: Handle)
    ensures Run(app, args, build, handle) != 1 ==>
      Route(app, args).Success? && Route(app, args).value.command.handler.Some?
  {
  }
}
