/**
  The command tree: flag definitions, commands and the application at the
  root, and the `parseable` view the parser takes of the application and of
  every command.
 */
module Tree {
  import opened Wrappers
  import opened FlagValues

  /** `FlagDef`, less its description. */
  datatype FlagDef = FlagDef(
    name: string,
    aliases: seq<string>,
    valueAccepted: bool,
    onlyAfterCommandName: bool,
    parser: Converter)

  /** A `HandlerBuilder` is business logic; the model only keeps an identity for it. */
  datatype HandlerBuilder = HandlerBuilder(id: nat)

  /** `Command`, less its description and help visibility. A nil handler is `None`. */
  datatype Command = Command(
    name: string,
    aliases: seq<string>,
    flags: seq<FlagDef>,
    subcommands: seq<Command>,
    handler: Option<HandlerBuilder>,
    argsAccepted: bool,
    allowNonFlagFlags: bool)

  /** Go's zero `Command`, which `Route` reports when no command was matched. */
  const ZeroCommand: Command := Command([], [], [], [], None, false, false)

  /** `Application`: the root of the tree, with global flags. */
  datatype Application = Application(commands: seq<Command>, flags: seq<FlagDef>)

  /**
    The `parseable` interface: a node of the tree as the parser sees it. The
    application never accepts positional arguments.
   */
  datatype Parseable = AppNode(app: Application) | CommandNode(cmd: Command) {

    function Subcommands(): seq<Command> {
      match this
      case AppNode(app) => app.commands
      case CommandNode(cmd) => cmd.subcommands
    }

    function Flags(): seq<FlagDef> {
      match this
      case AppNode(app) => app.flags
      case CommandNode(cmd) => cmd.flags
    }

    predicate ArgsAccepted() {
      match this
      case AppNode(_) => false
      case CommandNode(cmd) => cmd.argsAccepted
    }
  }
}
