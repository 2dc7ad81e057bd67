/**
  `parse`: one level of routing. It builds the namespace of the node being
  parsed, then walks the input token by token, binding flags and collecting
  positional arguments, until a token names a subcommand (the rest of the
  input is handed back unparsed) or the input runs out.
 */
module CommandParse {
  import opened Wrappers
  import opened Text
  import opened FlagValues
  import opened Tree
  import opened Errors
  import Parsers
  import FlagDefs

  /** `parsedCommand`: the subcommand found, if any, the flags and arguments bound at this level, and what is left. */
  datatype Parsed = Parsed(
    subcommand: Option<Command>,
    flags: map<string, Flag>,
    args: seq<string>,
    unparsed: seq<string>)

  /** The flag still waiting for its value (`openFlagDef`/`openFlagArg`), keyed by the name it was invoked with. */
  datatype Pending = Closed | Open(def: FlagDef, key: string)

  // -------------------------------------------------------------- helpers

  /** Go's `flags[key]` on a map of interface values: the missing key reads as nil. */
  function Lookup(flags: map<string, Flag>, key: string): (r: Option<Flag>)
    ensures r.Some? <==> key in flags
    ensures r.Some? ==> r.value == flags[key]
  {
    if key in flags then Some(flags[key]) else None
  }

  /**
    A namespace and the flags bound so far agree: every flag sits under the
    key it was invoked with, that key is in the namespace, and the flag has
    the type its definition's converter returns.
   */
  ghost predicate Bound(ns: map<string, FlagDef>, flags: map<string, Flag>) {
    forall k :: k in flags ==>
      k in ns && flags[k].name == k && Produces(ns[k].parser, flags[k]) && WellTyped(flags[k])
  }

  ghost predicate PendingIn(ns: map<string, FlagDef>, open: Pending) {
    open.Open? ==> open.key in ns && ns[open.key] == open.def
  }

  /**
    Run the definition's converter on `value` with the flag's prior value,
    and store the result under its name. With the namespace invariant in
    place the only way it fails is a conversion error.
   */
  function Bind(ns: map<string, FlagDef>, key: string, value: string, flags: map<string, Flag>)
    : (r: Result<map<string, Flag>, Error>)
    requires key in ns && Bound(ns, flags)
    ensures r.Success? ==> Bound(ns, r.value) && r.value.Keys == flags.Keys + {key}
    ensures r.Success? ==> Parsers.Convert(ns[key].parser, key, value, Lookup(flags, key)) == Success(r.value[key])
    ensures r.Success? ==> forall k :: k in flags && k != key ==> r.value[k] == flags[k]
    ensures r.Failure? <==> Parsers.Convert(ns[key].parser, key, value, Lookup(flags, key)).Failure?
    ensures r.Failure? ==> r.error.Conversion?
  {
    var f :- Parsers.Convert(ns[key].parser, key, value, Lookup(flags, key));
    Success(flags[f.name := f])
  }

  /** A pending flag given no value is converted from the empty string. */
  function Close(ns: map<string, FlagDef>, open: Pending, flags: map<string, Flag>)
    : (r: Result<map<string, Flag>, Error>)
    requires PendingIn(ns, open) && Bound(ns, flags)
    ensures open.Closed? ==> r == Success(flags)
    ensures open.Open? ==> r == Bind(ns, open.key, [], flags)
    ensures r.Success? ==> Bound(ns, r.value)
    ensures r.Failure? ==> r.error.Conversion?
  {
    match open
    case Closed => Success(flags)
    case Open(_, key) => Bind(ns, key, [], flags)
  }

  /** Whether a lower-cased token names a subcommand by its name or one of its aliases, compared lower-cased. */
  predicate Names(sub: Command, lowerArg: string) {
    lowerArg == ToLower(sub.name) || exists a :: a in sub.aliases && lowerArg == ToLower(a)
  }

  /** The first subcommand the token names, in declaration order. */
  function MatchChild(subs: seq<Command>, lowerArg: string): (r: Option<nat>)
    ensures r.Some? ==> r.value < |subs| && Names(subs[r.value], lowerArg)
    ensures r.Some? ==> forall j :: 0 <= j < r.value ==> !Names(subs[j], lowerArg)
    ensures r.None? <==> forall j :: 0 <= j < |subs| ==> !Names(subs[j], lowerArg)
  {
    if subs == [] then None
    else if Names(subs[0], lowerArg) then Some(0)
    else
      match MatchChild(subs[1..], lowerArg)
      case None => None
      case Some(i) => Some(i + 1)
  }

  /** The lower-cased flag name of a `--name` or `--name=value` token. */
  function FlagKey(arg: string): (key: string)
    requires IsFlagToken(arg)
    ensures |key| <= |arg| - 2 && '=' !in key
  {
    var name := Cut(arg[2..], '=').0;
    assert forall i :: 0 <= i < |name| ==> ToLower(name)[i] != '=';
    ToLower(name)
  }

  /** A flag key is already lower-cased: lower-casing it again, as `parse` does, changes nothing. */
  lemma FlagKeyLowered(arg: string)
    requires IsFlagToken(arg)
    ensures ToLower(FlagKey(arg)) == FlagKey(arg)
  {
    ToLowerIdempotent(Cut(arg[2..], '=').0);
  }

  /** The errors `parse` itself can report once the namespace is built. */
  predicate ScanError(e: Error) {
    e.UnknownFlagName? || e.UnexpectedFlagValue? || e.UnexpectedCommandArg? || e.Conversion?
  }

  // ------------------------------------------------------------ the loop

  /** The outcome of one token: the loop goes on with a new state, or `parse` returns. */
  datatype Step =
    | Next(open: Pending, flags: map<string, Flag>, acc: seq<string>)
    | Done(result: Result<Parsed, Error>)

  /**
    A `--name` or `--name=value` token whose name is in the namespace. A
    pending flag is closed first; then a flag that takes no value is bound
    at once (and must not be given one), a flag given `=value` is bound to
    it, and a flag that takes a value but has none here becomes pending.
   */
  function FlagStep(ns: map<string, FlagDef>, arg: string, open: Pending, flags: map<string, Flag>, acc: seq<string>)
    : (s: Step)
    requires IsFlagToken(arg) && FlagKey(arg) in ns && PendingIn(ns, open) && Bound(ns, flags)
    ensures s.Next? ==> PendingIn(ns, s.open) && Bound(ns, s.flags) && flags.Keys <= s.flags.Keys && s.acc == acc
    ensures s.Next? && s.open.Open? ==> s.open.key == FlagKey(arg) && s.open.def.valueAccepted
    ensures s.Done? ==> s.result.Failure? && ScanError(s.result.error)
    ensures s.Done? && !s.result.error.Conversion? ==>
      !ns[FlagKey(arg)].valueAccepted && '=' in arg[2..]
      && s.result.error == UnexpectedFlagValue(FlagKey(arg), Cut(arg[2..], '=').1)
    // the pending flag is closed first, and its conversion error ends the level
    ensures Close(ns, open, flags).Failure? ==> s == Done(Failure(Close(ns, open, flags).error))
    ensures Close(ns, open, flags).Success? && !ns[FlagKey(arg)].valueAccepted && Cut(arg[2..], '=').2 ==>
      s == Done(Failure(UnexpectedFlagValue(FlagKey(arg), Cut(arg[2..], '=').1)))
    ensures Close(ns, open, flags).Success? && ns[FlagKey(arg)].valueAccepted == Cut(arg[2..], '=').2 ==>
      s == BindStep(ns, FlagKey(arg), Cut(arg[2..], '=').1, Close(ns, open, flags).value, acc)
    ensures Close(ns, open, flags).Success? && ns[FlagKey(arg)].valueAccepted && !Cut(arg[2..], '=').2 ==>
      s == Next(Open(ns[FlagKey(arg)], FlagKey(arg)), Close(ns, open, flags).value, acc)
  {
    var cut := Cut(arg[2..], '=');
    var key := FlagKey(arg);
    var def := ns[key];
    match Close(ns, open, flags)
    case Failure(e) => Done(Failure(e))
    case Success(flags1) =>
      if !def.valueAccepted && cut.2 then Done(Failure(UnexpectedFlagValue(key, cut.1)))
      else if !def.valueAccepted || cut.2 then
        (match Bind(ns, key, cut.1, flags1)
         case Failure(e) => Done(Failure(e))
         case Success(flags2) => Next(Closed, flags2, acc))
      else Next(Open(def, key), flags1, acc)
  }

  /**
    Any other token (`word`), once an unknown flag has been let through:
    a subcommand's name or alias ends the level; otherwise it is the pending
    flag's value or a positional argument, as the node allows, and as the
    last token (`last`) it is an argument even with a flag pending.
   */
  function WordStep(
    root: Parseable, ns: map<string, FlagDef>, word: string, last: bool,
    rest: seq<string>, open: Pending, flags: map<string, Flag>, acc: seq<string>)
    : (s: Step)
    requires PendingIn(ns, open) && Bound(ns, flags)
    ensures s.Next? ==> PendingIn(ns, s.open) && Bound(ns, s.flags) && flags.Keys <= s.flags.Keys
    ensures s.Next? ==> s.acc == acc || (root.ArgsAccepted() && s.acc == acc + [word])
    ensures s.Done? && s.result.Failure? ==> ScanError(s.result.error)
    ensures s.Done? && s.result.Success? ==>
      && MatchChild(root.Subcommands(), ToLower(word)).Some?
      && s.result.value.subcommand == Some(root.Subcommands()[MatchChild(root.Subcommands(), ToLower(word)).value])
      && Bound(ns, s.result.value.flags) && flags.Keys <= s.result.value.flags.Keys
      && s.result.value.args == acc && s.result.value.unparsed == rest
    ensures MatchChild(root.Subcommands(), ToLower(word)).None? && !root.ArgsAccepted() && open.Closed? ==>
      s == Done(Failure(UnexpectedCommandArg(word)))
    // a subcommand closes the pending flag before ending the level
    ensures MatchChild(root.Subcommands(), ToLower(word)).Some? ==>
      (s.Done? && s.result.Success? <==> Close(ns, open, flags).Success?)
    ensures MatchChild(root.Subcommands(), ToLower(word)).Some? && Close(ns, open, flags).Failure? ==>
      s == Done(Failure(Close(ns, open, flags).error))
    ensures s.Done? && s.result.Success? ==> Close(ns, open, flags) == Success(s.result.value.flags)
    // a level that takes arguments collects the word unless a flag is pending and more input follows
    ensures MatchChild(root.Subcommands(), ToLower(word)).None? && root.ArgsAccepted() && (open.Closed? || last) ==>
      s == Next(open, flags, acc + [word])
    ensures MatchChild(root.Subcommands(), ToLower(word)).None? && open.Open? && (!root.ArgsAccepted() || !last) ==>
      s == BindStep(ns, open.key, word, flags, acc)
  {
    match MatchChild(root.Subcommands(), ToLower(word))
    case Some(i) =>
      (match Close(ns, open, flags)
       case Failure(e) => Done(Failure(e))
       case Success(flags1) => Done(Success(Parsed(Some(root.Subcommands()[i]), flags1, acc, rest))))
    case None =>
      if !root.ArgsAccepted() && open.Closed? then Done(Failure(UnexpectedCommandArg(word)))
      else if !root.ArgsAccepted() || (open.Open? && !last) then
        // the token is the pending flag's value
        (match Bind(ns, open.key, word, flags)
         case Failure(e) => Done(Failure(e))
         case Success(flags1) => Next(Closed, flags1, acc))
      else
        Next(open, flags, acc + [word])
  }

  /** One iteration of the token loop on the first of the remaining tokens. */
  function TokenStep(
    root: Parseable, ns: map<string, FlagDef>, rest: seq<string>, allow: bool,
    open: Pending, flags: map<string, Flag>, acc: seq<string>)
    : (s: Step)
    requires rest != [] && PendingIn(ns, open) && Bound(ns, flags)
    ensures s.Next? ==> PendingIn(ns, s.open) && Bound(ns, s.flags) && flags.Keys <= s.flags.Keys
    ensures s.Next? ==> acc <= s.acc && (!root.ArgsAccepted() ==> s.acc == acc)
    ensures s.Done? && s.result.Failure? ==> ScanError(s.result.error)
    ensures s.Done? && s.result.Success? ==>
      && s.result.value.subcommand.Some? && s.result.value.subcommand.value in root.Subcommands()
      && Bound(ns, s.result.value.flags) && flags.Keys <= s.result.value.flags.Keys
      && s.result.value.args == acc && s.result.value.unparsed == rest[1..]
    ensures IsFlagToken(rest[0]) && FlagKey(rest[0]) !in ns && !allow ==>
      s == Done(Failure(UnknownFlagName(FlagKey(rest[0]))))
  {
    var arg := rest[0];
    if IsFlagToken(arg) && FlagKey(arg) in ns then FlagStep(ns, arg, open, flags, acc)
    else if IsFlagToken(arg) && !allow then Done(Failure(UnknownFlagName(FlagKey(arg))))
    else
      // an unknown flag that is let through is read as its bare, lower-cased name
      var word := if IsFlagToken(arg) then FlagKey(arg) else arg;
      WordStep(root, ns, word, |rest| == 1, rest[1..], open, flags, acc)
  }

  /**
    The token loop of `parse` over the tokens not yet read, with the pending
    flag, the flags bound and the arguments collected so far. A flag still
    pending when the input runs out is dropped without being converted.
   */
  function Scan(
    root: Parseable, ns: map<string, FlagDef>, rest: seq<string>, allow: bool,
    open: Pending, flags: map<string, Flag>, acc: seq<string>)
    : (r: Result<Parsed, Error>)
    requires PendingIn(ns, open) && Bound(ns, flags)
    ensures r.Failure? ==> ScanError(r.error)
    ensures r.Success? ==> Bound(ns, r.value.flags) && flags.Keys <= r.value.flags.Keys
    ensures r.Success? ==> acc <= r.value.args
    ensures r.Success? && !root.ArgsAccepted() ==> r.value.args == acc
    ensures r.Success? && r.value.subcommand.None? ==> r.value.unparsed == []
    ensures r.Success? && r.value.subcommand.Some? ==>
      && r.value.subcommand.value in root.Subcommands()
      && |r.value.unparsed| < |rest|
      && r.value.unparsed == rest[|rest| - |r.value.unparsed|..]
    decreases |rest|
  {
    if rest == [] then Success(Parsed(None, flags, acc, []))
    else
      match TokenStep(root, ns, rest, allow, open, flags, acc)
      case Done(result) => result
      case Next(open', flags', acc') =>
        var r := Scan(root, ns, rest[1..], allow, open', flags', acc');
        r
  }

  /**
    `parse(ctx, root, args, allowNonFlagFlags)`: nothing to do on empty
    input; otherwise build the namespace of `root` as the active node and
    run the token loop.
   */
  function Parse(root: Parseable, args: seq<string>, allow: bool): (r: Result<Parsed, Error>)
    ensures args == [] ==> r == Success(Parsed(None, map[], [], []))
    ensures args != [] && FlagDefs.BuildNamespace(FlagDefs.ListFlagDefs(root, true)).Failure? ==>
      r == Failure(FlagDefs.BuildNamespace(FlagDefs.ListFlagDefs(root, true)).error)
    ensures r.Failure? ==> r.error.DuplicateFlagName? || ScanError(r.error)
    ensures r.Success? ==> forall k :: k in r.value.flags ==>
      r.value.flags[k].name == k && WellTyped(r.value.flags[k])
    ensures r.Success? && !root.ArgsAccepted() ==> r.value.args == []
    ensures r.Success? && r.value.subcommand.None? ==> r.value.unparsed == []
    ensures r.Success? && r.value.subcommand.Some? ==>
      && r.value.subcommand.value in root.Subcommands()
      && |r.value.unparsed| < |args|
      && r.value.unparsed == args[|args| - |r.value.unparsed|..]
  {
    if args == [] then Success(Parsed(None, map[], [], []))
    else
      var ns :- FlagDefs.BuildNamespace(FlagDefs.ListFlagDefs(root, true));
      Scan(root, ns, args, allow, Closed, map[], [])
  }

  // ------------------------------------------------------------ properties

  /** The namespace `parse` builds for a node. */
  function Namespace(root: Parseable): Result<map<string, FlagDef>, Error> {
    FlagDefs.BuildNamespace(FlagDefs.ListFlagDefs(root, true))
  }

  /** `name`, lower-cased, is a key of the node's namespace whose definition takes a value. */
  predicate TakesValue(root: Parseable, name: string) {
    Namespace(root).Success? && ToLower(name) in Namespace(root).value && Namespace(root).value[ToLower(name)].valueAccepted
  }

  /** `--name`, for a flag that takes a value, leaves it pending. */
  lemma SpacedFlagOpens(ns: map<string, FlagDef>, name: string, flags: map<string, Flag>, acc: seq<string>)
    requires '=' !in name && ToLower(name) in ns && ns[ToLower(name)].valueAccepted && Bound(ns, flags)
    ensures IsFlagToken("--" + name) && FlagKey("--" + name) == ToLower(name)
    ensures FlagStep(ns, "--" + name, Closed, flags, acc) == Next(Open(ns[ToLower(name)], ToLower(name)), flags, acc)
  {
    assert ("--" + name)[2..] == name;
  }

  /** `--name=value`, for a flag that takes a value, binds it at once. */
  lemma JoinedFlagBinds(ns: map<string, FlagDef>, name: string, value: string, flags: map<string, Flag>, acc: seq<string>)
    requires '=' !in name && ToLower(name) in ns && ns[ToLower(name)].valueAccepted && Bound(ns, flags)
    ensures IsFlagToken("--" + name + "=" + value) && FlagKey("--" + name + "=" + value) == ToLower(name)
    ensures FlagStep(ns, "--" + name + "=" + value, Closed, flags, acc) == BindStep(ns, ToLower(name), value, flags, acc)
  {
    JoinedToken(name, value);
  }

  /** A `--name=value` token, with an `=`-free name, cuts into that name and value. */
  lemma JoinedToken(name: string, value: string)
    requires '=' !in name
    ensures IsFlagToken("--" + name + "=" + value)
    ensures Cut(("--" + name + "=" + value)[2..], '=') == (name, value, true)
    ensures FlagKey("--" + name + "=" + value) == ToLower(name)
  {
    var joined := "--" + name + "=" + value;
    assert joined[2..] == name + ['='] + value;
    CutJoined(name, '=', value);
  }

  /** `--name`, for a flag that takes no value, binds it at once to the empty value. */
  lemma SwitchFlagBinds(ns: map<string, FlagDef>, name: string, flags: map<string, Flag>, acc: seq<string>)
    requires '=' !in name && ToLower(name) in ns && !ns[ToLower(name)].valueAccepted && Bound(ns, flags)
    ensures IsFlagToken("--" + name) && FlagKey("--" + name) == ToLower(name)
    ensures FlagStep(ns, "--" + name, Closed, flags, acc) == BindStep(ns, ToLower(name), [], flags, acc)
  {
    assert ("--" + name)[2..] == name;
  }

  /** Binding a value, as a step of the loop. */
  function BindStep(ns: map<string, FlagDef>, key: string, value: string, flags: map<string, Flag>, acc: seq<string>)
    : (s: Step)
    requires key in ns && Bound(ns, flags)
    ensures s.Next? ==> s.open.Closed? && s.acc == acc && Bound(ns, s.flags) && s.flags.Keys == flags.Keys + {key}
    ensures s.Done? ==> s.result.Failure? && s.result.error.Conversion?
  {
    match Bind(ns, key, value, flags)
    case Failure(e) => Done(Failure(e))
    case Success(flags') => Next(Closed, flags', acc)
  }

  /** The rest of the loop after a step. */
  function Continue(root: Parseable, ns: map<string, FlagDef>, s: Step, rest: seq<string>, allow: bool)
    : (r: Result<Parsed, Error>)
    requires s.Next? ==> PendingIn(ns, s.open) && Bound(ns, s.flags)
    ensures s.Done? ==> r == s.result
  {
    match s
    case Done(result) => result
    case Next(open, flags, acc) => Scan(root, ns, rest, allow, open, flags, acc)
  }

  /** The tail of a token list after its first token. */
  lemma Tokens(first: string, second: string, rest: seq<string>)
    ensures ([first] + rest)[1..] == rest
    ensures ([first, second] + rest)[1..] == [second] + rest
  {
  }

  /** Collecting the first word, then the rest, collects them all. */
  lemma CollectFirst(acc: seq<string>, words: seq<string>)
    requires words != []
    ensures acc + [words[0]] + words[1..] == acc + words
  {
    assert [words[0]] + words[1..] == words;
  }

  /** One turn of the loop: the first token's step, then the rest of the loop. */
  lemma ScanStep(
    root: Parseable, ns: map<string, FlagDef>, rest: seq<string>, allow: bool,
    open: Pending, flags: map<string, Flag>, acc: seq<string>)
    requires rest != [] && PendingIn(ns, open) && Bound(ns, flags)
    ensures Scan(root, ns, rest, allow, open, flags, acc)
         == Continue(root, ns, TokenStep(root, ns, rest, allow, open, flags, acc), rest[1..], allow)
  {
  }

  /** A `--` token naming a flag of the namespace is a flag step. */
  lemma FlagToken(
    root: Parseable, ns: map<string, FlagDef>, arg: string, rest: seq<string>, allow: bool,
    open: Pending, flags: map<string, Flag>, acc: seq<string>)
    requires IsFlagToken(arg) && FlagKey(arg) in ns && PendingIn(ns, open) && Bound(ns, flags)
    ensures TokenStep(root, ns, [arg] + rest, allow, open, flags, acc) == FlagStep(ns, arg, open, flags, acc)
  {
  }

  /** A token that is not a `--` token is a word. */
  lemma WordToken(
    root: Parseable, ns: map<string, FlagDef>, word: string, rest: seq<string>, allow: bool,
    open: Pending, flags: map<string, Flag>, acc: seq<string>)
    requires !IsFlagToken(word) && PendingIn(ns, open) && Bound(ns, flags)
    ensures TokenStep(root, ns, [word] + rest, allow, open, flags, acc)
         == WordStep(root, ns, word, rest == [], rest, open, flags, acc)
  {
    assert ([word] + rest)[1..] == rest;
  }

  /** A word naming no subcommand, with a flag pending, is that flag's value unless it is a last positional argument. */
  lemma WordIsValue(
    root: Parseable, ns: map<string, FlagDef>, word: string, last: bool, rest: seq<string>,
    key: string, flags: map<string, Flag>, acc: seq<string>)
    requires key in ns && Bound(ns, flags)
    requires MatchChild(root.Subcommands(), ToLower(word)).None?
    requires !root.ArgsAccepted() || !last
    ensures WordStep(root, ns, word, last, rest, Open(ns[key], key), flags, acc) == BindStep(ns, key, word, flags, acc)
  {
  }

  /** `--name` for a flag that takes a value leaves it pending for the next token. */
  lemma ScanSpacedFlag(
    root: Parseable, ns: map<string, FlagDef>, name: string, rest: seq<string>, allow: bool,
    flags: map<string, Flag>, acc: seq<string>)
    requires '=' !in name && ToLower(name) in ns && ns[ToLower(name)].valueAccepted && Bound(ns, flags)
    ensures Scan(root, ns, ["--" + name] + rest, allow, Closed, flags, acc)
         == Scan(root, ns, rest, allow, Open(ns[ToLower(name)], ToLower(name)), flags, acc)
  {
    SpacedFlagOpens(ns, name, flags, acc);
    FlagToken(root, ns, "--" + name, rest, allow, Closed, flags, acc);
    ScanStep(root, ns, ["--" + name] + rest, allow, Closed, flags, acc);
    Tokens("--" + name, name, rest);
  }

  /** `--name=value` for a flag that takes a value binds it and goes on with nothing pending. */
  lemma ScanJoinedFlag(
    root: Parseable, ns: map<string, FlagDef>, name: string, value: string, rest: seq<string>, allow: bool,
    flags: map<string, Flag>, acc: seq<string>, after: map<string, Flag>)
    requires '=' !in name && ToLower(name) in ns && ns[ToLower(name)].valueAccepted && Bound(ns, flags)
    requires Bind(ns, ToLower(name), value, flags) == Success(after)
    ensures Scan(root, ns, ["--" + name + "=" + value] + rest, allow, Closed, flags, acc)
         == Scan(root, ns, rest, allow, Closed, after, acc)
  {
    var arg := "--" + name + "=" + value;
    JoinedFlagBinds(ns, name, value, flags, acc);
    FlagToken(root, ns, arg, rest, allow, Closed, flags, acc);
    ScanStep(root, ns, [arg] + rest, allow, Closed, flags, acc);
    Tokens(arg, value, rest);
  }

  /** `--name` for a flag that takes no value binds it to the empty value and goes on. */
  lemma ScanSwitchFlag(
    root: Parseable, ns: map<string, FlagDef>, name: string, rest: seq<string>, allow: bool,
    flags: map<string, Flag>, acc: seq<string>, after: map<string, Flag>)
    requires '=' !in name && ToLower(name) in ns && !ns[ToLower(name)].valueAccepted && Bound(ns, flags)
    requires Bind(ns, ToLower(name), [], flags) == Success(after)
    ensures Scan(root, ns, ["--" + name] + rest, allow, Closed, flags, acc)
         == Scan(root, ns, rest, allow, Closed, after, acc)
  {
    SwitchFlagBinds(ns, name, flags, acc);
    FlagToken(root, ns, "--" + name, rest, allow, Closed, flags, acc);
    ScanStep(root, ns, ["--" + name] + rest, allow, Closed, flags, acc);
    Tokens("--" + name, name, rest);
  }

  /** A word naming no subcommand, with a flag pending and more input to come, is bound as that flag's value. */
  lemma ScanFlagValue(
    root: Parseable, ns: map<string, FlagDef>, word: string, rest: seq<string>, allow: bool,
    key: string, flags: map<string, Flag>, acc: seq<string>, after: map<string, Flag>)
    requires key in ns && Bound(ns, flags) && !IsFlagToken(word)
    requires MatchChild(root.Subcommands(), ToLower(word)).None?
    requires !root.ArgsAccepted() || rest != []
    requires Bind(ns, key, word, flags) == Success(after)
    ensures Scan(root, ns, [word] + rest, allow, Open(ns[key], key), flags, acc)
         == Scan(root, ns, rest, allow, Closed, after, acc)
  {
    WordIsValue(root, ns, word, rest == [], rest, key, flags, acc);
    WordToken(root, ns, word, rest, allow, Open(ns[key], key), flags, acc);
    ScanStep(root, ns, [word] + rest, allow, Open(ns[key], key), flags, acc);
    Tokens(word, word, rest);
  }

  /** A word naming a subcommand, with nothing pending, ends the level and hands the rest to that child. */
  lemma ScanSubcommand(
    root: Parseable, ns: map<string, FlagDef>, word: string, rest: seq<string>, allow: bool,
    flags: map<string, Flag>, acc: seq<string>)
    requires !IsFlagToken(word) && MatchChild(root.Subcommands(), ToLower(word)).Some? && Bound(ns, flags)
    ensures Scan(root, ns, [word] + rest, allow, Closed, flags, acc)
         == Success(Parsed(Some(root.Subcommands()[MatchChild(root.Subcommands(), ToLower(word)).value]), flags, acc, rest))
  {
    WordToken(root, ns, word, rest, allow, Closed, flags, acc);
    ScanStep(root, ns, [word] + rest, allow, Closed, flags, acc);
    Tokens(word, word, rest);
  }

  /** A word naming no subcommand, on a level that takes arguments, is collected unless a flag is pending and more input follows. */
  lemma ScanArgument(
    root: Parseable, ns: map<string, FlagDef>, word: string, rest: seq<string>, allow: bool,
    open: Pending, flags: map<string, Flag>, acc: seq<string>)
    requires !IsFlagToken(word) && PendingIn(ns, open) && Bound(ns, flags)
    requires MatchChild(root.Subcommands(), ToLower(word)).None? && root.ArgsAccepted()
    requires open.Closed? || rest == []
    ensures Scan(root, ns, [word] + rest, allow, open, flags, acc) == Scan(root, ns, rest, allow, open, flags, acc + [word])
  {
    WordToken(root, ns, word, rest, allow, open, flags, acc);
    ScanStep(root, ns, [word] + rest, allow, open, flags, acc);
    Tokens(word, word, rest);
  }

  /** On a level that takes arguments, words naming no subcommand are all collected, in order. */
  lemma {:induction false} ScanPlainArguments(
    root: Parseable, ns: map<string, FlagDef>, words: seq<string>, allow: bool,
    flags: map<string, Flag>, acc: seq<string>)
    requires root.ArgsAccepted() && Bound(ns, flags)
    requires forall i :: 0 <= i < |words| ==>
      !IsFlagToken(words[i]) && MatchChild(root.Subcommands(), ToLower(words[i])).None?
    ensures Scan(root, ns, words, allow, Closed, flags, acc) == Success(Parsed(None, flags, acc + words, []))
    decreases |words|
  {
    if words == [] {
      assert acc + words == acc;
    } else {
      var word, tail := words[0], words[1..];
      assert [word] + tail == words;
      ScanArgument(root, ns, word, tail, allow, Closed, flags, acc);
      assert forall i :: 0 <= i < |tail| ==> tail[i] == words[i + 1];
      ScanPlainArguments(root, ns, tail, allow, flags, acc + [word]);
      CollectFirst(acc, words);
    }
  }

  /** A pending flag followed by another known flag is first bound to the empty value. */
  lemma ScanClosesBeforeFlag(
    root: Parseable, ns: map<string, FlagDef>, arg: string, rest: seq<string>, allow: bool,
    key: string, flags: map<string, Flag>, acc: seq<string>, closed: map<string, Flag>)
    requires IsFlagToken(arg) && FlagKey(arg) in ns && key in ns && Bound(ns, flags)
    requires Bind(ns, key, [], flags) == Success(closed)
    ensures Scan(root, ns, [arg] + rest, allow, Open(ns[key], key), flags, acc)
         == Scan(root, ns, [arg] + rest, allow, Closed, closed, acc)
  {
    FlagToken(root, ns, arg, rest, allow, Open(ns[key], key), flags, acc);
    FlagToken(root, ns, arg, rest, allow, Closed, closed, acc);
    ScanStep(root, ns, [arg] + rest, allow, Open(ns[key], key), flags, acc);
    ScanStep(root, ns, [arg] + rest, allow, Closed, closed, acc);
  }

  /** A pending flag followed by a subcommand is first bound to the empty value. */
  lemma ScanClosesBeforeSubcommand(
    root: Parseable, ns: map<string, FlagDef>, word: string, rest: seq<string>, allow: bool,
    key: string, flags: map<string, Flag>, acc: seq<string>, closed: map<string, Flag>)
    requires !IsFlagToken(word) && MatchChild(root.Subcommands(), ToLower(word)).Some?
    requires key in ns && Bound(ns, flags) && Bind(ns, key, [], flags) == Success(closed)
    ensures Scan(root, ns, [word] + rest, allow, Open(ns[key], key), flags, acc)
         == Scan(root, ns, [word] + rest, allow, Closed, closed, acc)
  {
    WordToken(root, ns, word, rest, allow, Open(ns[key], key), flags, acc);
    WordToken(root, ns, word, rest, allow, Closed, closed, acc);
    ScanStep(root, ns, [word] + rest, allow, Open(ns[key], key), flags, acc);
    ScanStep(root, ns, [word] + rest, allow, Closed, closed, acc);
  }

  /**
    With unknown flags allowed, a `--` token naming no visible flag is read
    as the word of its lower-cased key, whatever that key looks like.
   */
  lemma UnknownFlagLetThrough(
    root: Parseable, ns: map<string, FlagDef>, arg: string, rest: seq<string>,
    open: Pending, flags: map<string, Flag>, acc: seq<string>)
    requires IsFlagToken(arg) && FlagKey(arg) !in ns
    requires PendingIn(ns, open) && Bound(ns, flags)
    ensures TokenStep(root, ns, [arg] + rest, true, open, flags, acc)
         == WordStep(root, ns, FlagKey(arg), rest == [], rest, open, flags, acc)
  {
    assert ([arg] + rest)[1..] == rest;
  }

  /** The same, for the rest of the loop. */
  lemma ScanUnknownFlag(
    root: Parseable, ns: map<string, FlagDef>, arg: string, rest: seq<string>,
    open: Pending, flags: map<string, Flag>, acc: seq<string>)
    requires IsFlagToken(arg) && FlagKey(arg) !in ns
    requires PendingIn(ns, open) && Bound(ns, flags)
    ensures Scan(root, ns, [arg] + rest, true, open, flags, acc)
         == Continue(root, ns, WordStep(root, ns, FlagKey(arg), rest == [], rest, open, flags, acc), rest, true)
  {
    UnknownFlagLetThrough(root, ns, arg, rest, open, flags, acc);
    ScanStep(root, ns, [arg] + rest, true, open, flags, acc);
  }

  /**
    When that key is not itself a `--` token, the loop treats the unknown
    flag exactly as it would treat the key given in its place.
   */
  lemma ScanUnknownFlagAsKey(
    root: Parseable, ns: map<string, FlagDef>, arg: string, rest: seq<string>,
    open: Pending, flags: map<string, Flag>, acc: seq<string>)
    requires IsFlagToken(arg) && FlagKey(arg) !in ns && !IsFlagToken(FlagKey(arg))
    requires PendingIn(ns, open) && Bound(ns, flags)
    ensures Scan(root, ns, [arg] + rest, true, open, flags, acc)
         == Scan(root, ns, [FlagKey(arg)] + rest, true, open, flags, acc)
  {
    ScanUnknownFlag(root, ns, arg, rest, open, flags, acc);
    ScanStep(root, ns, [FlagKey(arg)] + rest, true, open, flags, acc);
    Tokens(FlagKey(arg), arg, rest);
  }

  /** Without that allowance, such a token ends the level with `UnknownFlagNameError`, whatever came before it. */
  lemma ScanUnknownFlagRefused(
    root: Parseable, ns: map<string, FlagDef>, arg: string, rest: seq<string>,
    open: Pending, flags: map<string, Flag>, acc: seq<string>)
    requires IsFlagToken(arg) && FlagKey(arg) !in ns && PendingIn(ns, open) && Bound(ns, flags)
    ensures Scan(root, ns, [arg] + rest, false, open, flags, acc) == Failure(UnknownFlagName(FlagKey(arg)))
  {
    ScanStep(root, ns, [arg] + rest, false, open, flags, acc);
  }

  /** On non-empty input, `parse` is the token loop over the node's namespace. */
  lemma ParseRunsScan(root: Parseable, args: seq<string>, allow: bool)
    requires args != [] && Namespace(root).Success?
    ensures Parse(root, args, allow) == Scan(root, Namespace(root).value, args, allow, Closed, map[], [])
  {
  }

  /** The value-taking forms `--name value` and `--name=value` bind the same flag the same way. */
  lemma FlagValueForms(root: Parseable, name: string, value: string, rest: seq<string>, allow: bool)
    requires '=' !in name && !IsFlagToken(value)
    requires MatchChild(root.Subcommands(), ToLower(value)).None?
    requires !root.ArgsAccepted() || rest != []
    requires TakesValue(root, name)
    ensures Parse(root, ["--" + name, value] + rest, allow) == Parse(root, ["--" + name + "=" + value] + rest, allow)
  {
    var ns := Namespace(root).value;
    var key := ToLower(name);
    SpacedFlagOpens(ns, name, map[], []);
    JoinedFlagBinds(ns, name, value, map[], []);
    var after := BindStep(ns, key, value, map[], []);
    WordIsValue(root, ns, value, rest == [], rest, key, map[], []);
    WordToken(root, ns, value, rest, allow, Open(ns[key], key), map[], []);
    var spaced, joined := "--" + name, "--" + name + "=" + value;
    var input1 := [spaced, value] + rest;
    var input2 := [joined] + rest;
    Tokens(spaced, value, rest);
    Tokens(joined, value, rest);
    ScanStep(root, ns, [value] + rest, allow, Open(ns[key], key), map[], []);
    ScanStep(root, ns, input1, allow, Closed, map[], []);
    ScanStep(root, ns, input2, allow, Closed, map[], []);
    ParseRunsScan(root, input1, allow);
    ParseRunsScan(root, input2, allow);
  }

  /** A value-taking flag given as the last token, with no value, leaves no trace. */
  lemma PendingFlagDropped(root: Parseable, name: string, allow: bool)
    requires '=' !in name
    requires TakesValue(root, name)
    ensures Parse(root, ["--" + name], allow) == Success(Parsed(None, map[], [], []))
  {
    var ns := Namespace(root).value;
    var key := ToLower(name);
    var arg := "--" + name;
    assert arg[2..] == name;
    assert IsFlagToken(arg) && FlagKey(arg) == key;
    assert FlagStep(ns, arg, Closed, map[], []) == Next(Open(ns[key], key), map[], []);
    var input: seq<string> := [arg];
    assert input[1..] == [];
    assert TokenStep(root, ns, input, allow, Closed, map[], []) == Next(Open(ns[key], key), map[], []);
    assert Scan(root, ns, [], allow, Open(ns[key], key), map[], []) == Success(Parsed(None, map[], [], []));
    assert Scan(root, ns, input, allow, Closed, map[], []) == Success(Parsed(None, map[], [], []));
    assert Parse(root, input, allow) == Scan(root, ns, input, allow, Closed, map[], []);
  }

  /** A level that takes arguments returns every word naming no subcommand as an argument, in order. */
  lemma PlainArguments(root: Parseable, words: seq<string>, allow: bool)
    requires root.ArgsAccepted() && Namespace(root).Success?
    requires forall i :: 0 <= i < |words| ==>
      !IsFlagToken(words[i]) && MatchChild(root.Subcommands(), ToLower(words[i])).None?
    ensures Parse(root, words, allow) == Success(Parsed(None, map[], words, []))
  {
    if words != [] {
      ParseRunsScan(root, words, allow);
      ScanPlainArguments(root, Namespace(root).value, words, allow, map[], []);
      assert [] + words == words;
    }
  }

  /**
    On a level that takes arguments, a value-taking flag followed only by a
    last word gets no value: the word is an argument and the flag, still
    pending when the input ends, is dropped.
   */
  lemma LastWordDropsPending(root: Parseable, name: string, word: string, allow: bool)
    requires '=' !in name && TakesValue(root, name) && root.ArgsAccepted()
    requires !IsFlagToken(word) && MatchChild(root.Subcommands(), ToLower(word)).None?
    ensures Parse(root, ["--" + name, word], allow) == Success(Parsed(None, map[], [word], []))
  {
    var ns := Namespace(root).value;
    var key := ToLower(name);
    ScanSpacedFlag(root, ns, name, [word], allow, map[], []);
    ScanArgument(root, ns, word, [], allow, Open(ns[key], key), map[], []);
    assert ["--" + name, word] == ["--" + name] + [word];
    assert [word] + [] == [word];
    assert [] + [word] == [word];
    ParseRunsScan(root, ["--" + name, word], allow);
  }

  /** A `--` token naming no visible flag is refused unless unknown flags are allowed. */
  lemma UnknownFlagRefused(root: Parseable, arg: string, rest: seq<string>)
    requires IsFlagToken(arg)
    requires Namespace(root).Success? && FlagKey(arg) !in Namespace(root).value
    ensures Parse(root, [arg] + rest, false) == Failure(UnknownFlagName(FlagKey(arg)))
  {
  }

  /**
    The application never takes positional arguments: a first word that is
    no flag and names no command is refused as an unexpected argument.
   */
  lemma ApplicationRefusesArgument(app: Application, word: string, rest: seq<string>, allow: bool)
    requires !IsFlagToken(word) && MatchChild(app.commands, ToLower(word)).None?
    requires Namespace(AppNode(app)).Success?
    ensures Parse(AppNode(app), [word] + rest, allow) == Failure(UnexpectedCommandArg(word))
  {
    assert ([word] + rest)[1..] == rest;
  }

  /**
    A first token naming a subcommand selects it: nothing is bound at this
    level and everything after it is handed back.
   */
  lemma LeadingSubcommand(root: Parseable, arg: string, rest: seq<string>, allow: bool)
    requires !IsFlagToken(arg) && MatchChild(root.Subcommands(), ToLower(arg)).Some?
    requires Namespace(root).Success?
    ensures Parse(root, [arg] + rest, allow)
         == Success(Parsed(Some(root.Subcommands()[MatchChild(root.Subcommands(), ToLower(arg)).value]), map[], [], rest))
  {
    assert ([arg] + rest)[1..] == rest;
  }
}
