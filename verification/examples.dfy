/**
  The router on the inputs of the repository's own tests and documented
  example: `command_test.go`'s list-flag case and the invocations of
  `ExampleApplication` in `application_test.go`.
 */
module Examples {
  import opened Wrappers
  import opened Text
  import opened FlagValues
  import opened Tree
  import opened Errors
  import FlagDefs
  import opened CommandParse
  import opened Router
  import opened App

  // ------------------------------------------------ command_test.go: list-flags

  const NameDef: FlagDef := FlagDef("name", [], true, false, ListParser(StringKind))
  const Hello: Command := Command("hello", [], [NameDef], [], None, false, false)
  const ListApp: Application := Application([Hello], [])

  lemma ListAppListing()
    ensures FlagDefs.ListFlagDefs(AppNode(ListApp), true) == [NameDef]
  {
    assert FlagDefs.OwnVisible([NameDef], false) == [NameDef];
    assert FlagDefs.CommandFlagDefs(Hello, false) == [NameDef];
    assert FlagDefs.SubcommandFlagDefs([Hello]) == [NameDef] + FlagDefs.SubcommandFlagDefs([]);
  }

  lemma ListAppEntries()
    ensures FlagDefs.Entries([NameDef]) == [("name", NameDef)]
  {
    assert ToLower("name") == "name";
    assert FlagDefs.DefEntries(NameDef) == [("name", NameDef)];
  }

  lemma ListAppNamespace()
    ensures Namespace(AppNode(ListApp)) == Success(map["name" := NameDef])
  {
    ListAppListing();
    ListAppEntries();
    var es := [("name", NameDef)];
    assert FlagDefs.InsertEntries(map["name" := NameDef], es[1..]) == Success(map["name" := NameDef]);
  }

  /** The value list the `name` flag holds after each use. */
  function NameFlag(raw: string, values: seq<string>): Flag {
    ListFlag("name", raw, StringKind, seq(|values|, i requires 0 <= i < |values| => StringValue(values[i])))
  }

  lemma NameFlagValues()
    ensures NameFlag("foo", ["foo"]).values == [StringValue("foo")]
    ensures NameFlag("foo, bar", ["foo", "bar"]).values == [StringValue("foo"), StringValue("bar")]
    ensures NameFlag("foo, bar, baaz", ["foo", "bar", "baaz"]).values
         == [StringValue("foo"), StringValue("bar"), StringValue("baaz")]
  {
  }

  /** Each use of the string-list flag appends its value and re-renders the raw value. */
  lemma FirstNameUse(ns: map<string, FlagDef>)
    requires ns == map["name" := NameDef]
    ensures Bind(ns, "name", "foo", map[]) == Success(map["name" := NameFlag("foo", ["foo"])])
  {
    NameFlagValues();
    var none: seq<Scalar> := [];
    assert none + [StringValue("foo")] == [StringValue("foo")];
    assert FormatAll([StringValue("foo")]) == ["foo"];
    assert Join(["foo"], ListSeparator) == "foo";
  }

  lemma SecondNameUse(ns: map<string, FlagDef>)
    requires ns == map["name" := NameDef]
    ensures Bind(ns, "name", "bar", map["name" := NameFlag("foo", ["foo"])])
         == Success(map["name" := NameFlag("foo, bar", ["foo", "bar"])])
  {
    NameFlagValues();
    assert [StringValue("foo")] + [StringValue("bar")] == [StringValue("foo"), StringValue("bar")];
    assert FormatAll([StringValue("foo"), StringValue("bar")]) == ["foo", "bar"];
    assert Join(["foo", "bar"], ListSeparator) == "foo, bar";
    var prior := NameFlag("foo", ["foo"]);
    var next := NameFlag("foo, bar", ["foo", "bar"]);
    assert Lookup(map["name" := prior], "name") == Some(prior);
    assert Parsers.ParseList(StringKind, "name", "bar", Some(prior)) == Success(next);
    assert map["name" := prior]["name" := next] == map["name" := next];
  }

  lemma ThirdNameUse(ns: map<string, FlagDef>)
    requires ns == map["name" := NameDef]
    ensures Bind(ns, "name", "baaz", map["name" := NameFlag("foo, bar", ["foo", "bar"])])
         == Success(map["name" := NameFlag("foo, bar, baaz", ["foo", "bar", "baaz"])])
  {
    NameFlagValues();
    assert [StringValue("foo"), StringValue("bar")] + [StringValue("baaz")]
        == [StringValue("foo"), StringValue("bar"), StringValue("baaz")];
    assert FormatAll([StringValue("foo"), StringValue("bar"), StringValue("baaz")]) == ["foo", "bar", "baaz"];
    assert Join(["foo", "bar", "baaz"], ListSeparator) == "foo, bar, baaz";
    var prior := NameFlag("foo, bar", ["foo", "bar"]);
    var next := NameFlag("foo, bar, baaz", ["foo", "bar", "baaz"]);
    assert Lookup(map["name" := prior], "name") == Some(prior);
    assert Parsers.ParseList(StringKind, "name", "baaz", Some(prior)) == Success(next);
    assert map["name" := prior]["name" := next] == map["name" := next];
  }

  lemma BarIsNoCommand()
    ensures MatchChild([Hello], ToLower("bar")).None?
  {
    assert ToLower("hello") == "hello" && ToLower("bar") == "bar";
    assert !Names(Hello, "bar");
  }

  lemma BaazIsNoCommand()
    ensures MatchChild([Hello], ToLower("baaz")).None?
  {
    assert ToLower("hello") == "hello" && ToLower("baaz") == "baaz";
    assert !Names(Hello, "baaz");
  }

  lemma IsHello()
    ensures MatchChild([Hello], ToLower("hello")) == Some(0)
  {
    assert ToLower("hello") == "hello";
  }

  const ListNs: map<string, FlagDef> := map["name" := NameDef]
  const M1: map<string, Flag> := map["name" := NameFlag("foo", ["foo"])]
  const M2: map<string, Flag> := map["name" := NameFlag("foo, bar", ["foo", "bar"])]
  const M3: map<string, Flag> := map["name" := NameFlag("foo, bar, baaz", ["foo", "bar", "baaz"])]
  const NamePending: Pending := Open(NameDef, "name")

  lemma FlagsBound()
    ensures Bound(ListNs, M1) && Bound(ListNs, M2) && Bound(ListNs, M3)
  {
    FirstNameUse(ListNs);
    SecondNameUse(ListNs);
    ThirdNameUse(ListNs);
  }

  lemma ListSpellings()
    ensures "--" + "name" == "--name" && "--" + "name" + "=" + "foo" == "--name=foo"
    ensures ToLower("name") == "name" && !IsFlagToken("bar") && !IsFlagToken("baaz")
  {
  }

  /** `--name=foo` binds the first element at once. */
  lemma ListJoinedUse(rest: seq<string>)
    ensures Scan(AppNode(ListApp), ListNs, ["--name=foo"] + rest, false, Closed, map[], [])
         == Scan(AppNode(ListApp), ListNs, rest, false, Closed, M1, [])
  {
    ListSpellings();
    FirstNameUse(ListNs);
    ScanJoinedFlag(AppNode(ListApp), ListNs, "name", "foo", rest, false, map[], [], M1);
  }

  /** `--name` leaves the flag pending. */
  lemma ListSpacedUse(rest: seq<string>, flags: map<string, Flag>)
    requires Bound(ListNs, flags)
    ensures Scan(AppNode(ListApp), ListNs, ["--name"] + rest, false, Closed, flags, [])
         == Scan(AppNode(ListApp), ListNs, rest, false, NamePending, flags, [])
  {
    ListSpellings();
    ScanSpacedFlag(AppNode(ListApp), ListNs, "name", rest, false, flags, []);
  }

  /** `bar`, with `name` pending, is its value. */
  lemma ListSecondValue(rest: seq<string>)
    requires rest != []
    ensures Scan(AppNode(ListApp), ListNs, ["bar"] + rest, false, NamePending, M1, [])
         == Scan(AppNode(ListApp), ListNs, rest, false, Closed, M2, [])
  {
    ListSpellings();
    BarIsNoCommand();
    FlagsBound();
    SecondNameUse(ListNs);
    ScanFlagValue(AppNode(ListApp), ListNs, "bar", rest, false, "name", M1, [], M2);
  }

  /** `baaz`, with `name` pending, is its value. */
  lemma ListThirdValue(rest: seq<string>)
    requires rest != []
    ensures Scan(AppNode(ListApp), ListNs, ["baaz"] + rest, false, NamePending, M2, [])
         == Scan(AppNode(ListApp), ListNs, rest, false, Closed, M3, [])
  {
    ListSpellings();
    BaazIsNoCommand();
    FlagsBound();
    ThirdNameUse(ListNs);
    ScanFlagValue(AppNode(ListApp), ListNs, "baaz", rest, false, "name", M2, [], M3);
  }

  /** `hello` names the subcommand and ends the level with nothing left over. */
  lemma ListSelectsHello()
    ensures Scan(AppNode(ListApp), ListNs, ["hello"], false, Closed, M3, []) == Success(Parsed(Some(Hello), M3, [], []))
  {
    IsHello();
    FlagsBound();
    var none: seq<string> := [];
    assert ["hello"] == ["hello"] + none;
    ScanSubcommand(AppNode(ListApp), ListNs, "hello", none, false, M3, []);
  }

  /** The first three tokens leave `name` bound to `[foo, bar]`. */
  lemma ListFirstUses(rest: seq<string>)
    requires rest != []
    ensures Scan(AppNode(ListApp), ListNs, ["--name=foo", "--name", "bar"] + rest, false, Closed, map[], [])
         == Scan(AppNode(ListApp), ListNs, rest, false, Closed, M2, [])
  {
    var t3 := ["bar"] + rest;
    var t2 := ["--name"] + t3;
    assert ["--name=foo", "--name", "bar"] + rest == ["--name=foo"] + t2;
    ListJoinedUse(t2);
    FlagsBound();
    ListSpacedUse(t3, M1);
    ListSecondValue(rest);
  }

  /** The last three tokens add `baaz` and select `hello`. */
  lemma ListLastUses()
    ensures Scan(AppNode(ListApp), ListNs, ["--name", "baaz", "hello"], false, Closed, M2, [])
         == Success(Parsed(Some(Hello), M3, [], []))
  {
    var t6: seq<string> := ["hello"];
    var t5 := ["baaz"] + t6;
    assert ["--name", "baaz", "hello"] == ["--name"] + t5;
    FlagsBound();
    ListSpacedUse(t5, M2);
    ListThirdValue(t6);
    ListSelectsHello();
  }

  /**
    `["--name=foo", "--name", "bar", "--name", "baaz", "hello"]` at the
    application level: the three uses of the string-list flag accumulate in
    order, the raw value is their `", "`-join, and `hello` is selected.
   */
  lemma ListFlagsCase()
    ensures Parse(AppNode(ListApp), ["--name=foo", "--name", "bar", "--name", "baaz", "hello"], false)
         == Success(Parsed(Some(Hello), M3, [], []))
  {
    var t4: seq<string> := ["--name", "baaz", "hello"];
    assert ["--name=foo", "--name", "bar", "--name", "baaz", "hello"] == ["--name=foo", "--name", "bar"] + t4;
    ListFirstUses(t4);
    ListLastUses();
    ListAppNamespace();
    ParseRunsScan(AppNode(ListApp), ["--name=foo", "--name", "bar"] + t4, false);
  }

  // -------------------------------------------- route_test.go: list-flags

  lemma HelloNamespace()
    ensures Namespace(CommandNode(Hello)) == Success(ListNs)
  {
    assert FlagDefs.OwnVisible([NameDef], true) == [NameDef];
    assert FlagDefs.ListFlagDefs(CommandNode(Hello), true) == [NameDef];
    ListAppEntries();
    var es := [("name", NameDef)];
    assert FlagDefs.InsertEntries(map["name" := NameDef], es[1..]) == Success(map["name" := NameDef]);
  }

  /** At `hello`, `--name=foo` binds the first element at once. */
  lemma HelloJoinedUse(rest: seq<string>)
    ensures Scan(CommandNode(Hello), ListNs, ["--name=foo"] + rest, false, Closed, map[], [])
         == Scan(CommandNode(Hello), ListNs, rest, false, Closed, M1, [])
  {
    ListSpellings();
    FirstNameUse(ListNs);
    ScanJoinedFlag(CommandNode(Hello), ListNs, "name", "foo", rest, false, map[], [], M1);
  }

  /** At `hello`, `--name` leaves the flag pending. */
  lemma HelloSpacedUse(rest: seq<string>, flags: map<string, Flag>)
    requires Bound(ListNs, flags)
    ensures Scan(CommandNode(Hello), ListNs, ["--name"] + rest, false, Closed, flags, [])
         == Scan(CommandNode(Hello), ListNs, rest, false, NamePending, flags, [])
  {
    ListSpellings();
    ScanSpacedFlag(CommandNode(Hello), ListNs, "name", rest, false, flags, []);
  }

  /**
    At `hello`, which has no subcommands and takes no arguments, a word
    with `name` pending is its value, even as the last token.
   */
  lemma HelloValue(word: string, rest: seq<string>, flags: map<string, Flag>, after: map<string, Flag>)
    requires !IsFlagToken(word) && Bound(ListNs, flags)
    requires Bind(ListNs, "name", word, flags) == Success(after)
    ensures Scan(CommandNode(Hello), ListNs, [word] + rest, false, NamePending, flags, [])
         == Scan(CommandNode(Hello), ListNs, rest, false, Closed, after, [])
  {
    ScanFlagValue(CommandNode(Hello), ListNs, word, rest, false, "name", flags, [], after);
  }

  lemma HelloFirstUses(rest: seq<string>)
    ensures Scan(CommandNode(Hello), ListNs, ["--name=foo", "--name", "bar"] + rest, false, Closed, map[], [])
         == Scan(CommandNode(Hello), ListNs, rest, false, Closed, M2, [])
  {
    var t3 := ["bar"] + rest;
    var t2 := ["--name"] + t3;
    assert ["--name=foo", "--name", "bar"] + rest == ["--name=foo"] + t2;
    HelloJoinedUse(t2);
    FlagsBound();
    HelloSpacedUse(t3, M1);
    ListSpellings();
    SecondNameUse(ListNs);
    HelloValue("bar", rest, M1, M2);
  }

  lemma HelloLastUses()
    ensures Scan(CommandNode(Hello), ListNs, ["--name", "baaz"], false, Closed, M2, [])
         == Success(Parsed(None, M3, [], []))
  {
    var none: seq<string> := [];
    var t5 := ["baaz"] + none;
    assert ["--name", "baaz"] == ["--name"] + t5;
    FlagsBound();
    HelloSpacedUse(t5, M2);
    ListSpellings();
    ThirdNameUse(ListNs);
    HelloValue("baaz", none, M2, M3);
  }

  /** `hello`'s level binds the three uses and ends the input. */
  lemma HelloLevel()
    ensures Parse(CommandNode(Hello), ["--name=foo", "--name", "bar"] + ["--name", "baaz"], false)
         == Success(Parsed(None, M3, [], []))
  {
    var t4: seq<string> := ["--name", "baaz"];
    HelloFirstUses(t4);
    HelloLastUses();
    HelloNamespace();
    ParseRunsScan(CommandNode(Hello), ["--name=foo", "--name", "bar"] + t4, false);
  }

  lemma ListSelectsHelloFirst(rest: seq<string>)
    ensures Parse(AppNode(ListApp), ["hello"] + rest, false) == Success(Parsed(Some(Hello), map[], [], rest))
  {
    IsHello();
    ListAppNamespace();
    LeadingSubcommand(AppNode(ListApp), "hello", rest, false);
  }

  lemma MergeIntoNothing(m: map<string, Flag>)
    ensures map[] + m == m
  {
  }

  lemma ListRootNamespace()
    ensures RootNamespace(ListApp) == Success(ListNs)
  {
    ListAppNamespace();
  }

  /** Whatever `hello`'s level binds, as the last level, is what routing `hello` followed by that input returns. */
  lemma RouteThroughHello(tail: seq<string>, bound: map<string, Flag>)
    requires Parse(CommandNode(Hello), tail, false) == Success(Parsed(None, bound, [], []))
    ensures Route(ListApp, ["hello"] + tail) == Success(RouteResult(Hello, bound, []))
  {
    var empty: map<string, Flag> := map[];
    var none: seq<string> := [];
    var root := Parsed(Some(Hello), empty, none, tail);
    ListSelectsHelloFirst(tail);
    RouteLoopLeaf(ListApp, root, RouteResult(ZeroCommand, empty, none), [], Hello, bound);
    MergeIntoNothing(bound);
    ListRootNamespace();
    RouteThrough(ListApp, ["hello"] + tail, root, Success(RouteResult(Hello, bound, none)));
  }

  /**
    `["hello", "--name=foo", "--name", "bar", "--name", "baaz"]` routed: the
    flags are bound at `hello`'s level, where `baaz`, the last token, is
    still the pending flag's value because `hello` takes no arguments.
   */
  lemma RouteListFlagsCase()
    ensures Route(ListApp, ["hello", "--name=foo", "--name", "bar", "--name", "baaz"])
         == Success(RouteResult(Hello, M3, []))
  {
    var tail := ["--name=foo", "--name", "bar"] + ["--name", "baaz"];
    assert ["hello"] + tail == ["hello", "--name=foo", "--name", "bar", "--name", "baaz"];
    HelloLevel();
    RouteThroughHello(tail, M3);
  }

  // ------------------------------------- application_test.go: ExampleApplication

  const QuuxDef: FlagDef := FlagDef("quux", [], true, false, BasicParser(StringKind))
  const BaazDef: FlagDef := FlagDef("baaz", [], false, false, BasicParser(BoolKind))
  const HelpCmd: Command := Command("help", [], [], [], Some(HandlerBuilder(0)), false, false)
  const Bar: Command := Command("bar", [], [QuuxDef], [], Some(HandlerBuilder(1)), false, false)
  const Foo: Command := Command("foo", [], [], [Bar], None, false, false)
  const DemoApp: Application := Application([HelpCmd, Foo], [BaazDef])

  const RootNs: map<string, FlagDef> := map["baaz" := BaazDef, "quux" := QuuxDef]
  const QuuxNs: map<string, FlagDef> := map["quux" := QuuxDef]
  const Quux: Flag := BasicFlag("quux", "hello", StringValue("hello"))
  const Baaz: Flag := BasicFlag("baaz", [], BoolValue(true))

  lemma DemoListings()
    ensures FlagDefs.ListFlagDefs(AppNode(DemoApp), true) == [BaazDef, QuuxDef]
    ensures FlagDefs.ListFlagDefs(CommandNode(Foo), true) == [QuuxDef]
    ensures FlagDefs.ListFlagDefs(CommandNode(Bar), true) == [QuuxDef]
  {
    assert FlagDefs.OwnVisible([QuuxDef], false) == [QuuxDef];
    assert FlagDefs.OwnVisible([QuuxDef], true) == [QuuxDef];
    assert FlagDefs.SubcommandFlagDefs([]) == [];
    assert FlagDefs.CommandFlagDefs(Bar, false) == [QuuxDef];
    assert FlagDefs.SubcommandFlagDefs([Bar]) == [QuuxDef];
    assert FlagDefs.CommandFlagDefs(Foo, false) == [QuuxDef];
    assert FlagDefs.CommandFlagDefs(HelpCmd, false) == [];
    assert [HelpCmd, Foo][1..] == [Foo];
    assert FlagDefs.SubcommandFlagDefs([Foo]) == [QuuxDef];
    assert FlagDefs.SubcommandFlagDefs([HelpCmd, Foo]) == [QuuxDef];
  }

  lemma QuuxNamespace()
    ensures FlagDefs.BuildNamespace([QuuxDef]) == Success(QuuxNs)
  {
    assert ToLower("quux") == "quux";
    assert FlagDefs.Entries([QuuxDef]) == [("quux", QuuxDef)];
    var es := [("quux", QuuxDef)];
    assert es[1..] == [];
    assert FlagDefs.InsertEntries(map["quux" := QuuxDef], es[1..]) == Success(QuuxNs);
  }

  lemma RootNamespaceValue()
    ensures FlagDefs.BuildNamespace([BaazDef, QuuxDef]) == Success(RootNs)
  {
    assert ToLower("quux") == "quux" && ToLower("baaz") == "baaz";
    assert FlagDefs.Entries([QuuxDef]) == [("quux", QuuxDef)];
    assert [BaazDef, QuuxDef][1..] == [QuuxDef];
    assert FlagDefs.Entries([BaazDef, QuuxDef]) == [("baaz", BaazDef), ("quux", QuuxDef)];
    var es := [("baaz", BaazDef), ("quux", QuuxDef)];
    assert es[1..] == [("quux", QuuxDef)];
    assert FlagDefs.InsertEntries(map["baaz" := BaazDef], es[1..]) == Success(RootNs);
  }

  lemma DemoNamespaces()
    ensures Namespace(AppNode(DemoApp)) == Success(RootNs) && RootNamespace(DemoApp) == Success(RootNs)
    ensures Namespace(CommandNode(Foo)) == Success(QuuxNs)
    ensures Namespace(CommandNode(Bar)) == Success(QuuxNs)
  {
    DemoListings();
    QuuxNamespace();
    RootNamespaceValue();
  }

  lemma FooMatches()
    ensures MatchChild([HelpCmd, Foo], ToLower("foo")) == Some(1)
  {
    assert ToLower("foo") == "foo" && ToLower("help") == "help";
    assert !Names(HelpCmd, "foo");
    assert [HelpCmd, Foo][1..] == [Foo];
  }

  lemma HelloNamesNoCommand()
    ensures !Names(HelpCmd, "hello") && !Names(Foo, "hello") && !Names(Bar, "hello")
  {
    assert ToLower("foo") == "foo" && ToLower("help") == "help" && ToLower("bar") == "bar";
  }

  /** `hello` names no command of the application. */
  lemma HelloMatchesNoCommand()
    ensures MatchChild([HelpCmd, Foo], ToLower("hello")).None?
  {
    assert ToLower("hello") == "hello";
    HelloNamesNoCommand();
  }

  /** `hello` names no subcommand of `foo`. */
  lemma HelloMatchesNoSubcommand()
    ensures MatchChild([Bar], ToLower("hello")).None?
  {
    assert ToLower("hello") == "hello";
    HelloNamesNoCommand();
  }

  lemma HelpMatches()
    ensures MatchChild([HelpCmd, Foo], ToLower("help")) == Some(0)
  {
    assert ToLower("help") == "help";
  }

  lemma BarMatches()
    ensures MatchChild([Bar], ToLower("bar")) == Some(0)
  {
    assert ToLower("bar") == "bar";
  }

  lemma QuuxBinds()
    ensures Bind(RootNs, "quux", "hello", map[]) == Success(map["quux" := Quux])
    ensures Bind(QuuxNs, "quux", "hello", map[]) == Success(map["quux" := Quux])
  {
  }

  lemma BaazBinds()
    ensures Bind(RootNs, "baaz", [], map[]) == Success(map["baaz" := Baaz])
  {
  }

  lemma DemoSpellings()
    ensures "--" + "quux" == "--quux" && "--" + "quux" + "=" + "hello" == "--quux=hello" && "--" + "baaz" == "--baaz"
    ensures ToLower("quux") == "quux" && ToLower("baaz") == "baaz" && !IsFlagToken("hello")
  {
  }

  lemma DemoMerges()
    ensures map[] + map["quux" := Quux] == map["quux" := Quux]
    ensures map["baaz" := Baaz] + map["quux" := Quux] == map["baaz" := Baaz, "quux" := Quux]
  {
  }

  lemma DemoRootNamespace()
    ensures RootNamespace(DemoApp) == Success(RootNs)
  {
    DemoListings();
    RootNamespaceValue();
  }

  // The application level.

  lemma AppSelectsFoo(rest: seq<string>)
    ensures Parse(AppNode(DemoApp), ["foo"] + rest, false) == Success(Parsed(Some(Foo), map[], [], rest))
  {
    DemoListings();
    RootNamespaceValue();
    FooMatches();
    LeadingSubcommand(AppNode(DemoApp), "foo", rest, false);
  }

  lemma AppSelectsHelp(rest: seq<string>)
    ensures Parse(AppNode(DemoApp), ["help"] + rest, false) == Success(Parsed(Some(HelpCmd), map[], [], rest))
  {
    DemoListings();
    RootNamespaceValue();
    HelpMatches();
    LeadingSubcommand(AppNode(DemoApp), "help", rest, false);
  }

  lemma AppQuuxOpens(t: seq<string>)
    ensures Scan(AppNode(DemoApp), RootNs, ["--quux"] + t, false, Closed, map[], [])
         == Scan(AppNode(DemoApp), RootNs, t, false, Open(QuuxDef, "quux"), map[], [])
  {
    DemoSpellings();
    ScanSpacedFlag(AppNode(DemoApp), RootNs, "quux", t, false, map[], []);
  }

  lemma AppHelloValue(t: seq<string>)
    requires t != []
    ensures Scan(AppNode(DemoApp), RootNs, ["hello"] + t, false, Open(QuuxDef, "quux"), map[], [])
         == Scan(AppNode(DemoApp), RootNs, t, false, Closed, map["quux" := Quux], [])
  {
    DemoSpellings();
    HelloMatchesNoCommand();
    QuuxBinds();
    ScanFlagValue(AppNode(DemoApp), RootNs, "hello", t, false, "quux", map[], [], map["quux" := Quux]);
  }

  lemma AppQuuxJoined(t: seq<string>)
    ensures Scan(AppNode(DemoApp), RootNs, ["--quux=hello"] + t, false, Closed, map[], [])
         == Scan(AppNode(DemoApp), RootNs, t, false, Closed, map["quux" := Quux], [])
  {
    DemoSpellings();
    QuuxBinds();
    ScanJoinedFlag(AppNode(DemoApp), RootNs, "quux", "hello", t, false, map[], [], map["quux" := Quux]);
  }

  lemma AppBaazSwitch(t: seq<string>)
    ensures Scan(AppNode(DemoApp), RootNs, ["--baaz"] + t, false, Closed, map[], [])
         == Scan(AppNode(DemoApp), RootNs, t, false, Closed, map["baaz" := Baaz], [])
  {
    DemoSpellings();
    BaazBinds();
    ScanSwitchFlag(AppNode(DemoApp), RootNs, "baaz", t, false, map[], [], map["baaz" := Baaz]);
  }

  lemma AppFooSelected(flags: map<string, Flag>, rest: seq<string>)
    requires Bound(RootNs, flags)
    ensures Scan(AppNode(DemoApp), RootNs, ["foo"] + rest, false, Closed, flags, [])
         == Success(Parsed(Some(Foo), flags, [], rest))
  {
    FooMatches();
    ScanSubcommand(AppNode(DemoApp), RootNs, "foo", rest, false, flags, []);
  }

  /** `--quux hello`, then `foo`: the application level binds `quux` and selects `foo`. */
  lemma AppQuuxFirst(rest: seq<string>)
    ensures Parse(AppNode(DemoApp), ["--quux", "hello"] + (["foo"] + rest), false)
         == Success(Parsed(Some(Foo), map["quux" := Quux], [], rest))
  {
    var t3 := ["foo"] + rest;
    var t2 := ["hello"] + t3;
    assert ["--quux", "hello"] + t3 == ["--quux"] + t2;
    AppQuuxOpens(t2);
    AppHelloValue(t3);
    QuuxBinds();
    AppFooSelected(map["quux" := Quux], rest);
    DemoNamespaces();
    ParseRunsScan(AppNode(DemoApp), ["--quux"] + t2, false);
  }

  /** `--quux=hello`, then `foo`: the same, from the one-token form. */
  lemma AppQuuxJoinedFirst(rest: seq<string>)
    ensures Parse(AppNode(DemoApp), ["--quux=hello"] + (["foo"] + rest), false)
         == Success(Parsed(Some(Foo), map["quux" := Quux], [], rest))
  {
    var t2 := ["foo"] + rest;
    AppQuuxJoined(t2);
    QuuxBinds();
    AppFooSelected(map["quux" := Quux], rest);
    DemoNamespaces();
    ParseRunsScan(AppNode(DemoApp), ["--quux=hello"] + t2, false);
  }

  /** `--baaz`, then `foo`: the bool flag is bound to `true` with no value text. */
  lemma AppBaazFirst(rest: seq<string>)
    ensures Parse(AppNode(DemoApp), ["--baaz"] + (["foo"] + rest), false)
         == Success(Parsed(Some(Foo), map["baaz" := Baaz], [], rest))
  {
    var t2 := ["foo"] + rest;
    AppBaazSwitch(t2);
    BaazBinds();
    AppFooSelected(map["baaz" := Baaz], rest);
    DemoNamespaces();
    ParseRunsScan(AppNode(DemoApp), ["--baaz"] + t2, false);
  }

  // The `foo` level.

  lemma FooSelectsBar(rest: seq<string>)
    ensures Parse(CommandNode(Foo), ["bar"] + rest, false) == Success(Parsed(Some(Bar), map[], [], rest))
  {
    DemoListings();
    QuuxNamespace();
    BarMatches();
    LeadingSubcommand(CommandNode(Foo), "bar", rest, false);
  }

  lemma FooQuuxOpens(t: seq<string>)
    ensures Scan(CommandNode(Foo), QuuxNs, ["--quux"] + t, false, Closed, map[], [])
         == Scan(CommandNode(Foo), QuuxNs, t, false, Open(QuuxDef, "quux"), map[], [])
  {
    DemoSpellings();
    ScanSpacedFlag(CommandNode(Foo), QuuxNs, "quux", t, false, map[], []);
  }

  lemma FooHelloValue(t: seq<string>)
    requires t != []
    ensures Scan(CommandNode(Foo), QuuxNs, ["hello"] + t, false, Open(QuuxDef, "quux"), map[], [])
         == Scan(CommandNode(Foo), QuuxNs, t, false, Closed, map["quux" := Quux], [])
  {
    DemoSpellings();
    HelloMatchesNoSubcommand();
    QuuxBinds();
    ScanFlagValue(CommandNode(Foo), QuuxNs, "hello", t, false, "quux", map[], [], map["quux" := Quux]);
  }

  lemma FooQuuxJoined(t: seq<string>)
    ensures Scan(CommandNode(Foo), QuuxNs, ["--quux=hello"] + t, false, Closed, map[], [])
         == Scan(CommandNode(Foo), QuuxNs, t, false, Closed, map["quux" := Quux], [])
  {
    DemoSpellings();
    QuuxBinds();
    ScanJoinedFlag(CommandNode(Foo), QuuxNs, "quux", "hello", t, false, map[], [], map["quux" := Quux]);
  }

  lemma FooBarSelected(flags: map<string, Flag>, rest: seq<string>)
    requires Bound(QuuxNs, flags)
    ensures Scan(CommandNode(Foo), QuuxNs, ["bar"] + rest, false, Closed, flags, [])
         == Success(Parsed(Some(Bar), flags, [], rest))
  {
    BarMatches();
    ScanSubcommand(CommandNode(Foo), QuuxNs, "bar", rest, false, flags, []);
  }

  /** `--quux hello bar` at `foo`: `quux` is bound there and `bar` is selected. */
  lemma FooQuuxThenBar(rest: seq<string>)
    ensures Parse(CommandNode(Foo), ["--quux", "hello"] + (["bar"] + rest), false)
         == Success(Parsed(Some(Bar), map["quux" := Quux], [], rest))
  {
    var t3 := ["bar"] + rest;
    var t2 := ["hello"] + t3;
    assert ["--quux", "hello"] + t3 == ["--quux"] + t2;
    FooQuuxOpens(t2);
    FooHelloValue(t3);
    QuuxBinds();
    FooBarSelected(map["quux" := Quux], rest);
    DemoNamespaces();
    ParseRunsScan(CommandNode(Foo), ["--quux"] + t2, false);
  }

  /** `--quux=hello bar` at `foo`: the same, from the one-token form. */
  lemma FooQuuxJoinedThenBar(rest: seq<string>)
    ensures Parse(CommandNode(Foo), ["--quux=hello"] + (["bar"] + rest), false)
         == Success(Parsed(Some(Bar), map["quux" := Quux], [], rest))
  {
    var t2 := ["bar"] + rest;
    FooQuuxJoined(t2);
    QuuxBinds();
    FooBarSelected(map["quux" := Quux], rest);
    DemoNamespaces();
    ParseRunsScan(CommandNode(Foo), ["--quux=hello"] + t2, false);
  }

  // The `bar` level.

  lemma BarQuuxOpens(t: seq<string>)
    ensures Scan(CommandNode(Bar), QuuxNs, ["--quux"] + t, false, Closed, map[], [])
         == Scan(CommandNode(Bar), QuuxNs, t, false, Open(QuuxDef, "quux"), map[], [])
  {
    DemoSpellings();
    ScanSpacedFlag(CommandNode(Bar), QuuxNs, "quux", t, false, map[], []);
  }

  /** `hello` as `bar`'s last token: `bar` takes no arguments, so it is `quux`'s value. */
  lemma BarHelloLast()
    ensures Scan(CommandNode(Bar), QuuxNs, ["hello"], false, Open(QuuxDef, "quux"), map[], [])
         == Success(Parsed(None, map["quux" := Quux], [], []))
  {
    DemoSpellings();
    QuuxBinds();
    var none: seq<string> := [];
    assert ["hello"] == ["hello"] + none;
    ScanFlagValue(CommandNode(Bar), QuuxNs, "hello", none, false, "quux", map[], [], map["quux" := Quux]);
  }

  /** At `bar`, `--quux hello` binds the string flag to `hello` and ends the input. */
  lemma BarLevel()
    ensures Parse(CommandNode(Bar), ["--quux", "hello"], false) == Success(Parsed(None, map["quux" := Quux], [], []))
  {
    var last: seq<string> := ["hello"];
    assert ["--quux", "hello"] == ["--quux"] + last;
    BarQuuxOpens(last);
    BarHelloLast();
    DemoNamespaces();
    ParseRunsScan(CommandNode(Bar), ["--quux"] + last, false);
  }

  /** At `bar`, `--quux=hello` does the same. */
  lemma BarLevelJoined()
    ensures Parse(CommandNode(Bar), ["--quux=hello"], false) == Success(Parsed(None, map["quux" := Quux], [], []))
  {
    DemoSpellings();
    QuuxBinds();
    var none: seq<string> := [];
    assert ["--quux=hello"] == ["--quux=hello"] + none;
    ScanJoinedFlag(CommandNode(Bar), QuuxNs, "quux", "hello", none, false, map[], [], map["quux" := Quux]);
    DemoNamespaces();
    ParseRunsScan(CommandNode(Bar), ["--quux=hello"] + none, false);
  }

  // The descent below the application level.

  /** Below `foo`, `bar` is matched and the rest is left to `bar`'s level. */
  lemma FooToBar(flags: map<string, Flag>, tail: seq<string>)
    ensures RouteLoop(DemoApp, Parsed(Some(Foo), flags, [], ["bar"] + tail), RouteResult(ZeroCommand, flags, []), [])
         == RouteLoop(DemoApp, Parsed(Some(Bar), map[], [], tail), RouteResult(Foo, flags, []), [Foo])
  {
    FooSelectsBar(tail);
    RouteLoopQuietStep(DemoApp, Parsed(Some(Foo), flags, [], ["bar"] + tail), RouteResult(ZeroCommand, flags, []), [], Foo,
      Parsed(Some(Bar), map[], [], tail));
  }

  /** At `bar`, whatever is left is the last level: the loop ends with that level's flags merged in. */
  lemma BarEnds(flags: map<string, Flag>, tail: seq<string>, bound: map<string, Flag>)
    requires Parse(CommandNode(Bar), tail, false) == Success(Parsed(None, bound, [], []))
    ensures RouteLoop(DemoApp, Parsed(Some(Bar), map[], [], tail), RouteResult(Foo, flags, []), [Foo])
         == Success(RouteResult(Bar, flags + bound, []))
  {
    RouteLoopLeaf(DemoApp, Parsed(Some(Bar), map[], [], tail), RouteResult(Foo, flags, []), [Foo], Bar, bound);
  }

  /** `bar` and then a last level at `bar` that binds `bound`. */
  lemma DescendFooBar(flags: map<string, Flag>, tail: seq<string>, bound: map<string, Flag>)
    requires Parse(CommandNode(Bar), tail, false) == Success(Parsed(None, bound, [], []))
    ensures RouteLoop(DemoApp, Parsed(Some(Foo), flags, [], ["bar"] + tail), RouteResult(ZeroCommand, flags, []), [])
         == Success(RouteResult(Bar, flags + bound, []))
  {
    FooToBar(flags, tail);
    BarEnds(flags, tail, bound);
  }

  /** `bar` with nothing after it: the descent ends at `bar` with the flags already bound. */
  lemma DescendBareBar(flags: map<string, Flag>)
    ensures RouteLoop(DemoApp, Parsed(Some(Foo), flags, [], ["bar"]), RouteResult(ZeroCommand, flags, []), [])
         == Success(RouteResult(Bar, flags, []))
  {
    var none: seq<string> := [];
    assert ["bar"] == ["bar"] + none;
    FooToBar(flags, none);
    RouteLoopBare(DemoApp, Parsed(Some(Bar), map[], [], none), RouteResult(Foo, flags, []), [Foo], Bar);
  }

  /** `foo` binds `quux` and selects `bar`, which ends the descent. */
  lemma DescendFooBindsQuux(tail: seq<string>)
    requires Parse(CommandNode(Foo), tail, false) == Success(Parsed(Some(Bar), map["quux" := Quux], [], []))
    ensures RouteLoop(DemoApp, Parsed(Some(Foo), map[], [], tail), RouteResult(ZeroCommand, map[], []), [])
         == Success(RouteResult(Bar, map["quux" := Quux], []))
  {
    var none: seq<string> := [];
    var empty: map<string, Flag> := map[];
    var atFoo := Parsed(Some(Bar), map["quux" := Quux], none, none);
    RouteLoopStep(DemoApp, Parsed(Some(Foo), empty, none, tail), RouteResult(ZeroCommand, empty, none), [], Foo, atFoo);
    DemoMerges();
    RouteLoopBare(DemoApp, atFoo, RouteResult(Foo, map["quux" := Quux], none), [Foo], Bar);
  }

  // ExampleApplication's invocations, each routed to the command whose handler runs.

  /** `help` routes to the help command with nothing bound. */
  lemma RouteHelp()
    ensures Route(DemoApp, ["help"]) == Success(RouteResult(HelpCmd, map[], []))
  {
    var none: seq<string> := [];
    var empty: map<string, Flag> := map[];
    var root := Parsed(Some(HelpCmd), empty, none, none);
    RouteLoopBare(DemoApp, root, RouteResult(ZeroCommand, empty, none), [], HelpCmd);
    DemoRootNamespace();
    AppSelectsHelp(none);
    assert ["help"] + none == ["help"];
    RouteThrough(DemoApp, ["help"], root, Success(RouteResult(HelpCmd, empty, none)));
  }

  /** `foo bar --quux hello` routes to `bar` with `quux` bound to `hello` and no arguments. */
  lemma RouteFooBarQuux()
    ensures Route(DemoApp, ["foo", "bar", "--quux", "hello"]) == Success(RouteResult(Bar, map["quux" := Quux], []))
  {
    var empty: map<string, Flag> := map[];
    var tail: seq<string> := ["--quux", "hello"];
    var rest := ["bar"] + tail;
    var input := ["foo"] + rest;
    assert input == ["foo", "bar", "--quux", "hello"];
    BarLevel();
    DescendFooBar(empty, tail, map["quux" := Quux]);
    DemoMerges();
    DemoRootNamespace();
    AppSelectsFoo(rest);
    RouteThrough(DemoApp, input, Parsed(Some(Foo), empty, [], rest), Success(RouteResult(Bar, map["quux" := Quux], [])));
  }

  /** `foo bar --quux=hello` routes the same way. */
  lemma RouteFooBarQuuxJoined()
    ensures Route(DemoApp, ["foo", "bar", "--quux=hello"]) == Success(RouteResult(Bar, map["quux" := Quux], []))
  {
    var empty: map<string, Flag> := map[];
    var tail: seq<string> := ["--quux=hello"];
    var rest := ["bar"] + tail;
    var input := ["foo"] + rest;
    assert input == ["foo", "bar", "--quux=hello"];
    BarLevelJoined();
    DescendFooBar(empty, tail, map["quux" := Quux]);
    DemoMerges();
    DemoRootNamespace();
    AppSelectsFoo(rest);
    RouteThrough(DemoApp, input, Parsed(Some(Foo), empty, [], rest), Success(RouteResult(Bar, map["quux" := Quux], [])));
  }

  /** `foo --quux hello bar`: the flag is bound at `foo`'s level. */
  lemma RouteFooQuuxBar()
    ensures Route(DemoApp, ["foo", "--quux", "hello", "bar"]) == Success(RouteResult(Bar, map["quux" := Quux], []))
  {
    var none: seq<string> := [];
    var rest: seq<string> := ["--quux", "hello"] + (["bar"] + none);
    var input := ["foo"] + rest;
    assert input == ["foo", "--quux", "hello", "bar"];
    FooQuuxThenBar(none);
    DescendFooBindsQuux(rest);
    DemoRootNamespace();
    AppSelectsFoo(rest);
    RouteThrough(DemoApp, input, Parsed(Some(Foo), map[], [], rest), Success(RouteResult(Bar, map["quux" := Quux], [])));
  }

  /** `foo --quux=hello bar` routes the same way. */
  lemma RouteFooQuuxJoinedBar()
    ensures Route(DemoApp, ["foo", "--quux=hello", "bar"]) == Success(RouteResult(Bar, map["quux" := Quux], []))
  {
    var none: seq<string> := [];
    var rest: seq<string> := ["--quux=hello"] + (["bar"] + none);
    var input := ["foo"] + rest;
    assert input == ["foo", "--quux=hello", "bar"];
    FooQuuxJoinedThenBar(none);
    DescendFooBindsQuux(rest);
    DemoRootNamespace();
    AppSelectsFoo(rest);
    RouteThrough(DemoApp, input, Parsed(Some(Foo), map[], [], rest), Success(RouteResult(Bar, map["quux" := Quux], [])));
  }

  /** `--quux hello foo bar`: `bar`'s flag, given before the command path, is bound at the application level. */
  lemma RouteQuuxFooBar()
    ensures Route(DemoApp, ["--quux", "hello", "foo", "bar"]) == Success(RouteResult(Bar, map["quux" := Quux], []))
  {
    var rest: seq<string> := ["bar"];
    var input := ["--quux", "hello"] + (["foo"] + rest);
    assert input == ["--quux", "hello", "foo", "bar"];
    DescendBareBar(map["quux" := Quux]);
    DemoRootNamespace();
    AppQuuxFirst(rest);
    RouteThrough(DemoApp, input, Parsed(Some(Foo), map["quux" := Quux], [], rest), Success(RouteResult(Bar, map["quux" := Quux], [])));
  }

  /** `--quux=hello foo bar` routes the same way. */
  lemma RouteQuuxJoinedFooBar()
    ensures Route(DemoApp, ["--quux=hello", "foo", "bar"]) == Success(RouteResult(Bar, map["quux" := Quux], []))
  {
    var rest: seq<string> := ["bar"];
    var input := ["--quux=hello"] + (["foo"] + rest);
    assert input == ["--quux=hello", "foo", "bar"];
    DescendBareBar(map["quux" := Quux]);
    DemoRootNamespace();
    AppQuuxJoinedFirst(rest);
    RouteThrough(DemoApp, input, Parsed(Some(Foo), map["quux" := Quux], [], rest), Success(RouteResult(Bar, map["quux" := Quux], [])));
  }

  /**
    `--baaz foo bar --quux hello`: the global bool flag given without a
    value is `true` with an empty raw value, and `bar`'s flag is merged in.
   */
  lemma RouteBaazFooBarQuux()
    ensures Route(DemoApp, ["--baaz", "foo", "bar", "--quux", "hello"])
         == Success(RouteResult(Bar, map["baaz" := Baaz, "quux" := Quux], []))
  {
    var tail: seq<string> := ["--quux", "hello"];
    var rest := ["bar"] + tail;
    var input := ["--baaz"] + (["foo"] + rest);
    assert input == ["--baaz", "foo", "bar", "--quux", "hello"];
    BarLevel();
    DescendFooBar(map["baaz" := Baaz], tail, map["quux" := Quux]);
    DemoMerges();
    DemoRootNamespace();
    AppBaazFirst(rest);
    RouteThrough(DemoApp, input, Parsed(Some(Foo), map["baaz" := Baaz], [], rest),
      Success(RouteResult(Bar, map["baaz" := Baaz, "quux" := Quux], [])));
  }

  lemma HelpNamespace()
    ensures Namespace(CommandNode(HelpCmd)) == Success(map[])
  {
    assert FlagDefs.ListFlagDefs(CommandNode(HelpCmd), true) == [];
  }

  /** `help` has no subcommands and takes no arguments, so a token after it is refused there. */
  lemma HelpRefusesSurplus()
    ensures Parse(CommandNode(HelpCmd), ["surplus"], false) == Failure(UnexpectedCommandArg("surplus"))
  {
    var none: seq<string> := [];
    var empty: map<string, Flag> := map[];
    assert ["surplus"] == ["surplus"] + none;
    assert !IsFlagToken("surplus");
    HelpNamespace();
    WordToken(CommandNode(HelpCmd), map[], "surplus", none, false, Closed, empty, none);
    ScanStep(CommandNode(HelpCmd), map[], ["surplus"] + none, false, Closed, empty, none);
    ParseRunsScan(CommandNode(HelpCmd), ["surplus"] + none, false);
  }

  /**
    `help surplus`: the token left after the leaf command `help` is refused
    by `help`'s own level as an unexpected argument; routing never gets to
    report it as extra input.
   */
  lemma RouteHelpSurplus()
    ensures Route(DemoApp, ["help", "surplus"]) == Failure(UnexpectedCommandArg("surplus"))
  {
    var none: seq<string> := [];
    var empty: map<string, Flag> := map[];
    var tail: seq<string> := ["surplus"];
    var root := Parsed(Some(HelpCmd), empty, none, tail);
    AppSelectsHelp(tail);
    assert ["help"] + tail == ["help", "surplus"];
    HelpRefusesSurplus();
    RouteLoopFails(DemoApp, root, RouteResult(ZeroCommand, empty, none), [], HelpCmd, UnexpectedCommandArg("surplus"));
    DemoRootNamespace();
    RouteThrough(DemoApp, ["help", "surplus"], root, Failure(UnexpectedCommandArg("surplus")));
  }

  /** `Run` on `foo bar --quux hello` hands `bar`'s handler the routed flags and no arguments. */
  lemma RunFooBarQuux(build: Build, handle: Handle)
    ensures var built := build(HandlerBuilder(1), map["quux" := Quux], []);
      Run(DemoApp, ["foo", "bar", "--quux", "hello"], build, handle)
        == if built > 0 then built else handle(HandlerBuilder(1), map["quux" := Quux], [], built)
  {
    RouteFooBarQuux();
  }
}
