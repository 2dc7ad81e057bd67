/**
  The flag namespace of one level of the tree: `listFlagDefs` collects the
  flag definitions visible while a node is being parsed, and the namespace
  maps each lower-cased name and alias to its definition, refusing a key
  that is already taken.
 */
module FlagDefs {
  import opened Wrappers
  import opened Text
  import opened Tree
  import opened Errors

  // ----------------------------------------------------------- listFlagDefs

  /** The node's own definitions that are visible: all of them on the active node, the unrestricted ones elsewhere. */
  function OwnVisible(defs: seq<FlagDef>, active: bool): (r: seq<FlagDef>)
    ensures forall d :: d in r <==> d in defs && (!d.onlyAfterCommandName || active)
    ensures active ==> r == defs
  {
    if defs == [] then []
    else if !defs[0].onlyAfterCommandName || active then [defs[0]] + OwnVisible(defs[1..], active)
    else OwnVisible(defs[1..], active)
  }

  /** `listFlagDefs(cmd, active)` for a command. */
  function CommandFlagDefs(cmd: Command, active: bool): (r: seq<FlagDef>)
    ensures !active ==> forall d :: d in r ==> !d.onlyAfterCommandName
  {
    OwnVisible(cmd.flags, active) + SubcommandFlagDefs(cmd.subcommands)
  }

  /** The definitions of each subcommand in declaration order, every one visited as inactive. */
  function SubcommandFlagDefs(subs: seq<Command>): (r: seq<FlagDef>)
    ensures forall d :: d in r ==> !d.onlyAfterCommandName
  {
    if subs == [] then [] else CommandFlagDefs(subs[0], false) + SubcommandFlagDefs(subs[1..])
  }

  /**
    `listFlagDefs(node, active)`: the node's own visible definitions first,
    then every descendant's unrestricted ones. A restricted definition is
    only ever seen on the active node that owns it.
   */
  function ListFlagDefs(node: Parseable, active: bool): (r: seq<FlagDef>)
    ensures forall d :: d in r && d.onlyAfterCommandName ==> active && d in node.Flags()
  {
    OwnVisible(node.Flags(), active) + SubcommandFlagDefs(node.Subcommands())
  }

  // ------------------------------------------------- reference: whole tree

  /** Every definition in a command's subtree, restricted or not, in tree order. */
  function TreeFlagDefs(cmd: Command): seq<FlagDef> {
    cmd.flags + ForestFlagDefs(cmd.subcommands)
  }

  function ForestFlagDefs(subs: seq<Command>): seq<FlagDef> {
    if subs == [] then [] else TreeFlagDefs(subs[0]) + ForestFlagDefs(subs[1..])
  }

  /** The unrestricted definitions of a sequence, in order. */
  function Unrestricted(defs: seq<FlagDef>): seq<FlagDef> {
    OwnVisible(defs, false)
  }

  lemma {:induction false} UnrestrictedAppend(a: seq<FlagDef>, b: seq<FlagDef>)
    ensures Unrestricted(a + b) == Unrestricted(a) + Unrestricted(b)
    decreases |a|
  {
    if a == [] {
      assert a + b == b;
    } else {
      assert (a + b)[1..] == a[1..] + b;
      UnrestrictedAppend(a[1..], b);
    }
  }

  /**
    Filtering while walking the tree is filtering the whole subtree: what a
    command contributes to an ancestor's namespace is exactly the
    unrestricted definitions anywhere in its subtree, in tree order.
   */
  lemma {:induction false} CommandFlagDefsAreUnrestrictedSubtree(cmd: Command)
    ensures CommandFlagDefs(cmd, false) == Unrestricted(TreeFlagDefs(cmd))
    decreases cmd, 1
  {
    SubcommandFlagDefsAreUnrestrictedForest(cmd.subcommands);
    UnrestrictedAppend(cmd.flags, ForestFlagDefs(cmd.subcommands));
  }

  lemma {:induction false} SubcommandFlagDefsAreUnrestrictedForest(subs: seq<Command>)
    ensures SubcommandFlagDefs(subs) == Unrestricted(ForestFlagDefs(subs))
    decreases subs, 0
  {
    if subs != [] {
      CommandFlagDefsAreUnrestrictedSubtree(subs[0]);
      SubcommandFlagDefsAreUnrestrictedForest(subs[1..]);
      UnrestrictedAppend(TreeFlagDefs(subs[0]), ForestFlagDefs(subs[1..]));
    }
  }

  /** The namespace of an active node: all its own definitions, then every unrestricted one below it. */
  lemma ActiveListing(node: Parseable)
    ensures ListFlagDefs(node, true) == node.Flags() + Unrestricted(ForestFlagDefs(node.Subcommands()))
  {
    SubcommandFlagDefsAreUnrestrictedForest(node.Subcommands());
  }

  // ------------------------------------------------------------- namespace

  /** A lower-cased namespace key and the definition it resolves to. */
  type Entry = (string, FlagDef)

  /** A definition's keys in insertion order: its name, then each alias, all lower-cased. */
  function DefEntries(d: FlagDef): (r: seq<Entry>)
    ensures |r| == |d.aliases| + 1
    ensures r[0] == (ToLower(d.name), d)
    ensures forall i :: 0 <= i < |d.aliases| ==> r[i + 1] == (ToLower(d.aliases[i]), d)
  {
    [(ToLower(d.name), d)] + AliasEntries(d.aliases, d)
  }

  function AliasEntries(aliases: seq<string>, d: FlagDef): (r: seq<Entry>)
    ensures |r| == |aliases|
    ensures forall i :: 0 <= i < |aliases| ==> r[i] == (ToLower(aliases[i]), d)
  {
    if aliases == [] then [] else [(ToLower(aliases[0]), d)] + AliasEntries(aliases[1..], d)
  }

  /** Every key the nested name/alias loops insert, in the order they insert them. */
  function Entries(defs: seq<FlagDef>): seq<Entry> {
    if defs == [] then [] else DefEntries(defs[0]) + Entries(defs[1..])
  }

  /** Entry `j` collides with the map it is inserted into, or with an earlier entry. */
  ghost predicate Clashes(ns: map<string, FlagDef>, es: seq<Entry>, j: int)
    requires 0 <= j < |es|
  {
    es[j].0 in ns || exists i :: 0 <= i < j && es[i].0 == es[j].0
  }

  /** No entry collides with anything before it. */
  ghost predicate Fresh(ns: map<string, FlagDef>, es: seq<Entry>) {
    forall j :: 0 <= j < |es| ==> !Clashes(ns, es, j)
  }

  /** `j` is the first colliding entry. */
  ghost predicate FirstClash(ns: map<string, FlagDef>, es: seq<Entry>, j: int) {
    0 <= j < |es| && Clashes(ns, es, j) && forall i :: 0 <= i < j ==> !Clashes(ns, es, i)
  }

  /**
    The insertion loop of `parse`: add each entry in turn, and stop at the
    first key already present with `DuplicateFlagNameError(key)`. It
    succeeds exactly when no entry collides; the result then maps every
    entry's key to its definition and keeps what was there; on failure the
    key reported is that of the first colliding entry.
   */
  function InsertEntries(ns: map<string, FlagDef>, es: seq<Entry>): (r: Result<map<string, FlagDef>, Error>)
    ensures r.Success? <==> Fresh(ns, es)
    ensures r.Success? ==> r.value.Keys == ns.Keys + set i | 0 <= i < |es| :: es[i].0
    ensures r.Success? ==> forall i :: 0 <= i < |es| ==> r.value[es[i].0] == es[i].1
    ensures r.Success? ==> forall k :: k in ns ==> r.value[k] == ns[k]
    ensures r.Failure? ==> exists j :: FirstClash(ns, es, j) && r.error == DuplicateFlagName(es[j].0)
    decreases |es|
  {
    if es == [] then Success(ns)
    else if es[0].0 in ns then
      assert FirstClash(ns, es, 0);
      Failure(DuplicateFlagName(es[0].0))
    else
      var ns' := ns[es[0].0 := es[0].1];
      var r := InsertEntries(ns', es[1..]);
      ShiftClashes(ns, es, ns', es[1..]);
      r
  }

  /** Inserting the first entry turns clashes of the rest against the grown map into clashes of the whole sequence. */
  lemma ShiftClashes(ns: map<string, FlagDef>, es: seq<Entry>, ns': map<string, FlagDef>, tl: seq<Entry>)
    requires |es| > 0 && es[0].0 !in ns
    requires ns' == ns[es[0].0 := es[0].1] && tl == es[1..]
    ensures forall j :: 0 <= j < |tl| ==> (Clashes(ns', tl, j) <==> Clashes(ns, es, j + 1))
    ensures Fresh(ns', tl) <==> Fresh(ns, es)
    ensures forall j :: FirstClash(ns', tl, j) ==> FirstClash(ns, es, j + 1)
  {
    forall j | 0 <= j < |tl|
      ensures Clashes(ns', tl, j) <==> Clashes(ns, es, j + 1)
    {
      if Clashes(ns, es, j + 1) && es[j + 1].0 !in ns {
        var i :| 0 <= i < j + 1 && es[i].0 == es[j + 1].0;
        if i > 0 {
          assert tl[i - 1].0 == tl[j].0;
        }
      }
      if Clashes(ns', tl, j) && tl[j].0 !in ns' {
        var i :| 0 <= i < j && tl[i].0 == tl[j].0;
        assert es[i + 1].0 == es[j + 1].0;
      }
    }
    assert !Clashes(ns, es, 0);
    if Fresh(ns', tl) {
      forall j | 0 <= j < |es|
        ensures !Clashes(ns, es, j)
      {
        if j > 0 {
          assert !Clashes(ns', tl, j - 1);
        }
      }
    }
    forall j | FirstClash(ns', tl, j)
      ensures FirstClash(ns, es, j + 1)
    {
      forall i | 0 <= i < j + 1
        ensures !Clashes(ns, es, i)
      {
        if i > 0 {
          assert !Clashes(ns', tl, i - 1);
        }
      }
    }
  }

  /** The namespace built from a list of definitions, or the first duplicate key. */
  function BuildNamespace(defs: seq<FlagDef>): (r: Result<map<string, FlagDef>, Error>)
    ensures r.Success? <==> Fresh(map[], Entries(defs))
    ensures r.Success? ==> r.value.Keys == set i | 0 <= i < |Entries(defs)| :: Entries(defs)[i].0
    ensures r.Success? ==> forall i :: 0 <= i < |Entries(defs)| ==> r.value[Entries(defs)[i].0] == Entries(defs)[i].1
    ensures r.Success? ==> forall k :: k in r.value ==> exists i :: 0 <= i < |Entries(defs)| && Entries(defs)[i].0 == k
    ensures r.Failure? ==>
      exists j :: FirstClash(map[], Entries(defs), j) && r.error == DuplicateFlagName(Entries(defs)[j].0)
  {
    InsertEntries(map[], Entries(defs))
  }
}
