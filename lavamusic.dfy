/**
 * The bot client's command registry: the loop that registers every
 * command and alias and assembles the slash-command manifest, and the loop
 * that subscribes event handlers on the right bus.
 *
 * The directory walk and the dynamic module imports are replaced by an
 * ordered listing of (directory, instance) pairs, in directory order then
 * file order.
 */
module Registry {
  import opened Wrappers
  import opened Localization
  import opened Commands
  import opened Routing

  /** Command instances with the directory each was found in. */
  type Listing = seq<(string, Command)>

  /** The name table after `commands.set(command.name, command)` for each
      of the first `n` listed commands, in order. */
  function CommandsAfter(table: map<string, Command>, listing: Listing, n: nat): map<string, Command>
    requires n <= |listing|
  {
    if n == 0 then table
    else
      var last := listing[n - 1].1;
      CommandsAfter(table, listing, n - 1)[last.name := last]
  }

  /** The alias table after registering the aliases of each of the first
      `n` listed commands, in order. */
  function AliasesAfter(table: map<string, string>, listing: Listing, n: nat): map<string, string>
    requires n <= |listing|
  {
    if n == 0 then table
    else
      var last := listing[n - 1].1;
      SetAliases(AliasesAfter(table, listing, n - 1), last.aliases, last.name)
  }

  /** The manifest body after pushing `entry(command)` for each slash
      command among the first `n` listed, in order. A slash command without
      options never gets its entry pushed; a loadable listing has none. */
  function BodyAfter(body: seq<Entry>, listing: Listing, n: nat, entry: Command -> Entry): seq<Entry>
    requires n <= |listing|
  {
    if n == 0 then body
    else
      var last := listing[n - 1].1;
      BodyAfter(body, listing, n - 1, entry) + (if last.slashCommand && last.options != null then [entry(last)] else [])
  }

  /** The number of slash commands among the first `n` listed. */
  function SlashCount(listing: Listing, n: nat): nat
    requires n <= |listing|
  {
    if n == 0 then 0
    else SlashCount(listing, n - 1) + (if listing[n - 1].1.slashCommand then 1 else 0)
  }

  /** The index of the first command whose loading throws, or the length of
      the listing when none does. */
  function FirstUnloadable(listing: Listing): (n: nat)
    ensures n <= |listing|
    ensures forall k :: 0 <= k < n ==> Loadable(listing[k].1)
    ensures n < |listing| ==> !Loadable(listing[n].1)
  {
    if |listing| == 0 then 0
    else if !Loadable(listing[0].1) then 0
    else 1 + FirstUnloadable(listing[1..])
  }

  /** A later command with the same name replaces an earlier one: a name
      maps to the last command listed under it. */
  lemma {:induction false} CommandsAfterLatest(table: map<string, Command>, listing: Listing, n: nat, k: nat)
    requires k < n <= |listing|
    requires forall j :: k < j < n ==> listing[j].1.name != listing[k].1.name
    ensures listing[k].1.name in CommandsAfter(table, listing, n)
    ensures CommandsAfter(table, listing, n)[listing[k].1.name] == listing[k].1
  {
    if k < n - 1 {
      CommandsAfterLatest(table, listing, n - 1, k);
    }
  }

  /** Alias collisions are last-write-wins: an alias maps to the name of the
      last listed command that declares it. */
  lemma {:induction false} AliasesAfterLatest(table: map<string, string>, listing: Listing, n: nat, k: nat, alias: string)
    requires k < n <= |listing| && alias in listing[k].1.aliases
    requires forall j :: k < j < n ==> alias !in listing[j].1.aliases
    ensures alias in AliasesAfter(table, listing, n)
    ensures AliasesAfter(table, listing, n)[alias] == listing[k].1.name
  {
    var last := listing[n - 1].1;
    SetAliasesMeaning(AliasesAfter(table, listing, n - 1), last.aliases, last.name);
    if k < n - 1 {
      AliasesAfterLatest(table, listing, n - 1, k, alias);
    }
  }

  /** Every alias resolves, through one lookup, to a registered command,
      provided it did so before loading. */
  lemma {:induction false} AliasesResolve(commands: map<string, Command>, aliases: map<string, string>, listing: Listing, n: nat)
    requires n <= |listing|
    requires forall a :: a in aliases ==> aliases[a] in commands
    ensures forall a :: a in AliasesAfter(aliases, listing, n) ==>
      AliasesAfter(aliases, listing, n)[a] in CommandsAfter(commands, listing, n)
  {
    if n > 0 {
      var last := listing[n - 1].1;
      AliasesResolve(commands, aliases, listing, n - 1);
      SetAliasesMeaning(AliasesAfter(aliases, listing, n - 1), last.aliases, last.name);
    }
  }

  /** The load pushes exactly one entry per slash command. */
  lemma {:induction false} BodyAfterLength(body: seq<Entry>, listing: Listing, n: nat, entry: Command -> Entry)
    requires n <= |listing|
    requires forall k :: 0 <= k < n ==> Loadable(listing[k].1)
    ensures |BodyAfter(body, listing, n, entry)| == |body| + SlashCount(listing, n)
  {
    if n > 0 {
      BodyAfterLength(body, listing, n - 1, entry);
    }
  }

  /** The entry of a slash command sits after the body the load started
      from and the entries of the slash commands listed before it: manifest
      order is load order. */
  lemma {:induction false} BodyAfterPosition(body: seq<Entry>, listing: Listing, n: nat, k: nat, entry: Command -> Entry)
    requires n <= |listing|
    requires forall j :: 0 <= j < n ==> Loadable(listing[j].1)
    requires k < n && listing[k].1.slashCommand
    ensures |body| + SlashCount(listing, k) < |BodyAfter(body, listing, n, entry)|
    ensures BodyAfter(body, listing, n, entry)[|body| + SlashCount(listing, k)] == entry(listing[k].1)
  {
    assert Loadable(listing[k].1);
    if k == n - 1 {
      BodyAfterLength(body, listing, k, entry);
    } else {
      BodyAfterPosition(body, listing, n - 1, k, entry);
    }
  }

  /** The options arrays after the first `n` turns of the loop: those of
      the slash commands among the first `n` are localized, all others hold
      what they held before (`before`, by listing position). */
  ghost predicate OptionsAfter(listing: Listing, n: nat, i18n: I18n, before: seq<seq<CommandOption>>)
    reads set k | 0 <= k < |listing| && listing[k].1.options != null :: listing[k].1.options
  {
    && |before| == |listing|
    && forall k :: 0 <= k < |listing| && listing[k].1.options != null ==>
      listing[k].1.options[..] ==
        if k < n && listing[k].1.slashCommand then LocalizeAll(i18n, before[k]) else before[k]
  }

  /** The bot client, reduced to the state the loaders fill in. */
  class Lavamusic {
    var commands: map<string, Command>
    var aliases: map<string, string>
    var body: seq<Entry>
    var clientListeners: seq<EventHandler>
    var nodeListeners: seq<EventHandler>

    /** Every alias resolves to a registered command name. */
    ghost predicate Valid()
      reads this
    {
      forall a :: a in aliases ==> aliases[a] in commands
    }

    constructor ()
      ensures Valid()
      ensures commands == map[] && aliases == map[] && body == []
      ensures clientListeners == [] && nodeListeners == []
    {
      commands, aliases, body := map[], map[], [];
      clientListeners, nodeListeners := [], [];
    }

    /** One iteration of the command loop: register the command and its
        aliases and, for a slash command, localize its options and push its
        manifest entry. `ok` is false when reading `command.options.length`
        throws, which happens after the command and its aliases were set. */
    method LoadCommand(dir: string, cmd: Command, i18n: I18n, resolve: seq<string> -> string) returns (ok: bool)
      requires Valid()
      modifies this, cmd, cmd.options
      ensures Valid()
      ensures ok <==> Loadable(cmd)
      ensures cmd.category == dir
      ensures commands == old(commands)[cmd.name := cmd]
      ensures aliases == SetAliases(old(aliases), cmd.aliases, cmd.name)
      ensures body == if ok && cmd.slashCommand then old(body) + [EntryFor(cmd, i18n, resolve)] else old(body)
      ensures clientListeners == old(clientListeners) && nodeListeners == old(nodeListeners)
      ensures ok && cmd.slashCommand ==> body[|body| - 1].options == cmd.options
      ensures ok && cmd.slashCommand ==> cmd.options[..] == LocalizeAll(i18n, old(cmd.options[..]))
      ensures !(ok && cmd.slashCommand) && cmd.options != null ==> cmd.options[..] == old(cmd.options[..])
    {
      cmd.category := dir;
      commands := commands[cmd.name := cmd];
      RegisterAliases(cmd);
      ok := true;
      if cmd.slashCommand {
        if cmd.options == null {
          ok := false;
          return;
        }
        PushEntry(cmd, i18n, resolve);
      }
    }

    /** `command.aliases.forEach(alias => aliases.set(alias, command.name))`. */
    method RegisterAliases(cmd: Command)
      requires Valid() && cmd.name in commands
      modifies this`aliases
      ensures Valid()
      ensures aliases == SetAliases(old(aliases), cmd.aliases, cmd.name)
    {
      for i := 0 to |cmd.aliases|
        invariant aliases == SetAliases(old(aliases), cmd.aliases[..i], cmd.name)
        invariant Valid()
      {
        assert cmd.aliases[..i + 1][..i] == cmd.aliases[..i];
        aliases := aliases[cmd.aliases[i] := cmd.name];
      }
      assert cmd.aliases[..|cmd.aliases|] == cmd.aliases;
    }

    /** The slash-command branch: build the entry with its locale maps,
        localize the options in place and push the entry. */
    method PushEntry(cmd: Command, i18n: I18n, resolve: seq<string> -> string)
      requires cmd.options != null
      modifies this`body, cmd.options
      ensures body == old(body) + [EntryFor(cmd, i18n, resolve)]
      ensures cmd.options[..] == LocalizeAll(i18n, old(cmd.options[..]))
    {
      var ls := Localizations(i18n, cmd.name, cmd.description);
      var names, descriptions := SpreadLocalizations(None, None, ls);
      var data := Entry(
        cmd.name,
        i18n.t(EnglishUS, cmd.description),
        ChatInput,
        cmd.options,
        DefaultMemberPermissions(cmd.userPermissions, resolve),
        names,
        descriptions);
      LocalizeOptions(cmd.options, i18n);
      body := body + [data];
    }

    /** The command loop over the whole listing. It stops at the first
        command whose loading throws; that command is already registered. */
    method LoadCommands(listing: Listing, i18n: I18n, resolve: seq<string> -> string, ghost footprint: set<object>)
      returns (ok: bool)
      requires Valid()
      requires forall j, k :: 0 <= j < k < |listing| ==> listing[j].1 != listing[k].1
      requires forall j, k :: 0 <= j < k < |listing| && listing[j].1.options != null ==>
        listing[j].1.options != listing[k].1.options
      requires forall k :: 0 <= k < |listing| ==>
        listing[k].1 in footprint && (listing[k].1.options != null ==> listing[k].1.options in footprint)
      modifies this, footprint
      ensures Valid()
      ensures var n := FirstUnloadable(listing);
        var stop := if n < |listing| then n + 1 else n;
        && ok == (n == |listing|)
        && commands == CommandsAfter(old(commands), listing, stop)
        && aliases == AliasesAfter(old(aliases), listing, stop)
        && body == BodyAfter(old(body), listing, n, (c: Command) => EntryFor(c, i18n, resolve))
        && (forall k :: 0 <= k < stop ==> listing[k].1.category == listing[k].0)
        && (forall k :: 0 <= k < |listing| && listing[k].1.options != null ==>
              listing[k].1.options[..] ==
                if k < n && listing[k].1.slashCommand then LocalizeAll(i18n, old(listing[k].1.options[..]))
                else old(listing[k].1.options[..]))
      ensures clientListeners == old(clientListeners) && nodeListeners == old(nodeListeners)
    {
      ghost var before := seq(|listing|, k
        requires 0 <= k < |listing|
        reads if 0 <= k < |listing| && listing[k].1.options != null then {listing[k].1.options} else {}
        => if listing[k].1.options != null then listing[k].1.options[..] else []);
      ok := true;
      var i := 0;
      while i < |listing|
        invariant 0 <= i <= |listing|
        invariant Valid()
        invariant i <= FirstUnloadable(listing)
        invariant commands == CommandsAfter(old(commands), listing, i)
        invariant aliases == AliasesAfter(old(aliases), listing, i)
        invariant body == BodyAfter(old(body), listing, i, (c: Command) => EntryFor(c, i18n, resolve))
        invariant forall k :: 0 <= k < i ==> listing[k].1.category == listing[k].0
        invariant OptionsAfter(listing, i, i18n, before)
        invariant forall k :: 0 <= k < |listing| && listing[k].1.options != null ==>
          before[k] == old(listing[k].1.options[..])
        invariant clientListeners == old(clientListeners) && nodeListeners == old(nodeListeners)
      {
        ok := LoadAt(listing, i, i18n, resolve, old(commands), old(aliases), old(body), before);
        if !ok {
          return;
        }
        i := i + 1;
      }
    }

    /** One turn of the command loop, stated against the listing. */
    method LoadAt(listing: Listing, i: nat, i18n: I18n, resolve: seq<string> -> string,
                   ghost commands0: map<string, Command>, ghost aliases0: map<string, string>, ghost body0: seq<Entry>,
                   ghost before: seq<seq<CommandOption>>)
      returns (ok: bool)
      requires i < |listing| && i <= FirstUnloadable(listing)
      requires Valid()
      requires commands == CommandsAfter(commands0, listing, i)
      requires aliases == AliasesAfter(aliases0, listing, i)
      requires body == BodyAfter(body0, listing, i, (c: Command) => EntryFor(c, i18n, resolve))
      requires forall k :: 0 <= k < i ==> listing[k].1 != listing[i].1
      requires forall k :: 0 <= k < i ==> listing[k].1.category == listing[k].0
      requires forall k :: 0 <= k < |listing| && k != i && listing[k].1.options != null ==>
        listing[k].1.options != listing[i].1.options
      requires OptionsAfter(listing, i, i18n, before)
      modifies this, listing[i].1, listing[i].1.options
      ensures Valid()
      ensures ok <==> i < FirstUnloadable(listing)
      ensures commands == CommandsAfter(commands0, listing, i + 1)
      ensures aliases == AliasesAfter(aliases0, listing, i + 1)
      ensures ok ==> body == BodyAfter(body0, listing, i + 1, (c: Command) => EntryFor(c, i18n, resolve))
      ensures !ok ==> body == BodyAfter(body0, listing, i, (c: Command) => EntryFor(c, i18n, resolve))
      ensures forall k :: 0 <= k <= i ==> listing[k].1.category == listing[k].0
      ensures ok ==> OptionsAfter(listing, i + 1, i18n, before)
      ensures !ok ==> OptionsAfter(listing, i, i18n, before)
      ensures clientListeners == old(clientListeners) && nodeListeners == old(nodeListeners)
    {
      var dir, cmd := listing[i].0, listing[i].1;
      ok := LoadCommand(dir, cmd, i18n, resolve);
    }

    /** The event loop: subscribe each handler on the bus its directory
        selects, in listing order. */
    method LoadEvents(listing: seq<(string, EventHandler)>)
      modifies this
      ensures clientListeners == old(clientListeners) + Subscriptions(listing, ClientBus)
      ensures nodeListeners == old(nodeListeners) + Subscriptions(listing, NodeBus)
      ensures commands == old(commands) && aliases == old(aliases) && body == old(body)
    {
      for i := 0 to |listing|
        invariant clientListeners == old(clientListeners) + Subscriptions(listing[..i], ClientBus)
        invariant nodeListeners == old(nodeListeners) + Subscriptions(listing[..i], NodeBus)
        invariant commands == old(commands) && aliases == old(aliases) && body == old(body)
      {
        assert listing[..i + 1][..i] == listing[..i];
        var dir, event := listing[i].0, listing[i].1;
        if dir == "player" {
          nodeListeners := nodeListeners + [event];
        } else {
          clientListeners := clientListeners + [event];
        }
      }
      assert listing[..|listing|] == listing;
    }
  }
}
