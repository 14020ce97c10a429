/**
 * Commands and their options as the loader sees them, and the manifest
 * entry it builds for a slash command.
 *
 * The loader never writes a command's name, aliases, description key,
 * options array, permissions or slash flag, so those are constant fields
 * here; it does write `category`, and it rewrites each option's
 * description and locale maps in place.
 */
module Commands {
  import opened Wrappers
  import opened Localization

  /** `ApplicationCommandType.ChatInput` of the chat platform's API. */
  const ChatInput: int := 1

  /** `command.permissions.user`: either an array of permission flags or
      something else (absent, a single value, ...). */
  datatype UserPermissions = FlagArray(flags: seq<string>) | NotAnArray

  /** One option of a command. The loader rewrites its description and
      its locale maps in place, in the command's options array. */
  datatype CommandOption = CommandOption(
    name: string,
    description: string,
    nameLocalizations: Option<LocaleMap>,
    descriptionLocalizations: Option<LocaleMap>)

  /** An option after localization: both locale maps are spread from its
      ORIGINAL description key, then the description is replaced by that
      key's English text. */
  function LocalizeOption(i18n: I18n, o: CommandOption): CommandOption
  {
    var ls := Localizations(i18n, o.name, o.description);
    o.(description := i18n.t(EnglishUS, o.description),
       nameLocalizations := Spread(o.nameLocalizations, NamePairs(ls)),
       descriptionLocalizations := Spread(o.descriptionLocalizations, DescriptionPairs(ls)))
  }

  /** Every option localized, in place and in order. */
  function LocalizeAll(i18n: I18n, os: seq<CommandOption>): seq<CommandOption>
  {
    seq(|os|, k requires 0 <= k < |os| => LocalizeOption(i18n, os[k]))
  }

  /** A localized option keeps its name and its earlier locale keys and
      gains every language `localization` returns for it; when
      `localization` echoes its locale and the option had no maps, the keys
      are exactly the configured locales. Its new description is the English
      text of the key the maps were built from. */
  lemma LocalizeOptionKeys(i18n: I18n, o: CommandOption)
    ensures var r := LocalizeOption(i18n, o);
      var ls := Localizations(i18n, o.name, o.description);
      && r.name == o.name
      && r.description == i18n.t(EnglishUS, o.description)
      && KeysOf(r.nameLocalizations) == KeysOf(o.nameLocalizations) + Languages(NamePairs(ls))
      && KeysOf(r.descriptionLocalizations) == KeysOf(o.descriptionLocalizations) + Languages(DescriptionPairs(ls))
    ensures Echoes(i18n, o.name, o.description) && o.nameLocalizations.None? && o.descriptionLocalizations.None? ==>
      var r := LocalizeOption(i18n, o);
      && KeysOf(r.nameLocalizations) == (set l | l in i18n.locales)
      && KeysOf(r.descriptionLocalizations) == (set l | l in i18n.locales)
  {
    var ls := Localizations(i18n, o.name, o.description);
    SpreadKeys(o.nameLocalizations, NamePairs(ls));
    SpreadKeys(o.descriptionLocalizations, DescriptionPairs(ls));
    if Echoes(i18n, o.name, o.description) && o.nameLocalizations.None? && o.descriptionLocalizations.None? {
      EchoedLocalizationMaps(i18n, o.name, o.description);
    }
  }

  /** The `command.options.map(option => ...)` pass: localizes every option
      of the array in place. */
  method LocalizeOptions(options: array<CommandOption>, i18n: I18n)
    modifies options
    ensures options[..] == LocalizeAll(i18n, old(options[..]))
  {
    for i := 0 to options.Length
      invariant forall k :: 0 <= k < i ==> options[k] == LocalizeOption(i18n, old(options[k]))
      invariant forall k :: i <= k < options.Length ==> options[k] == old(options[k])
    {
      var localized := LocalizeOne(options[i], i18n);
      options[i] := localized;
    }
  }

  /** The body of the `map` callback for one option. */
  method LocalizeOne(option: CommandOption, i18n: I18n) returns (r: CommandOption)
    ensures r == LocalizeOption(i18n, option)
  {
    var ls := Localizations(i18n, option.name, option.description);
    var names, descriptions := SpreadLocalizations(option.nameLocalizations, option.descriptionLocalizations, ls);
    r := option.(nameLocalizations := names, descriptionLocalizations := descriptions,
                 description := i18n.t(EnglishUS, option.description));
  }

  /** A command instance, as its module's constructor left it. */
  class Command {
    const name: string
    const aliases: seq<string>
    var category: string
    const description: string                 // description.content: a translation key
    const options: array?<CommandOption>      // null: `options` left undefined
    const userPermissions: UserPermissions
    const slashCommand: bool

    constructor (name: string, aliases: seq<string>, description: string,
                 options: array?<CommandOption>, userPermissions: UserPermissions, slashCommand: bool)
      ensures this.name == name && this.aliases == aliases && this.description == description
      ensures this.options == options && this.userPermissions == userPermissions
      ensures this.slashCommand == slashCommand && category == ""
    {
      this.name := name;
      this.aliases := aliases;
      this.description := description;
      this.options := options;
      this.userPermissions := userPermissions;
      this.slashCommand := slashCommand;
      category := "";
    }
  }

  /** A command can be loaded without a TypeError: a slash command must have
      an options array, since the loader reads `command.options.length`. */
  predicate Loadable(cmd: Command) {
    !cmd.slashCommand || cmd.options != null
  }

  /** `default_member_permissions`: no restriction (null) unless the user
      permissions are a non-empty array, which is resolved to a bitmask
      string. */
  function DefaultMemberPermissions(user: UserPermissions, resolve: seq<string> -> string): (r: Option<string>)
    ensures r.None? <==> user.NotAnArray? || |user.flags| == 0
    ensures r.Some? ==> r.value == resolve(user.flags)
  {
    if user.FlagArray? && |user.flags| > 0 then Some(resolve(user.flags)) else None
  }

  /** One entry of the slash-command manifest. `options` is the command's
      own options array (the same object, not a copy); it is null only in
      the entry of a command without options, which the loader never
      pushes. */
  datatype Entry = Entry(
    name: string,
    description: string,
    kind: int,
    options: array?<CommandOption>,
    defaultMemberPermissions: Option<string>,
    nameLocalizations: Option<LocaleMap>,
    descriptionLocalizations: Option<LocaleMap>)

  /** The entry the loader pushes for a slash command. */
  function EntryFor(cmd: Command, i18n: I18n, resolve: seq<string> -> string): Entry
  {
    var ls := Localizations(i18n, cmd.name, cmd.description);
    Entry(
      cmd.name,
      i18n.t(EnglishUS, cmd.description),
      ChatInput,
      cmd.options,
      DefaultMemberPermissions(cmd.userPermissions, resolve),
      Spread(None, NamePairs(ls)),
      Spread(None, DescriptionPairs(ls)))
  }

  /** The entry's locale maps hold exactly one key per configured locale
      when `localization` keys its result by the locale it was given, and
      each key holds the text `localization` returned for that locale. */
  lemma EntryLocalizations(cmd: Command, i18n: I18n, resolve: seq<string> -> string)
    requires Echoes(i18n, cmd.name, cmd.description)
    ensures var e := EntryFor(cmd, i18n, resolve);
      && (e.nameLocalizations.None? <==> |i18n.locales| == 0)
      && (e.descriptionLocalizations.None? <==> |i18n.locales| == 0)
      && KeysOf(e.nameLocalizations) == set l | l in i18n.locales
      && KeysOf(e.descriptionLocalizations) == set l | l in i18n.locales
      && (forall l :: l in KeysOf(e.nameLocalizations) ==>
            e.nameLocalizations.value[l] == i18n.localization(l, cmd.name, cmd.description).name.1)
      && (forall l :: l in KeysOf(e.descriptionLocalizations) ==>
            e.descriptionLocalizations.value[l] == i18n.localization(l, cmd.name, cmd.description).description.1)
  {
    EchoedLocalizationMaps(i18n, cmd.name, cmd.description);
  }

  /** The alias table after `aliases.forEach(alias => table.set(alias, name))`. */
  function SetAliases(table: map<string, string>, aliases: seq<string>, name: string): map<string, string>
  {
    if |aliases| == 0 then table
    else SetAliases(table, aliases[..|aliases| - 1], name)[aliases[|aliases| - 1] := name]
  }

  /** Every alias of the command now names it; all other entries are kept. */
  lemma {:induction false} SetAliasesMeaning(table: map<string, string>, aliases: seq<string>, name: string)
    ensures SetAliases(table, aliases, name) == table + map a | a in aliases :: name
  {
    if |aliases| > 0 {
      var front := aliases[..|aliases| - 1];
      SetAliasesMeaning(table, front, name);
      assert (map a | a in aliases :: name) == (map a | a in front :: name)[aliases[|aliases| - 1] := name] by {
        assert forall a :: a in aliases <==> a in front || a == aliases[|aliases| - 1] by {
          assert aliases == front + [aliases[|aliases| - 1]];
        }
      }
    }
  }
}
