# Lavamusic command registry, in Dafny

This project models the command registry of the Lavamusic bot client
(`src/structures/Lavamusic.ts`). At start-up, `loadCommands` walks the command
directories and registers every command instance. Each command goes into a
name table and each of its aliases into an alias table. For each slash command
it builds a localized manifest entry: locale maps for the name and the
description, a resolved permission bitmask, and options localized in place.
The entries are appended to `body`, which is published on "ready". The model
also covers three small decision rules next to it:

- the publish route (global or one guild);
- the filter that re-emits a button press as `"setupButtons"`;
- the choice of event bus in `loadEvents` (the audio-node client for the
  `player` directory, the bot client for every other directory).

Modules:

- `Wrappers` (`wrappers.dfy`): `Option`, standing for `null`/`undefined`.
- `Localization` (`localization.dfy`): the translation collaborators as
  uninterpreted function values (`I18n`). `Spread` is the meaning of the
  repeated `m = { ...m, [language]: text }`. `SpreadLocalizations` is the loop
  that builds both locale maps. The lemmas say which keys and values result.
- `Commands` (`commands.dfy`): `Command` as a class whose `category` the
  loader writes. Its options are `CommandOption` values in an array, which
  the loader rewrites element by element: each option's description and
  locale maps are updated. The manifest `Entry` refers to the command's own
  options array. `EntryFor` is the entry a slash command produces.
  `SetAliases` is the alias loop. `LocalizeOption` is what one turn of the
  options `map` does to an option.
- `Routing` (`routing.dfy`): the route choice, the setup-button filter, bus
  selection, and the subscription order on each bus.
- `Registry` (`lavamusic.dfy`): class `Lavamusic` with `commands`,
  `aliases`, `body` and the two listener lists. `LoadCommand` is one
  iteration of the command loop. `LoadCommands` is the whole loop over an
  ordered (directory, command) listing; its ghost `footprint` names the
  command instances and options arrays the loop may write. `LoadEvents` is
  the event loop. `CommandsAfter`, `AliasesAfter` and `BodyAfter` say what
  the first `n` turns of the loop produce, and lemmas state its
  properties.

Behaviour as the code has it:

- A duplicate command name silently replaces the earlier command. A shared
  alias goes to the command loaded last. Nothing is checked and nothing
  fails. An alias may also equal another command's name. A design that
  rejects duplicates would differ here; the model follows the code.
- When a slash command leaves `options` undefined, line 87 falls back to
  `[]`. Line 106 then reads `command.options.length` and throws. The command
  and its aliases are already registered by then, its entry is not pushed,
  and the whole load stops. `LoadCommand` returns `ok == false` in that case.
  `LoadCommands` stops there, and its contract names exactly which commands
  were registered (`FirstUnloadable`).
- The keys of the locale maps are the languages that `localization`
  returns, not necessarily the locales passed to it. The maps have exactly
  one key per configured locale only when `localization` echoes its locale
  (`Echoes`). A duplicated locale is written twice; the last write wins.
  With no locales the loop at lines 98-103 never runs, so nothing is
  written and the maps keep the `null` set at lines 90-91.
- An option's locale maps are built from its original description key.
  Its description is then overwritten with the English text. The maps
  spread over whatever the option already held. The entry's `options` is
  the same array object, so the pushed entry carries the localized options.

## Model

| member | source | states |
|---|---|---|
| `Localization.SpreadLocalizations` | src/structures/Lavamusic.ts:98-103 | the locale loop yields exactly the fold `Spread` of the name pairs and of the description pairs, starting from the given maps |
| `Localization.SpreadKeys` | src/structures/Lavamusic.ts:101-102 | a spread map is null iff it started null and nothing was written; its keys are the old keys plus every language written |
| `Localization.SpreadLastWriteWins` | src/structures/Lavamusic.ts:101-102 | the text under a language is that of the last pair naming it |
| `Localization.SpreadKeepsUnwritten` | src/structures/Lavamusic.ts:116-117 | a key already in an option's map that no pair writes keeps its text |
| `Localization.EchoedSpread` | src/structures/Lavamusic.ts:98-103 | one pair per locale keyed by that locale gives exactly the map locale -> text over the locale set, or null for no locales |
| `Localization.EchoedLocalizationMaps` | src/structures/Lavamusic.ts:94-103 | when `localization` echoes its locale, both maps have exactly the configured locales as keys, each holding that locale's localized name / description; with no locales both stay null |
| `Commands.LocalizeOptionKeys` | src/structures/Lavamusic.ts:107-121 | a localized option keeps its name and earlier keys, gains every language returned for it (exactly the configured locales when it had no maps and `localization` echoes), and its description becomes the English text of its original key |
| `Commands.LocalizeOptions` | src/structures/Lavamusic.ts:106-122 | the options array afterwards holds, position by position, each original option localized |
| `Commands.LocalizeOne` | src/structures/Lavamusic.ts:107-121 | one option's maps are spread from its original description key, and its description becomes that key's English text |
| `Commands.DefaultMemberPermissions` | src/structures/Lavamusic.ts:88-89 | null exactly when the user permissions are not an array or are empty; otherwise the resolved bitmask string |
| `Commands.EntryLocalizations` | src/structures/Lavamusic.ts:83-103 | a slash command's entry has exactly the configured locales as keys of both maps, each holding that locale's text, and the maps are null iff there are no locales |
| `Commands.SetAliasesMeaning` | src/structures/Lavamusic.ts:78-80 | after the alias loop every alias of the command names it, and every other alias entry is kept |
| `Registry.FirstUnloadable` | src/structures/Lavamusic.ts:87-106 | the position of the first slash command without options (the one whose load throws), with every command before it loadable |
| `Registry.CommandsAfterLatest` | src/structures/Lavamusic.ts:77 | a name maps to the last command loaded under it; earlier ones are replaced without error |
| `Registry.AliasesAfterLatest` | src/structures/Lavamusic.ts:78-80 | an alias maps to the name of the last loaded command that declares it |
| `Registry.AliasesResolve` | src/structures/Lavamusic.ts:77-80 | every alias resolves through one lookup to a registered command, after any listing, if it did before |
| `Registry.BodyAfterLength` | src/structures/Lavamusic.ts:82-123 | the manifest gains exactly one entry per slash command; other commands add none |
| `Registry.BodyAfterPosition` | src/structures/Lavamusic.ts:82-123 | a slash command's entry sits right after the entries of the slash commands loaded before it: manifest order is load order |
| `Registry.Lavamusic.constructor` | src/structures/Lavamusic.ts:28-35 | the tables and the manifest start empty and the alias invariant holds |
| `Registry.Lavamusic.LoadCommand` | src/structures/Lavamusic.ts:74-124 | sets the category and the name entry, adds the aliases, and, for a slash command, pushes `EntryFor` with the options localized in place; fails after registering when options are absent |
| `Registry.Lavamusic.RegisterAliases` | src/structures/Lavamusic.ts:78-80 | the alias table becomes `SetAliases` of the old one, keeping every alias resolvable |
| `Registry.Lavamusic.PushEntry` | src/structures/Lavamusic.ts:82-123 | the body gains `EntryFor` of the command, and its options array is localized in place |
| `Registry.Lavamusic.LoadAt` | src/structures/Lavamusic.ts:72-124 | one turn of the loop takes the tables from `CommandsAfter`/`AliasesAfter` of `i` commands to those of `i + 1`, and the body to `BodyAfter` and the options arrays to `OptionsAfter` of `i + 1`, unless this command throws |
| `Registry.Lavamusic.LoadCommands` | src/structures/Lavamusic.ts:65-126 | the tables equal `CommandsAfter`/`AliasesAfter` of the listing up to and including the first failing command; `body` gains `BodyAfter` of the commands before it; the options array of each slash command before it holds its old options localized, every other options array is unchanged; each loaded command's category is its directory |
| `Registry.Lavamusic.LoadEvents` | src/structures/Lavamusic.ts:157-175 | each bus's listener list gains the handlers routed to it, in listing order, and nothing else changes |
| `Routing.PublishRoute` | src/structures/Lavamusic.ts:129-131 | global route iff production, otherwise the guild route with `guildId` (default ""); the application id defaults to "" |
| `Routing.ProductionOnlyChangesScope` | src/structures/Lavamusic.ts:128-135 | flipping the production flag changes only the route; the body sent is the same |
| `Routing.SetupButtons` | src/structures/Lavamusic.ts:55-62 | one "setupButtons" emission, carrying the interaction, iff it is a button press, a setup exists, and channel and message ids match the setup; otherwise none |
| `Routing.BusFor` | src/structures/Lavamusic.ts:168-172 | the audio-node bus iff the directory is "player" |
| `Routing.SubscriptionsAppend` | src/structures/Lavamusic.ts:161-174 | the subscriptions for a longer listing extend those of its prefix, keeping order |
| `Routing.SubscriptionsPartition` | src/structures/Lavamusic.ts:161-174 | the two buses together hold each listed handler exactly as often as it is listed (multiset equality) |
| `Routing.SubscriptionsCount` | src/structures/Lavamusic.ts:161-174 | the two buses' subscription counts add up to the number of listed handlers |
| `Routing.SubscribedOnItsBus` | src/structures/Lavamusic.ts:168-172 | each listed handler is subscribed on the bus its directory selects |
| `Routing.HandlersFor` | src/structures/Lavamusic.ts:169-171 | the handlers for an event name are exactly the bus's listeners with that name |
| `Routing.PlayerFanOut` | src/structures/Lavamusic.ts:168-169 | the handlers run for an audio-node event are all the "player" handlers for that name, in load order |
| `Routing.ClientFanOut` | src/structures/Lavamusic.ts:170-171 | the handlers run for a client event are all the handlers from every other directory for that name, in load order |

## Left out

- The directory walk (`fs.readdirSync`, the `.js` filter) and the dynamic
  `import()` of each module: replaced by an ordered listing of (directory,
  instance) pairs.
- The REST publish (`rest.put`), its `try/catch` logging, `login`, and the
  `once("ready")` subscription: network I/O. Only the route choice and the
  request value are modelled.
- `getNodes`: an HTTP fetch and JSON decode.
- The event-emitter mechanics (`on`, `once`, `emit`, `shoukaku.on`) and the
  asynchronous interaction listener, including the `db.getSetup` await.
  Listener lists stand for the emitter's per-bus registrations, the setup
  lookup is a function parameter, and only the pure match is modelled.
- `T`, `localization` and `i18n` are defined in the project's own
  `./I18n.js` module (imported at line 22), which is not part of this
  model;
  `PermissionsBitField.resolve` is library code. All are taken as
  uninterpreted functions.
  `getLocales()` is assumed to return the same list at every call.
- A command whose `aliases` is not an array: `command.aliases.forEach` at
  line 78 would throw inside the loop, after `commands.set` at line 77,
  stopping the load with the command registered and its aliases not set,
  as the missing-options case does. `Command.aliases` is always a sequence
  here, so that path is not modelled.
- A module constructor that throws: that happens in the command's own
  file, which is not part of this model.
- `embed`, `Logger`, `Queue`, `ShoukakuClient`, `loadPlugins`, `initI18n`:
  thin wrappers over unseen collaborators.
- A lookup by name or alias: it is not part of `Lavamusic.ts`.
- Options are modelled as values held in the command's options array. One
  option object placed in two arrays, or twice in one array, would be
  rewritten once per occurrence; that aliasing is not modelled.
- Registry.Lavamusic.LoadCommands: requires the listed command instances
  to be distinct objects (each file is instantiated with `new`), and takes
  the set of objects it may write as a ghost `footprint` supplied by the
  caller. It also requires the listed commands' options arrays to be
  distinct objects (each instance builds its own array); an array shared by
  two commands would be localized once per command, which is not modelled.
- Registry.BodyAfter: pushes an entry only for a slash command with an
  options array. The other case is the command whose load throws, and the
  loop stops before reaching the push for it.
