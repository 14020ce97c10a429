/**
 * The translation layer as the command loader consumes it, and the
 * locale maps it assembles from it (`name_localizations`,
 * `description_localizations`).
 *
 * The translation functions themselves (`T`, `localization`,
 * `i18n.getLocales`) live in a file that is not part of this model; they
 * are carried as uninterpreted function values in `I18n`.
 */
module Localization {
  import opened Wrappers

  /** `Locale.EnglishUS` of the chat platform's locale enumeration. */
  const EnglishUS: string := "en-US"

  /** A locale map: language -> localized text. */
  type LocaleMap = map<string, string>

  /** What `localization(locale, name, description)` returns: a
      `[language, text]` pair for the name and one for the description. */
  datatype Localized = Localized(name: (string, string), description: (string, string))

  /** The translation collaborators. */
  datatype I18n = I18n(
    t: (string, string) -> string,                   // T(locale, key)
    localization: (string, string, string) -> Localized,
    locales: seq<string>)                            // i18n.getLocales()

  /** The list built by `i18n.getLocales().map(locale => push(localization(locale, name, description)))`. */
  function Localizations(i18n: I18n, name: string, description: string): seq<Localized>
  {
    seq(|i18n.locales|, k requires 0 <= k < |i18n.locales| => i18n.localization(i18n.locales[k], name, description))
  }

  /** The name pairs of a localization list, in order. */
  function NamePairs(ls: seq<Localized>): seq<(string, string)>
  {
    seq(|ls|, k requires 0 <= k < |ls| => ls[k].name)
  }

  /** The description pairs of a localization list, in order. */
  function DescriptionPairs(ls: seq<Localized>): seq<(string, string)>
  {
    seq(|ls|, k requires 0 <= k < |ls| => ls[k].description)
  }

  /** The keys of an optional map; `null` has none. */
  function KeysOf(m: Option<LocaleMap>): set<string> {
    if m.Some? then m.value.Keys else {}
  }

  /**
   * The value of `m` after `m = { ...m, [language]: text }` for each pair
   * in order. Spreading `null` contributes no keys, so the result stays
   * `null` only when `m` was `null` and there are no pairs.
   */
  function Spread(init: Option<LocaleMap>, pairs: seq<(string, string)>): Option<LocaleMap>
  {
    if |pairs| == 0 then init
    else
      var last := pairs[|pairs| - 1];
      Some(Spread(init, pairs[..|pairs| - 1]).GetOr(map[])[last.0 := last.1])
  }

  /** The language set of a list of pairs. */
  function Languages(pairs: seq<(string, string)>): set<string> {
    set k | 0 <= k < |pairs| :: pairs[k].0
  }

  /** Spreading is null exactly when it starts from null and writes nothing;
      otherwise its keys are the old keys plus every language written. */
  lemma {:induction false} SpreadKeys(init: Option<LocaleMap>, pairs: seq<(string, string)>)
    ensures Spread(init, pairs).None? <==> init.None? && |pairs| == 0
    ensures KeysOf(Spread(init, pairs)) == KeysOf(init) + Languages(pairs)
  {
    if |pairs| > 0 {
      var front := pairs[..|pairs| - 1];
      SpreadKeys(init, front);
      assert Languages(pairs) == Languages(front) + {pairs[|pairs| - 1].0} by {
        forall x | x in Languages(pairs) ensures x in Languages(front) + {pairs[|pairs| - 1].0} {
          var k :| 0 <= k < |pairs| && pairs[k].0 == x;
          if k < |pairs| - 1 { assert front[k] == pairs[k]; }
        }
        forall x | x in Languages(front) ensures x in Languages(pairs) {
          var k :| 0 <= k < |front| && front[k].0 == x;
          assert pairs[k] == front[k];
        }
      }
    } else {
      assert Languages(pairs) == {};
    }
  }

  /** Last write wins: the text stored under a language is that of the last
      pair naming it. */
  lemma {:induction false} SpreadLastWriteWins(init: Option<LocaleMap>, pairs: seq<(string, string)>, k: nat)
    requires k < |pairs|
    requires forall j :: k < j < |pairs| ==> pairs[j].0 != pairs[k].0
    ensures Spread(init, pairs).Some?
    ensures pairs[k].0 in Spread(init, pairs).value
    ensures Spread(init, pairs).value[pairs[k].0] == pairs[k].1
  {
    if k < |pairs| - 1 {
      var front := pairs[..|pairs| - 1];
      SpreadLastWriteWins(init, front, k);
    }
  }

  /** A language no pair writes keeps the text it had before. */
  lemma {:induction false} SpreadKeepsUnwritten(init: Option<LocaleMap>, pairs: seq<(string, string)>, language: string)
    requires language in KeysOf(init)
    requires forall j :: 0 <= j < |pairs| ==> pairs[j].0 != language
    ensures Spread(init, pairs).Some?
    ensures language in Spread(init, pairs).value
    ensures Spread(init, pairs).value[language] == init.value[language]
  {
    if |pairs| > 0 {
      SpreadKeepsUnwritten(init, pairs[..|pairs| - 1], language);
    }
  }

  /** The loop that assembles a name map and a description map from a
      localization list, one pair of writes per element. */
  method SpreadLocalizations(names0: Option<LocaleMap>, descriptions0: Option<LocaleMap>, ls: seq<Localized>)
    returns (names: Option<LocaleMap>, descriptions: Option<LocaleMap>)
    ensures names == Spread(names0, NamePairs(ls))
    ensures descriptions == Spread(descriptions0, DescriptionPairs(ls))
  {
    names, descriptions := names0, descriptions0;
    var i := 0;
    while i < |ls|
      invariant 0 <= i <= |ls|
      invariant names == Spread(names0, NamePairs(ls)[..i])
      invariant descriptions == Spread(descriptions0, DescriptionPairs(ls)[..i])
    {
      var language, name := ls[i].name.0, ls[i].name.1;
      var language2, description := ls[i].description.0, ls[i].description.1;
      names := Some(names.GetOr(map[])[language := name]);
      descriptions := Some(descriptions.GetOr(map[])[language2 := description]);
      assert NamePairs(ls)[..i + 1][..i] == NamePairs(ls)[..i];
      assert DescriptionPairs(ls)[..i + 1][..i] == DescriptionPairs(ls)[..i];
      i := i + 1;
    }
    assert NamePairs(ls)[..i] == NamePairs(ls);
    assert DescriptionPairs(ls)[..i] == DescriptionPairs(ls);
  }

  /** `localization` keys its pairs by the locale it was asked for. */
  ghost predicate Echoes(i18n: I18n, name: string, description: string) {
    forall l :: l in i18n.locales ==>
      i18n.localization(l, name, description).name.0 == l &&
      i18n.localization(l, name, description).description.0 == l
  }

  /** Writing one pair per locale, keyed by that locale, yields a map with
      exactly one key per locale holding that locale's text (duplicated
      locales write the same text twice); with no locales it stays null. */
  lemma EchoedSpread(locales: seq<string>, pairs: seq<(string, string)>, text: string -> string)
    requires |pairs| == |locales|
    requires forall k :: 0 <= k < |pairs| ==> pairs[k] == (locales[k], text(locales[k]))
    ensures Spread(None, pairs) == if |locales| == 0 then None else Some(map l | l in locales :: text(l))
  {
    SpreadKeys(None, pairs);
    if |locales| > 0 {
      var m := Spread(None, pairs).value;
      assert Languages(pairs) == set l | l in locales by {
        forall x | x in Languages(pairs) ensures x in locales {
          var k :| 0 <= k < |pairs| && pairs[k].0 == x;
        }
        forall l | l in locales ensures l in Languages(pairs) {
          var k :| 0 <= k < |locales| && locales[k] == l;
          assert pairs[k].0 == l;
        }
      }
      forall l | l in locales ensures m[l] == text(l) {
        var k := LastIndexOf(locales, l);
        SpreadLastWriteWins(None, pairs, k);
      }
      assert m.Keys == set l | l in locales;
      assert m == map l | l in locales :: text(l);
    }
  }

  /** When `localization` echoes its locale, the command's or option's
      name and description maps have exactly the configured locales as keys,
      each holding that locale's localized text; with no locales they stay
      null. */
  lemma EchoedLocalizationMaps(i18n: I18n, name: string, description: string)
    requires Echoes(i18n, name, description)
    ensures var ls := Localizations(i18n, name, description);
      var names, descriptions := Spread(None, NamePairs(ls)), Spread(None, DescriptionPairs(ls));
      && (names.None? <==> |i18n.locales| == 0)
      && (descriptions.None? <==> |i18n.locales| == 0)
      && KeysOf(names) == (set l | l in i18n.locales)
      && KeysOf(descriptions) == (set l | l in i18n.locales)
      && (forall l :: l in KeysOf(names) ==> names.value[l] == i18n.localization(l, name, description).name.1)
      && (forall l :: l in KeysOf(descriptions) ==>
            descriptions.value[l] == i18n.localization(l, name, description).description.1)
  {
    var ls := Localizations(i18n, name, description);
    var nameText := l => i18n.localization(l, name, description).name.1;
    var descriptionText := l => i18n.localization(l, name, description).description.1;
    forall k | 0 <= k < |ls|
      ensures NamePairs(ls)[k] == (i18n.locales[k], nameText(i18n.locales[k]))
      ensures DescriptionPairs(ls)[k] == (i18n.locales[k], descriptionText(i18n.locales[k]))
    {
      assert i18n.locales[k] in i18n.locales;
    }
    EchoedSpread(i18n.locales, NamePairs(ls), nameText);
    EchoedSpread(i18n.locales, DescriptionPairs(ls), descriptionText);
  }

  /** The position of the last occurrence of `x` in `s`. */
  lemma LastIndexOf(s: seq<string>, x: string) returns (k: nat)
    requires x in s
    ensures k < |s| && s[k] == x
    ensures forall j :: k < j < |s| ==> s[j] != x
  {
    k := |s| - 1;
    while s[k] != x
      invariant 0 <= k < |s|
      invariant x in s[..k + 1]
      invariant forall j :: k < j < |s| ==> s[j] != x
      decreases k
    {
      k := k - 1;
    }
  }
}
