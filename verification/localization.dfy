/**
 Localisation with a two-step fallback (internal/bot/localization.go): a key is
 looked up in the user's language, then in English, and when English has no
 non-empty text either, the key itself is shown. The dictionaries are abstract:
 any map from language to key-to-text map.
 */
module Localization {
  import Prefs

  /** A language code. */
  type Lang = string

  const EN: Lang := "en"
  const RU: Lang := "ru"

  type Dictionary = map<string, string>

  type Dictionaries = map<Lang, Dictionary>

  /** The per-user language choices (`langPrefs`). */
  type LangStore = Prefs.Store<Lang>

  /** `getUserLang`: English for a user who never chose. */
  function GetUserLang(store: LangStore, uid: int): (l: Lang)
    ensures uid !in store ==> l == EN
    ensures uid in store ==> l == store[uid]
  {
    Prefs.Get(store, uid, EN)
  }

  /** `setUserLang`: the user reads back the language they chose, and nobody else's changes. */
  function SetUserLang(store: LangStore, uid: int, l: Lang): (store': LangStore)
    ensures GetUserLang(store', uid) == l
    ensures forall u | u != uid :: GetUserLang(store', u) == GetUserLang(store, u)
  {
    Prefs.Put(store, uid, l)
  }

  /** `dicts` has an entry for `key` in language `l`. */
  predicate Has(dicts: Dictionaries, l: Lang, key: string) {
    l in dicts && key in dicts[l]
  }

  /** `i18n[LangEN][key]`: Go's zero value "" when English or the key is missing. */
  function EnglishEntry(dicts: Dictionaries, key: string): string {
    if Has(dicts, EN, key) then dicts[EN][key] else ""
  }

  /**
   `tr`: the text of `key` in language `l`; failing that the English text; failing
   that (no English entry, or an empty one) the key itself.
   */
  function Tr(dicts: Dictionaries, l: Lang, key: string): (s: string)
    ensures Has(dicts, l, key) ==> s == dicts[l][key]
    ensures !Has(dicts, l, key) && Has(dicts, EN, key) && dicts[EN][key] != "" ==> s == dicts[EN][key]
    ensures !Has(dicts, l, key) && (!Has(dicts, EN, key) || dicts[EN][key] == "") ==> s == key
  {
    if Has(dicts, l, key) then dicts[l][key]
    else
      var v := EnglishEntry(dicts, key);
      if v == "" then key else v
  }

  /** The only way `tr` yields "" for a non-empty key is a stored empty text in the user's language. */
  lemma TrEmptyOnlyIfStored(dicts: Dictionaries, l: Lang, key: string)
    requires key != ""
    ensures Tr(dicts, l, key) == "" <==> Has(dicts, l, key) && dicts[l][key] == ""
  {
  }

  /** For English the text is the stored one, even when empty; only a missing key falls back to itself. */
  lemma TrEnglish(dicts: Dictionaries, key: string)
    ensures Tr(dicts, EN, key) == if Has(dicts, EN, key) then dicts[EN][key] else key
  {
  }

  /** `t`: the text of `key` in the language the user chose. */
  function T(store: LangStore, dicts: Dictionaries, uid: int, key: string): (s: string)
    ensures uid !in store ==> s == Tr(dicts, EN, key)
    ensures uid in store ==> s == Tr(dicts, store[uid], key)
  {
    Tr(dicts, GetUserLang(store, uid), key)
  }

  /** After a user picks a language, every text they get is in that language (with its fallbacks). */
  lemma TAfterSetUserLang(store: LangStore, dicts: Dictionaries, uid: int, l: Lang, key: string)
    ensures T(SetUserLang(store, uid, l), dicts, uid, key) == Tr(dicts, l, key)
  {
  }

  /** Choosing a language does not change what any other user reads. */
  lemma SetUserLangIsPrivate(store: LangStore, dicts: Dictionaries, uid: int, other: int, l: Lang, key: string)
    requires other != uid
    ensures T(SetUserLang(store, uid, l), dicts, other, key) == T(store, dicts, other, key)
  {
  }

  /** A Telegram bot command: its name and its description. */
  datatype BotCommand = BotCommand(command: string, description: string)

  const CommandNames: seq<string> := ["start", "settings", "help"]

  /** The dictionary key describing the command `name`. */
  function DescriptionKey(name: string): string {
    "cmd.desc." + name
  }

  /**
   `commandsFor`: the commands start, settings and help, in that order, each
   described by its "cmd.desc." text in the given language.
   */
  function CommandsFor(dicts: Dictionaries, lang: Lang): (cmds: seq<BotCommand>)
    ensures |cmds| == |CommandNames|
    ensures forall i | 0 <= i < |cmds| ::
      cmds[i].command == CommandNames[i] && cmds[i].description == Tr(dicts, lang, DescriptionKey(CommandNames[i]))
  {
    seq(|CommandNames|, i requires 0 <= i < |CommandNames| =>
      BotCommand(CommandNames[i], Tr(dicts, lang, DescriptionKey(CommandNames[i]))))
  }

  /** Every command gets a non-empty description unless the language stores an empty one. */
  lemma CommandDescriptionsNonEmpty(dicts: Dictionaries, lang: Lang, i: int)
    requires 0 <= i < |CommandNames|
    requires !Has(dicts, lang, DescriptionKey(CommandNames[i])) || dicts[lang][DescriptionKey(CommandNames[i])] != ""
    ensures CommandsFor(dicts, lang)[i].description != ""
  {
    TrEmptyOnlyIfStored(dicts, lang, DescriptionKey(CommandNames[i]));
  }
}
