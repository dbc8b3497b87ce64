/**
 The other localisation version (internal/bot/lang.go). It has the same language
 store and dictionaries as `Localization` (internal/bot/localization.go), but a
 single-step fallback: a key missing in the user's language gives the English
 text, which is "" when English lacks the key too.

 The module is lang.go; the language code it works with is `L.Lang`, the type
 of `Localization`.
 */
module Lang {
  import L = Localization

  /**
   `tr`: the text of `key` in language `l`, else `i18n[LangEN][key]`.
   */
  function Tr(dicts: L.Dictionaries, l: L.Lang, key: string): (s: string)
    ensures L.Has(dicts, l, key) ==> s == dicts[l][key]
    ensures !L.Has(dicts, l, key) && L.Has(dicts, L.EN, key) ==> s == dicts[L.EN][key]
    ensures !L.Has(dicts, l, key) && !L.Has(dicts, L.EN, key) ==> s == ""
  {
    if L.Has(dicts, l, key) then dicts[l][key] else L.EnglishEntry(dicts, key)
  }

  /** For English, `tr` is exactly the dictionary lookup with Go's zero value for a miss. */
  lemma TrEnglishIsLookup(dicts: L.Dictionaries, key: string)
    ensures Tr(dicts, L.EN, key) == L.EnglishEntry(dicts, key)
  {
  }

  /** `t`: the text of `key` in the language the user chose. */
  function T(store: L.LangStore, dicts: L.Dictionaries, uid: int, key: string): (s: string)
    ensures uid !in store ==> s == Tr(dicts, L.EN, key)
    ensures uid in store ==> s == Tr(dicts, store[uid], key)
  {
    Tr(dicts, L.GetUserLang(store, uid), key)
  }

  /** After a user picks a language, every text they get is in that language (with its fallback). */
  lemma TAfterSetUserLang(store: L.LangStore, dicts: L.Dictionaries, uid: int, l: L.Lang, key: string)
    ensures T(L.SetUserLang(store, uid, l), dicts, uid, key) == Tr(dicts, l, key)
  {
  }

  /**
   The two versions give the same text exactly when the user's language has the
   key, or English has non-empty text for it, or the key is itself "": otherwise
   this version shows "" where the other shows the key.
   */
  lemma VersionsAgreeUnlessEnglishIsEmpty(dicts: L.Dictionaries, l: L.Lang, key: string)
    ensures Tr(dicts, l, key) == L.Tr(dicts, l, key) <==>
      L.Has(dicts, l, key) || L.EnglishEntry(dicts, key) != "" || key == ""
    ensures !(L.Has(dicts, l, key) || L.EnglishEntry(dicts, key) != "") ==>
      Tr(dicts, l, key) == "" && L.Tr(dicts, l, key) == key
  {
  }
}
