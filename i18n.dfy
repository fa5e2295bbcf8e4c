/**
 * The translation lookup of src/i18n/index.ts: the entry of the requested language,
 * else the English entry, else the key itself.
 */
module Translations {
  import opened Wrappers

  /** One language table: message key to message. */
  type Table = map<string, string>

  /** The tables by language code; the English table is always present. */
  type Tables = t: map<string, Table> | "en" in t witness map["en" := map[]]

  /** `tables[lang]?.[key]` when it is truthy, i.e. a present, non-empty string. */
  function Entry(tables: Tables, lang: string, key: string): (r: Option<string>)
    ensures r.Some? <==> lang in tables && key in tables[lang] && tables[lang][key] != ""
    ensures r.Some? ==> r.value == tables[lang][key]
  {
    if lang in tables && key in tables[lang] && tables[lang][key] != "" then Some(tables[lang][key]) else None
  }

  /** `getTranslation(lang, key)`. */
  function Translate(tables: Tables, lang: string, key: string): string {
    match Entry(tables, lang, key)
    case Some(m) => m
    case None =>
      match Entry(tables, "en", key)
      case Some(m) => m
      case None => key
  }

  /** The fallback chain: the language's own entry, else the English one, else the key. */
  lemma TranslateChain(tables: Tables, lang: string, key: string)
    ensures Entry(tables, lang, key).Some? ==> Translate(tables, lang, key) == tables[lang][key]
    ensures Entry(tables, lang, key).None? && Entry(tables, "en", key).Some? ==>
      Translate(tables, lang, key) == tables["en"][key]
    ensures Entry(tables, lang, key).None? && Entry(tables, "en", key).None? ==>
      Translate(tables, lang, key) == key
  {
  }

  /** A language without a table, or without the key, reads as English. */
  lemma TranslateUnknownLanguage(tables: Tables, lang: string, key: string)
    requires lang !in tables || key !in tables[lang] || tables[lang][key] == ""
    ensures Translate(tables, lang, key) == Translate(tables, "en", key)
  {
  }

  /** A non-empty key never translates to the empty string. */
  lemma TranslateNonEmpty(tables: Tables, lang: string, key: string)
    requires key != ""
    ensures Translate(tables, lang, key) != ""
  {
  }
}
