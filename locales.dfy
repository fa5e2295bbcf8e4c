/** The closed set of site locales (src/lib/i18n/locales.ts). */
module Locales {
  import opened Wrappers

  const LocaleCookieName := "site_locale"
  const SupportedLocales: seq<string> := ["ar", "fr", "en"]
  const DefaultLocale := "ar"

  /** A supported locale code. */
  type Locale = s: string | s in SupportedLocales witness "ar"

  /** `isSupportedLocale(value)`; an absent value is not supported. */
  predicate IsSupportedLocale(value: Option<string>) {
    value.Some? && value.value in SupportedLocales
  }

  /** `normalizeLocale(value)`: the value itself when supported, the default otherwise. */
  function NormalizeLocale(value: Option<string>): (r: Locale)
    ensures IsSupportedLocale(value) ==> r == value.value
    ensures !IsSupportedLocale(value) ==> r == DefaultLocale
  {
    if IsSupportedLocale(value) then value.value else DefaultLocale
  }

  /** Exactly "ar", "fr" and "en" are supported, and the default is one of them. */
  lemma SupportedExactly(value: Option<string>)
    ensures IsSupportedLocale(value) <==> value == Some("ar") || value == Some("fr") || value == Some("en")
    ensures IsSupportedLocale(Some(DefaultLocale))
  {
  }

  /** Normalising twice is normalising once. */
  lemma NormalizeIdempotent(value: Option<string>)
    ensures NormalizeLocale(Some(NormalizeLocale(value))) == NormalizeLocale(value)
  {
  }

  /** A supported code contains no path separator and is never empty. */
  lemma LocaleShape(l: Locale)
    ensures |l| == 2 && '/' !in l
  {
  }
}
