/**
 * Page metadata of src/lib/seo.ts: the OpenGraph locale table and the metadata record
 * built for one page.
 */
module Seo {
  import opened Wrappers
  import opened JsText
  import opened Locales

  const SiteName: string := "Gen-Z 212"

  const SiteKeywords: seq<string> := [
    "Gen-Z 212", "GenZ212", "digital activism", "youth movement", "protest timeline",
    "manifesto", "Morocco", "social justice", "civic engagement"]

  /** An OpenGraph image; width, height and alt are optional. */
  datatype Image = Image(url: string, width: Option<int>, height: Option<int>, alt: Option<string>)

  const DefaultOgImage: Image := Image("/og-default.jpg", Some(1200), Some(630), Some("Gen-Z 212 social preview"))

  /** OpenGraph locale codes by site locale. */
  const OpenGraphLocaleBySiteLocale: map<Locale, string> := map["ar" := "ar_MA", "fr" := "fr_FR", "en" := "en_US"]

  /** `resolveOpenGraphLocale(locale)`. */
  function OpenGraphLocale(locale: Option<string>): (r: string)
    ensures r in OpenGraphLocaleBySiteLocale.Values
    ensures |r| == 5 && r[2] == '_'
    ensures r[..2] == if IsSupportedLocale(locale) then locale.value else DefaultLocale
  {
    if IsSupportedLocale(locale) then OpenGraphLocaleBySiteLocale[locale.value]
    else OpenGraphLocaleBySiteLocale[DefaultLocale]
  }

  /** Different supported locales get different OpenGraph locales, and every unsupported
      or absent one gets the default locale's code. */
  lemma OpenGraphLocaleInjective(a: Option<string>, b: Option<string>)
    requires IsSupportedLocale(a) && IsSupportedLocale(b)
    ensures OpenGraphLocale(a) == OpenGraphLocale(b) <==> a == b
  {
    assert OpenGraphLocale(a)[..2] == a.value;
    assert OpenGraphLocale(b)[..2] == b.value;
  }

  /** The input of `buildPageMetadata`. */
  datatype PageInput = PageInput(
    title: string, description: string, path: string,
    locale: Option<string>, keywords: Option<seq<string>>, image: Option<Image>)

  datatype OpenGraph = OpenGraph(
    kind: string, siteName: string, title: string, description: string,
    url: string, locale: string, images: seq<Image>)

  datatype Twitter = Twitter(card: string, title: string, description: string, images: seq<string>)

  datatype Metadata = Metadata(
    title: string, description: string, keywords: seq<string>, canonical: string,
    openGraph: OpenGraph, twitter: Twitter)

  /** `buildPageMetadata(input)`. */
  function BuildPageMetadata(input: PageInput): (m: Metadata)
    ensures m.title == input.title && m.description == input.description
    // one social title, "<title> | Gen-Z 212", on both cards
    ensures m.openGraph.title == m.twitter.title == input.title + " | " + SiteName
    ensures m.openGraph.description == m.twitter.description == input.description
    // the canonical link and the OpenGraph url are the page path
    ensures m.canonical == m.openGraph.url == input.path
    ensures m.keywords == if input.keywords.Some? then input.keywords.value else SiteKeywords
    // one image, the given one or the default, whose url is the Twitter image
    ensures m.openGraph.images == [input.image.GetOr(DefaultOgImage)]
    ensures m.twitter.images == [m.openGraph.images[0].url]
    ensures m.openGraph.locale == OpenGraphLocale(input.locale)
    ensures m.openGraph.kind == "website" && m.openGraph.siteName == SiteName
    ensures m.twitter.card == "summary_large_image"
  {
    var resolvedImage := input.image.GetOr(DefaultOgImage);
    var socialTitle := input.title + " | " + SiteName;
    Metadata(
      input.title, input.description,
      if input.keywords.Some? then input.keywords.value else SiteKeywords,
      input.path,
      OpenGraph("website", SiteName, socialTitle, input.description, input.path,
        OpenGraphLocale(input.locale), [resolvedImage]),
      Twitter("summary_large_image", socialTitle, input.description, [resolvedImage.url]))
  }

  /** The OpenGraph locale of a page names the locale the page was built for, or the
      default locale when that one is not supported. */
  lemma PageLocale(input: PageInput)
    ensures IsSupportedLocale(input.locale) ==> BuildPageMetadata(input).openGraph.locale[..2] == input.locale.value
    ensures !IsSupportedLocale(input.locale) ==> BuildPageMetadata(input).openGraph.locale == "ar_MA"
  {
  }
}
