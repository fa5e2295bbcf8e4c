# Gen-Z 212 site: locales, CMS client and blog listing

This project models the logic core of the Gen-Z 212 web site. The site is a Next.js
front end with a Strapi CMS behind it. The model covers:

- the closed set of site locales ("ar", "fr", "en", with "ar" the default) and how a
  locale is normalised;
- the edge middleware: it resolves the request's locale from the first path segment,
  then the `site_locale` cookie, then the default. It forwards that locale in the
  `x-site-locale` header and writes the cookie when the path names a locale;
- the language switcher's path helpers (`getLocaleFromPath`, `isBlogPath`,
  `buildPrefixedPath`) and its navigation rule;
- the translation fallback chain;
- the page metadata builder and its OpenGraph locale table;
- the CMS client: the bracketed query-string encoding, media URL resolution, the URL and
  headers of a CMS request, and how a reply becomes a value or an error;
- the blog mapper: entity and relation flattening, previews and posts, the three CMS
  lookups, and the locale-by-slug search;
- the slug-resolution endpoint;
- the legacy posts adapter, `slugify`, and the posts API's `POST` with its slug
  derivation, reading time and error statuses;
- the two blog listing pages: their filters, featured lists, featured-section rule and
  card links. The database-backed page is modelled with its state;
- the CMS configuration lists for `CORS_ORIGINS` and `APP_KEYS`, the middleware stack
  and the server defaults.

The JavaScript values the code handles are a `Json` datatype (module `JsValue`). Its
helpers spell out truthiness, nullish checks, property reads on non-objects, object
spread and `String(v)`. A thrown exception is an `Err` of a `JsError`. The CMS and the
database are functions passed as parameters: request to reply, and document to stored
document or error code. The environment variables are parameters as well.

Modules:

| module | file |
|---|---|
| `Wrappers` | wrappers.dfy |
| `JsText` | jstext.dfy |
| `JsValue` | jsvalue.dfy |
| `Listing` | listing.dfy |
| `Locales` | locales.dfy |
| `Translations` | i18n.dfy |
| `EdgeMiddleware` | middleware.dfy |
| `LanguageSwitcher` | language_switcher.dfy |
| `Seo` | seo.dfy |
| `StrapiClient` | strapi_client.dfy |
| `BlogServer` | blog_server.dfy |
| `ResolveSlug` | resolve_slug.dfy |
| `Legacy` | legacy.dfy |
| `PostsRoute` | posts_route.dfy |
| `BlogPageClient` | blog_page_client.dfy |
| `BlogPage` | blog_page.dfy |
| `CmsConfig` | cms_config.dfy |

`JsText` holds `toLowerCase`, `trim`, `split`, `join`, `includes`,
`encodeURIComponent` and the number-to-text conversion. `Listing` holds
`Array.prototype.filter`, with a plain predicate and with one that may throw.

## Model

| member | source | states |
|---|---|---|
| Locales.NormalizeLocale | src/lib/i18n/locales.ts:13-14 | A supported value is returned unchanged; an unsupported or absent one becomes "ar". The result is always a supported locale. |
| Locales.SupportedExactly | src/lib/i18n/locales.ts:3-11 | A value is supported exactly when it is "ar", "fr" or "en"; the default "ar" is supported. |
| Locales.NormalizeIdempotent | src/lib/i18n/locales.ts:13-14 | Normalising twice is normalising once. |
| Locales.LocaleShape | src/lib/i18n/locales.ts:3 | Every supported code is two characters long and holds no '/'. |
| Translations.Entry | src/i18n/index.ts:29 | An entry exists exactly when the language has a table and the table holds a non-empty message for the key; the entry is that message. |
| Translations.TranslateChain | src/i18n/index.ts:28-30 | The language's own entry wins; without it, the English entry; without that, the key itself. |
| Translations.TranslateUnknownLanguage | src/i18n/index.ts:29 | A language without a table or without the entry translates exactly as English does. |
| Translations.TranslateNonEmpty | src/i18n/index.ts:29 | A non-empty key never translates to "". |
| EdgeMiddleware.ResolvePrecedence | middleware.ts:13-17 | The resolved locale is the first supported one among the path segment, the cookie and the default; it is always supported. |
| EdgeMiddleware.PathSegmentOf | middleware.ts:11 | For a path "/seg" or "/seg/...", the segment read is seg; "/" gives "". |
| EdgeMiddleware.MatcherExclusions | middleware.ts:39-41 | Paths under /_next/static and /_next/image, and /favicon.ico, /robots.txt, /sitemap.xml, are not matched; because '.' in the pattern is unescaped, neither is /favicon-ico. |
| EdgeMiddleware.LocalePathsMatched | middleware.ts:39-41 | The root path and every locale-prefixed path are matched. |
| EdgeMiddleware.Middleware | middleware.ts:9-37 | The request always goes on. Its headers are the incoming ones plus x-site-locale set to the resolved locale. At most one cookie is written, exactly when the segment is a supported locale. A written cookie is site_locale, holds the segment (which equals the forwarded locale), and has path "/", max age 31536000 and sameSite "lax". |
| EdgeMiddleware.ResolutionFromPath | middleware.ts:11-17 | A path whose first segment is a supported locale resolves to it whatever the cookie says; otherwise a supported cookie wins. |
| LanguageSwitcher.LocaleFromPath | src/components/LanguageSwitcher.tsx:20-23 | The result is present exactly when the second '/'-piece of the path is a supported locale, and is that piece. |
| LanguageSwitcher.Remainder | src/components/LanguageSwitcher.tsx:46-54 | The normalised path is "/" followed by its first segment and the remainder; the remainder is empty or starts with '/'. |
| LanguageSwitcher.PathParts | src/components/LanguageSwitcher.tsx:36-54 | A path built as "/" + seg + rest reads back as seg and rest, and is already normalised. |
| LanguageSwitcher.SplitPath | src/components/LanguageSwitcher.tsx:46-54 | The '/'-pieces of "/" + seg + rest are "", seg, then the pieces of rest. |
| LanguageSwitcher.JoinPath | src/components/LanguageSwitcher.tsx:46-54 | Joining "", a new segment and the pieces of rest gives "/" + segment + rest. |
| LanguageSwitcher.BlogPathMeaning | src/components/LanguageSwitcher.tsx:36-44 | A path is a blog path exactly when, after a leading '/' is ensured and a leading locale segment is dropped, it is /blog or starts with /blog/. |
| LanguageSwitcher.BuildPrefixedPath | src/components/LanguageSwitcher.tsx:46-54 | The split, overwrite and join in place yield "/" + locale + the kept path: the remainder when the path had a locale segment, else the whole normalised path. |
| LanguageSwitcher.PrefixedLocale | src/components/LanguageSwitcher.tsx:46-54 | The rewritten path's locale is the chosen locale. |
| LanguageSwitcher.PrefixedLastWriteWins | src/components/LanguageSwitcher.tsx:46-54 | Rewriting with a and then b equals rewriting with b; rewriting twice with the same locale is idempotent. |
| LanguageSwitcher.PrefixedNoChange | src/components/LanguageSwitcher.tsx:46-54 | A path that already starts with the chosen locale is returned unchanged. |
| LanguageSwitcher.PrefixedKeepsSegments | src/components/LanguageSwitcher.tsx:46-54 | Only the locale piece changes: every later '/'-piece is the original path's. |
| LanguageSwitcher.PrefixedKeepsBlog | src/components/LanguageSwitcher.tsx:36-54 | Rewriting the locale preserves whether a path is a blog path. |
| LanguageSwitcher.ActiveLocaleAgrees | src/components/LanguageSwitcher.tsx:62-68 | The switcher highlights the locale the middleware resolves for the same path and cookie. |
| LanguageSwitcher.SelectNavigation | src/components/LanguageSwitcher.tsx:70-84 | Selecting always ends with a refresh. A push only happens from a blog path, to a different blog path that carries the chosen locale. Selecting the path's own locale only refreshes. |
| LanguageSwitcher.Switcher.constructor | src/components/LanguageSwitcher.tsx:58-60 | The path is the current one or "/", and the highlighted locale starts as "ar". |
| LanguageSwitcher.Switcher.Sync | src/components/LanguageSwitcher.tsx:62-68 | On a path change, the highlighted locale and the context language become the active locale. |
| LanguageSwitcher.Switcher.Select | src/components/LanguageSwitcher.tsx:70-84 | The chosen locale is highlighted and set as the language, and the router calls are those of the navigation rule. |
| Seo.OpenGraphLocale | src/lib/seo.ts:31-56 | The result is one of the table's codes, "xx_YY" in shape, whose language part is the supported locale, or "ar" otherwise. |
| Seo.OpenGraphLocaleInjective | src/lib/seo.ts:31-35 | Two supported locales get the same OpenGraph code exactly when they are equal. |
| Seo.BuildPageMetadata | src/lib/seo.ts:72-106 | Title and description are as given. Both social cards carry the title followed by a bar and the site name "Gen-Z 212", and the description. The canonical link and the OpenGraph url are the path. Keywords default to the site's keywords. There is one image, the given one or the default, and its url is the Twitter image. The locale is the page's OpenGraph locale; the card is summary_large_image. |
| Seo.PageLocale | src/lib/seo.ts:51-56 | A page's OpenGraph locale names its supported locale, and is "ar_MA" for any other. |
| StrapiClient.FormatPair | src/lib/strapi/client.ts:32-43 | A formatted pair holds no '&'. |
| StrapiClient.FormattedAppend | src/lib/strapi/client.ts:23-44 | Formatting distributes over concatenation of leaves. |
| StrapiClient.PairBuffer.constructor | src/lib/strapi/client.ts:47 | The pair list starts empty. |
| StrapiClient.PairBuffer.Add | src/lib/strapi/client.ts:23-44 | The pairs pushed for a value are the formatted leaves of that value under the prefix, in depth-first order, appended to what was there. |
| StrapiClient.PairBuffer.AddItems | src/lib/strapi/client.ts:28-33 | The pairs pushed for an array are the leaves of each element under prefix[i], in index order. |
| StrapiClient.PairBuffer.AddEntries | src/lib/strapi/client.ts:35-41 | The pairs pushed for an object are the leaves of each entry under prefix[key], or the bare key at top level, in entry order. |
| StrapiClient.ItemLeavesStep | src/lib/strapi/client.ts:28-33 | The pairs of the elements from i on are those of element i under prefix[i], then the rest. |
| StrapiClient.EntryLeavesStep | src/lib/strapi/client.ts:35-41 | The pairs of the entries from i on are those of entry i under its key, then the rest. |
| StrapiClient.BuildQueryString | src/lib/strapi/client.ts:46-57 | The string built is "" for an absent query or one without leaves, else "?" and the pairs joined by '&'. |
| StrapiClient.LeafKeysExtendPrefix | src/lib/strapi/client.ts:23-44 | Every key emitted under a prefix starts with that prefix. |
| StrapiClient.NoLeavesEmitNothing | src/lib/strapi/client.ts:24-26 | A value made only of null, undefined and empty containers emits no pair at any depth. |
| StrapiClient.EmptyQueryString | src/lib/strapi/client.ts:46-57 | A query whose values all emit nothing gives "". |
| StrapiClient.ArrayAsIndexedObject | src/lib/strapi/client.ts:28-41 | Below a non-empty prefix, every array sends the same pairs as the object keyed by its indices, so the query string cannot tell the two apart. |
| StrapiClient.QueryStringSplits | src/lib/strapi/client.ts:46-57 | The query string starts with '?'. Split on '&' it gives the pairs back; each pair split on '=' gives the encoded key and the encoded value. |
| StrapiClient.StrapiUrl | src/lib/strapi/client.ts:18 | The base URL is the variable when set and non-empty, and is never empty. |
| StrapiClient.MediaUrl | src/lib/strapi/client.ts:59-69 | There is no URL for an absent or empty one. An http(s) URL is returned unchanged; any other is prefixed with the base URL. |
| StrapiClient.MediaUrlIdempotent | src/lib/strapi/client.ts:59-69 | With an absolute base URL, resolving a resolved URL changes nothing. |
| StrapiClient.NormalizedPath | src/lib/strapi/client.ts:73 | A path starting with '/' is kept; any other goes below "/api/". |
| StrapiClient.RequestQueryLocale | src/lib/strapi/client.ts:75-78 | A given, non-empty locale sets the query's locale key; every other key is the caller's. |
| StrapiClient.PrepareRequest | src/lib/strapi/client.ts:73-87 | The request is the base URL, the normalised path and the query string, with a JSON content type and, when sent, the bearer token. |
| StrapiClient.AuthorizationHeader | src/lib/strapi/client.ts:81-87 | An Authorization header is present exactly when auth (default true) holds and a token is configured; it then carries "Bearer " and the token. |
| StrapiClient.StrapiFetch | src/lib/strapi/client.ts:71-97 | A rejected fetch is a TypeError and a non-2xx status an Error carrying the status and the body. A 2xx body that does not parse is a SyntaxError. The result is a value exactly when the status is 2xx and the body parses, and the value is the parsed body. |
| StrapiClient.FailureNamesStatus | src/lib/strapi/client.ts:91-94 | Every failing status, 404 included, yields a message that starts "Strapi request failed (" and includes the status. |
| BlogServer.NormalizeEntity | src/lib/strapi/blog.server.ts:40-54 | A falsy entity is null. A truthy one stays truthy. With truthy attributes it becomes `{id, documentId, ...attributes}`; without them it is kept as it is. |
| BlogServer.NormalizedFields | src/lib/strapi/blog.server.ts:45-50 | In a normalised wrapped entity, a field the attributes have takes the attribute's value. Otherwise `id` and `documentId` are the entity's own, and any other field is undefined. |
| BlogServer.FlatHasNoAttributes | src/lib/strapi/blog.server.ts:46-53 | The flat form of an entity has no truthy attributes when the attributes carry none. |
| BlogServer.WrappedEqualsFlat | src/lib/strapi/blog.server.ts:40-54 | A wrapped entity and its flat form normalise to the same flat record, which normalising again leaves alone. |
| BlogServer.NormalizeEntityIdempotent | src/lib/strapi/blog.server.ts:40-54 | Normalising twice is normalising once, unless the attributes carry truthy attributes of their own. |
| BlogServer.NormalizeRelation | src/lib/strapi/blog.server.ts:56-70 | A falsy relation is null. An array in data is normalised element by element. Any other data value is normalised itself. A relation without data is normalised as an entity. |
| BlogServer.LocalizationList | src/lib/strapi/blog.server.ts:82-87 | An array is read as its items, a single truthy value as a one-element list, and anything falsy as none. |
| BlogServer.LocalizationOf | src/lib/strapi/blog.server.ts:88-106 | An entry is kept exactly with a supported string locale and a non-empty string slug. Its documentId is the text of the first truthy of documentId and id. |
| BlogServer.LocalizationsMembers | src/lib/strapi/blog.server.ts:88-106 | A localization is listed exactly when some non-nullish entry qualifies for it. |
| BlogServer.LocalizationsAsWrittenAgrees | src/lib/strapi/blog.server.ts:88-106 | As written, the mapping throws when an entry is null or undefined; otherwise it agrees with the corrected mapping. |
| BlogServer.CategoryOf | src/lib/strapi/blog.server.ts:108-144 | A category exists exactly with a non-empty string name, and keeps that name and the string slug, or "". |
| BlogServer.MapBlogPostBase | src/lib/strapi/blog.server.ts:72-154 | Nothing is produced exactly for a falsy entity; otherwise the mapped record holds the normalised entity. |
| BlogServer.MapBlogPostBaseAgrees | src/lib/strapi/blog.server.ts:72-154 | Wherever the as-written mapping does not throw, it equals the corrected one. |
| BlogServer.NullLocalizationThrows | src/lib/strapi/blog.server.ts:88-92 | A post whose localizations hold an empty entity throws as written; the corrected mapping drops the entry. |
| BlogServer.MapBlogPostPreview | src/lib/strapi/blog.server.ts:156-162 | A preview exists exactly for a truthy entity. |
| BlogServer.MapBlogPost | src/lib/strapi/blog.server.ts:164-174 | A post exists exactly for a truthy entity, and has the preview's fields and the normalised entity's content. |
| BlogServer.PreviewLocale | src/lib/strapi/blog.server.ts:78-80 | The locale is the entity's own string locale, else the requested one, normalised; an unsupported own locale gives "ar". |
| BlogServer.PreviewFields | src/lib/strapi/blog.server.ts:115-151 | Every preview field, from the normalised entity. Malformed fields fall back instead of throwing: string fields become "" or are absent, and the reading time is the number when it is one, else absent. The id is the first of id, documentId and slug. documentId is its string when truthy. The category is read from the category relation, the cover URL is resolved from the cover's string url, and the localizations are the surviving entries, omitted when none survive. |
| BlogServer.Kept | src/lib/strapi/blog.server.ts:207-209 | An entry contributes exactly when it is truthy and, with a locale given, its preview is in that locale; what it contributes is its preview. |
| BlogServer.PreviewsOf | src/lib/strapi/blog.server.ts:206-209 | No more previews than entries. With a locale given, every preview kept is in that locale, and an unsupported locale keeps none. |
| BlogServer.PreviewsMembers | src/lib/strapi/blog.server.ts:206-209 | A preview is listed exactly when some entry maps to it and, when a locale is given, it is in that locale. |
| BlogServer.PreviewsAppend | src/lib/strapi/blog.server.ts:206-209 | The previews of two lists joined are the previews of each, in order. |
| BlogServer.PreviewsSingle | src/lib/strapi/blog.server.ts:206-209 | One entry gives its preview exactly when it is truthy and, with a locale given, its preview is in that locale. Otherwise it gives nothing. |
| BlogServer.PreviewsWithoutLocale | src/lib/strapi/blog.server.ts:206-209 | Without a locale, every truthy entry gives its preview, in order. |
| BlogServer.GetBlogPostPreviews | src/lib/strapi/blog.server.ts:176-210 | A failed fetch passes its error on. A falsy body gives null. A body whose `data` is not an array gives a TypeError. Otherwise the result is the previews of `data`, and with a locale given they are all in that locale. |
| BlogServer.GetBlogPostBySlug | src/lib/strapi/blog.server.ts:212-257 | An empty slug gives null. A failed fetch passes its error on, and a falsy body gives null. Reading the first entry of a `data` that is not an array passes that error on. Otherwise the result is that entry's post, or null when there is no post or it is in a locale other than the one asked for. |
| BlogServer.HitOf | src/lib/strapi/blog.server.ts:284-299 | A hit exists exactly for a truthy entry with a non-empty string slug. Its locale is the entry's own when supported, else the candidate. |
| BlogServer.FindBySlug | src/lib/strapi/blog.server.ts:308 | The first preview with the slug is found; none exactly when no preview has it. |
| BlogServer.ScanAttempt | src/lib/strapi/blog.server.ts:306-312 | An error listing the candidate locale passes on. The round hits exactly when that listing holds a preview with the slug, and the hit is the candidate locale with that slug. |
| BlogServer.FilterRound | src/lib/strapi/blog.server.ts:273-300 | One slug-filter round gives the round's error, nothing, or its hit. |
| BlogServer.ScanRound | src/lib/strapi/blog.server.ts:307-311 | One list-scan round gives the listing's error, nothing, or the candidate locale when its previews hold the slug. |
| BlogServer.FilterPass | src/lib/strapi/blog.server.ts:273-300 | The slug-filter loop over "ar", "fr", "en" gives the first round that errs or hits, and nothing when every round finds nothing. |
| BlogServer.ScanPass | src/lib/strapi/blog.server.ts:305-311 | The list-scan loop over "ar", "fr", "en" gives the first round that errs or hits, and nothing when every round finds nothing. |
| BlogServer.GetBlogPostLocaleBySlug | src/lib/strapi/blog.server.ts:259-319 | The two loops over "ar", "fr", "en" give the first round that errs or hits, filter pass first, then scan pass; an empty slug gives null. |
| BlogServer.FirstHitEarliest | src/lib/strapi/blog.server.ts:259-319 | The outcome is nothing exactly when every round found nothing. Otherwise it is an earliest round that erred or hit, after rounds that all found nothing. |
| BlogServer.RoundsFind | src/lib/strapi/blog.server.ts:273-312 | A filter hit carries a non-empty slug; a scan hit carries the slug asked for. |
| BlogServer.LocaleBySlugFound | src/lib/strapi/blog.server.ts:259-319 | A hit is only found for a non-empty slug, and carries a non-empty slug. |
| ResolveSlug.NormalizeEntity | src/app/api/blog/resolve-slug/route.ts:16-28 | A nullish entity is null; a truthy one with truthy attributes becomes an object; any other truthy one is kept. |
| ResolveSlug.SameNormalizeEntity | src/app/api/blog/resolve-slug/route.ts:16-28 | The route's copy agrees with the blog module's normalizeEntity on every input. |
| ResolveSlug.FirstEntry | src/app/api/blog/resolve-slug/route.ts:57 | Optional chaining never throws. A nullish response, a nullish `data` or an empty `data` array gives null. Otherwise the result is `data[0]`, with null for a nullish entry. |
| ResolveSlug.ResolvedSlug | src/app/api/blog/resolve-slug/route.ts:58-61 | A slug is answered exactly when the normalised entry's slug is a string. |
| ResolveSlug.Handle | src/app/api/blog/resolve-slug/route.ts:30-62 | 400 exactly for an empty slug or an unsupported from or to. 404 exactly when the source lookup finds no post with a documentId. Otherwise 200. Only 200 carries a slug. |
| ResolveSlug.TargetLookup | src/app/api/blog/resolve-slug/route.ts:45-61 | A 200 answer comes from a lookup on the source's documentId, in locale to, with page size 1, and carries the first entry's slug. |
| ResolveSlug.NoTargetEntry | src/app/api/blog/resolve-slug/route.ts:57-59 | A target reply with no body, no `data` or an empty `data` gives no entry and no slug. |
| ResolveSlug.EmptyTargetAnswersNull | src/app/api/blog/resolve-slug/route.ts:57-61 | When the post has no version in locale to, so the target lookup returns an empty `data`, the route answers 200 with a null slug. |
| Legacy.SlugRunPrefix | src/lib/strapi/legacy.ts:10 | The longest run of [a-z0-9] is a prefix. |
| Legacy.SkipGapSuffix | src/lib/strapi/legacy.ts:10 | What remains after a gap is skipped is a suffix. |
| Legacy.WordsAreWords | src/lib/strapi/legacy.ts:10 | Every word of a string is a non-empty run of [a-z0-9]. |
| Legacy.JoinIsSlug | src/lib/strapi/legacy.ts:10-11 | Words joined by '-' form a slug: only [a-z0-9-], no leading, trailing or doubled '-'. The join is empty only for no words. |
| Legacy.CollapseStrip | src/lib/strapi/legacy.ts:10-11 | Collapsing runs and stripping dashes joins the words with '-'. |
| Legacy.WordsOfJoin | src/lib/strapi/legacy.ts:10-11 | The words of words joined by '-' are those words. |
| Legacy.SlugifyWords | src/lib/strapi/legacy.ts:6-11 | slugify is the lower-cased value's words joined by '-'. |
| Legacy.SlugShape | src/lib/strapi/legacy.ts:6-11 | Every slug has only [a-z0-9-], no doubled '-', and neither starts nor ends with '-'. |
| Legacy.SlugifyEmpty | src/lib/strapi/legacy.ts:6-11 | The slug is empty exactly when no character lower-cases to a letter or digit. |
| Legacy.SlugifyIdempotent | src/lib/strapi/legacy.ts:6-11 | Slugifying a slug changes nothing. |
| Legacy.MapLegacyPost | src/lib/strapi/legacy.ts:23-42 | A nullish post, or a truthy non-string category, throws. Otherwise the category is the post's or "Uncategorized", its slug is slugify of the name, and slug and featured come from the post. |
| Legacy.FirstTruthy | src/lib/strapi/legacy.ts:24-41 | The chain gives a truthy candidate or the fallback. |
| Legacy.LegacyFallbacks | src/lib/strapi/legacy.ts:30-41 | The id is the text of the first truthy of _id, id and slug. The author is author or authorName, else null. The date and image are the post's when truthy, else null. |
| Legacy.TryMap | src/lib/strapi/legacy.ts:54 | map succeeds exactly when no element throws, and then maps each element in order. |
| Legacy.GetLegacyBlogPosts | src/lib/strapi/legacy.ts:44-58 | A rejected fetch, a non-2xx status, or a body that is unparsable or not an array gives []. A 2xx array body whose elements all map gives their posts, element by element, in order. |
| Legacy.LegacyPostsMapped | src/lib/strapi/legacy.ts:44-58 | The posts are the element-by-element mapping of a 2xx array body exactly when every element maps. In every other case, including one element that fails to map, the list is empty. |
| Legacy.FindBySlug | src/lib/strapi/legacy.ts:62 | The first post whose slug equals the argument is found; none exactly when no post has it. |
| Legacy.GetLegacyBlogPostBySlug | src/lib/strapi/legacy.ts:60-64 | The result is a legacy post with the slug, or null exactly when none has it. |
| PostsRoute.DerivedSlugIsSlugify | src/app/api/posts/route.ts:23-28 | The slug derived from a title equals slugify of the title, although the route does not trim. |
| PostsRoute.WordCount | src/app/api/posts/route.ts:31 | The word count is one more than the number of white-space runs. |
| PostsRoute.ReadingTime | src/app/api/posts/route.ts:32 | The reading time is at least 1 and is the ceiling of words over 200; it is 1 for no words. |
| PostsRoute.ReadingTimeOne | src/app/api/posts/route.ts:32 | One minute exactly for at most 200 words. |
| PostsRoute.ReadingTimeMonotone | src/app/api/posts/route.ts:32 | More words never give a shorter reading time. |
| PostsRoute.PreparedFails | src/app/api/posts/route.ts:21-33 | Preparing throws exactly for a nullish body, a falsy slug with a non-string title, or truthy content that is not a string. |
| PostsRoute.PreparedFields | src/app/api/posts/route.ts:23-33 | A truthy slug is kept, else the title's derived slug is set. A reading time is set only for truthy content. Every other field is as sent. |
| PostsRoute.ErrorStatus | src/app/api/posts/route.ts:37-48 | 400 exactly for the duplicate-key code 11000, else 500. |
| PostsRoute.Post | src/app/api/posts/route.ts:18-49 | A failed connection is answered at once with the status for its error code. The body is sent exactly when the connection succeeds and the body parses and prepares; what is sent is the prepared body. The status is 201, 400 or 500. 201 exactly when stored, with the stored document. 400 exactly for a duplicate-key error from the connection or the create. Errors carry their message. |
| BlogPageClient.FilteredPosts | src/app/blog/BlogPageClient.tsx:92-107 | Every shown post has a slug; with a category set, every shown post has exactly that category name. |
| BlogPageClient.FeaturedPosts | src/app/blog/BlogPageClient.tsx:109-112 | Every featured post is featured and has a slug. |
| BlogPageClient.Cards | src/app/blog/BlogPageClient.tsx:201-211 | One card per post, in order. |
| BlogPageClient.FilteredInOrder | src/app/blog/BlogPageClient.tsx:92-107 | The shown posts are a subsequence of the posts. |
| BlogPageClient.FilteredMembers | src/app/blog/BlogPageClient.tsx:92-107 | A post is shown exactly when it is listed, has a slug, matches the category, and its lower-cased title or excerpt (missing as "") includes the lower-cased query. |
| BlogPageClient.UnfilteredIsSlugged | src/app/blog/BlogPageClient.tsx:94-105 | With no category and no query, the shown list is exactly the posts with a slug. |
| BlogPageClient.SearchIgnoresCase | src/app/blog/BlogPageClient.tsx:99-104 | The search gives the same answer on lower-cased title, excerpt and query. |
| BlogPageClient.FeaturedMembers | src/app/blog/BlogPageClient.tsx:109-112 | A post is featured exactly when it is listed, featured and has a slug, whatever the category or query. |
| BlogPageClient.FeaturedSection | src/app/blog/BlogPageClient.tsx:173-183 | The featured section appears exactly with no category, no query and some featured post with a slug. |
| BlogPageClient.CardLinks | src/app/blog/BlogPageClient.tsx:44 | Every card links to the base path (default "/blog"), '/', and the post's non-empty slug; featured cards are featured posts. |
| BlogPageClient.Heading | src/app/blog/BlogPageClient.tsx:199 | The list heading is the category, or "All Posts" without one. |
| BlogPage.LowerIncludes | src/app/blog/page.tsx:86-88 | Lower-casing throws exactly for a value that is not a string; otherwise the answer is the case-insensitive inclusion. |
| BlogPage.Featured | src/app/blog/page.tsx:92 | Reading featured throws exactly for a nullish post. |
| BlogPage.Cards | src/app/blog/page.tsx:184-194 | One card per post, in order. |
| BlogPage.Page.constructor | src/app/blog/page.tsx:61-64 | The page starts loading, with no posts, no category and no query, and shows the loading notice. |
| BlogPage.Page.FetchPosts | src/app/blog/page.tsx:70-81 | An array answer becomes the posts, anything else or a failure gives none. Loading ends in every case, and the page no longer shows the loading notice. |
| BlogPage.Page.SelectCategory | src/app/blog/page.tsx:63 | Only the category changes. |
| BlogPage.Page.Search | src/app/blog/page.tsx:64 | Only the query changes. |
| BlogPage.MatchesFails | src/app/blog/page.tsx:83-90 | The filter throws exactly when it reads a field of a nullish post, or lower-cases a non-string title, or a non-string excerpt after the title did not match. |
| BlogPage.FilteredWellShaped | src/app/blog/page.tsx:83-90 | On posts with string titles and excerpts, the filter never throws. It keeps a subsequence, and a post exactly when it matches category and search. |
| BlogPage.UnfilteredKeepsAll | src/app/blog/page.tsx:83-90 | With no category and no query, every post is kept, whatever its shape. |
| BlogPage.FeaturedExactly | src/app/blog/page.tsx:92 | The featured list throws exactly when some post is nullish. Otherwise it is a subsequence holding exactly the posts with truthy featured, slug or not. |
| BlogPage.RenderedPostsPresent | src/app/blog/page.tsx:83-92 | A page that renders holds no nullish post. |
| BlogPage.FeaturedSection | src/app/blog/page.tsx:154-166 | The featured section appears exactly when loading is over, there are posts, no category and no query, and some post has truthy featured. |
| CmsConfig.TrimmedPieces | cms/config/middlewares.ts:4-7 | One trimmed piece per comma-separated piece, in order. |
| CmsConfig.CommaListMembers | cms/config/middlewares.ts:4-7 | An item is listed exactly when it is a non-empty trimmed piece. |
| CmsConfig.CommaListInOrder | cms/config/middlewares.ts:4-7 | The items keep the order of the pieces. |
| CmsConfig.CommaListShape | cms/config/middlewares.ts:4-7 | Every item is non-empty, has no ',' and no white space at either end. |
| CmsConfig.CommaListBlank | cms/config/middlewares.ts:4-7 | The list is empty exactly when the value holds only white space and commas. |
| CmsConfig.CommaListJoin | cms/config/middlewares.ts:4-7 | Non-empty, trimmed, comma-free items joined with ',' parse back to themselves. |
| CmsConfig.CorsOrigins | cms/config/middlewares.ts:9 | The origin list is never empty. |
| CmsConfig.CorsOriginsDefault | cms/config/middlewares.ts:9-18 | An absent or blank CORS_ORIGINS gives http://localhost:3000; any other gives the parsed list. |
| CmsConfig.Middlewares | cms/config/middlewares.ts:11-30 | Ten middlewares, the CORS one fourth and alone. It has the parsed origins, methods GET, HEAD, OPTIONS and no credentials. |
| CmsConfig.ServerConfig | cms/config/server.ts:4-11 | HOST and PORT are used when set, else 0.0.0.0 and 1337. The keys are the comma list of APP_KEYS, so an absent or empty APP_KEYS gives none. |
| CmsConfig.AppKeys | cms/config/server.ts:4-7 | Keys written as a comma-separated list are read back exactly, in order. |

## Left out

- Network, database and console I/O are left out. The answers of `fetch` and `Post.create` are function parameters, and the outcome of `dbConnect` is a parameter of `PostsRoute.Post`. The logging of failures is dropped.
- The `cache` option of `strapiFetch` is left out: the client never forwards it.
- `getLocaleFromCookie` (src/components/LanguageSwitcher.tsx:25-34) is left out. Its regular expression over `document.cookie` and its `decodeURIComponent` are browser parsing; the switcher takes the decoded cookie value as a parameter.
- `rootMetadata` and `resolveMetadataBase` (src/lib/seo.ts:37-49, 108-148) are left out. They are constants built with the `URL` constructor.
- `getBaseUrl` (src/lib/strapi/legacy.ts:13-21) is left out. It reads environment variables and only chooses where the legacy fetch goes; the reply is a parameter.
- The posts API's `GET` (src/app/api/posts/route.ts:5-16) is left out. It is one database query with a sort.
- The React rendering is left out, except the parts modelled as a view: the empty and loading notices, the featured section, the heading and the card links. The `useState`, `useMemo` and `useEffect` machinery is modelled only as the page's and the switcher's state.
- Numbers are integers: floating point, `NaN` and the text of non-integral numbers are left out.
- Objects are entry lists with distinct keys, in insertion order. The ordering JavaScript gives integer-like keys is left out.
- `JsText.Lower` lower-cases ASCII letters only; the case mappings of other Unicode letters are left out. `JsText.IsSpace`, used by `trim` and `\s`, is JavaScript's full white-space and line-terminator list.
- `JsText.EncodeURIComponent` encodes code points as UTF-8; lone surrogates, which make it throw, are left out.
- Lookups in the translation tables are by key only; inherited object properties such as `constructor` are left out.
- `PostsRoute.Post`: an error thrown while preparing the body has no `code`, so the route's catch answers it with the generic 500 reply. Thrown values without a `code` property, such as null, are not modelled.
- `CmsConfig.ServerConfig`: the model takes PORT as an integer. `env<number>` only annotates the type, so a PORT that is set arrives as its text, and that text is not modelled. Every other variable is its text when set.
- `BlogServer.GetBlogPostLocaleBySlug`: the rounds run in the order of the supported locales, one after another.
- MapBlogPostPreview is built on the corrected `BlogServer.MapBlogPostBase` (see Findings). For a post whose localizations relation holds an empty entry it answers normally, where the source throws a TypeError.
- MapBlogPost is built on the corrected `BlogServer.MapBlogPostBase` (see Findings). For a post whose localizations relation holds an empty entry it answers normally, where the source throws a TypeError.
- GetBlogPostPreviews is built on the corrected `BlogServer.MapBlogPostBase` (see Findings). For a post whose localizations relation holds an empty entry it answers normally, where the source throws a TypeError for the whole list.
- GetBlogPostBySlug is built on the corrected `BlogServer.MapBlogPostBase` (see Findings). For a post whose localizations relation holds an empty entry it answers normally, where the source throws a TypeError.
- ScanAttempt is built on the corrected `BlogServer.MapBlogPostBase` (see Findings). For a post whose localizations relation holds an empty entry it answers normally, where the source throws a TypeError for the whole round.
- GetBlogPostLocaleBySlug is built on the corrected `BlogServer.MapBlogPostBase` (see Findings). For a post whose localizations relation holds an empty entry it answers normally, where the source throws a TypeError in its list scan.
- Handle: the resolve-slug route's lookup is built on the corrected `BlogServer.MapBlogPostBase` (see Findings). For a post whose localizations relation holds an empty entry the route answers normally, where the source throws a TypeError and the route answers 500.
- QueryStringSplits: the query string splits back into its encoded pairs only. Decoding it back into the query is not modelled, and it cannot succeed in general: below a non-empty prefix, an array and the object keyed by its indices give the same pairs (`StrapiClient.ArrayAsIndexedObject`).
- JsValue.Length, JsValue.First: strings are sequences of Unicode scalar values, not UTF-16 code units. `length` and indexing therefore differ from JavaScript for characters outside the Basic Multilingual Plane.

## Findings

| source | as written | input that shows it | evidently intended | confidence | as-written member | corrected member |
|---|---|---|---|---|---|---|
| src/lib/strapi/blog.server.ts:88-92 | each localization entry is read with `entry.locale` after `normalizeEntity`, which returns null for an empty entity, so reading its locale throws a TypeError and the whole post fails to map | a post whose `localizations` relation is `{data: [null]}` | entries that normalise to null are skipped, like other entries without a usable locale and slug | not executed | BlogServer.NullLocalizationThrows | BlogServer.MapBlogPostBase |
