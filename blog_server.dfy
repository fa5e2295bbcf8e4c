/**
 * Blog data from the CMS (src/lib/strapi/blog.server.ts): flattening CMS entities and
 * relations, mapping an entity to a post preview or post, and the three lookups built
 * on the CMS client.
 */
module BlogServer {
  import opened Wrappers
  import opened JsText
  import opened JsValue
  import opened Locales
  import StrapiClient
  import Listing

  // ---------------------------------------------------------------------------
  // Entities and relations

  /** `normalizeEntity(entity)`: a falsy entity is null; an entity with truthy
      `attributes` becomes `{id, documentId, ...attributes}`; any other is kept. */
  function NormalizeEntity(entity: Json): (r: Json)
    ensures !Truthy(entity) ==> r == Null
    ensures Truthy(entity) ==> Truthy(r)
    ensures Truthy(entity) && !Truthy(Get(entity, "attributes")) ==> r == entity
    ensures Truthy(entity) && Truthy(Get(entity, "attributes")) ==>
      r == Flat(Get(entity, "id"), Get(entity, "documentId"), Get(entity, "attributes"))
  {
    if !Truthy(entity) then Null
    else if Truthy(Get(entity, "attributes")) then
      Obj(Assign([("id", Get(entity, "id")), ("documentId", Get(entity, "documentId"))], Spread(Get(entity, "attributes"))))
    else entity
  }

  /** `{id, documentId, ...attributes}`: the flat form of a wrapped entity. */
  function Flat(id: Json, documentId: Json, attributes: Json): Json {
    Obj(Assign([("id", id), ("documentId", documentId)], Spread(attributes)))
  }

  /** No spread entry named `attributes` is truthy. */
  predicate NoNestedAttributes(attributes: Json) {
    forall j :: 0 <= j < |Spread(attributes)| && Spread(attributes)[j].0 == "attributes" ==> !Truthy(Spread(attributes)[j].1)
  }

  /** The flat form of an entity has no truthy `attributes` of its own. */
  lemma FlatHasNoAttributes(id: Json, documentId: Json, attributes: Json)
    requires NoNestedAttributes(attributes)
    ensures !Truthy(Get(Flat(id, documentId, attributes), "attributes"))
  {
    var base := [("id", id), ("documentId", documentId)];
    AssignLookup(base, Spread(attributes), "attributes");
    assert Keys(base) == ["id", "documentId"];
  }

  /** A wrapped entity and its flat form normalise to the same record, and
      normalising that record again changes nothing. */
  lemma WrappedEqualsFlat(id: Json, documentId: Json, attributes: Json)
    requires Truthy(attributes) && NoNestedAttributes(attributes)
    ensures var wrapped := Obj([("id", id), ("documentId", documentId), ("attributes", attributes)]);
      NormalizeEntity(wrapped) == NormalizeEntity(Flat(id, documentId, attributes)) == Flat(id, documentId, attributes)
    ensures NormalizeEntity(NormalizeEntity(Flat(id, documentId, attributes))) == Flat(id, documentId, attributes)
  {
    var entries := [("id", id), ("documentId", documentId), ("attributes", attributes)];
    assert "documentId" != "id" && "attributes" != "id" && "attributes" != "documentId";
    assert Lookup(entries, "id") == Some(id);
    assert entries[1..] == [("documentId", documentId), ("attributes", attributes)];
    assert Lookup(entries, "documentId") == Some(documentId);
    assert entries[1..][1..] == [("attributes", attributes)];
    assert Lookup(entries[1..][1..], "attributes") == Some(attributes);
    assert Lookup(entries[1..], "attributes") == Some(attributes);
    assert Lookup(entries, "attributes") == Some(attributes);
    FlatHasNoAttributes(id, documentId, attributes);
  }

  /** Reading a field of a normalised wrapped entity: the attributes win, then the
      entity's own `id` and `documentId`; every other field is undefined. */
  lemma NormalizedFields(entity: Json, k: string)
    requires Truthy(entity) && Get(entity, "attributes").Obj?
    requires DistinctKeys(Get(entity, "attributes").entries)
    ensures Get(NormalizeEntity(entity), k) ==
      if Has(Get(entity, "attributes"), k) then Get(Get(entity, "attributes"), k)
      else if k == "id" then Get(entity, "id")
      else if k == "documentId" then Get(entity, "documentId")
      else Undefined
  {
    var base := [("id", Get(entity, "id")), ("documentId", Get(entity, "documentId"))];
    AssignLookupDistinct(base, Get(entity, "attributes").entries, k);
    assert base[1..] == [("documentId", Get(entity, "documentId"))];
    assert Lookup(base[1..][1..], k) == None;
  }

  /** Normalising is idempotent unless the attributes themselves carry truthy attributes. */
  lemma NormalizeEntityIdempotent(entity: Json)
    requires Truthy(Get(entity, "attributes")) ==> NoNestedAttributes(Get(entity, "attributes"))
    ensures NormalizeEntity(NormalizeEntity(entity)) == NormalizeEntity(entity)
  {
    if Truthy(entity) && Truthy(Get(entity, "attributes")) {
      FlatHasNoAttributes(Get(entity, "id"), Get(entity, "documentId"), Get(entity, "attributes"));
    }
  }

  /** `normalizeRelation(value)`. */
  function NormalizeRelation(value: Json): (r: Json)
    ensures !Truthy(value) ==> r == Null
    ensures Has(value, "data") && Get(value, "data").Arr? ==>
      r.Arr? && |r.items| == |Get(value, "data").items|
      && forall i :: 0 <= i < |r.items| ==> r.items[i] == NormalizeEntity(Get(value, "data").items[i])
    ensures Truthy(value) && Has(value, "data") && !Get(value, "data").Arr? ==> r == NormalizeEntity(Get(value, "data"))
    ensures Truthy(value) && !Has(value, "data") ==> r == NormalizeEntity(value)
  {
    if !Truthy(value) then Null
    else if Has(value, "data") then
      var data := Get(value, "data");
      if data.Arr? then Arr(seq(|data.items|, i requires 0 <= i < |data.items| => NormalizeEntity(data.items[i])))
      else NormalizeEntity(data)
    else NormalizeEntity(value)
  }

  // ---------------------------------------------------------------------------
  // Post records

  /** A translation of a post: a supported locale and a non-empty slug. */
  datatype Localization = Localization(locale: Locale, slug: string, documentId: Option<string>)

  datatype Category = Category(id: Json, documentId: Json, name: string, slug: string)

  datatype Preview = Preview(
    id: string,
    documentId: Option<string>,
    locale: Locale,
    slug: string,
    title: string,
    excerpt: Option<string>,
    category: Option<Category>,
    authorName: Option<string>,
    publishedAt: Option<string>,
    featured: bool,
    coverImageUrl: Option<string>,
    readingTime: Option<int>,
    localizations: Option<seq<Localization>>)

  /** A full post: the preview fields and the content passed through untouched. */
  datatype Post = Post(preview: Preview, content: Json)

  /** What `mapBlogPostBase` returns: the normalised entity and its preview. */
  datatype Mapped = Mapped(normalized: Json, base: Preview)

  /** The list the localizations relation is read as. */
  function LocalizationList(relation: Json): (list: seq<Json>)
    ensures relation.Arr? ==> list == relation.items
    ensures !relation.Arr? && Truthy(relation) ==> list == [relation]
    ensures !Truthy(relation) ==> list == []
  {
    if relation.Arr? then relation.items else if Truthy(relation) then [relation] else []
  }

  /** `String(v)` of the first truthy of two values. */
  function FirstTruthyString(a: Json, b: Json): (r: Option<string>)
    ensures r.Some? <==> Truthy(a) || Truthy(b)
  {
    if Truthy(a) then Some(ToStr(a)) else if Truthy(b) then Some(ToStr(b)) else None
  }

  /** The localization an entry that is neither null nor undefined stands for: kept only with a
      supported string locale and a non-empty string slug. */
  function LocalizationOf(entry: Json): (r: Option<Localization>)
    ensures r.Some? <==> IsSupportedLocale(AsString(Get(entry, "locale"))) && AsString(Get(entry, "slug")).Some? && AsString(Get(entry, "slug")).value != ""
    ensures r.Some? ==> Some(r.value.locale) == AsString(Get(entry, "locale")) && Some(r.value.slug) == AsString(Get(entry, "slug"))
    ensures r.Some? ==> r.value.documentId == FirstTruthyString(Get(entry, "documentId"), Get(entry, "id"))
  {
    var entryLocale := AsString(Get(entry, "locale"));
    var entrySlug := AsString(Get(entry, "slug"));
    if entryLocale.None? || entryLocale.value == "" || entrySlug.None? || entrySlug.value == "" || !IsSupportedLocale(entryLocale) then None
    else Some(Localization(entryLocale.value, entrySlug.value, FirstTruthyString(Get(entry, "documentId"), Get(entry, "id"))))
  }

  /** The localizations of the list as written: reading `locale` of a null or undefined entry throws. */
  function LocalizationsAsWritten(list: seq<Json>): Result<seq<Localization>, JsError> {
    if list == [] then Ok([])
    else if IsNullish(list[0]) then Err(TypeError)
    else match LocalizationsAsWritten(list[1..])
      case Err(e) => Err(e)
      case Ok(rest) => Ok(if LocalizationOf(list[0]).Some? then [LocalizationOf(list[0]).value] + rest else rest)
  }

  /** The localizations of the list, skipping null and undefined entries. */
  function Localizations(list: seq<Json>): (r: seq<Localization>)
    ensures |r| <= |list|
    ensures forall l :: l in r ==> l.slug != ""
  {
    if list == [] then []
    else
      var rest := Localizations(list[1..]);
      if !IsNullish(list[0]) && LocalizationOf(list[0]).Some? then [LocalizationOf(list[0]).value] + rest else rest
  }

  /** A localization is kept exactly when some entry that is not null or undefined qualifies for it. */
  lemma {:induction false} LocalizationsMembers(list: seq<Json>, l: Localization)
    ensures l in Localizations(list) <==> exists i :: 0 <= i < |list| && !IsNullish(list[i]) && LocalizationOf(list[i]) == Some(l)
  {
    if list != [] {
      LocalizationsMembers(list[1..], l);
      if exists i :: 0 <= i < |list[1..]| && !IsNullish(list[1..][i]) && LocalizationOf(list[1..][i]) == Some(l) {
        var i :| 0 <= i < |list[1..]| && !IsNullish(list[1..][i]) && LocalizationOf(list[1..][i]) == Some(l);
        assert list[i + 1] == list[1..][i];
      }
      if exists i :: 0 <= i < |list| && !IsNullish(list[i]) && LocalizationOf(list[i]) == Some(l) {
        var i :| 0 <= i < |list| && !IsNullish(list[i]) && LocalizationOf(list[i]) == Some(l);
        if i > 0 {
          assert list[1..][i - 1] == list[i];
        }
      }
    }
  }

  /** As written, the mapping throws exactly when an entry is null or undefined, and
      otherwise agrees with the corrected one. */
  lemma {:induction false} LocalizationsAsWrittenAgrees(list: seq<Json>)
    ensures (exists i :: 0 <= i < |list| && IsNullish(list[i])) ==> LocalizationsAsWritten(list) == Err(TypeError)
    ensures (forall i :: 0 <= i < |list| ==> !IsNullish(list[i])) ==> LocalizationsAsWritten(list) == Ok(Localizations(list))
  {
    if list != [] {
      LocalizationsAsWrittenAgrees(list[1..]);
      if exists i :: 0 <= i < |list| && IsNullish(list[i]) {
        var i :| 0 <= i < |list| && IsNullish(list[i]);
        if i > 0 {
          assert IsNullish(list[1..][i - 1]);
        }
      }
      if forall i :: 0 <= i < |list| ==> !IsNullish(list[i]) {
        assert forall i :: 0 <= i < |list[1..]| ==> !IsNullish(list[1..][i]) by {
          forall i | 0 <= i < |list[1..]| ensures !IsNullish(list[1..][i]) {
            assert list[1..][i] == list[i + 1];
          }
        }
      }
    }
  }

  /** The category a normalised relation stands for: present only with a non-empty string name. */
  function CategoryOf(category: Json): (r: Option<Category>)
    ensures r.Some? <==> AsString(Get(category, "name")).Some? && AsString(Get(category, "name")).value != ""
    ensures r.Some? ==> r.value.name == AsString(Get(category, "name")).value
    ensures r.Some? ==> r.value.slug == AsString(Get(category, "slug")).GetOr("")
  {
    var categoryName := AsString(Get(category, "name"));
    var categorySlug := AsString(Get(category, "slug"));
    if categoryName.Some? && categoryName.value != "" then
      Some(Category(Coalesce(Get(category, "id"), Get(category, "documentId")), Get(category, "documentId"),
        categoryName.value, categorySlug.GetOr("")))
    else None
  }

  /** The preview fields of a normalised entity, given its localizations. */
  function PreviewOf(normalized: Json, requestedLocale: Option<string>, mediaBase: string, localizations: seq<Localization>): Preview {
    var resolvedLocale := if AsString(Get(normalized, "locale")).Some? then AsString(Get(normalized, "locale")) else requestedLocale;
    var slug := AsString(Get(normalized, "slug")).GetOr("");
    var readingTime := Get(normalized, "readingTime");
    Preview(
      ToStr(Coalesce(Get(normalized, "id"), Coalesce(Get(normalized, "documentId"), Str(slug)))),
      if Truthy(Get(normalized, "documentId")) then Some(ToStr(Get(normalized, "documentId"))) else None,
      NormalizeLocale(resolvedLocale),
      slug,
      AsString(Get(normalized, "title")).GetOr(""),
      AsString(Get(normalized, "excerpt")),
      CategoryOf(NormalizeRelation(Get(normalized, "category"))),
      AsString(Get(normalized, "authorName")),
      AsString(Get(normalized, "publishedAt")),
      Truthy(Get(normalized, "featured")),
      StrapiClient.MediaUrl(AsString(Get(NormalizeRelation(Get(normalized, "coverImage")), "url")), mediaBase),
      if readingTime.Num? then Some(readingTime.n) else None,
      if |localizations| > 0 then Some(localizations) else None)
  }

  /** `mapBlogPostBase(raw, requestedLocale)` as written: it throws when the localizations
      list holds a null or undefined entry. */
  function MapBlogPostBaseAsWritten(raw: Json, requestedLocale: Option<string>, mediaBase: string): Result<Option<Mapped>, JsError> {
    var normalized := NormalizeEntity(raw);
    if !Truthy(normalized) then Ok(None)
    else
      match LocalizationsAsWritten(LocalizationList(NormalizeRelation(Get(normalized, "localizations"))))
      case Err(e) => Err(e)
      case Ok(localizations) => Ok(Some(Mapped(normalized, PreviewOf(normalized, requestedLocale, mediaBase, localizations))))
  }

  /** `mapBlogPostBase(raw, requestedLocale)` with null and undefined localizations skipped. */
  function MapBlogPostBase(raw: Json, requestedLocale: Option<string>, mediaBase: string): (r: Option<Mapped>)
    ensures r.None? <==> !Truthy(raw)
    ensures r.Some? ==> r.value.normalized == NormalizeEntity(raw)
  {
    var normalized := NormalizeEntity(raw);
    if !Truthy(normalized) then None
    else
      var localizations := Localizations(LocalizationList(NormalizeRelation(Get(normalized, "localizations"))));
      Some(Mapped(normalized, PreviewOf(normalized, requestedLocale, mediaBase, localizations)))
  }

  /** Where the as-written mapping does not throw it agrees with the corrected one. */
  lemma MapBlogPostBaseAgrees(raw: Json, requestedLocale: Option<string>, mediaBase: string)
    ensures MapBlogPostBaseAsWritten(raw, requestedLocale, mediaBase).Ok? ==>
      MapBlogPostBaseAsWritten(raw, requestedLocale, mediaBase) == Ok(MapBlogPostBase(raw, requestedLocale, mediaBase))
  {
    var normalized := NormalizeEntity(raw);
    if Truthy(normalized) {
      var list := LocalizationList(NormalizeRelation(Get(normalized, "localizations")));
      LocalizationsAsWrittenAgrees(list);
    }
  }

  /** A post whose localizations relation holds an empty entity: as written the mapping
      throws, the corrected mapping drops the entry. */
  lemma NullLocalizationThrows(mediaBase: string)
    ensures var raw := Obj([("slug", Str("a")), ("localizations", Obj([("data", Arr([Null]))]))]);
      MapBlogPostBaseAsWritten(raw, None, mediaBase) == Err(TypeError)
      && MapBlogPostBase(raw, None, mediaBase).Some?
      && MapBlogPostBase(raw, None, mediaBase).value.base.localizations.None?
  {
    var relation := Obj([("data", Arr([Null]))]);
    var raw := Obj([("slug", Str("a")), ("localizations", relation)]);
    assert Get(raw, "attributes") == Undefined;
    assert "slug" != "localizations" && "slug" != "attributes" && "localizations" != "attributes";
    assert raw.entries[1..] == [("localizations", relation)];
    assert Lookup(raw.entries, "localizations") == Some(relation);
    assert Lookup(raw.entries, "attributes") == None;
    assert Has(relation, "data") && Get(relation, "data") == Arr([Null]);
    var list := LocalizationList(NormalizeRelation(relation));
    assert list == [Null];
    LocalizationsAsWrittenAgrees(list);
  }

  /** `mapBlogPostPreview`. */
  function MapBlogPostPreview(raw: Json, requestedLocale: Option<string>, mediaBase: string): (r: Option<Preview>)
    ensures r.None? <==> !Truthy(raw)
  {
    match MapBlogPostBase(raw, requestedLocale, mediaBase)
    case None => None
    case Some(m) => Some(m.base)
  }

  /** `mapBlogPost`: the preview and the normalised entity's content. */
  function MapBlogPost(raw: Json, requestedLocale: Option<string>, mediaBase: string): (r: Option<Post>)
    ensures r.None? <==> !Truthy(raw)
    ensures r.Some? ==> Some(r.value.preview) == MapBlogPostPreview(raw, requestedLocale, mediaBase)
    ensures r.Some? ==> r.value.content == Get(NormalizeEntity(raw), "content")
  {
    match MapBlogPostBase(raw, requestedLocale, mediaBase)
    case None => None
    case Some(m) => Some(Post(m.base, Get(m.normalized, "content")))
  }

  /** The locale of a preview: the entity's own string locale, else the requested one,
      replaced by the default when unsupported. */
  lemma PreviewLocale(raw: Json, requestedLocale: Option<string>, mediaBase: string)
    requires Truthy(raw)
    ensures var n := NormalizeEntity(raw);
      var own := AsString(Get(n, "locale"));
      var p := MapBlogPostPreview(raw, requestedLocale, mediaBase).value;
      (own.Some? ==> p.locale == NormalizeLocale(own))
      && (own.None? ==> p.locale == NormalizeLocale(requestedLocale))
      && (own.Some? && !IsSupportedLocale(own) ==> p.locale == DefaultLocale)
  {
  }

  /** Malformed fields fall back instead of failing: the slug and title are their string
      values or "", the optional fields their string or number values or absent, the id is
      `String(id ?? documentId ?? slug)`, and the localizations are omitted when none survive. */
  lemma PreviewFields(raw: Json, requestedLocale: Option<string>, mediaBase: string)
    requires Truthy(raw)
    ensures var n := NormalizeEntity(raw);
      var p := MapBlogPostPreview(raw, requestedLocale, mediaBase).value;
      p.slug == AsString(Get(n, "slug")).GetOr("")
      && p.title == AsString(Get(n, "title")).GetOr("")
      && p.excerpt == AsString(Get(n, "excerpt"))
      && p.authorName == AsString(Get(n, "authorName"))
      && p.publishedAt == AsString(Get(n, "publishedAt"))
      && p.readingTime == (if Get(n, "readingTime").Num? then Some(Get(n, "readingTime").n) else None)
      && p.featured == Truthy(Get(n, "featured"))
      && p.id == ToStr(Coalesce(Get(n, "id"), Coalesce(Get(n, "documentId"), Str(p.slug))))
      && (p.localizations.Some? ==> |p.localizations.value| > 0)
      && (p.category.Some? ==> p.category.value.name != "")
  ensures var n := NormalizeEntity(raw);
      var p := MapBlogPostPreview(raw, requestedLocale, mediaBase).value;
      var documentId := Get(n, "documentId");
      var localizations := Localizations(LocalizationList(NormalizeRelation(Get(n, "localizations"))));
      p.documentId == (if Truthy(documentId) then Some(ToStr(documentId)) else None)
      && p.category == CategoryOf(NormalizeRelation(Get(n, "category")))
      && p.coverImageUrl == StrapiClient.MediaUrl(AsString(Get(NormalizeRelation(Get(n, "coverImage")), "url")), mediaBase)
      && p.localizations == (if localizations != [] then Some(localizations) else None)
  {
  }

  // ---------------------------------------------------------------------------
  // Lookups

  const PreviewFieldNames: seq<string> :=
    ["documentId", "slug", "title", "excerpt", "featured", "publishedAt", "authorName", "readingTime", "locale"]

  const PostFieldNames: seq<string> :=
    ["documentId", "slug", "title", "excerpt", "content", "featured", "publishedAt", "authorName", "readingTime", "locale"]

  function Strs(names: seq<string>): seq<Json> {
    seq(|names|, i requires 0 <= i < |names| => Str(names[i]))
  }

  const Populate: Json := Obj([("category", Bool(true)), ("coverImage", Bool(true))])

  function SlugFilter(slug: string): Json {
    Obj([("slug", Obj([("$eq", Str(slug))]))])
  }

  const PreviewQuery: seq<(string, Json)> :=
    [("sort", Arr([Str("publishedAt:desc")])), ("fields", Arr(Strs(PreviewFieldNames))), ("populate", Populate)]

  function PostQuery(slug: string): seq<(string, Json)> {
    [("filters", SlugFilter(slug)), ("populate", Populate), ("pagination", Obj([("pageSize", Num(1))])),
     ("fields", Arr(Strs(PostFieldNames)))]
  }

  function LocaleQuery(slug: string): seq<(string, Json)> {
    [("filters", SlugFilter(slug)), ("pagination", Obj([("pageSize", Num(1))])),
     ("fields", Arr(Strs(["slug", "locale", "documentId"])))]
  }

  predicate IsGiven(locale: Option<string>) {
    locale.Some? && locale.value != ""
  }

  function MediaBase(cfg: StrapiClient.Config): string {
    StrapiClient.StrapiUrl(cfg.strapiUrlEnv)
  }

  /** What one entry contributes to the list: its preview, when the entry is truthy and,
      with a locale given, the preview is in that locale. */
  function Kept(entry: Json, locale: Option<string>, mediaBase: string): (r: Option<Preview>)
    ensures r.Some? <==> Truthy(entry) && (!IsGiven(locale) || MapBlogPostPreview(entry, locale, mediaBase).value.locale == locale.value)
    ensures r.Some? ==> Some(r.value) == MapBlogPostPreview(entry, locale, mediaBase)
  {
    match MapBlogPostPreview(entry, locale, mediaBase)
    case None => None
    case Some(p) => if !IsGiven(locale) || p.locale == locale.value then Some(p) else None
  }

  function KeptIn(locale: Option<string>, mediaBase: string): Json -> Option<Preview> {
    entry => Kept(entry, locale, mediaBase)
  }

  /** `data.map(mapBlogPostPreview).filter(Boolean).filter(locale)`: the previews of the
      entries, with falsy entries dropped and, when a locale is given, only the previews
      in that locale kept. */
  function PreviewsOf(items: seq<Json>, locale: Option<string>, mediaBase: string): (r: seq<Preview>)
    ensures |r| <= |items|
    ensures IsGiven(locale) ==> forall p :: p in r ==> p.locale == locale.value
    ensures IsGiven(locale) && !IsSupportedLocale(locale) ==> r == []
  {
    var r := Listing.Collect(items, KeptIn(locale, mediaBase));
    assert IsGiven(locale) ==> forall p :: p in r ==> p.locale == locale.value by {
      forall p | p in r && IsGiven(locale)
        ensures p.locale == locale.value
      {
        Listing.CollectMembers(items, KeptIn(locale, mediaBase), p);
      }
    }
    assert IsGiven(locale) && r != [] ==> r[0] in r;
    r
  }

  /** A preview is listed exactly when some entry maps to it and, when a locale is
      given, it is in that locale. */
  lemma PreviewsMembers(items: seq<Json>, locale: Option<string>, mediaBase: string, p: Preview)
    ensures p in PreviewsOf(items, locale, mediaBase) <==>
      exists i :: 0 <= i < |items| && MapBlogPostPreview(items[i], locale, mediaBase) == Some(p) && (!IsGiven(locale) || p.locale == locale.value)
  {
    Listing.CollectMembers(items, KeptIn(locale, mediaBase), p);
  }

  /** The previews of two lists joined are the previews of each, in order. */
  lemma PreviewsAppend(a: seq<Json>, b: seq<Json>, locale: Option<string>, mediaBase: string)
    ensures PreviewsOf(a + b, locale, mediaBase) == PreviewsOf(a, locale, mediaBase) + PreviewsOf(b, locale, mediaBase)
  {
    Listing.CollectAppend(a, b, KeptIn(locale, mediaBase));
  }

  /** One entry gives its preview when it has one in the locale asked for, else nothing;
      with `PreviewsAppend` this fixes the whole list. */
  lemma PreviewsSingle(x: Json, locale: Option<string>, mediaBase: string)
    ensures var p := MapBlogPostPreview(x, locale, mediaBase);
      PreviewsOf([x], locale, mediaBase) ==
        if Truthy(x) && (!IsGiven(locale) || p.value.locale == locale.value) then [p.value] else []
  {
    assert [x][1..] == [];
  }

  /** Without a locale every truthy entry gives a preview, in order. */
  lemma PreviewsWithoutLocale(items: seq<Json>, locale: Option<string>, mediaBase: string)
    requires !IsGiven(locale)
    requires forall i :: 0 <= i < |items| ==> Truthy(items[i])
    ensures |PreviewsOf(items, locale, mediaBase)| == |items|
    ensures forall i :: 0 <= i < |items| ==> Some(PreviewsOf(items, locale, mediaBase)[i]) == MapBlogPostPreview(items[i], locale, mediaBase)
  {
    Listing.CollectAll(items, KeptIn(locale, mediaBase));
  }

  /** `getBlogPostPreviews(locale)`: thrown errors propagate, a falsy body gives null, and
      a body whose `data` is not an array throws. */
  function GetBlogPostPreviews(cfg: StrapiClient.Config, backend: StrapiClient.Request -> StrapiClient.HttpReply, locale: Option<string>): (r: Result<Option<seq<Preview>>, JsError>)
    ensures r.Ok? && r.value.Some? && IsGiven(locale) ==> forall p :: p in r.value.value ==> p.locale == locale.value
    ensures var f := StrapiClient.StrapiFetch(cfg, backend, "blog-posts", StrapiClient.FetchOptions(Some(PreviewQuery), locale, None));
      (f.Err? ==> r == Err(f.error))
      && (f.Ok? && !Truthy(f.value) ==> r == Ok(None))
      && (f.Ok? && Truthy(f.value) && !Get(f.value, "data").Arr? ==> r == Err(TypeError))
      && (f.Ok? && Truthy(f.value) && Get(f.value, "data").Arr? ==>
            r == Ok(Some(PreviewsOf(Get(f.value, "data").items, locale, MediaBase(cfg)))))
  {
    match StrapiClient.StrapiFetch(cfg, backend, "blog-posts", StrapiClient.FetchOptions(Some(PreviewQuery), locale, None))
    case Err(e) => Err(e)
    case Ok(response) =>
      if !Truthy(response) then Ok(None)
      else if !Get(response, "data").Arr? then Err(TypeError)
      else Ok(Some(PreviewsOf(Get(response, "data").items, locale, MediaBase(cfg))))
  }

  /** `getBlogPostBySlug(slug, locale)`: null for an empty slug and for a post in
      another locale than the one requested. */
  function GetBlogPostBySlug(cfg: StrapiClient.Config, backend: StrapiClient.Request -> StrapiClient.HttpReply, slug: string, locale: Option<string>): (r: Result<Option<Post>, JsError>)
    ensures slug == "" ==> r == Ok(None)
    ensures r.Ok? && r.value.Some? && IsGiven(locale) ==> r.value.value.preview.locale == locale.value
    ensures slug != "" ==>
      var f := StrapiClient.StrapiFetch(cfg, backend, "blog-posts", StrapiClient.FetchOptions(Some(PostQuery(slug)), locale, None));
      (f.Err? ==> r == Err(f.error))
      && (f.Ok? && !Truthy(f.value) ==> r == Ok(None))
      && (f.Ok? && Truthy(f.value) && First(Get(f.value, "data")).Err? ==> r == Err(First(Get(f.value, "data")).error))
      && (f.Ok? && Truthy(f.value) && First(Get(f.value, "data")).Ok? ==>
            var post := MapBlogPost(First(Get(f.value, "data")).value, locale, MediaBase(cfg));
            (post.None? ==> r == Ok(None))
            && (post.Some? && (!IsGiven(locale) || post.value.preview.locale == locale.value) ==> r == Ok(post))
            && (post.Some? && IsGiven(locale) && post.value.preview.locale != locale.value ==> r == Ok(None)))
  {
    if slug == "" then Ok(None)
    else match StrapiClient.StrapiFetch(cfg, backend, "blog-posts", StrapiClient.FetchOptions(Some(PostQuery(slug)), locale, None))
      case Err(e) => Err(e)
      case Ok(response) =>
        if !Truthy(response) then Ok(None)
        else match First(Get(response, "data"))
          case Err(e) => Err(e)
          case Ok(first) =>
            var post := MapBlogPost(first, locale, MediaBase(cfg));
            if post.Some? && IsGiven(locale) && post.value.preview.locale != locale.value then Ok(None)
            else Ok(post)
  }

  /** Where a slug was found. */
  datatype Hit = Hit(locale: Locale, slug: string)

  /** One round of the slug-filter pass for a candidate locale: an error to propagate,
      nothing to move on, or the hit to return. */
  function FilterAttempt(cfg: StrapiClient.Config, backend: StrapiClient.Request -> StrapiClient.HttpReply, slug: string, candidate: Locale): (r: Result<Option<Hit>, JsError>)
    ensures r.Ok? && r.value.Some? ==> r.value.value.slug != ""
  {
    match StrapiClient.StrapiFetch(cfg, backend, "blog-posts", StrapiClient.FetchOptions(Some(LocaleQuery(slug)), Some(candidate), None))
    case Err(e) => Err(e)
    case Ok(response) =>
      if !Truthy(response) then Ok(None)
      else match Length(Get(response, "data"))
        case Err(e) => Err(e)
        case Ok(length) =>
          if length == Num(0) then Ok(None)
          else match First(Get(response, "data"))
            case Err(e) => Err(e)
            case Ok(item) => HitOf(NormalizeEntity(item), candidate)
  }

  /** The hit a normalised first entry gives: its string slug, and its own locale when
      that is supported, else the candidate. */
  function HitOf(first: Json, candidate: Locale): (r: Result<Option<Hit>, JsError>)
    ensures r.Ok?
    ensures r.value.Some? <==> Truthy(first) && AsString(Get(first, "slug")).Some? && AsString(Get(first, "slug")).value != ""
    ensures r.value.Some? ==> r.value.value.locale == NormalizeLocale(AsString(Get(first, "locale"))) || r.value.value.locale == candidate
    ensures r.value.Some? && IsSupportedLocale(AsString(Get(first, "locale"))) ==> r.value.value.locale == AsString(Get(first, "locale")).value
  {
    if !Truthy(first) then Ok(None)
    else
      var resolvedSlug := AsString(Get(first, "slug"));
      var resolvedLocale: Locale := if IsSupportedLocale(AsString(Get(first, "locale"))) then AsString(Get(first, "locale")).value else candidate;
      if resolvedSlug.None? || resolvedSlug.value == "" then Ok(None) else Ok(Some(Hit(resolvedLocale, resolvedSlug.value)))
  }

  /** The first preview with the slug, as `find` returns it. */
  function FindBySlug(previews: seq<Preview>, slug: string): (r: Option<Preview>)
    ensures r.Some? ==> r.value in previews && r.value.slug == slug
    ensures r.None? <==> forall p :: p in previews ==> p.slug != slug
  {
    if previews == [] then None
    else if previews[0].slug == slug then Some(previews[0])
    else FindBySlug(previews[1..], slug)
  }

  /** One round of the list-scan pass: the candidate locale when its previews hold the slug. */
  function ScanAttempt(cfg: StrapiClient.Config, backend: StrapiClient.Request -> StrapiClient.HttpReply, slug: string, candidate: Locale): (r: Result<Option<Hit>, JsError>)
    ensures r.Ok? && r.value.Some? ==> r.value.value == Hit(candidate, slug)
    ensures var g := GetBlogPostPreviews(cfg, backend, Some(candidate));
      (g.Err? ==> r == Err(g.error))
      && (r.Ok? && r.value.Some? <==> g.Ok? && g.value.Some? && exists p :: p in g.value.value && p.slug == slug)
  {
    match GetBlogPostPreviews(cfg, backend, Some(candidate))
    case Err(e) => Err(e)
    case Ok(None) => Ok(None)
    case Ok(Some(previews)) =>
      match FindBySlug(previews, slug)
      case None => Ok(None)
      case Some(p) => Ok(Some(Hit(candidate, p.slug)))
  }

  /** The outcome of a sequence of rounds: the first round that errs or hits. */
  function FirstHit(rounds: seq<Result<Option<Hit>, JsError>>): Result<Option<Hit>, JsError> {
    if rounds == [] then Ok(None)
    else if rounds[0] == Ok(None) then FirstHit(rounds[1..])
    else rounds[0]
  }

  /** The slug-filter rounds, one per supported locale in order. */
  function FilterRounds(cfg: StrapiClient.Config, backend: StrapiClient.Request -> StrapiClient.HttpReply, slug: string): (r: seq<Result<Option<Hit>, JsError>>)
    ensures |r| == |SupportedLocales|
  {
    seq(|SupportedLocales|, i requires 0 <= i < |SupportedLocales| => FilterAttempt(cfg, backend, slug, SupportedLocales[i]))
  }

  /** The list-scan rounds, one per supported locale in order. */
  function ScanRounds(cfg: StrapiClient.Config, backend: StrapiClient.Request -> StrapiClient.HttpReply, slug: string): (r: seq<Result<Option<Hit>, JsError>>)
    ensures |r| == |SupportedLocales|
  {
    seq(|SupportedLocales|, i requires 0 <= i < |SupportedLocales| => ScanAttempt(cfg, backend, slug, SupportedLocales[i]))
  }

  /** What `getBlogPostLocaleBySlug(slug)` yields. */
  function LocaleBySlug(cfg: StrapiClient.Config, backend: StrapiClient.Request -> StrapiClient.HttpReply, slug: string): Result<Option<Hit>, JsError> {
    if slug == "" then Ok(None)
    else match FirstHit(FilterRounds(cfg, backend, slug))
      case Ok(None) => FirstHit(ScanRounds(cfg, backend, slug))
      case other => other
  }

  /** The body of one slug-filter round, with `continue` as "nothing". */
  method FilterRound(cfg: StrapiClient.Config, backend: StrapiClient.Request -> StrapiClient.HttpReply, query: seq<(string, Json)>, slug: string, candidateLocale: Locale)
    returns (r: Result<Option<Hit>, JsError>)
    requires query == LocaleQuery(slug)
    ensures r == FilterAttempt(cfg, backend, slug, candidateLocale)
  {
    var response := StrapiClient.StrapiFetch(cfg, backend, "blog-posts", StrapiClient.FetchOptions(Some(query), Some(candidateLocale), None));
    if response.Err? {
      return Err(response.error);
    }
    if !Truthy(response.value) {
      return Ok(None);
    }
    var length := Length(Get(response.value, "data"));
    if length.Err? {
      return Err(length.error);
    }
    if length.value == Num(0) {
      return Ok(None);
    }
    var item := First(Get(response.value, "data"));
    var first := NormalizeEntity(item.value);
    if !Truthy(first) {
      return Ok(None);
    }
    var resolvedSlug := AsString(Get(first, "slug"));
    var resolvedLocale: Locale := if IsSupportedLocale(AsString(Get(first, "locale"))) then AsString(Get(first, "locale")).value else candidateLocale;
    if resolvedSlug.None? || resolvedSlug.value == "" {
      return Ok(None);
    }
    return Ok(Some(Hit(resolvedLocale, resolvedSlug.value)));
  }

  /** The body of one list-scan round. */
  method ScanRound(cfg: StrapiClient.Config, backend: StrapiClient.Request -> StrapiClient.HttpReply, slug: string, candidateLocale: Locale)
    returns (r: Result<Option<Hit>, JsError>)
    ensures r == ScanAttempt(cfg, backend, slug, candidateLocale)
  {
    var previews := GetBlogPostPreviews(cfg, backend, Some(candidateLocale));
    if previews.Err? {
      return Err(previews.error);
    }
    var found := if previews.value.Some? then FindBySlug(previews.value.value, slug) else None;
    if found.Some? {
      return Ok(Some(Hit(candidateLocale, found.value.slug)));
    }
    return Ok(None);
  }

  /** The first loop of `getBlogPostLocaleBySlug`: one slug-filter round per supported
      locale, stopping at the first round that errs or hits. */
  method FilterPass(cfg: StrapiClient.Config, backend: StrapiClient.Request -> StrapiClient.HttpReply, slug: string)
    returns (r: Result<Option<Hit>, JsError>)
    ensures r == FirstHit(FilterRounds(cfg, backend, slug))
  {
    var query := LocaleQuery(slug);
    ghost var rounds := FilterRounds(cfg, backend, slug);
    for i := 0 to |SupportedLocales|
      invariant FirstHit(rounds) == FirstHit(rounds[i..])
    {
      var round := FilterRound(cfg, backend, query, slug, SupportedLocales[i]);
      assert rounds[i..][0] == round && rounds[i..][1..] == rounds[i + 1..];
      if round != Ok(None) {
        return round;
      }
    }
    return Ok(None);
  }

  /** The second loop of `getBlogPostLocaleBySlug`: one list-scan round per supported
      locale, stopping at the first round that errs or hits. */
  method ScanPass(cfg: StrapiClient.Config, backend: StrapiClient.Request -> StrapiClient.HttpReply, slug: string)
    returns (r: Result<Option<Hit>, JsError>)
    ensures r == FirstHit(ScanRounds(cfg, backend, slug))
  {
    ghost var rounds := ScanRounds(cfg, backend, slug);
    for i := 0 to |SupportedLocales|
      invariant FirstHit(rounds) == FirstHit(rounds[i..])
    {
      var round := ScanRound(cfg, backend, slug, SupportedLocales[i]);
      assert rounds[i..][0] == round && rounds[i..][1..] == rounds[i + 1..];
      if round != Ok(None) {
        return round;
      }
    }
    return Ok(None);
  }

  /** `getBlogPostLocaleBySlug(slug)`: tries each locale with a slug filter, then scans
      each locale's previews, returning at the first hit. */
  method GetBlogPostLocaleBySlug(cfg: StrapiClient.Config, backend: StrapiClient.Request -> StrapiClient.HttpReply, slug: string)
    returns (r: Result<Option<Hit>, JsError>)
    ensures r == LocaleBySlug(cfg, backend, slug)
  {
    if slug == "" {
      return Ok(None);
    }
    r := FilterPass(cfg, backend, slug);
    if r != Ok(None) {
      return;
    }
    r := ScanPass(cfg, backend, slug);
  }

  /** The outcome of the rounds is the result of the earliest round that errs or hits,
      after rounds that all found nothing. */
  lemma {:induction false} FirstHitEarliest(rounds: seq<Result<Option<Hit>, JsError>>)
    ensures FirstHit(rounds) == Ok(None) <==> forall k :: 0 <= k < |rounds| ==> rounds[k] == Ok(None)
    ensures FirstHit(rounds) != Ok(None) ==>
      exists j :: 0 <= j < |rounds| && rounds[j] == FirstHit(rounds) && (forall k :: 0 <= k < j ==> rounds[k] == Ok(None))
  {
    if rounds != [] {
      FirstHitEarliest(rounds[1..]);
      if rounds[0] == Ok(None) {
        if FirstHit(rounds) != Ok(None) {
          var j :| 0 <= j < |rounds[1..]| && rounds[1..][j] == FirstHit(rounds[1..]) && (forall k :: 0 <= k < j ==> rounds[1..][k] == Ok(None));
          assert rounds[j + 1] == FirstHit(rounds);
          assert forall k :: 0 <= k < j + 1 ==> rounds[k] == Ok(None) by {
            forall k | 0 <= k < j + 1 ensures rounds[k] == Ok(None) {
              if k > 0 { assert rounds[k] == rounds[1..][k - 1]; }
            }
          }
        } else {
          forall k | 0 <= k < |rounds| ensures rounds[k] == Ok(None) {
            if k > 0 { assert rounds[k] == rounds[1..][k - 1]; }
          }
        }
      }
    }
  }

  /** Every hit found carries a non-empty slug; a hit of the list scan carries the slug asked for. */
  lemma {:induction false} RoundsFind(cfg: StrapiClient.Config, backend: StrapiClient.Request -> StrapiClient.HttpReply, slug: string)
    ensures var r := FirstHit(FilterRounds(cfg, backend, slug)); r.Ok? && r.value.Some? ==> r.value.value.slug != ""
    ensures var r := FirstHit(ScanRounds(cfg, backend, slug)); r.Ok? && r.value.Some? ==> r.value.value.slug == slug
  {
    var f := FilterRounds(cfg, backend, slug);
    var s := ScanRounds(cfg, backend, slug);
    FirstHitEarliest(f);
    FirstHitEarliest(s);
    if FirstHit(f) != Ok(None) {
      var j :| 0 <= j < |f| && f[j] == FirstHit(f) && (forall k :: 0 <= k < j ==> f[k] == Ok(None));
      assert f[j] == FilterAttempt(cfg, backend, slug, SupportedLocales[j]);
    }
    if FirstHit(s) != Ok(None) {
      var j :| 0 <= j < |s| && s[j] == FirstHit(s) && (forall k :: 0 <= k < j ==> s[k] == Ok(None));
      assert s[j] == ScanAttempt(cfg, backend, slug, SupportedLocales[j]);
    }
  }

  lemma LocaleBySlugFound(cfg: StrapiClient.Config, backend: StrapiClient.Request -> StrapiClient.HttpReply, slug: string)
    ensures var r := LocaleBySlug(cfg, backend, slug);
      r.Ok? && r.value.Some? ==> slug != "" && r.value.value.slug != ""
  {
    RoundsFind(cfg, backend, slug);
  }
}
