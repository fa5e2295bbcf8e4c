/**
 * The slug-resolution endpoint (src/app/api/blog/resolve-slug/route.ts): given a post's
 * slug in one locale, answers with the slug of the same document in another locale.
 */
module ResolveSlug {
  import opened Wrappers
  import opened JsValue
  import opened Locales
  import StrapiClient
  import BlogServer

  /** The route's own copy of `normalizeEntity`. */
  function NormalizeEntity(entity: Json): (r: Json)
    ensures IsNullish(entity) ==> r == Null
    ensures Truthy(entity) && Truthy(Get(entity, "attributes")) ==> r.Obj?
    ensures Truthy(entity) && !Truthy(Get(entity, "attributes")) ==> r == entity
  {
    if !Truthy(entity) then Null
    else if Truthy(Get(entity, "attributes")) then
      Obj(Assign([("id", Get(entity, "id")), ("documentId", Get(entity, "documentId"))], Spread(Get(entity, "attributes"))))
    else entity
  }

  /** The copy agrees with the blog module's `normalizeEntity` on every input. */
  lemma SameNormalizeEntity(entity: Json)
    ensures NormalizeEntity(entity) == BlogServer.NormalizeEntity(entity)
  {
  }

  /** The three query parameters; an absent one is `null`. */
  datatype Params = Params(slug: Option<string>, from: Option<string>, to: Option<string>)

  /** The JSON answer `{slug}` with its status. */
  datatype Answer = Answer(status: int, slug: Option<string>)

  /** The target lookup: the document with the given id, three fields, one entry. */
  function TargetQuery(documentId: string): seq<(string, Json)> {
    [("filters", Obj([("documentId", Obj([("$eq", Str(documentId))]))])),
     ("fields", Arr([Str("slug"), Str("locale"), Str("documentId")])),
     ("pagination", Obj([("pageSize", Num(1))]))]
  }

  function TargetOptions(documentId: string, to: string): StrapiClient.FetchOptions {
    StrapiClient.FetchOptions(Some(TargetQuery(documentId)), Some(to), None)
  }

  /** `response?.data?.[0] ?? null`: optional chaining never throws. */
  function FirstEntry(response: Json): (r: Json)
    ensures IsNullish(response) ==> r == Null
    ensures Get(response, "data").Arr? && Get(response, "data").items != [] ==> r == Coalesce(Get(response, "data").items[0], Null)
    ensures IsNullish(Get(response, "data")) ==> r == Null
    ensures Get(response, "data").Arr? && Get(response, "data").items == [] ==> r == Null
    ensures !IsNullish(Get(response, "data")) ==> r == Coalesce(First(Get(response, "data")).value, Null)
    ensures r != Undefined
  {
    var data := Get(response, "data");
    if IsNullish(response) || IsNullish(data) then Null
    else Coalesce(First(data).value, Null)
  }

  /** The slug of the normalised entry when it is a string. */
  function ResolvedSlug(entry: Json): (r: Option<string>)
    ensures r.Some? <==> Get(NormalizeEntity(entry), "slug").Str?
  {
    AsString(Get(NormalizeEntity(entry), "slug"))
  }

  /** Whether the three parameters are usable: a non-empty slug and two supported locales. */
  predicate ValidParams(slug: string, from: string, to: string) {
    slug != "" && IsSupportedLocale(Some(from)) && IsSupportedLocale(Some(to))
  }

  /** A source post without a non-empty documentId is not found. */
  predicate HasDocumentId(source: Option<BlogServer.Post>) {
    source.Some? && source.value.preview.documentId.Some? && source.value.preview.documentId.value != ""
  }

  /** `GET`: an error from either lookup propagates; otherwise 400 for unusable
      parameters, 404 for a missing source document, else 200 with the target's slug. */
  function Handle(cfg: StrapiClient.Config, backend: StrapiClient.Request -> StrapiClient.HttpReply, params: Params): (r: Result<Answer, JsError>)
    ensures var slug, from, to := params.slug.GetOr(""), params.from.GetOr(""), params.to.GetOr("");
      r == Ok(Answer(400, None)) <==> !ValidParams(slug, from, to)
    ensures r.Ok? ==> r.value.status in {200, 400, 404}
    ensures r.Ok? && r.value.status != 200 ==> r.value.slug == None
    ensures var slug, from := params.slug.GetOr(""), params.from.GetOr("");
      r.Ok? && r.value.status == 404 <==>
        ValidParams(slug, from, params.to.GetOr(""))
        && BlogServer.GetBlogPostBySlug(cfg, backend, slug, Some(from)).Ok?
        && !HasDocumentId(BlogServer.GetBlogPostBySlug(cfg, backend, slug, Some(from)).value)
  {
    var slug, from, to := params.slug.GetOr(""), params.from.GetOr(""), params.to.GetOr("");
    if !ValidParams(slug, from, to) then Ok(Answer(400, None))
    else match BlogServer.GetBlogPostBySlug(cfg, backend, slug, Some(from))
      case Err(e) => Err(e)
      case Ok(source) =>
        if !HasDocumentId(source) then Ok(Answer(404, None))
        else match StrapiClient.StrapiFetch(cfg, backend, "blog-posts", TargetOptions(source.value.preview.documentId.value, to))
          case Err(e) => Err(e)
          case Ok(response) => Ok(Answer(200, ResolvedSlug(FirstEntry(response))))
  }

  /** A target reply without a first entry (no reply body, no `data`, or an empty `data`)
      gives no slug. */
  lemma NoTargetEntry(response: Json)
    requires IsNullish(response) || IsNullish(Get(response, "data")) || Get(response, "data") == Arr([])
    ensures FirstEntry(response) == Null
    ensures ResolvedSlug(FirstEntry(response)) == None
  {
    assert Get(Null, "slug") == Undefined;
  }

  /** The post has no version in locale `to`: the target lookup finds no entry, and the
      route answers 200 with a null slug. */
  lemma EmptyTargetAnswersNull(cfg: StrapiClient.Config, backend: StrapiClient.Request -> StrapiClient.HttpReply, params: Params)
    requires Handle(cfg, backend, params).Ok? && Handle(cfg, backend, params).value.status == 200
    requires var source := BlogServer.GetBlogPostBySlug(cfg, backend, params.slug.GetOr(""), Some(params.from.GetOr(""))).value.value;
      var target := StrapiClient.StrapiFetch(cfg, backend, "blog-posts", TargetOptions(source.preview.documentId.value, params.to.GetOr("")));
      target.Ok? && Get(target.value, "data") == Arr([])
    ensures Handle(cfg, backend, params).value.slug == None
  {
    var source := BlogServer.GetBlogPostBySlug(cfg, backend, params.slug.GetOr(""), Some(params.from.GetOr(""))).value.value;
    var target := StrapiClient.StrapiFetch(cfg, backend, "blog-posts", TargetOptions(source.preview.documentId.value, params.to.GetOr("")));
    NoTargetEntry(target.value);
  }

  /** On success the answer carries the slug of the first target entry, and the target
      lookup asked for the source's document in locale `to`, one entry at most. */
  lemma TargetLookup(cfg: StrapiClient.Config, backend: StrapiClient.Request -> StrapiClient.HttpReply, params: Params)
    requires Handle(cfg, backend, params).Ok? && Handle(cfg, backend, params).value.status == 200
    ensures var slug, from, to := params.slug.GetOr(""), params.from.GetOr(""), params.to.GetOr("");
      var source := BlogServer.GetBlogPostBySlug(cfg, backend, slug, Some(from)).value.value;
      var opts := TargetOptions(source.preview.documentId.value, to);
      var q := StrapiClient.RequestQuery(opts);
      && Lookup(q, "locale") == Some(Str(to))
      && Lookup(q, "pagination") == Some(Obj([("pageSize", Num(1))]))
      && Lookup(q, "filters") == Some(Obj([("documentId", Obj([("$eq", Str(source.preview.documentId.value))]))]))
      && var reply := StrapiClient.StrapiFetch(cfg, backend, "blog-posts", opts);
         reply.Ok? && Handle(cfg, backend, params).value.slug == ResolvedSlug(FirstEntry(reply.value))
  {
    var slug, from, to := params.slug.GetOr(""), params.from.GetOr(""), params.to.GetOr("");
    var source := BlogServer.GetBlogPostBySlug(cfg, backend, slug, Some(from)).value.value;
    assert to != "";
    TargetQueryFields(source.preview.documentId.value, to);
  }

  /** The query of the target lookup names locale `to`, one entry and the document. */
  lemma TargetQueryFields(documentId: string, to: string)
    requires to != ""
    ensures var q := StrapiClient.RequestQuery(TargetOptions(documentId, to));
      && Lookup(q, "locale") == Some(Str(to))
      && Lookup(q, "pagination") == Some(Obj([("pageSize", Num(1))]))
      && Lookup(q, "filters") == Some(Obj([("documentId", Obj([("$eq", Str(documentId))]))]))
  {
    var opts := TargetOptions(documentId, to);
    StrapiClient.RequestQueryLocale(opts, "locale");
    StrapiClient.RequestQueryLocale(opts, "pagination");
    StrapiClient.RequestQueryLocale(opts, "filters");
    var q := TargetQuery(documentId);
    assert q[1..][1..] == [("pagination", Obj([("pageSize", Num(1))]))];
    assert Lookup(q, "filters") == Some(q[0].1);
    assert "pagination" != "filters" && "pagination" != "fields";
    assert Lookup(q, "pagination") == Lookup(q[1..], "pagination") == Lookup(q[1..][1..], "pagination");
  }
}
