/**
 * Creating a post through the site's posts API (src/app/api/posts/route.ts, `POST`):
 * the parsed request body is completed in place with a derived slug and a reading time
 * before it is stored, and storage errors are mapped to a status.
 */
module PostsRoute {
  import opened Wrappers
  import opened JsText
  import opened JsValue
  import Legacy

  /** What `Post.create` does with a document: stores it, or throws an error whose `code`
      is given (`undefined` when the error has none). */
  datatype DbResult = Stored(document: Json) | Failed(code: Json)

  /** The JSON answer and its status. */
  datatype Reply = Reply(status: int, body: Json)

  /** MongoDB's duplicate-key error code. */
  const DuplicateKeyCode := 11000

  const WordsPerMinute := 200

  function ErrorBody(message: string): Json {
    Obj([("error", Str(message))])
  }

  // ---------------------------------------------------------------------------
  // Slug and reading time

  /** The slug derived from a title: lower-cased, runs outside `[a-z0-9]` replaced by
      '-', one '-' stripped from each end.  Unlike `slugify`, nothing is trimmed. */
  function DerivedSlug(title: string): string {
    Legacy.StripDashes(Legacy.CollapseRuns(Lower(title)))
  }

  /** The missing `trim` makes no difference: white space is replaced and stripped anyway. */
  lemma {:induction false} DerivedSlugIsSlugify(title: string)
    ensures DerivedSlug(title) == Legacy.Slugify(title)
  {
    Legacy.CollapseStrip(Lower(title));
    Legacy.SlugifyWords(title);
  }

  /** `content.split(/\s+/).length`: one more than the number of white-space runs, so
      leading or trailing white space adds an empty piece. */
  function WordCount(content: string): (n: nat)
    ensures n == SpaceRuns(content) + 1
  {
    SplitOnSpaceCount(content);
    |SplitOnSpace(content)|
  }

  /** `Math.max(1, Math.ceil(wordCount / 200))`. */
  function ReadingTime(wordCount: nat): (minutes: nat)
    ensures minutes >= 1
    ensures wordCount >= 1 ==> WordsPerMinute * (minutes - 1) < wordCount <= WordsPerMinute * minutes
    ensures wordCount == 0 ==> minutes == 1
  {
    var q := (wordCount + WordsPerMinute - 1) / WordsPerMinute;
    if q < 1 then 1 else q
  }

  /** A reading time of one minute is exactly a text of at most 200 words. */
  lemma {:induction false} ReadingTimeOne(wordCount: nat)
    ensures ReadingTime(wordCount) == 1 <==> wordCount <= WordsPerMinute
  {
  }

  /** More words never read faster. */
  lemma {:induction false} ReadingTimeMonotone(a: nat, b: nat)
    requires a <= b
    ensures ReadingTime(a) <= ReadingTime(b)
  {
  }

  // ---------------------------------------------------------------------------
  // The body handed to `Post.create`

  /** The body after the two in-place updates, or the error they throw: reading a field
      of null or undefined, lower-casing a title that is not a string, or splitting
      content that is not a string. */
  function Prepared(body: Json): Result<Json, JsError> {
    if IsNullish(body) then Err(TypeError)
    else
      var slugged :=
        if Truthy(Get(body, "slug")) then Ok(body)
        else if !Get(body, "title").Str? then Err(TypeError)
        else Ok(Obj(Put(body.entries, "slug", Str(DerivedSlug(Get(body, "title").s)))));
      match slugged
      case Err(e) => Err(e)
      case Ok(b) =>
        var content := Get(b, "content");
        if !Truthy(content) then Ok(b)
        else if !content.Str? then Err(TypeError)
        else Ok(Obj(Put(b.entries, "readingTime", Num(ReadingTime(WordCount(content.s))))))
  }

  /** The body fails to prepare exactly when it is null or undefined, when a missing slug
      meets a title that is not a string, or when truthy content is not a string. */
  lemma {:induction false} PreparedFails(body: Json)
    ensures Prepared(body).Err? <==>
      || IsNullish(body)
      || (!Truthy(Get(body, "slug")) && !Get(body, "title").Str?)
      || (Truthy(Get(body, "content")) && !Get(body, "content").Str?)
  {
    if !IsNullish(body) && !Truthy(Get(body, "slug")) && Get(body, "title").Str? {
      PutLookup(body.entries, "slug", Str(DerivedSlug(Get(body, "title").s)), "content");
    }
  }

  /** What a prepared body holds: the given slug when truthy, else the slug derived from
      the title; a reading time only when the content is truthy; every other field as
      sent. */
  lemma {:induction false} PreparedFields(body: Json, k: string)
    requires !IsNullish(body)
    requires Truthy(Get(body, "slug")) || Get(body, "title").Str?
    requires !Truthy(Get(body, "content")) || Get(body, "content").Str?
    ensures Prepared(body).Ok?
    ensures var r := Prepared(body).value;
      && Get(r, "slug") == (if Truthy(Get(body, "slug")) then Get(body, "slug") else Str(DerivedSlug(Get(body, "title").s)))
      && Get(r, "readingTime") ==
           (if Truthy(Get(body, "content")) then Num(ReadingTime(WordCount(Get(body, "content").s)))
            else Get(body, "readingTime"))
      && (k != "slug" && k != "readingTime" ==> Get(r, k) == Get(body, k))
  {
    PreparedFails(body);
    var b := body;
    if !Truthy(Get(body, "slug")) {
      var slug := Str(DerivedSlug(Get(body, "title").s));
      b := Obj(Put(body.entries, "slug", slug));
      PutLookup(body.entries, "slug", slug, "content");
      PutLookup(body.entries, "slug", slug, "slug");
      PutLookup(body.entries, "slug", slug, "readingTime");
      PutLookup(body.entries, "slug", slug, k);
    }
    var content := Get(b, "content");
    if Truthy(content) {
      var minutes := Num(ReadingTime(WordCount(content.s)));
      PutLookup(b.entries, "readingTime", minutes, "slug");
      PutLookup(b.entries, "readingTime", minutes, "readingTime");
      PutLookup(b.entries, "readingTime", minutes, k);
    }
  }

  // ---------------------------------------------------------------------------
  // POST

  /** The status for an error thrown while creating: 400 for a duplicate key, else 500. */
  function ErrorStatus(code: Json): (status: int)
    ensures status == 400 <==> code == Num(DuplicateKeyCode)
    ensures status in {400, 500}
  {
    if code == Num(DuplicateKeyCode) then 400 else 500
  }

  function ErrorMessage(status: int): string {
    if status == 400 then "A post with this slug already exists" else "Failed to create post"
  }

  /** `POST(request)`: `connectFailure` is the `code` of the error `dbConnect` throws
      (absent when it connects); `parsed` is the request body, absent when it is not
      JSON; `create` stands for `Post.create`.  Returns the answer and the document
      handed to `Post.create`, if any. */
  method Post(connectFailure: Option<Json>, parsed: Option<Json>, create: Json -> DbResult) returns (reply: Reply, sent: Option<Json>)
    ensures sent.Some? <==> connectFailure.None? && parsed.Some? && Prepared(parsed.value).Ok?
    ensures sent.Some? ==> sent.value == Prepared(parsed.value).value
    ensures connectFailure.Some? ==> reply.status == ErrorStatus(connectFailure.value)
    ensures reply.status in {201, 400, 500}
    ensures reply.status == 201 <==> sent.Some? && create(sent.value).Stored?
    ensures reply.status == 201 ==> reply.body == create(sent.value).document
    ensures reply.status == 400 <==>
      connectFailure == Some(Num(DuplicateKeyCode)) || (sent.Some? && create(sent.value) == Failed(Num(DuplicateKeyCode)))
    ensures reply.status != 201 ==> reply.body == ErrorBody(ErrorMessage(reply.status))
  {
    if connectFailure.Some? {
      var status := ErrorStatus(connectFailure.value);
      return Reply(status, ErrorBody(ErrorMessage(status))), None;
    }
    var failure := Reply(500, ErrorBody(ErrorMessage(500)));
    if parsed.None? || IsNullish(parsed.value) {
      return failure, None;
    }
    var body := parsed.value;
    if !Truthy(Get(body, "slug")) {
      var title := Get(body, "title");
      if !title.Str? {
        return failure, None;
      }
      body := Obj(Put(body.entries, "slug", Str(DerivedSlug(title.s))));
    }
    var content := Get(body, "content");
    if Truthy(content) {
      if !content.Str? {
        return failure, None;
      }
      var wordCount := |SplitOnSpace(content.s)|;
      body := Obj(Put(body.entries, "readingTime", Num(ReadingTime(wordCount))));
    }
    sent := Some(body);
    match create(body)
    case Stored(document) =>
      reply := Reply(201, document);
    case Failed(code) =>
      var status := ErrorStatus(code);
      reply := Reply(status, ErrorBody(ErrorMessage(status)));
  }
}
