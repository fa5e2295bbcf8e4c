/**
 * The adapter for posts kept by the site's own posts API (src/lib/strapi/legacy.ts):
 * slug derivation, the mapping of a stored post to a blog post, and the two lookups.
 */
module Legacy {
  import opened Wrappers
  import opened JsText
  import opened JsValue
  import StrapiClient

  // ---------------------------------------------------------------------------
  // slugify

  /** A maximal piece of a slug: a non-empty run of `[a-z0-9]`. */
  predicate IsWord(w: string) {
    w != [] && forall i :: 0 <= i < |w| ==> IsSlugChar(w[i])
  }

  /** The longest prefix made of `[a-z0-9]`. */
  function SlugRun(s: string): (w: string)
    ensures |w| <= |s|
    ensures forall i :: 0 <= i < |w| ==> IsSlugChar(w[i])
    ensures |w| < |s| ==> !IsSlugChar(s[|w|])
  {
    if s != [] && IsSlugChar(s[0]) then [s[0]] + SlugRun(s[1..]) else []
  }

  /** The longest run is a prefix. */
  lemma {:induction false} SlugRunPrefix(s: string)
    ensures SlugRun(s) == s[..|SlugRun(s)|]
    decreases |s|
  {
    if s != [] && IsSlugChar(s[0]) {
      SlugRunPrefix(s[1..]);
    }
  }

  /** Drops the characters outside `[a-z0-9]` at the front of a string. */
  function SkipGap(s: string): (r: string)
    ensures |r| <= |s|
    ensures s != [] && !IsSlugChar(s[0]) ==> |r| < |s|
    ensures r == [] || IsSlugChar(r[0])
    ensures forall i :: 0 <= i < |s| - |r| ==> !IsSlugChar(s[i])
  {
    if s != [] && !IsSlugChar(s[0]) then
      var r := SkipGap(s[1..]);
      assert forall i :: 1 <= i < |s| - |r| ==> s[i] == s[1..][i - 1];
      r
    else s
  }

  /** What `SkipGap` leaves is a suffix. */
  lemma {:induction false} SkipGapSuffix(s: string)
    ensures SkipGap(s) == s[|s| - |SkipGap(s)|..]
    decreases |s|
  {
    if s != [] && !IsSlugChar(s[0]) {
      SkipGapSuffix(s[1..]);
    }
  }

  /** `replace(/[^a-z0-9]+/g, '-')`: every maximal run outside `[a-z0-9]` becomes one '-'. */
  function CollapseRuns(s: string): (r: string)
    decreases |s|
  {
    if s == [] then []
    else if IsSlugChar(s[0]) then [s[0]] + CollapseRuns(s[1..])
    else
      "-" + CollapseRuns(SkipGap(s))
  }

  /** `replace(/(^-|-$)/g, '')`: one '-' off the front, then one off the end. */
  function StripDashes(s: string): string {
    var t := if s != [] && s[0] == '-' then s[1..] else s;
    if t != [] && t[|t| - 1] == '-' then t[..|t| - 1] else t
  }

  /** `slugify(value)` (ASCII lower-casing). */
  function Slugify(value: string): string {
    StripDashes(CollapseRuns(Trim(Lower(value))))
  }

  /** The words of a string: its maximal runs of `[a-z0-9]`, in order. */
  function Words(s: string): seq<string>
    decreases |s|
  {
    if s == [] then []
    else if !IsSlugChar(s[0]) then Words(s[1..])
    else
      var w := SlugRun(s);
      [w] + Words(s[|w|..])
  }

  /** Every word is a non-empty run of `[a-z0-9]`. */
  lemma {:induction false} WordsAreWords(s: string)
    ensures forall k :: 0 <= k < |Words(s)| ==> IsWord(Words(s)[k])
    decreases |s|
  {
    if s != [] && !IsSlugChar(s[0]) {
      WordsAreWords(s[1..]);
    } else if s != [] {
      var w := SlugRun(s);
      WordsAreWords(s[|w|..]);
      assert forall k :: 1 <= k < |Words(s)| ==> Words(s)[k] == Words(s[|w|..])[k - 1];
    }
  }

  /** The shape of every slug: only `[a-z0-9-]`, starting and ending with a letter or a
      digit, and no '-' directly followed by another. */
  predicate IsSlug(r: string) {
    && (forall i :: 0 <= i < |r| ==> IsSlugChar(r[i]) || r[i] == '-')
    && (r != [] ==> IsSlugChar(r[0]) && IsSlugChar(r[|r| - 1]))
    && (forall i :: 0 <= i < |r| - 1 && r[i] == '-' ==> r[i + 1] != '-')
  }

  /** Words joined by '-' have the slug shape, and are empty only when there are none. */
  lemma {:induction false} JoinIsSlug(ws: seq<string>)
    requires forall k :: 0 <= k < |ws| ==> IsWord(ws[k])
    ensures IsSlug(Join(ws, '-'))
    ensures Join(ws, '-') == [] <==> ws == []
    decreases |ws|
  {
    if |ws| > 1 {
      var w, rest := ws[0], Join(ws[1..], '-');
      JoinIsSlug(ws[1..]);
      var r := w + ['-'] + rest;
      assert Join(ws, '-') == r;
      forall i | 0 <= i < |r| - 1 && r[i] == '-'
        ensures r[i + 1] != '-'
      {
        if i > |w| {
          assert r[i] == rest[i - |w| - 1] && r[i + 1] == rest[i - |w|];
        }
      }
      forall i | 0 <= i < |r|
        ensures IsSlugChar(r[i]) || r[i] == '-'
      {
        if i > |w| { assert r[i] == rest[i - |w| - 1]; }
      }
    }
  }

  /** `CollapseRuns` copies a leading run of `[a-z0-9]` unchanged. */
  lemma {:induction false} CollapseCopies(w: string, t: string)
    requires forall i :: 0 <= i < |w| ==> IsSlugChar(w[i])
    ensures CollapseRuns(w + t) == w + CollapseRuns(t)
    decreases |w|
  {
    if w == [] {
      assert w + t == t;
    } else {
      var s := w + t;
      assert s[0] == w[0] && s[1..] == w[1..] + t;
      CollapseCopies(w[1..], t);
      assert w == [w[0]] + w[1..];
    }
  }

  /** Characters outside `[a-z0-9]` at the front separate no words. */
  lemma {:induction false} WordsSkipGap(s: string)
    ensures Words(SkipGap(s)) == Words(s)
    decreases |s|
  {
    if s != [] && !IsSlugChar(s[0]) {
      WordsSkipGap(s[1..]);
    }
  }

  /** The '-' that `CollapseRuns` leaves at the end of a string ending outside `[a-z0-9]`. */
  function TrailingDash(s: string): string {
    if s != [] && !IsSlugChar(s[|s| - 1]) then "-" else ""
  }

  /** For a string that starts with a word (or is empty), `CollapseRuns` gives its words
      joined by '-', plus one '-' when the string ends outside `[a-z0-9]`. */
  lemma {:induction false} CollapseFromWord(s: string)
    requires s == [] || IsSlugChar(s[0])
    ensures CollapseRuns(s) == Join(Words(s), '-') + TrailingDash(s)
    decreases |s|
  {
    if s != [] {
      var w := SlugRun(s);
      var rest := s[|w|..];
      SlugRunPrefix(s);
      assert s == w + rest;
      CollapseCopies(w, rest);
      assert Words(s) == [w] + Words(rest);
      if rest == [] {
        assert s == w && TrailingDash(s) == "";
        assert Words(s) == [w];
        assert CollapseRuns(s) == w + [];
      } else {
        var u := SkipGap(rest);
        SkipGapSuffix(rest);
        WordsSkipGap(rest);
        assert CollapseRuns(rest) == "-" + CollapseRuns(u);
        if u == [] {
          assert Words(u) == [];
          assert s[|s| - 1] == rest[|rest| - 1];
          assert TrailingDash(s) == "-";
          assert CollapseRuns(s) == w + "-";
        } else {
          CollapseFromWord(u);
          CollapseAcrossGap(s, w, rest, u);
        }
      }
    }
  }

  /** One step of `CollapseFromWord`: a word, a gap, then a string that starts with a
      word and for which the statement already holds. */
  lemma {:induction false} CollapseAcrossGap(s: string, w: string, rest: string, u: string)
    requires IsWord(w) && s == w + rest && w == SlugRun(s)
    requires rest != [] && u == SkipGap(rest) && u == rest[|rest| - |u|..] && u != []
    requires CollapseRuns(rest) == "-" + CollapseRuns(u) && Words(rest) == Words(u)
    requires CollapseRuns(s) == w + CollapseRuns(rest) && Words(s) == [w] + Words(rest)
    requires CollapseRuns(u) == Join(Words(u), '-') + TrailingDash(u)
    ensures CollapseRuns(s) == Join(Words(s), '-') + TrailingDash(s)
  {
    var tail := Join(Words(u), '-');
    assert Words(u) == [SlugRun(u)] + Words(u[|SlugRun(u)|..]);
    var ws := [w] + Words(u);
    assert ws[1..] == Words(u);
    assert Join(ws, '-') == w + "-" + tail;
    assert s[|s| - 1] == u[|u| - 1];
    assert TrailingDash(s) == TrailingDash(u);
    calc {
      CollapseRuns(s);
      w + ("-" + (tail + TrailingDash(u)));
      { ConcatAssoc(w, "-", tail + TrailingDash(u));
        ConcatAssoc(w + "-", tail, TrailingDash(u)); }
      (w + "-" + tail) + TrailingDash(s);
    }
  }

  /** Stripping one '-' from each end of a slug followed by an optional '-'. */
  lemma {:induction false} StripSlug(r: string, d: string)
    requires IsSlug(r) && (d == "" || d == "-") && (r == [] ==> d == "")
    ensures StripDashes(r + d) == r
    ensures StripDashes("-" + (r + d)) == r
  {
    assert ("-" + (r + d))[1..] == r + d;
  }

  /** The regular-expression chain equals the reference definition: the words of the
      input joined by '-'. */
  lemma {:induction false} CollapseStrip(s: string)
    ensures StripDashes(CollapseRuns(s)) == Join(Words(s), '-')
  {
    var u := SkipGap(s);
    SkipGapSuffix(s);
    WordsSkipGap(s);
    CollapseFromWord(u);
    var r := Join(Words(u), '-');
    WordsAreWords(u);
    JoinIsSlug(Words(u));
    if u != [] {
      assert Words(u) == [SlugRun(u)] + Words(u[|SlugRun(u)|..]);
    }
    StripSlug(r, TrailingDash(u));
    if s != [] && !IsSlugChar(s[0]) {
      assert CollapseRuns(s) == "-" + (r + TrailingDash(u));
    } else {
      assert u == s;
    }
  }

  /** The longest run of `[a-z0-9]` stops where the string stops or leaves the class. */
  lemma {:induction false} SlugRunAppend(a: string, b: string)
    requires b == [] || !IsSlugChar(b[0])
    ensures SlugRun(a + b) == SlugRun(a)
    decreases |a|
  {
    if a == [] {
    } else {
      assert (a + b)[1..] == a[1..] + b;
      SlugRunAppend(a[1..], b);
    }
  }

  /** A leading stretch outside `[a-z0-9]` does not change the words. */
  lemma {:induction false} WordsDropLeading(a: string, b: string)
    requires forall i :: 0 <= i < |a| ==> !IsSlugChar(a[i])
    ensures Words(a + b) == Words(b)
    decreases |a|
  {
    if a == [] {
      assert a + b == b;
    } else {
      var t := a + b;
      assert t[0] == a[0] && t[1..] == a[1..] + b;
      assert forall i :: 0 <= i < |a| - 1 ==> a[1..][i] == a[i + 1];
      WordsDropLeading(a[1..], b);
      assert Words(t) == Words(t[1..]);
    }
  }

  /** A trailing stretch outside `[a-z0-9]` does not change the words. */
  lemma {:induction false} WordsDropTrailing(a: string, b: string)
    requires forall i :: 0 <= i < |b| ==> !IsSlugChar(b[i])
    ensures Words(a + b) == Words(a)
    decreases |a|
  {
    if a == [] {
      WordsDropLeading(b, []);
      assert b + [] == b && a + b == b;
    } else if !IsSlugChar(a[0]) {
      assert (a + b)[1..] == a[1..] + b;
      WordsDropTrailing(a[1..], b);
    } else {
      var w := SlugRun(a);
      SlugRunAppend(a, b);
      assert (a + b)[|w|..] == a[|w|..] + b;
      WordsDropTrailing(a[|w|..], b);
    }
  }

  /** White space is outside `[a-z0-9]`, so trimming keeps the words. */
  lemma {:induction false} WordsTrim(s: string)
    ensures Words(Trim(s)) == Words(s)
  {
    WordsTrimStart(s);
    WordsTrimEnd(TrimStart(s));
  }

  /** White space is outside `[a-z0-9]`. */
  lemma {:induction false} SpaceIsGap(c: char)
    requires IsSpace(c)
    ensures !IsSlugChar(c)
  {
  }

  lemma {:induction false} SlugCharIsNotSpace(c: char)
    requires IsSlugChar(c)
    ensures !IsSpace(c)
  {
  }

  lemma {:induction false} WordsTrimStart(s: string)
    ensures Words(TrimStart(s)) == Words(s)
  {
    var t := TrimStart(s);
    var j := |s| - |t|;
    var lead := s[..j];
    TrimStartSuffix(s);
    assert s == lead + t;
    forall i | 0 <= i < |lead| ensures !IsSlugChar(lead[i]) {
      SpaceIsGap(s[i]);
    }
    WordsDropLeading(lead, t);
  }

  lemma {:induction false} WordsTrimEnd(t: string)
    ensures Words(TrimEnd(t)) == Words(t)
  {
    var r := TrimEnd(t);
    var trail := t[|r|..];
    TrimEndPrefix(t);
    assert t == r + trail;
    forall i | 0 <= i < |trail| ensures !IsSlugChar(trail[i]) {
      SpaceIsGap(t[|r| + i]);
    }
    WordsDropTrailing(r, trail);
  }

  /** The words of words joined by '-' are those words. */
  lemma {:induction false} WordsOfJoin(ws: seq<string>)
    requires forall k :: 0 <= k < |ws| ==> IsWord(ws[k])
    ensures Words(Join(ws, '-')) == ws
    decreases |ws|
  {
    if ws == [] {
    } else if |ws| == 1 {
      SlugRunAppend(ws[0], []);
      assert ws[0] + [] == ws[0];
      SlugRunWhole(ws[0]);
    } else {
      var w, rest := ws[0], Join(ws[1..], '-');
      var r := w + ("-" + rest);
      assert Join(ws, '-') == r;
      SlugRunAppend(w, "-" + rest);
      SlugRunWhole(w);
      assert r[|w|..] == "-" + rest;
      assert ("-" + rest)[1..] == rest;
      WordsOfJoin(ws[1..]);
    }
  }

  /** A word is its own longest run. */
  lemma {:induction false} SlugRunWhole(w: string)
    requires forall i :: 0 <= i < |w| ==> IsSlugChar(w[i])
    ensures SlugRun(w) == w
    decreases |w|
  {
    if w != [] {
      SlugRunWhole(w[1..]);
    }
  }

  /** `slugify` is the words of the lower-cased input joined by '-'. */
  lemma {:induction false} SlugifyWords(value: string)
    ensures Slugify(value) == Join(Words(Lower(value)), '-')
  {
    CollapseStrip(Trim(Lower(value)));
    WordsTrim(Lower(value));
  }

  /** Every slug uses only `[a-z0-9-]`, starts and ends with a letter or digit, and has
      no two '-' in a row. */
  lemma {:induction false} SlugShape(value: string)
    ensures IsSlug(Slugify(value))
  {
    SlugifyWords(value);
    WordsAreWords(Lower(value));
    JoinIsSlug(Words(Lower(value)));
  }

  /** `slugify` is empty exactly when the lower-cased input has no letter or digit. */
  lemma {:induction false} SlugifyEmpty(value: string)
    ensures Slugify(value) == "" <==> forall i :: 0 <= i < |value| ==> !IsSlugChar(LowerChar(value[i]))
  {
    SlugifyWords(value);
    WordsAreWords(Lower(value));
    JoinIsSlug(Words(Lower(value)));
    if forall i :: 0 <= i < |value| ==> !IsSlugChar(LowerChar(value[i])) {
      WordsDropLeading(Lower(value), []);
      assert Lower(value) + [] == Lower(value);
    } else {
      var i :| 0 <= i < |value| && IsSlugChar(LowerChar(value[i]));
      var s := Lower(value);
      assert s == s[..i] + s[i..];
      WordsNonEmpty(s[..i], s[i..]);
    }
  }

  /** A string with a letter or digit somewhere has a word. */
  lemma {:induction false} WordsNonEmpty(a: string, b: string)
    requires b != [] && IsSlugChar(b[0])
    ensures Words(a + b) != []
    decreases |a|
  {
    if a == [] {
      assert a + b == b;
    } else if !IsSlugChar(a[0]) {
      assert (a + b)[1..] == a[1..] + b;
      WordsNonEmpty(a[1..], b);
    }
  }

  /** `slugify` is idempotent. */
  lemma {:induction false} SlugifyIdempotent(value: string)
    ensures Slugify(Slugify(value)) == Slugify(value)
  {
    var ws := Words(Lower(value));
    var r := Join(ws, '-');
    SlugifyWords(value);
    WordsAreWords(Lower(value));
    JoinIsSlug(ws);
    assert forall i :: 0 <= i < |r| ==> !IsUpperAlpha(r[i]);
    LowerFixed(r);
    if r != [] {
      SlugCharIsNotSpace(r[0]);
      SlugCharIsNotSpace(r[|r| - 1]);
    }
    TrimFixed(r);
    CollapseStrip(r);
    WordsOfJoin(ws);
    assert Slugify(r) == StripDashes(CollapseRuns(r));
  }

  // ---------------------------------------------------------------------------
  // mapLegacyPost

  datatype LegacyCategory = LegacyCategory(name: string, slug: string)

  /** The blog post built from a stored post; fields passed through keep their JSON value. */
  datatype LegacyPost = LegacyPost(
    id: string,
    slug: Json,
    title: Json,
    excerpt: Json,
    content: Json,
    category: LegacyCategory,
    authorName: Json,
    publishedAt: Json,
    featured: bool,
    coverImageUrl: Json)

  /** `mapLegacyPost(post)`: reading a field of null or undefined throws, and so does
      `slugify` of a truthy category that is not a string. */
  function MapLegacyPost(post: Json): (r: Result<LegacyPost, JsError>)
    ensures IsNullish(post) ==> r == Err(TypeError)
    ensures r.Err? <==> IsNullish(post) || !Or(Get(post, "category"), Str("Uncategorized")).Str?
    ensures r.Ok? ==>
      var p := r.value;
      && p.category.name == (if Truthy(Get(post, "category")) then Get(post, "category").s else "Uncategorized")
      && p.category.slug == Slugify(p.category.name)
      && p.slug == Get(post, "slug")
      && p.featured == Truthy(Get(post, "featured"))
  {
    if IsNullish(post) then Err(TypeError)
    else
      var categoryName := Or(Get(post, "category"), Str("Uncategorized"));
      if !categoryName.Str? then Err(TypeError)
      else Ok(LegacyPost(
        ToStr(Or(Get(post, "_id"), Or(Get(post, "id"), Or(Get(post, "slug"), Str(""))))),
        Get(post, "slug"),
        Get(post, "title"),
        Get(post, "excerpt"),
        Get(post, "content"),
        LegacyCategory(categoryName.s, Slugify(categoryName.s)),
        Or(Get(post, "author"), Or(Get(post, "authorName"), Null)),
        Or(Get(post, "publishedAt"), Null),
        Truthy(Get(post, "featured")),
        Or(Get(post, "imageUrl"), Null)))
  }

  /** The first truthy of the listed values, else the fallback. */
  function FirstTruthy(vs: seq<Json>, fallback: Json): (r: Json)
    ensures r == fallback || r in vs
    ensures Truthy(r) || r == fallback
  {
    if vs == [] then fallback
    else if Truthy(vs[0]) then vs[0]
    else FirstTruthy(vs[1..], fallback)
  }

  /** The fallbacks of the mapped fields: the id is the first truthy of `_id`, `id` and
      `slug` as a string, else ""; the author is `author`, else `authorName`, else null;
      the publication date and the image fall back to null. */
  lemma {:induction false} LegacyFallbacks(post: Json)
    requires MapLegacyPost(post).Ok?
    ensures var p := MapLegacyPost(post).value;
      && p.id == ToStr(FirstTruthy([Get(post, "_id"), Get(post, "id"), Get(post, "slug")], Str("")))
      && p.authorName == FirstTruthy([Get(post, "author"), Get(post, "authorName")], Null)
      && p.publishedAt == FirstTruthy([Get(post, "publishedAt")], Null)
      && p.coverImageUrl == FirstTruthy([Get(post, "imageUrl")], Null)
      && (Truthy(p.authorName) || p.authorName == Null)
  {
    var ids := [Get(post, "_id"), Get(post, "id"), Get(post, "slug")];
    assert ids[1..][1..] == [Get(post, "slug")] && ids[1..][1..][1..] == [];
    assert FirstTruthy(ids[1..][1..], Str("")) == Or(Get(post, "slug"), Str(""));
    assert FirstTruthy(ids[1..], Str("")) == Or(Get(post, "id"), Or(Get(post, "slug"), Str("")));
    assert FirstTruthy(ids, Str("")) == Or(Get(post, "_id"), Or(Get(post, "id"), Or(Get(post, "slug"), Str(""))));
    var authors := [Get(post, "author"), Get(post, "authorName")];
    assert authors[1..] == [Get(post, "authorName")] && authors[1..][1..] == [];
    assert FirstTruthy(authors[1..], Null) == Or(Get(post, "authorName"), Null);
    assert [Get(post, "publishedAt")][1..] == [];
    assert [Get(post, "imageUrl")][1..] == [];
  }

  // ---------------------------------------------------------------------------
  // getLegacyBlogPosts, getLegacyBlogPostBySlug

  /** `items.map(f)` for an `f` that may throw: the first element that throws makes the
      whole map throw. */
  function TryMap<A, B>(items: seq<A>, f: A -> Result<B, JsError>): (r: Result<seq<B>, JsError>)
    ensures r.Ok? ==> |r.value| == |items| && forall i :: 0 <= i < |items| ==> f(items[i]) == Ok(r.value[i])
    ensures r.Err? <==> exists i :: 0 <= i < |items| && f(items[i]).Err?
  {
    if items == [] then Ok([])
    else match f(items[0])
      case Err(e) => Err(e)
      case Ok(p) =>
        match TryMap(items[1..], f)
        case Err(e) =>
          assert exists i :: 0 <= i < |items| && f(items[i]).Err? by {
            var i :| 0 <= i < |items[1..]| && f(items[1..][i]).Err?;
            assert items[i + 1] == items[1..][i];
          }
          Err(e)
        case Ok(ps) =>
          assert forall i :: 0 < i < |items| ==> items[i] == items[1..][i - 1];
          Ok([p] + ps)
  }

  /** An OK answer whose body is a JSON array. */
  predicate ArrayReply(reply: StrapiClient.HttpReply) {
    reply.Reply? && StrapiClient.IsOkStatus(reply.status) && reply.json.Some? && reply.json.value.Arr?
  }

  /** `getLegacyBlogPosts()` given what the posts API answered: any failure gives []. */
  function GetLegacyBlogPosts(reply: StrapiClient.HttpReply): (posts: seq<LegacyPost>)
    ensures reply.NetworkFailure? ==> posts == []
    ensures reply.Reply? && !StrapiClient.IsOkStatus(reply.status) ==> posts == []
    ensures reply.Reply? && (reply.json.None? || !reply.json.value.Arr?) ==> posts == []
    ensures ArrayReply(reply) && (forall i :: 0 <= i < |reply.json.value.items| ==> MapLegacyPost(reply.json.value.items[i]).Ok?) ==>
      |posts| == |reply.json.value.items|
      && forall i :: 0 <= i < |posts| ==> MapLegacyPost(reply.json.value.items[i]) == Ok(posts[i])
  {
    if reply.NetworkFailure? || !StrapiClient.IsOkStatus(reply.status) then []
    else if reply.json.None? || !reply.json.value.Arr? then []
    else match TryMap(reply.json.value.items, MapLegacyPost)
      case Err(_) => []
      case Ok(posts) => posts
  }

  /** A well-formed answer is mapped element by element, in order; otherwise the list is
      empty. */
  lemma {:induction false} LegacyPostsMapped(reply: StrapiClient.HttpReply)
    ensures var posts := GetLegacyBlogPosts(reply);
      posts == [] ||
      (&& reply.Reply? && StrapiClient.IsOkStatus(reply.status)
       && reply.json.Some? && reply.json.value.Arr?
       && |posts| == |reply.json.value.items|
       && forall i :: 0 <= i < |posts| ==> MapLegacyPost(reply.json.value.items[i]) == Ok(posts[i]))
    ensures reply.Reply? && StrapiClient.IsOkStatus(reply.status) && reply.json.Some? && reply.json.value.Arr?
      && (exists i :: 0 <= i < |reply.json.value.items| && MapLegacyPost(reply.json.value.items[i]).Err?)
      ==> GetLegacyBlogPosts(reply) == []
    ensures var posts := GetLegacyBlogPosts(reply);
      if ArrayReply(reply) && forall i :: 0 <= i < |reply.json.value.items| ==> MapLegacyPost(reply.json.value.items[i]).Ok? then
        |posts| == |reply.json.value.items|
        && forall i :: 0 <= i < |posts| ==> MapLegacyPost(reply.json.value.items[i]) == Ok(posts[i])
      else posts == []
  {
  }

  /** `posts.find(post => post.slug === slug)`. */
  function FindBySlug(posts: seq<LegacyPost>, slug: string): (r: Option<LegacyPost>)
    ensures r.None? <==> forall i :: 0 <= i < |posts| ==> posts[i].slug != Str(slug)
    ensures r.Some? ==> exists i :: (0 <= i < |posts| && posts[i] == r.value && r.value.slug == Str(slug)
      && forall j :: 0 <= j < i ==> posts[j].slug != Str(slug))
  {
    if posts == [] then None
    else if posts[0].slug == Str(slug) then Some(posts[0])
    else
      var r := FindBySlug(posts[1..], slug);
      assert forall i :: 0 < i < |posts| ==> posts[i] == posts[1..][i - 1];
      if r.Some? then
        assert exists i :: (0 <= i < |posts| && posts[i] == r.value && r.value.slug == Str(slug)
          && forall j :: 0 <= j < i ==> posts[j].slug != Str(slug)) by {
          var i :| 0 <= i < |posts[1..]| && posts[1..][i] == r.value && r.value.slug == Str(slug)
            && forall j :: 0 <= j < i ==> posts[1..][j].slug != Str(slug);
          assert posts[i + 1] == r.value;
        }
        r
      else r
  }

  /** `getLegacyBlogPostBySlug(slug)`: the first post whose slug is `slug`, else null. */
  function GetLegacyBlogPostBySlug(reply: StrapiClient.HttpReply, slug: string): (r: Option<LegacyPost>)
    ensures r.Some? ==> r.value.slug == Str(slug) && r.value in GetLegacyBlogPosts(reply)
    ensures r.None? <==> forall p :: p in GetLegacyBlogPosts(reply) ==> p.slug != Str(slug)
  {
    FindBySlug(GetLegacyBlogPosts(reply), slug)
  }
}
