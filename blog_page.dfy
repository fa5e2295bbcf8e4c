/**
 * The database-backed blog listing (src/app/blog/page.tsx).  The page holds the posts
 * fetched from the posts API, a loading flag, the active category and the search text;
 * `fetchPosts` replaces the posts and clears the flag.  The posts are whatever JSON the
 * API answered with, so the filters read fields that may be missing and can throw.
 */
module BlogPage {
  import opened Wrappers
  import opened JsText
  import opened JsValue
  import Listing
  import BlogPageClient

  // ---------------------------------------------------------------------------
  // The filters

  /** `v.toLowerCase().includes(query.toLowerCase())`, which throws unless `v` is a
      string. */
  function LowerIncludes(v: Json, query: string): (r: Result<bool, JsError>)
    ensures r.Err? <==> !v.Str?
    ensures r.Ok? ==> (r.value <==> Includes(Lower(v.s), Lower(query)))
  {
    if v.Str? then Ok(Includes(Lower(v.s), Lower(query))) else Err(TypeError)
  }

  /** `!activeCategory || post.category === activeCategory`. */
  function CategoryMatch(post: Json, activeCategory: Option<string>): Result<bool, JsError> {
    if BlogPageClient.NoCategory(activeCategory) then Ok(true)
    else if IsNullish(post) then Err(TypeError)
    else Ok(Get(post, "category") == Str(activeCategory.value))
  }

  /** `!searchQuery || post.title.toLowerCase().includes(q) || post.excerpt.toLowerCase().includes(q)`:
      the excerpt is read only when the title does not match. */
  function SearchMatch(post: Json, searchQuery: string): Result<bool, JsError> {
    if searchQuery == "" then Ok(true)
    else if IsNullish(post) then Err(TypeError)
    else match LowerIncludes(Get(post, "title"), searchQuery)
      case Err(e) => Err(e)
      case Ok(inTitle) =>
        if inTitle then Ok(true) else LowerIncludes(Get(post, "excerpt"), searchQuery)
  }

  /** The `filteredPosts` predicate: the category test, then the search test, both
      evaluated. */
  function Matches(post: Json, activeCategory: Option<string>, searchQuery: string): Result<bool, JsError> {
    match CategoryMatch(post, activeCategory)
    case Err(e) => Err(e)
    case Ok(inCategory) =>
      match SearchMatch(post, searchQuery)
      case Err(e) => Err(e)
      case Ok(found) => Ok(inCategory && found)
  }

  function FilteredPosts(posts: seq<Json>, activeCategory: Option<string>, searchQuery: string): Result<seq<Json>, JsError> {
    Listing.TryFilter(posts, post => Matches(post, activeCategory, searchQuery))
  }

  /** The `featuredPosts` predicate `p.featured`: truthiness, and no slug guard. */
  function Featured(post: Json): (r: Result<bool, JsError>)
    ensures r.Err? <==> IsNullish(post)
  {
    if IsNullish(post) then Err(TypeError) else Ok(Truthy(Get(post, "featured")))
  }

  function FeaturedPosts(posts: seq<Json>): Result<seq<Json>, JsError> {
    Listing.TryFilter(posts, post => Featured(post))
  }

  // ---------------------------------------------------------------------------
  // Rendering

  /** A card and the link it points to, `/blog/${post.slug}`. */
  datatype Card = Card(href: string, post: Json)

  function Cards(posts: seq<Json>): (cards: seq<Card>)
    ensures |cards| == |posts|
    ensures forall i :: 0 <= i < |posts| ==> cards[i].post == posts[i]
  {
    seq(|posts|, i requires 0 <= i < |posts| => Card("/blog/" + ToStr(Get(posts[i], "slug")), posts[i]))
  }

  datatype PageView =
    | Loading
    | NoArticles
    | Sections(featured: Option<seq<Card>>, heading: string, shown: seq<Card>)

  /** The page body: both lists are computed first (and may throw), then the loading
      notice, the empty notice, or the featured section (with no category, no search
      text and some featured post) followed by the list. */
  function Render(loading: bool, posts: seq<Json>, activeCategory: Option<string>, searchQuery: string): Result<PageView, JsError> {
    match FilteredPosts(posts, activeCategory, searchQuery)
    case Err(e) => Err(e)
    case Ok(filtered) =>
      match FeaturedPosts(posts)
      case Err(e) => Err(e)
      case Ok(featured) =>
        if loading then Ok(Loading)
        else if |posts| == 0 then Ok(NoArticles)
        else Ok(Sections(
          if BlogPageClient.NoCategory(activeCategory) && searchQuery == "" && |featured| > 0 then Some(Cards(featured)) else None,
          if BlogPageClient.NoCategory(activeCategory) then "All Posts" else activeCategory.value,
          Cards(filtered)))
  }

  // ---------------------------------------------------------------------------
  // The page's state

  class Page {
    var posts: seq<Json>
    var loading: bool
    var activeCategory: Option<string>
    var searchQuery: string

    /** The first render: no posts yet, still loading, no category, no search text. */
    constructor()
      ensures posts == [] && loading && activeCategory == None && searchQuery == ""
      ensures View() == Ok(Loading)
    {
      posts := [];
      loading := true;
      activeCategory := None;
      searchQuery := "";
    }

    function View(): Result<PageView, JsError>
      reads this
    {
      Render(loading, posts, activeCategory, searchQuery)
    }

    /** `fetchPosts`: `data` is the parsed answer of the posts API, absent when the fetch
        or the parse throws.  An array is kept; anything else, or a failure, leaves no
        posts.  Loading ends either way. */
    method FetchPosts(data: Option<Json>)
      modifies this
      ensures posts == (if data.Some? && data.value.Arr? then data.value.items else [])
      ensures !loading
      ensures activeCategory == old(activeCategory) && searchQuery == old(searchQuery)
      ensures View() != Ok(Loading)
    {
      if data.Some? {
        posts := if data.value.Arr? then data.value.items else [];
      } else {
        posts := [];
      }
      loading := false;
    }

    /** The category buttons: "All" clears the category, the others set it. */
    method SelectCategory(category: Option<string>)
      modifies this
      ensures activeCategory == category
      ensures posts == old(posts) && loading == old(loading) && searchQuery == old(searchQuery)
    {
      activeCategory := category;
    }

    /** The search box. */
    method Search(query: string)
      modifies this
      ensures searchQuery == query
      ensures posts == old(posts) && loading == old(loading) && activeCategory == old(activeCategory)
    {
      searchQuery := query;
    }
  }

  // ---------------------------------------------------------------------------
  // Properties

  /** A post shaped as the page expects: not null, with a string title and excerpt. */
  predicate WellShaped(post: Json) {
    !IsNullish(post) && Get(post, "title").Str? && Get(post, "excerpt").Str?
  }

  /** The filter on a well-shaped post: category equality and the case-insensitive
      search of the title and the excerpt. */
  predicate Shown(post: Json, activeCategory: Option<string>, searchQuery: string)
    requires WellShaped(post)
  {
    (BlogPageClient.NoCategory(activeCategory) || Get(post, "category") == Str(activeCategory.value))
    && BlogPageClient.MatchesSearch(Get(post, "title").s, Get(post, "excerpt").s, searchQuery)
  }

  /** The filter throws on a post exactly when a test it runs reads a field of null or
      undefined, or lower-cases a title or excerpt that is not a string. */
  lemma MatchesFails(post: Json, activeCategory: Option<string>, searchQuery: string)
    ensures Matches(post, activeCategory, searchQuery).Err? <==>
      || (IsNullish(post) && (!BlogPageClient.NoCategory(activeCategory) || searchQuery != ""))
      || (!IsNullish(post) && searchQuery != "" && !Get(post, "title").Str?)
      || (&& !IsNullish(post) && searchQuery != "" && Get(post, "title").Str?
          && !Includes(Lower(Get(post, "title").s), Lower(searchQuery)) && !Get(post, "excerpt").Str?)
  {
  }

  /** On well-shaped posts the filter never throws, keeps the posts in order, and keeps a
      post exactly when it matches. */
  lemma {:induction false} FilteredWellShaped(posts: seq<Json>, activeCategory: Option<string>, searchQuery: string, post: Json)
    requires forall i :: 0 <= i < |posts| ==> WellShaped(posts[i])
    ensures FilteredPosts(posts, activeCategory, searchQuery).Ok?
    ensures var r := FilteredPosts(posts, activeCategory, searchQuery).value;
      && Listing.IsSubsequence(r, posts)
      && (post in r <==> post in posts && WellShaped(post) && Shown(post, activeCategory, searchQuery))
  {
    var shown := (p: Json) => WellShaped(p) && Shown(p, activeCategory, searchQuery);
    Listing.TryFilterAgrees(posts, post => Matches(post, activeCategory, searchQuery), shown);
    Listing.FilterSubsequence(posts, shown);
    Listing.FilterMembers(posts, shown, post);
  }

  /** Without a category or a search text nothing is tested, so every post is kept,
      whatever its shape. */
  lemma {:induction false} UnfilteredKeepsAll(posts: seq<Json>, activeCategory: Option<string>)
    requires BlogPageClient.NoCategory(activeCategory)
    ensures FilteredPosts(posts, activeCategory, "") == Ok(posts)
  {
    var all := (p: Json) => true;
    Listing.TryFilterAgrees(posts, post => Matches(post, activeCategory, ""), all);
    Listing.FilterAll(posts, all);
  }

  /** The featured list throws exactly when some post is null or undefined; otherwise it
      holds, in order, exactly the posts with a truthy `featured`, slug or not. */
  lemma {:induction false} FeaturedExactly(posts: seq<Json>, post: Json)
    ensures FeaturedPosts(posts).Err? <==> exists i :: 0 <= i < |posts| && IsNullish(posts[i])
    ensures FeaturedPosts(posts).Ok? ==>
      && Listing.IsSubsequence(FeaturedPosts(posts).value, posts)
      && (post in FeaturedPosts(posts).value <==> post in posts && Truthy(Get(post, "featured")))
  {
    Listing.TryFilterFails(posts, post => Featured(post));
    if FeaturedPosts(posts).Ok? {
      var featured := (p: Json) => Truthy(Get(p, "featured"));
      Listing.TryFilterAgrees(posts, post => Featured(post), featured);
      Listing.FilterSubsequence(posts, featured);
      Listing.FilterMembers(posts, featured, post);
    }
  }

  /** A page that renders holds no null or undefined post. */
  lemma RenderedPostsPresent(loading: bool, posts: seq<Json>, activeCategory: Option<string>, searchQuery: string)
    requires Render(loading, posts, activeCategory, searchQuery).Ok?
    ensures forall i :: 0 <= i < |posts| ==> !IsNullish(posts[i])
  {
    FeaturedExactly(posts, Null);
  }

  /** The featured section appears exactly when loading is over, there are posts, no
      category, no search text, and some post has a truthy `featured`. */
  lemma FeaturedSection(loading: bool, posts: seq<Json>, activeCategory: Option<string>, searchQuery: string)
    requires Render(loading, posts, activeCategory, searchQuery).Ok?
    ensures var v := Render(loading, posts, activeCategory, searchQuery).value;
      v.Sections? && v.featured.Some? <==>
        !loading && posts != [] && BlogPageClient.NoCategory(activeCategory) && searchQuery == ""
        && exists i :: 0 <= i < |posts| && Truthy(Get(posts[i], "featured"))
  {
    if exists i :: 0 <= i < |posts| && Truthy(Get(posts[i], "featured")) {
      var i :| 0 <= i < |posts| && Truthy(Get(posts[i], "featured"));
      FeaturedExactly(posts, posts[i]);
    }
    var featured := FeaturedPosts(posts).value;
    if |featured| > 0 {
      FeaturedExactly(posts, featured[0]);
    }
  }
}
