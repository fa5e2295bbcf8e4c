/**
 * The CMS-backed blog listing (src/app/blog/BlogPageClient.tsx): the posts shown for the
 * active category and search text, the featured posts, when the featured section
 * appears, and the links the cards point to.  The active category and the search text
 * are the component's state; here they are parameters.
 */
module BlogPageClient {
  import opened Wrappers
  import opened JsText
  import BlogServer
  import Listing

  type Post = BlogServer.Preview

  /** `!activeCategory`: no category, or the empty one. */
  predicate NoCategory(activeCategory: Option<string>) {
    activeCategory.None? || activeCategory.value == ""
  }

  /** `!activeCategory || post.category?.name === activeCategory`. */
  predicate MatchesCategory(post: Post, activeCategory: Option<string>) {
    NoCategory(activeCategory) || (post.category.Some? && post.category.value.name == activeCategory.value)
  }

  /** `!searchQuery || title.toLowerCase().includes(q) || excerpt.toLowerCase().includes(q)`
      with `q` the lower-cased query. */
  predicate MatchesSearch(title: string, excerpt: string, searchQuery: string) {
    searchQuery == ""
    || Includes(Lower(title), Lower(searchQuery))
    || Includes(Lower(excerpt), Lower(searchQuery))
  }

  /** The `filteredPosts` predicate: a post without a slug is never shown; a missing
      title or excerpt searches as "". */
  predicate Shown(post: Post, activeCategory: Option<string>, searchQuery: string) {
    post.slug != ""
    && MatchesCategory(post, activeCategory)
    && MatchesSearch(post.title, post.excerpt.GetOr(""), searchQuery)
  }

  function FilteredPosts(posts: seq<Post>, activeCategory: Option<string>, searchQuery: string): (r: seq<Post>)
    ensures forall i :: 0 <= i < |r| ==> r[i].slug != ""
    ensures !NoCategory(activeCategory) ==>
      forall i :: 0 <= i < |r| ==> r[i].category.Some? && r[i].category.value.name == activeCategory.value
  {
    Listing.Filter(posts, post => Shown(post, activeCategory, searchQuery))
  }

  /** The `featuredPosts` predicate: truthy `featured` and a slug. */
  predicate IsFeatured(post: Post) {
    post.featured && post.slug != ""
  }

  function FeaturedPosts(posts: seq<Post>): (r: seq<Post>)
    ensures forall i :: 0 <= i < |r| ==> r[i].featured && r[i].slug != ""
  {
    Listing.Filter(posts, post => IsFeatured(post))
  }

  /** A card and the link it points to. */
  datatype Card = Card(href: string, post: Post)

  /** `${basePath}/${post.slug}`. */
  function Cards(posts: seq<Post>, basePath: string): (cards: seq<Card>)
    ensures |cards| == |posts|
    ensures forall i :: 0 <= i < |posts| ==> cards[i].post == posts[i]
  {
    seq(|posts|, i requires 0 <= i < |posts| => Card(basePath + "/" + posts[i].slug, posts[i]))
  }

  /** What the component renders: the empty notice when there are no posts at all, else
      the featured section (when shown), the heading of the list and the list's cards
      (an empty list renders the "no articles found" notice). */
  datatype View =
    | NoArticles
    | Sections(featured: Option<seq<Card>>, heading: string, shown: seq<Card>)

  /** `!activeCategory && !searchQuery && featuredPosts.length > 0`. */
  predicate ShowsFeatured(posts: seq<Post>, activeCategory: Option<string>, searchQuery: string) {
    NoCategory(activeCategory) && searchQuery == "" && |FeaturedPosts(posts)| > 0
  }

  /** The rendering; `basePath` defaults to "/blog". */
  function Render(posts: seq<Post>, activeCategory: Option<string>, searchQuery: string, basePath: Option<string>): View {
    var base := basePath.GetOr("/blog");
    if |posts| == 0 then NoArticles
    else Sections(
      if ShowsFeatured(posts, activeCategory, searchQuery) then Some(Cards(FeaturedPosts(posts), base)) else None,
      if NoCategory(activeCategory) then "All Posts" else activeCategory.value,
      Cards(FilteredPosts(posts, activeCategory, searchQuery), base))
  }

  // ---------------------------------------------------------------------------
  // Properties

  /** The shown posts are a subsequence of the posts, in their original order. */
  lemma FilteredInOrder(posts: seq<Post>, activeCategory: Option<string>, searchQuery: string)
    ensures Listing.IsSubsequence(FilteredPosts(posts, activeCategory, searchQuery), posts)
  {
    Listing.FilterSubsequence(posts, post => Shown(post, activeCategory, searchQuery));
  }

  /** A post is shown exactly when it has a slug, matches the category and matches the
      search. */
  lemma FilteredMembers(posts: seq<Post>, activeCategory: Option<string>, searchQuery: string, post: Post)
    ensures post in FilteredPosts(posts, activeCategory, searchQuery) <==>
      && post in posts
      && post.slug != ""
      && MatchesCategory(post, activeCategory)
      && MatchesSearch(post.title, post.excerpt.GetOr(""), searchQuery)
  {
    Listing.FilterMembers(posts, post => Shown(post, activeCategory, searchQuery), post);
  }

  predicate HasSlug(post: Post) {
    post.slug != ""
  }

  /** Without a category or a search text the list is exactly the posts that have a
      slug. */
  lemma UnfilteredIsSlugged(posts: seq<Post>, activeCategory: Option<string>)
    requires NoCategory(activeCategory)
    ensures FilteredPosts(posts, activeCategory, "") == Listing.Filter(posts, post => HasSlug(post))
  {
    Listing.FilterSame(posts, post => Shown(post, activeCategory, ""), post => HasSlug(post));
  }

  /** Lower-casing twice is lower-casing once. */
  lemma LowerLower(s: string)
    ensures Lower(Lower(s)) == Lower(s)
  {
    assert forall i :: 0 <= i < |s| ==> LowerChar(LowerChar(s[i])) == LowerChar(s[i]);
  }

  /** The search ignores ASCII case on both sides. */
  lemma SearchIgnoresCase(title: string, excerpt: string, searchQuery: string)
    ensures MatchesSearch(title, excerpt, searchQuery) == MatchesSearch(Lower(title), Lower(excerpt), Lower(searchQuery))
  {
    LowerLower(title);
    LowerLower(excerpt);
    LowerLower(searchQuery);
  }

  /** A post is featured exactly when it is in the list, has truthy `featured` and a
      slug, whatever the category or the search. */
  lemma FeaturedMembers(posts: seq<Post>, post: Post)
    ensures post in FeaturedPosts(posts) <==> post in posts && post.featured && post.slug != ""
  {
    Listing.FilterMembers(posts, post => IsFeatured(post), post);
  }

  /** The featured section appears exactly when there are posts, no category, no search
      text, and some post is featured and has a slug. */
  lemma FeaturedSection(posts: seq<Post>, activeCategory: Option<string>, searchQuery: string, basePath: Option<string>)
    ensures var v := Render(posts, activeCategory, searchQuery, basePath);
      v.Sections? && v.featured.Some? <==>
        NoCategory(activeCategory) && searchQuery == ""
        && exists i :: 0 <= i < |posts| && posts[i].featured && posts[i].slug != ""
  {
    if exists i :: 0 <= i < |posts| && posts[i].featured && posts[i].slug != "" {
      var i :| 0 <= i < |posts| && posts[i].featured && posts[i].slug != "";
      FeaturedMembers(posts, posts[i]);
    }
    if |FeaturedPosts(posts)| > 0 {
      var p := FeaturedPosts(posts)[0];
      FeaturedMembers(posts, p);
    }
  }

  /** Every card links to the base path, a slash and the post's non-empty slug; the base
      path is "/blog" unless another is given. */
  lemma CardLinks(posts: seq<Post>, activeCategory: Option<string>, searchQuery: string, basePath: Option<string>)
    ensures var v := Render(posts, activeCategory, searchQuery, basePath);
      v.Sections? ==>
        && (forall c :: c in v.shown ==> c.post.slug != "" && c.href == basePath.GetOr("/blog") + "/" + c.post.slug)
        && (v.featured.Some? ==>
              forall c :: c in v.featured.value ==>
                c.post.slug != "" && c.post.featured && c.href == basePath.GetOr("/blog") + "/" + c.post.slug)
  {
  }

  /** The list's heading is the active category, or "All Posts" without one. */
  lemma Heading(posts: seq<Post>, activeCategory: Option<string>, searchQuery: string, basePath: Option<string>)
    requires posts != []
    ensures var v := Render(posts, activeCategory, searchQuery, basePath);
      v.Sections? && v.heading == (if NoCategory(activeCategory) then "All Posts" else activeCategory.value)
  {
  }
}
