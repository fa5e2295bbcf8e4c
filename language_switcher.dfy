/**
 * The locale switcher's path helpers and state (src/components/LanguageSwitcher.tsx):
 * reading the locale from a path, recognising blog paths, and rewriting the locale
 * prefix of a path.
 */
module LanguageSwitcher {
  import opened Wrappers
  import opened JsText
  import opened Locales
  import EdgeMiddleware

  /** `getLocaleFromPath(pathname)`: the first segment when it is a supported locale. */
  function LocaleFromPath(pathname: string): (r: Option<Locale>)
    ensures r.Some? <==> IsSupportedLocale(EdgeMiddleware.PathSegment(pathname))
    ensures r.Some? ==> Some(r.value) == EdgeMiddleware.PathSegment(pathname)
  {
    var segment := EdgeMiddleware.PathSegment(pathname);
    if IsSupportedLocale(segment) then Some(segment.value) else None
  }

  // ---------------------------------------------------------------------------
  // The shape of a path: "/" + lead segment + remainder

  /** A path with its leading '/' ensured. */
  function Normalized(pathname: string): (n: string)
    ensures n != [] && n[0] == '/'
  {
    if StartsWith(pathname, "/") then pathname else "/" + pathname
  }

  /** The length of the first '/'-free run of `s`. */
  function SegmentLength(s: string): (k: nat)
    ensures k <= |s|
    ensures '/' !in s[..k]
    ensures k < |s| ==> s[k] == '/'
  {
    if s == [] || s[0] == '/' then 0
    else
      var k := SegmentLength(s[1..]);
      assert s[..k + 1] == [s[0]] + s[1..][..k];
      k + 1
  }

  /** The first segment of the normalised path. */
  function LeadSegment(pathname: string): (seg: string)
    ensures '/' !in seg
  {
    var body := Normalized(pathname)[1..];
    body[..SegmentLength(body)]
  }

  /** What follows the first segment: empty, or starting with '/'. */
  function Remainder(pathname: string): (rest: string)
    ensures rest == [] || rest[0] == '/'
    ensures Normalized(pathname) == "/" + LeadSegment(pathname) + rest
  {
    var n := Normalized(pathname);
    var body := n[1..];
    var k := SegmentLength(body);
    assert n == "/" + body[..k] + body[k..];
    body[k..]
  }

  /** The measuring of a segment stops at the first '/'. */
  lemma {:induction false} SegmentLengthConcat(a: string, rest: string)
    requires '/' !in a
    requires rest == [] || rest[0] == '/'
    ensures SegmentLength(a + rest) == |a|
  {
    if a != [] {
      assert (a + rest)[1..] == a[1..] + rest;
      SegmentLengthConcat(a[1..], rest);
    } else {
      assert a + rest == rest;
    }
  }

  /** Reading back the parts of a path built as "/" + seg + rest. */
  lemma PathParts(seg: string, rest: string)
    requires '/' !in seg
    requires rest == [] || rest[0] == '/'
    ensures Normalized("/" + seg + rest) == "/" + seg + rest
    ensures LeadSegment("/" + seg + rest) == seg
    ensures Remainder("/" + seg + rest) == rest
  {
    var p := "/" + seg + rest;
    assert p[1..] == seg + rest;
    SegmentLengthConcat(seg, rest);
    assert (seg + rest)[..|seg|] == seg;
    assert (seg + rest)[|seg|..] == rest;
  }

  /** The '/'-pieces of "/" + seg + rest. */
  lemma SplitPath(seg: string, rest: string)
    requires '/' !in seg
    requires rest == [] || rest[0] == '/'
    ensures Split("/" + seg + rest, '/') == ["", seg] + (if rest == [] then [] else Split(rest[1..], '/'))
  {
    var p := "/" + seg + rest;
    SplitLeadingSep(p, '/');
    assert p[1..] == seg + rest;
    if rest == [] {
      assert seg + rest == seg;
      SplitFree(seg, '/');
    } else {
      assert seg + rest == seg + ['/'] + rest[1..];
      SplitPrefix(seg, rest[1..], '/');
    }
  }

  /** Joining the pieces of "/" + seg + rest with the segment replaced. */
  lemma JoinPath(l: string, rest: string)
    requires rest == [] || rest[0] == '/'
    ensures Join(["", l] + (if rest == [] then [] else Split(rest[1..], '/')), '/') == "/" + l + rest
  {
    if rest == [] {
      assert ["", l] + [] == ["", l];
      assert ["", l][1..] == [l];
    } else {
      var t := Split(rest[1..], '/');
      JoinSplit(rest[1..], '/');
      assert (["", l] + t)[1..] == [l] + t;
      assert ([l] + t)[1..] == t;
      assert Join([l] + t, '/') == l + ['/'] + Join(t, '/');
      assert rest == ['/'] + rest[1..];
    }
  }

  // ---------------------------------------------------------------------------
  // isBlogPath

  /** `isBlogPath(pathname)`: the path, without a leading locale segment, is /blog or below it. */
  predicate IsBlogPath(pathname: string) {
    var normalized := Normalized(pathname);
    var parts := Split(normalized, '/');
    var withoutLocale :=
      if |parts| > 1 && IsSupportedLocale(Some(parts[1])) then "/" + Join(parts[2..], '/') else normalized;
    withoutLocale == "/blog" || StartsWith(withoutLocale, "/blog/")
  }

  /** The path that the blog test looks at, stated without split and join. */
  function WithoutLocale(pathname: string): string {
    if IsSupportedLocale(Some(LeadSegment(pathname))) then
      (if Remainder(pathname) == [] then "/" else Remainder(pathname))
    else Normalized(pathname)
  }

  predicate IsBlogRoute(path: string) {
    path == "/blog" || StartsWith(path, "/blog/")
  }

  /** `isBlogPath` tests the path with a leading locale segment dropped. */
  lemma BlogPathMeaning(pathname: string)
    ensures IsBlogPath(pathname) == IsBlogRoute(WithoutLocale(pathname))
  {
    var seg, rest := LeadSegment(pathname), Remainder(pathname);
    SplitPath(seg, rest);
    var parts := Split(Normalized(pathname), '/');
    assert parts[1] == seg;
    if rest == [] {
      assert parts[2..] == [];
    } else {
      assert parts[2..] == Split(rest[1..], '/');
      JoinSplit(rest[1..], '/');
      assert "/" + rest[1..] == rest;
    }
  }

  // ---------------------------------------------------------------------------
  // buildPrefixedPath

  /** What a rewritten path keeps after its new locale segment: the remainder when the
      path had a locale segment, the whole normalised path otherwise. */
  function KeptPath(pathname: string): (kept: string)
    ensures kept == [] || kept[0] == '/'
  {
    if IsSupportedLocale(Some(LeadSegment(pathname))) then Remainder(pathname) else Normalized(pathname)
  }

  /** The path `buildPrefixedPath` produces, stated as "/" + locale + what is kept. */
  function PrefixedPath(pathname: string, locale: Locale): string {
    "/" + locale + KeptPath(pathname)
  }

  /**
   * `buildPrefixedPath(pathname, locale)`: splits the normalised path on '/',
   * overwrites the locale piece in place when there is one, and joins again;
   * otherwise prefixes "/" + locale.
   */
  method BuildPrefixedPath(pathname: string, locale: Locale) returns (r: string)
    ensures r == PrefixedPath(pathname, locale)
  {
    var normalized := if StartsWith(pathname, "/") then pathname else "/" + pathname;
    var pieces := Split(normalized, '/');
    SplitPath(LeadSegment(pathname), Remainder(pathname));
    var parts := new string[|pieces|](i requires 0 <= i < |pieces| => pieces[i]);
    if IsSupportedLocale(Some(parts[1])) {
      parts[1] := locale;
      JoinPath(locale, Remainder(pathname));
      assert parts[..] == ["", locale] + pieces[2..];
      var joined := Join(parts[..], '/');
      r := if joined != "" then joined else "/" + locale;
      return;
    }
    r := "/" + locale + normalized;
  }

  /** The rewritten path always starts with the chosen locale. */
  lemma PrefixedLocale(pathname: string, locale: Locale)
    ensures LocaleFromPath(PrefixedPath(pathname, locale)) == Some(locale)
  {
    EdgeMiddleware.PathSegmentOf(locale, KeptPath(pathname));
  }

  /** Rewriting twice is rewriting with the last locale; with one locale, rewriting is idempotent. */
  lemma PrefixedLastWriteWins(pathname: string, a: Locale, b: Locale)
    ensures PrefixedPath(PrefixedPath(pathname, a), b) == PrefixedPath(pathname, b)
    ensures PrefixedPath(PrefixedPath(pathname, a), a) == PrefixedPath(pathname, a)
  {
    PathParts(a, KeptPath(pathname));
  }

  /** Rewriting a path that already starts with the locale changes nothing. */
  lemma PrefixedNoChange(pathname: string, locale: Locale)
    requires StartsWith(pathname, "/") && LeadSegment(pathname) == locale
    ensures PrefixedPath(pathname, locale) == pathname
  {
  }

  /** Only the locale piece changes: the later '/'-pieces are those of the original path. */
  lemma PrefixedKeepsSegments(pathname: string, locale: Locale)
    ensures var n := Normalized(pathname);
      Split(PrefixedPath(pathname, locale), '/')[..2] == ["", locale]
      && Split(PrefixedPath(pathname, locale), '/')[2..]
         == if IsSupportedLocale(Some(LeadSegment(pathname))) then Split(n, '/')[2..] else Split(n, '/')[1..]
  {
    var n := Normalized(pathname);
    var kept := KeptPath(pathname);
    SplitPath(locale, kept);
    SplitPath(LeadSegment(pathname), Remainder(pathname));
    if !IsSupportedLocale(Some(LeadSegment(pathname))) {
      SplitLeadingSep(n, '/');
    }
  }

  /** Rewriting the locale never turns a blog path into another page or back. */
  lemma PrefixedKeepsBlog(pathname: string, locale: Locale)
    ensures IsBlogPath(PrefixedPath(pathname, locale)) == IsBlogPath(pathname)
  {
    var q := PrefixedPath(pathname, locale);
    PathParts(locale, KeptPath(pathname));
    BlogPathMeaning(q);
    BlogPathMeaning(pathname);
  }

  // ---------------------------------------------------------------------------
  // Component state

  /** `pathLocale || cookieLocale || DEFAULT_LOCALE`; the cookie value is read already decoded. */
  function ActiveLocale(pathname: string, cookieValue: Option<string>): Locale {
    match LocaleFromPath(pathname)
    case Some(l) => l
    case None => if IsSupportedLocale(cookieValue) then cookieValue.value else DefaultLocale
  }

  /** The switcher highlights the locale the middleware resolved for the same path and cookie. */
  lemma ActiveLocaleAgrees(pathname: string, cookieValue: Option<string>)
    ensures ActiveLocale(pathname, cookieValue) == EdgeMiddleware.ResolveLocale(EdgeMiddleware.PathSegment(pathname), cookieValue)
  {
  }

  /** The router calls `handleSelect` makes. */
  datatype RouterCall = Push(target: string) | Refresh

  /** The router calls for selecting `locale` on `pathname`. */
  function SelectCalls(pathname: string, locale: Locale): seq<RouterCall> {
    if IsBlogPath(pathname) && PrefixedPath(pathname, locale) != pathname then
      [Push(PrefixedPath(pathname, locale)), Refresh]
    else [Refresh]
  }

  /** Selecting always ends with a refresh; a push goes to a different blog path that
      carries the chosen locale, and only happens from a blog path. */
  lemma SelectNavigation(pathname: string, locale: Locale)
    ensures SelectCalls(pathname, locale)[|SelectCalls(pathname, locale)| - 1] == Refresh
    ensures forall t :: Push(t) in SelectCalls(pathname, locale) ==>
      IsBlogPath(pathname) && t != pathname && IsBlogPath(t) && LocaleFromPath(t) == Some(locale)
    ensures StartsWith(pathname, "/") && LeadSegment(pathname) == locale ==> SelectCalls(pathname, locale) == [Refresh]
  {
    PrefixedKeepsBlog(pathname, locale);
    PrefixedLocale(pathname, locale);
  }

  /** The switcher component: the current path, the highlighted locale and the language
      context it keeps in step. */
  class Switcher {
    var pathname: string
    var activeLocale: Locale
    var lang: string

    /** `usePathname() || '/'`, and the initial `useState(DEFAULT_LOCALE)`. */
    constructor (current: Option<string>, contextLang: string)
      ensures pathname == if current.Some? && current.value != "" then current.value else "/"
      ensures activeLocale == DefaultLocale && lang == contextLang
    {
      pathname := if current.Some? && current.value != "" then current.value else "/";
      activeLocale := DefaultLocale;
      lang := contextLang;
    }

    /** The effect run when the path changes. */
    method Sync(cookieValue: Option<string>)
      modifies this
      ensures pathname == old(pathname)
      ensures activeLocale == ActiveLocale(pathname, cookieValue) && lang == activeLocale
    {
      var pathLocale := LocaleFromPath(pathname);
      var cookieLocale := if IsSupportedLocale(cookieValue) then cookieValue else None;
      var nextLocale: Locale := if pathLocale.Some? then pathLocale.value
        else if cookieLocale.Some? then cookieLocale.value else DefaultLocale;
      activeLocale := nextLocale;
      lang := nextLocale;
    }

    /** `handleSelect(locale)`. */
    method Select(locale: Locale) returns (calls: seq<RouterCall>)
      modifies this
      ensures pathname == old(pathname)
      ensures activeLocale == locale && lang == locale
      ensures calls == SelectCalls(pathname, locale)
    {
      activeLocale := locale;
      lang := locale;
      if IsBlogPath(pathname) {
        var target := BuildPrefixedPath(pathname, locale);
        calls := [];
        if target != pathname {
          calls := calls + [Push(target)];
        }
        calls := calls + [Refresh];
        return;
      }
      calls := [Refresh];
    }
  }
}
