/**
 * The edge middleware (middleware.ts): it resolves the request's locale from the
 * first path segment, then the locale cookie, then the default, forwards it in a
 * request header and remembers an explicit path locale in a cookie.
 */
module EdgeMiddleware {
  import opened Wrappers
  import opened JsText
  import opened Locales

  const LocaleHeader := "x-site-locale"
  const CookieMaxAge := 60 * 60 * 24 * 365

  /** A cookie written on the response. */
  datatype Cookie = Cookie(name: string, value: string, path: string, maxAge: int, sameSite: string)

  /** What a middleware can answer.  Header names are kept lower-cased, as `Headers` does. */
  datatype Response =
    | Next(requestHeaders: map<string, string>, setCookies: seq<Cookie>)
    | Redirect(location: string)
    | Reject(status: int)

  /** `pathname.split('/')[1]`. */
  function PathSegment(pathname: string): Option<string> {
    Piece(pathname, '/', 1)
  }

  /** The locale chosen from the path segment, then the cookie, then the default. */
  function ResolveLocale(segment: Option<string>, cookieLocale: Option<string>): (r: Locale)
  {
    if IsSupportedLocale(segment) then segment.value
    else if IsSupportedLocale(cookieLocale) then cookieLocale.value
    else DefaultLocale
  }

  /** The first supported value of a list of candidates, or the default. */
  function FirstSupported(candidates: seq<Option<string>>): Locale {
    if candidates == [] then DefaultLocale
    else if IsSupportedLocale(candidates[0]) then candidates[0].value
    else FirstSupported(candidates[1..])
  }

  /** Resolution is the first supported signal in precedence order: segment, cookie, default. */
  lemma ResolvePrecedence(segment: Option<string>, cookieLocale: Option<string>)
    ensures ResolveLocale(segment, cookieLocale) == FirstSupported([segment, cookieLocale, Some(DefaultLocale)])
    ensures IsSupportedLocale(Some(ResolveLocale(segment, cookieLocale)))
  {
    var tail := [cookieLocale, Some(DefaultLocale)];
    assert [segment, cookieLocale, Some(DefaultLocale)][1..] == tail;
    assert tail[1..] == [Some(DefaultLocale)];
    assert FirstSupported([Some(DefaultLocale)]) == DefaultLocale;
    assert FirstSupported(tail) == if IsSupportedLocale(cookieLocale) then cookieLocale.value else DefaultLocale;
  }

  /** The segment of a path `/<seg>` or `/<seg>/...` is `seg`; the root path gives "". */
  lemma {:induction false} PathSegmentOf(seg: string, rest: string)
    requires '/' !in seg
    requires rest == [] || rest[0] == '/'
    ensures PathSegment("/" + seg + rest) == Some(seg)
  {
    var p := "/" + seg + rest;
    SplitLeadingSep(p, '/');
    assert p[1..] == seg + rest;
    if rest == [] {
      assert seg + rest == seg;
      SplitFree(seg, '/');
    } else {
      assert seg + rest == seg + ['/'] + rest[1..];
      SplitPrefix(seg, rest[1..], '/');
    }
  }

  /** The paths the matcher excludes: `/((?!_next/static|_next/image|favicon.ico|robots.txt|sitemap.xml).*)`.
      An unescaped '.' in the pattern matches any character. */
  const ExcludedPatterns: seq<string> := ["_next/static", "_next/image", "favicon.ico", "robots.txt", "sitemap.xml"]

  /** Does `s` start with something the regular-expression fragment `pattern` matches? */
  predicate PatternPrefix(s: string, pattern: string) {
    |pattern| <= |s| && forall i :: 0 <= i < |pattern| ==> pattern[i] == '.' || s[i] == pattern[i]
  }

  /** `config.matcher`: the middleware runs on every path but the excluded ones. */
  predicate Matched(pathname: string) {
    pathname != [] && pathname[0] == '/'
    && forall j :: 0 <= j < |ExcludedPatterns| ==> !PatternPrefix(pathname[1..], ExcludedPatterns[j])
  }

  /** Static assets and crawler files are excluded; so is any path the unescaped dot lets through. */
  lemma MatcherExclusions(rest: string)
    ensures !Matched("/_next/static" + rest) && !Matched("/_next/image" + rest)
    ensures !Matched("/favicon.ico" + rest) && !Matched("/robots.txt" + rest) && !Matched("/sitemap.xml" + rest)
    ensures !Matched("/favicon-ico" + rest)
  {
    assert PatternPrefix(("/_next/static" + rest)[1..], ExcludedPatterns[0]);
    assert PatternPrefix(("/_next/image" + rest)[1..], ExcludedPatterns[1]);
    assert PatternPrefix(("/favicon.ico" + rest)[1..], ExcludedPatterns[2]);
    assert PatternPrefix(("/robots.txt" + rest)[1..], ExcludedPatterns[3]);
    assert PatternPrefix(("/sitemap.xml" + rest)[1..], ExcludedPatterns[4]);
    assert PatternPrefix(("/favicon-ico" + rest)[1..], ExcludedPatterns[2]);
  }

  /** The root path and every locale-prefixed path go through the middleware. */
  lemma LocalePathsMatched(l: Locale, rest: string)
    ensures Matched("/") && Matched("/" + l + rest)
  {
    var s := ("/" + l + rest)[1..];
    assert s[0] == l[0] && s[1] == l[1];
    forall j | 0 <= j < |ExcludedPatterns| ensures !PatternPrefix(s, ExcludedPatterns[j]) {
      var pat := ExcludedPatterns[j];
      assert pat[0] == '_' || pat[0] == 'r' || pat[0] == 's' || (pat[0] == 'f' && pat[1] == 'a');
    }
  }

  /**
   * `middleware(req)`: the request is always passed on.  Its headers are a copy of
   * the incoming ones with the resolved locale set; a cookie is written exactly when
   * the path names a supported locale.
   */
  method Middleware(pathname: string, cookies: map<string, string>, headers: map<string, string>)
    returns (res: Response)
    ensures res.Next?
    ensures var cookieLocale := if LocaleCookieName in cookies then Some(cookies[LocaleCookieName]) else None;
      res.requestHeaders == headers[LocaleHeader := ResolveLocale(PathSegment(pathname), cookieLocale)]
    ensures |res.setCookies| <= 1
    ensures |res.setCookies| == 1 <==> IsSupportedLocale(PathSegment(pathname))
    ensures forall c :: c in res.setCookies ==>
      && c.name == LocaleCookieName
      && Some(c.value) == PathSegment(pathname)
      && c.value == res.requestHeaders[LocaleHeader]
      && c.path == "/" && c.maxAge == 31536000 && c.sameSite == "lax"
  {
    var segment := PathSegment(pathname);
    var cookieLocale := if LocaleCookieName in cookies then Some(cookies[LocaleCookieName]) else None;
    var resolvedLocale := ResolveLocale(segment, cookieLocale);

    var requestHeaders := headers;
    requestHeaders := requestHeaders[LocaleHeader := resolvedLocale];

    var setCookies: seq<Cookie> := [];
    if segment.Some? && segment.value != "" && IsSupportedLocale(segment) {
      setCookies := setCookies + [Cookie(LocaleCookieName, segment.value, "/", CookieMaxAge, "lax")];
    }
    res := Next(requestHeaders, setCookies);
  }

  /** A path such as /fr/blog/my-post resolves to its locale whatever the cookie says;
      a path such as /blog falls back to a supported cookie, as in /blog with site_locale=en. */
  lemma ResolutionFromPath(seg: string, rest: string, cookieLocale: Option<string>)
    requires '/' !in seg
    requires rest == [] || rest[0] == '/'
    ensures IsSupportedLocale(Some(seg)) ==> ResolveLocale(PathSegment("/" + seg + rest), cookieLocale) == seg
    ensures !IsSupportedLocale(Some(seg)) && IsSupportedLocale(cookieLocale) ==>
      ResolveLocale(PathSegment("/" + seg + rest), cookieLocale) == cookieLocale.value
  {
    PathSegmentOf(seg, rest);
  }
}
