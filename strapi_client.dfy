/**
 * The CMS client of src/lib/strapi/client.ts: the bracketed query-string encoding, media
 * URL resolution, and the URL and headers of a CMS request together with how its reply
 * turns into a value or an error.  The CMS itself is a function from request to reply.
 */
module StrapiClient {
  import opened Wrappers
  import opened JsText
  import opened JsValue

  // ---------------------------------------------------------------------------
  // Query pairs: the specification

  /** The key under which an array element is sent: `prefix[index]`. */
  function ItemKey(prefix: string, index: nat): string {
    prefix + "[" + IntToString(index) + "]"
  }

  /** The key under which an object entry is sent: `prefix[key]`, or the bare key at top level. */
  function EntryKey(prefix: string, key: string): string {
    if prefix != "" then prefix + "[" + key + "]" else key
  }

  /** The (key, text) leaves of a query value under `prefix`, depth first: null and
      undefined give none, arrays and objects give their members' leaves in order, and
      every other value gives itself as text. */
  function Leaves(v: Json, prefix: string): seq<(string, string)>
    decreases v, 1
  {
    match v
    case Null => []
    case Undefined => []
    case Arr(items) => ItemLeaves(items, prefix, 0)
    case Obj(entries) => EntryLeaves(entries, prefix, 0)
    case _ => [(prefix, ToStr(v))]
  }

  /** The leaves of the array elements from index `i` on. */
  function ItemLeaves(items: seq<Json>, prefix: string, i: nat): seq<(string, string)>
    requires i <= |items|
    decreases Arr(items), 0, |items| - i
  {
    if i == |items| then []
    else Leaves(items[i], ItemKey(prefix, i)) + ItemLeaves(items, prefix, i + 1)
  }

  /** The leaves of the object entries from position `i` on. */
  function EntryLeaves(entries: seq<(string, Json)>, prefix: string, i: nat): seq<(string, string)>
    requires i <= |entries|
    decreases Obj(entries), 0, |entries| - i
  {
    if i == |entries| then []
    else
      assert entries[i] in entries;
      Leaves(entries[i].1, EntryKey(prefix, entries[i].0)) + EntryLeaves(entries, prefix, i + 1)
  }

  /** One `key=value` pair, both sides percent-encoded. */
  function FormatPair(leaf: (string, string)): (r: string)
    ensures '&' !in r
  {
    EncodeURIComponent(leaf.0) + "=" + EncodeURIComponent(leaf.1)
  }

  function Formatted(leaves: seq<(string, string)>): (r: seq<string>)
    ensures |r| == |leaves|
  {
    if leaves == [] then [] else [FormatPair(leaves[0])] + Formatted(leaves[1..])
  }

  lemma {:induction false} FormattedAt(leaves: seq<(string, string)>, i: nat)
    requires i < |leaves|
    ensures Formatted(leaves)[i] == FormatPair(leaves[i])
  {
    if i > 0 {
      FormattedAt(leaves[1..], i - 1);
    }
  }

  lemma {:induction false} FormattedAppend(a: seq<(string, string)>, b: seq<(string, string)>)
    ensures Formatted(a + b) == Formatted(a) + Formatted(b)
  {
    if a == [] {
      assert a + b == b;
    } else {
      assert (a + b)[1..] == a[1..] + b;
      FormattedAppend(a[1..], b);
    }
  }

  /** The string `buildQueryString(query)` returns: "" for an absent query or one
      without leaves, else "?" and the pairs joined by '&'. */
  function QueryString(query: Option<seq<(string, Json)>>): string {
    match query
    case None => ""
    case Some(entries) =>
      var pairs := Formatted(EntryLeaves(entries, "", 0));
      if |pairs| > 0 then "?" + Join(pairs, '&') else ""
  }

  // ---------------------------------------------------------------------------
  // Query pairs: the recursive builder

  /** The caller-owned `pairs` array that `buildQueryPairs` pushes onto. */
  class PairBuffer {
    var pairs: seq<string>

    constructor ()
      ensures pairs == []
    {
      pairs := [];
    }

    /** `buildQueryPairs(value, keyPrefix, pairs)`. */
    method Add(value: Json, keyPrefix: string)
      modifies this
      ensures pairs == old(pairs) + Formatted(Leaves(value, keyPrefix))
      decreases value, 1
    {
      match value {
        case Null =>
        case Undefined =>
        case Arr(items) => AddItems(items, keyPrefix);
        case Obj(entries) => AddEntries(entries, keyPrefix);
        case _ =>
          pairs := pairs + [EncodeURIComponent(keyPrefix) + "=" + EncodeURIComponent(ToStr(value))];
      }
    }

    /** The `forEach` over an array's elements. */
    method AddItems(items: seq<Json>, keyPrefix: string)
      modifies this
      ensures pairs == old(pairs) + Formatted(ItemLeaves(items, keyPrefix, 0))
      decreases Arr(items), 0
    {
      ghost var target := pairs + Formatted(ItemLeaves(items, keyPrefix, 0));
      var index := 0;
      while index < |items|
        invariant 0 <= index <= |items|
        invariant target == pairs + Formatted(ItemLeaves(items, keyPrefix, index))
      {
        ItemLeavesStep(items, keyPrefix, index);
        ghost var before, here := pairs, Formatted(Leaves(items[index], ItemKey(keyPrefix, index)));
        ghost var later := Formatted(ItemLeaves(items, keyPrefix, index + 1));
        Add(items[index], ItemKey(keyPrefix, index));
        ConcatAssoc(before, here, later);
        index := index + 1;
      }
    }

    /** The `forEach` over an object's entries. */
    method AddEntries(entries: seq<(string, Json)>, keyPrefix: string)
      modifies this
      ensures pairs == old(pairs) + Formatted(EntryLeaves(entries, keyPrefix, 0))
      decreases Obj(entries), 0
    {
      ghost var target := pairs + Formatted(EntryLeaves(entries, keyPrefix, 0));
      var index := 0;
      while index < |entries|
        invariant 0 <= index <= |entries|
        invariant target == pairs + Formatted(EntryLeaves(entries, keyPrefix, index))
      {
        var key, nested := entries[index].0, entries[index].1;
        var nextPrefix := EntryKey(keyPrefix, key);
        EntryRegroup(pairs, entries, keyPrefix, index);
        assert entries[index] in entries;
        Add(nested, nextPrefix);
        index := index + 1;
      }
    }
  }

  lemma ItemLeavesStep(items: seq<Json>, prefix: string, i: nat)
    requires i < |items|
    ensures Formatted(ItemLeaves(items, prefix, i))
            == Formatted(Leaves(items[i], ItemKey(prefix, i))) + Formatted(ItemLeaves(items, prefix, i + 1))
  {
    FormattedAppend(Leaves(items[i], ItemKey(prefix, i)), ItemLeaves(items, prefix, i + 1));
  }

  lemma EntryLeavesStep(entries: seq<(string, Json)>, prefix: string, i: nat)
    requires i < |entries|
    ensures Formatted(EntryLeaves(entries, prefix, i))
            == Formatted(Leaves(entries[i].1, EntryKey(prefix, entries[i].0))) + Formatted(EntryLeaves(entries, prefix, i + 1))
  {
    FormattedAppend(Leaves(entries[i].1, EntryKey(prefix, entries[i].0)), EntryLeaves(entries, prefix, i + 1));
  }

  /** The loop step of `AddEntries`: what is pushed before entry i, then entry i's pairs,
      then the rest. */
  lemma EntryRegroup(before: seq<string>, entries: seq<(string, Json)>, prefix: string, i: nat)
    requires i < |entries|
    ensures before + Formatted(EntryLeaves(entries, prefix, i))
            == (before + Formatted(Leaves(entries[i].1, EntryKey(prefix, entries[i].0)))) + Formatted(EntryLeaves(entries, prefix, i + 1))
  {
    EntryLeavesStep(entries, prefix, i);
    ConcatAssoc(before, Formatted(Leaves(entries[i].1, EntryKey(prefix, entries[i].0))), Formatted(EntryLeaves(entries, prefix, i + 1)));
  }

  /** `buildQueryString(query)`. */
  method BuildQueryString(query: Option<seq<(string, Json)>>) returns (s: string)
    ensures s == QueryString(query)
  {
    if query.None? {
      return "";
    }
    var buffer := new PairBuffer();
    var entries := query.value;
    var index := 0;
    while index < |entries|
      invariant 0 <= index <= |entries|
      invariant Formatted(EntryLeaves(entries, "", 0)) == buffer.pairs + Formatted(EntryLeaves(entries, "", index))
    {
      var key, value := entries[index].0, entries[index].1;
      EntryLeavesStep(entries, "", index);
      ghost var before, here := buffer.pairs, Formatted(Leaves(value, key));
      ghost var later := Formatted(EntryLeaves(entries, "", index + 1));
      buffer.Add(value, key);
      ConcatAssoc(before, here, later);
      index := index + 1;
    }
    assert buffer.pairs == Formatted(EntryLeaves(entries, "", 0));
    s := if |buffer.pairs| > 0 then "?" + Join(buffer.pairs, '&') else "";
  }

  // ---------------------------------------------------------------------------
  // Properties of the encoding

  /** Every leaf key extends the prefix it was built under. */
  lemma {:induction false} LeafKeysExtendPrefix(v: Json, prefix: string)
    ensures forall leaf :: leaf in Leaves(v, prefix) ==> prefix <= leaf.0
    decreases v, 1
  {
    match v {
      case Arr(items) => ItemKeysExtendPrefix(items, prefix, 0);
      case Obj(entries) => EntryKeysExtendPrefix(entries, prefix, 0);
      case _ =>
    }
  }

  lemma {:induction false} ItemKeysExtendPrefix(items: seq<Json>, prefix: string, i: nat)
    requires i <= |items|
    ensures forall leaf :: leaf in ItemLeaves(items, prefix, i) ==> prefix <= leaf.0
    decreases Arr(items), 0, |items| - i
  {
    if i < |items| {
      var key := ItemKey(prefix, i);
      LeafKeysExtendPrefix(items[i], key);
      ItemKeysExtendPrefix(items, prefix, i + 1);
      assert prefix <= key;
    }
  }

  lemma {:induction false} EntryKeysExtendPrefix(entries: seq<(string, Json)>, prefix: string, i: nat)
    requires i <= |entries|
    ensures forall leaf :: leaf in EntryLeaves(entries, prefix, i) ==> prefix <= leaf.0
    decreases Obj(entries), 0, |entries| - i
  {
    if i < |entries| {
      assert entries[i] in entries;
      var key := EntryKey(prefix, entries[i].0);
      LeafKeysExtendPrefix(entries[i].1, key);
      EntryKeysExtendPrefix(entries, prefix, i + 1);
      assert prefix <= key;
    }
  }

  /** A value whose every leaf is null or undefined: it emits nothing at any depth. */
  predicate NoLeaves(v: Json)
    decreases v
  {
    match v
    case Null => true
    case Undefined => true
    case Arr(items) => forall i :: 0 <= i < |items| ==> NoLeaves(items[i])
    case Obj(entries) => forall i :: 0 <= i < |entries| ==> (assert entries[i] in entries; NoLeaves(entries[i].1))
    case _ => false
  }

  lemma {:induction false} NoLeavesEmitNothing(v: Json, prefix: string)
    requires NoLeaves(v)
    ensures Leaves(v, prefix) == []
    decreases v, 1
  {
    match v {
      case Arr(items) => NoItemLeaves(items, prefix, 0);
      case Obj(entries) => NoEntryLeaves(entries, prefix, 0);
      case _ =>
    }
  }

  lemma {:induction false} NoItemLeaves(items: seq<Json>, prefix: string, i: nat)
    requires i <= |items|
    requires forall j :: 0 <= j < |items| ==> NoLeaves(items[j])
    ensures ItemLeaves(items, prefix, i) == []
    decreases Arr(items), 0, |items| - i
  {
    if i < |items| {
      NoLeavesEmitNothing(items[i], ItemKey(prefix, i));
      NoItemLeaves(items, prefix, i + 1);
    }
  }

  lemma {:induction false} NoEntryLeaves(entries: seq<(string, Json)>, prefix: string, i: nat)
    requires i <= |entries|
    requires forall j :: 0 <= j < |entries| ==> NoLeaves(entries[j].1)
    ensures EntryLeaves(entries, prefix, i) == []
    decreases Obj(entries), 0, |entries| - i
  {
    if i < |entries| {
      var (key, value) := entries[i];
      assert entries[i] in entries;
      NoLeavesEmitNothing(value, EntryKey(prefix, key));
      NoEntryLeaves(entries, prefix, i + 1);
      assert EntryLeaves(entries, prefix, i) == Leaves(value, EntryKey(prefix, key)) + EntryLeaves(entries, prefix, i + 1);
    }
  }

  /** A query whose values are all null, undefined or empty containers gives "". */
  lemma EmptyQueryString(entries: seq<(string, Json)>)
    requires forall j :: 0 <= j < |entries| ==> NoLeaves(entries[j].1)
    ensures QueryString(Some(entries)) == ""
  {
    NoEntryLeaves(entries, "", 0);
  }

  /** Below a non-empty prefix, an array and the object keyed by its indices send the same pairs. */
  lemma ArrayAsIndexedObject(items: seq<Json>, prefix: string)
    requires prefix != ""
    ensures Leaves(Arr(items), prefix) == Leaves(Obj(Spread(Arr(items))), prefix)
  {
    IndexedLeaves(items, prefix, 0);
  }

  /** From index `i` on, the items and their indexed entries send the same pairs. */
  lemma {:induction false} IndexedLeaves(items: seq<Json>, prefix: string, i: nat)
    requires prefix != "" && i <= |items|
    ensures ItemLeaves(items, prefix, i) == EntryLeaves(Spread(Arr(items)), prefix, i)
    decreases |items| - i
  {
    if i < |items| {
      var entries := Spread(Arr(items));
      assert entries[i] == (IntToString(i), items[i]);
      assert EntryKey(prefix, entries[i].0) == ItemKey(prefix, i);
      IndexedLeaves(items, prefix, i + 1);
    }
  }

  /** The query string splits back into its pairs on '&', and each pair into its encoded
      key and encoded value on '='. */
  lemma QueryStringSplits(entries: seq<(string, Json)>)
    requires EntryLeaves(entries, "", 0) != []
    ensures var leaves := EntryLeaves(entries, "", 0);
      var s := QueryString(Some(entries));
      s[0] == '?'
      && Split(s[1..], '&') == Formatted(leaves)
      && forall i :: 0 <= i < |leaves| ==>
           Split(Split(s[1..], '&')[i], '=') == [EncodeURIComponent(leaves[i].0), EncodeURIComponent(leaves[i].1)]
  {
    var leaves := EntryLeaves(entries, "", 0);
    var pairs := Formatted(leaves);
    forall i | 0 <= i < |pairs|
      ensures '&' !in pairs[i]
    {
      FormattedAt(leaves, i);
    }
    SplitJoin(pairs, '&');
    var s := QueryString(Some(entries));
    assert s[1..] == Join(pairs, '&');
    forall i | 0 <= i < |leaves|
      ensures Split(pairs[i], '=') == [EncodeURIComponent(leaves[i].0), EncodeURIComponent(leaves[i].1)]
    {
      var k, v := EncodeURIComponent(leaves[i].0), EncodeURIComponent(leaves[i].1);
      FormattedAt(leaves, i);
      assert pairs[i] == k + ['='] + v;
      SplitPrefix(k, v, '=');
      SplitFree(v, '=');
    }
  }

  // ---------------------------------------------------------------------------
  // Media URLs

  const DefaultStrapiUrl: string := "http://localhost:1337"

  /** `NEXT_PUBLIC_STRAPI_URL || 'http://localhost:1337'`. */
  function StrapiUrl(env: Option<string>): (r: string)
    ensures r != ""
    ensures env.Some? && env.value != "" ==> r == env.value
  {
    if env.Some? && env.value != "" then env.value else DefaultStrapiUrl
  }

  predicate IsAbsolute(url: string) {
    StartsWith(url, "http://") || StartsWith(url, "https://")
  }

  /** `getStrapiMediaUrl(url)`. */
  function MediaUrl(url: Option<string>, baseUrl: string): (r: Option<string>)
    ensures r.None? <==> url.None? || url.value == ""
    ensures r.Some? && IsAbsolute(url.value) ==> r.value == url.value
    ensures r.Some? && !IsAbsolute(url.value) ==> r.value == baseUrl + url.value
  {
    if url.None? || url.value == "" then None
    else if IsAbsolute(url.value) then url
    else Some(baseUrl + url.value)
  }

  /** With an absolute base URL, resolving a resolved media URL changes nothing. */
  lemma MediaUrlIdempotent(url: Option<string>, baseUrl: string)
    requires IsAbsolute(baseUrl)
    ensures MediaUrl(MediaUrl(url, baseUrl), baseUrl) == MediaUrl(url, baseUrl)
  {
    if url.Some? && url.value != "" && !IsAbsolute(url.value) {
      var r := baseUrl + url.value;
      if StartsWith(baseUrl, "http://") {
        assert r[..7] == baseUrl[..7];
      } else {
        assert r[..8] == baseUrl[..8];
      }
    }
  }

  // ---------------------------------------------------------------------------
  // Requests

  /** The environment the client reads once. */
  datatype Config = Config(strapiUrlEnv: Option<string>, token: Option<string>)

  /** `StrapiFetchOptions`; an absent `auth` means true. */
  datatype FetchOptions = FetchOptions(query: Option<seq<(string, Json)>>, locale: Option<string>, auth: Option<bool>)

  /** What is handed to `fetch`. */
  datatype Request = Request(url: string, headers: seq<(string, string)>)

  /** A path with a leading '/' is used as given; any other is put below "/api/". */
  function NormalizedPath(path: string): (r: string)
    ensures r != [] && r[0] == '/'
    ensures StartsWith(path, "/") ==> r == path
    ensures !StartsWith(path, "/") ==> r == "/api/" + path
  {
    if StartsWith(path, "/") then path else "/api/" + path
  }

  /** The query actually sent: a copy of the caller's, with `locale` set when one is given. */
  function RequestQuery(opts: FetchOptions): seq<(string, Json)> {
    var copied := if opts.query.Some? then opts.query.value else [];
    if opts.locale.Some? && opts.locale.value != "" then Put(copied, "locale", Str(opts.locale.value)) else copied
  }

  /** A given locale overrides the caller's `locale` key and touches no other key. */
  lemma RequestQueryLocale(opts: FetchOptions, k: string)
    ensures var caller := if opts.query.Some? then opts.query.value else [];
      Lookup(RequestQuery(opts), k)
      == if k == "locale" && opts.locale.Some? && opts.locale.value != "" then Some(Str(opts.locale.value))
         else Lookup(caller, k)
  {
    var caller := if opts.query.Some? then opts.query.value else [];
    if opts.locale.Some? && opts.locale.value != "" {
      PutLookup(caller, "locale", Str(opts.locale.value), k);
    }
  }

  predicate SendsToken(cfg: Config, opts: FetchOptions) {
    opts.auth.GetOr(true) && cfg.token.Some? && cfg.token.value != ""
  }

  /** The request `strapiFetch(path, options)` sends. */
  function RequestFor(cfg: Config, path: string, opts: FetchOptions): Request {
    Request(
      StrapiUrl(cfg.strapiUrlEnv) + NormalizedPath(path) + QueryString(Some(RequestQuery(opts))),
      [("Content-Type", "application/json")]
        + if SendsToken(cfg, opts) then [("Authorization", "Bearer " + cfg.token.value)] else [])
  }

  /** The request is built step by step: the query copy gets its locale, the headers
      their authorization. */
  method PrepareRequest(cfg: Config, path: string, opts: FetchOptions) returns (req: Request)
    ensures req == RequestFor(cfg, path, opts)
  {
    var auth := if opts.auth.Some? then opts.auth.value else true;
    var normalizedPath := if StartsWith(path, "/") then path else "/api/" + path;
    var requestQuery := if opts.query.Some? then opts.query.value else [];
    if opts.locale.Some? && opts.locale.value != "" {
      requestQuery := Put(requestQuery, "locale", Str(opts.locale.value));
    }
    assert requestQuery == RequestQuery(opts);
    assert normalizedPath == NormalizedPath(path);
    var queryString := BuildQueryString(Some(requestQuery));
    var url := StrapiUrl(cfg.strapiUrlEnv) + normalizedPath + queryString;
    var headers := [("Content-Type", "application/json")];
    if auth && cfg.token.Some? && cfg.token.value != "" {
      headers := headers + [("Authorization", "Bearer " + cfg.token.value)];
    }
    assert headers == RequestFor(cfg, path, opts).headers;
    req := Request(url, headers);
  }

  /** The authorization header is sent exactly when `auth` (default true) holds and a
      token is configured, and then carries the token. */
  lemma AuthorizationHeader(cfg: Config, path: string, opts: FetchOptions)
    ensures var headers := RequestFor(cfg, path, opts).headers;
      (exists v :: ("Authorization", v) in headers) <==> SendsToken(cfg, opts)
    ensures SendsToken(cfg, opts) ==> ("Authorization", "Bearer " + cfg.token.value) in RequestFor(cfg, path, opts).headers
  {
    var headers := RequestFor(cfg, path, opts).headers;
    if SendsToken(cfg, opts) {
      assert headers[1] == ("Authorization", "Bearer " + cfg.token.value);
    }
  }

  // ---------------------------------------------------------------------------
  // Replies

  /** What `fetch` yields: a rejected promise, or a reply with status, body text and
      the body parsed as JSON when it parses. */
  datatype HttpReply = NetworkFailure | Reply(status: int, text: string, json: Option<Json>)

  predicate IsOkStatus(status: int) { 200 <= status <= 299 }

  function FailureMessage(status: int, body: string): string {
    "Strapi request failed (" + IntToString(status) + "): " + body
  }

  /** `strapiFetch(path, options)` against a CMS that answers `backend(request)`. */
  function StrapiFetch(cfg: Config, backend: Request -> HttpReply, path: string, opts: FetchOptions): (r: Result<Json, JsError>)
    ensures backend(RequestFor(cfg, path, opts)).NetworkFailure? ==> r == Err(TypeError)
    ensures var reply := backend(RequestFor(cfg, path, opts));
      reply.Reply? && !IsOkStatus(reply.status) ==> r == Err(Error(FailureMessage(reply.status, reply.text)))
    ensures r.Ok? <==> var reply := backend(RequestFor(cfg, path, opts));
      reply.Reply? && IsOkStatus(reply.status) && reply.json.Some?
    ensures r.Ok? ==> r.value == backend(RequestFor(cfg, path, opts)).json.value
    ensures var reply := backend(RequestFor(cfg, path, opts));
      reply.Reply? && IsOkStatus(reply.status) && reply.json.None? ==> r == Err(SyntaxError)
  {
    match backend(RequestFor(cfg, path, opts))
    case NetworkFailure => Err(TypeError)
    case Reply(status, text, json) =>
      if !IsOkStatus(status) then Err(Error(FailureMessage(status, text)))
      else if json.None? then Err(SyntaxError)
      else Ok(json.value)
  }

  /** Every failing status, 404 included, becomes an error whose message names the status. */
  lemma FailureNamesStatus(status: int, body: string)
    ensures var m := FailureMessage(status, body);
      Includes(m, IntToString(status)) && StartsWith(m, "Strapi request failed (")
  {
    var m := FailureMessage(status, body);
    var p := "Strapi request failed (";
    assert m[|p|..|p| + |IntToString(status)|] == IntToString(status);
    IncludesAt(m, IntToString(status), |p|);
  }
}
