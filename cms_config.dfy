/**
 * The CMS server's configuration lists (cms/config/middlewares.ts and
 * cms/config/server.ts): a comma-separated environment variable becomes a list of
 * trimmed, non-empty items, in order.  Each environment variable is a parameter: its
 * text when set, absent otherwise.
 */
module CmsConfig {
  import opened Wrappers
  import opened JsText
  import Listing

  // ---------------------------------------------------------------------------
  // value.split(',').map((item) => item.trim()).filter(Boolean)

  function TrimmedPieces(value: string): (r: seq<string>)
    ensures |r| == |Split(value, ',')|
    ensures forall i :: 0 <= i < |r| ==> r[i] == Trim(Split(value, ',')[i])
  {
    var parts := Split(value, ',');
    seq(|parts|, i requires 0 <= i < |parts| => Trim(parts[i]))
  }

  /** `filter(Boolean)` on strings: the non-empty ones. */
  predicate NonEmpty(item: string) {
    item != ""
  }

  function CommaList(value: string): seq<string> {
    Listing.Filter(TrimmedPieces(value), item => NonEmpty(item))
  }

  /** An item of the list is a non-empty trimmed piece of the value. */
  lemma CommaListMembers(value: string, item: string)
    ensures item in CommaList(value) <==> item != "" && item in TrimmedPieces(value)
  {
    Listing.FilterMembers(TrimmedPieces(value), item => NonEmpty(item), item);
  }

  /** The items keep the order of the pieces they come from. */
  lemma CommaListInOrder(value: string)
    ensures Listing.IsSubsequence(CommaList(value), TrimmedPieces(value))
  {
    Listing.FilterSubsequence(TrimmedPieces(value), item => NonEmpty(item));
  }

  /** Every item is non-empty, free of commas, and neither starts nor ends with white
      space. */
  lemma CommaListShape(value: string)
    ensures forall item :: item in CommaList(value) ==>
      item != "" && ',' !in item && !IsSpace(item[0]) && !IsSpace(item[|item| - 1])
  {
    SplitPiecesFree(value, ',');
    forall item | item in CommaList(value)
      ensures item != "" && ',' !in item && !IsSpace(item[0]) && !IsSpace(item[|item| - 1])
    {
      CommaListMembers(value, item);
      var i :| 0 <= i < |TrimmedPieces(value)| && TrimmedPieces(value)[i] == item;
      if ',' in item {
        TrimWithin(Split(value, ',')[i], ',');
      }
    }
  }

  /** The list is empty exactly when the value holds nothing but white space and
      commas. */
  lemma CommaListBlank(value: string)
    ensures CommaList(value) == [] <==> forall k :: 0 <= k < |value| ==> IsSpace(value[k]) || value[k] == ','
  {
    var parts := Split(value, ',');
    var pieces := TrimmedPieces(value);
    JoinSplit(value, ',');
    if forall k :: 0 <= k < |value| ==> IsSpace(value[k]) || value[k] == ',' {
      SplitPiecesFree(value, ',');
      forall i | 0 <= i < |parts|
        ensures pieces[i] == ""
      {
        forall j | 0 <= j < |parts[i]|
          ensures IsSpace(parts[i][j])
        {
          JoinContains(parts, ',', i, parts[i][j]);
        }
        TrimAllSpace(parts[i]);
      }
      if CommaList(value) != [] {
        CommaListMembers(value, CommaList(value)[0]);
      }
    }
    if CommaList(value) == [] {
      forall i | 0 <= i < |parts|
        ensures forall j :: 0 <= j < |parts[i]| ==> IsSpace(parts[i][j])
      {
        CommaListMembers(value, pieces[i]);
        TrimEmptyIsSpace(parts[i]);
      }
      forall k | 0 <= k < |value|
        ensures IsSpace(value[k]) || value[k] == ','
      {
        JoinChars(parts, ',', value[k]);
      }
    }
  }

  /** Joining non-empty, trimmed, comma-free items with commas and parsing the result
      gives the items back. */
  lemma CommaListJoin(items: seq<string>)
    requires items != []
    requires forall i :: 0 <= i < |items| ==>
      items[i] != "" && ',' !in items[i] && !IsSpace(items[i][0]) && !IsSpace(items[i][|items[i]| - 1])
    ensures CommaList(Join(items, ',')) == items
  {
    SplitJoin(items, ',');
    forall i | 0 <= i < |items|
      ensures Trim(items[i]) == items[i]
    {
      TrimFixed(items[i]);
    }
    assert TrimmedPieces(Join(items, ',')) == items;
    Listing.FilterAll(items, item => NonEmpty(item));
  }

  // ---------------------------------------------------------------------------
  // cms/config/middlewares.ts

  const DefaultOrigin := "http://localhost:3000"

  /** The CORS origins: the list from CORS_ORIGINS, or the local front end when it is
      empty. */
  function CorsOrigins(corsOriginsEnv: Option<string>): (r: seq<string>)
    ensures r != []
  {
    var origins := CommaList(corsOriginsEnv.GetOr(""));
    if |origins| > 0 then origins else [DefaultOrigin]
  }

  /** The origins are the default exactly for an absent or blank value (one holding only
      white space and commas), and the parsed list otherwise. */
  lemma CorsOriginsDefault(corsOriginsEnv: Option<string>)
    ensures var value := corsOriginsEnv.GetOr("");
      && ((forall k :: 0 <= k < |value| ==> IsSpace(value[k]) || value[k] == ',') ==> CorsOrigins(corsOriginsEnv) == [DefaultOrigin])
      && (!(forall k :: 0 <= k < |value| ==> IsSpace(value[k]) || value[k] == ',') ==> CorsOrigins(corsOriginsEnv) == CommaList(value))
  {
    CommaListBlank(corsOriginsEnv.GetOr(""));
  }

  datatype CorsSettings = CorsSettings(origin: seq<string>, headers: seq<string>, methods: seq<string>, credentials: bool)

  /** A middleware by name, or the CORS middleware with its settings. */
  datatype Middleware = Builtin(name: string) | Cors(settings: CorsSettings)

  /** The middleware stack, in order. */
  function Middlewares(corsOriginsEnv: Option<string>): (r: seq<Middleware>)
    ensures |r| == 10
    ensures forall i :: 0 <= i < |r| ==> (r[i].Cors? <==> i == 3)
    ensures r[3].settings.origin == CorsOrigins(corsOriginsEnv)
    ensures r[3].settings.methods == ["GET", "HEAD", "OPTIONS"] && !r[3].settings.credentials
  {
    [Builtin("strapi::logger"), Builtin("strapi::errors"), Builtin("strapi::security"),
     Cors(CorsSettings(CorsOrigins(corsOriginsEnv), ["Content-Type", "Authorization", "Origin", "Accept"], ["GET", "HEAD", "OPTIONS"], false)),
     Builtin("strapi::poweredBy"), Builtin("strapi::query"), Builtin("strapi::body"), Builtin("strapi::session"),
     Builtin("strapi::favicon"), Builtin("strapi::public")]
  }

  // ---------------------------------------------------------------------------
  // cms/config/server.ts

  datatype ServerSettings = ServerSettings(host: string, port: int, keys: seq<string>)

  /** The server settings: HOST and PORT with their defaults, and the APP_KEYS list. */
  function ServerConfig(hostEnv: Option<string>, portEnv: Option<int>, appKeysEnv: Option<string>): (r: ServerSettings)
    ensures hostEnv.None? ==> r.host == "0.0.0.0"
    ensures portEnv.None? ==> r.port == 1337
    ensures appKeysEnv.None? || appKeysEnv == Some("") ==> r.keys == []
    ensures hostEnv.Some? ==> r.host == hostEnv.value
    ensures portEnv.Some? ==> r.port == portEnv.value
    ensures appKeysEnv.Some? ==> r.keys == CommaList(appKeysEnv.value)
  {
    ServerSettings(hostEnv.GetOr("0.0.0.0"), portEnv.GetOr(1337), CommaList(appKeysEnv.GetOr("")))
  }

  /** The keys are the parsed APP_KEYS: none empty, in order, and exactly the given keys
      when they were written as a comma-separated list. */
  lemma AppKeys(hostEnv: Option<string>, portEnv: Option<int>, appKeys: seq<string>)
    requires appKeys != []
    requires forall i :: 0 <= i < |appKeys| ==>
      appKeys[i] != "" && ',' !in appKeys[i] && !IsSpace(appKeys[i][0]) && !IsSpace(appKeys[i][|appKeys[i]| - 1])
    ensures ServerConfig(hostEnv, portEnv, Some(Join(appKeys, ','))).keys == appKeys
  {
    CommaListJoin(appKeys);
  }
}
