/**
 * `FXService`: exchange rates from a configurable HTTP provider, cached per currency
 * pair with a time-to-live. The HTTP client, `String.format`, Jackson's parser and the
 * environment are parameters; the clock is the parameters `now` (before the lookup)
 * and `later` (after the fetch, when the value is stored).
 */
module Fx {
  import opened Wrappers
  import opened JavaText
  import opened Collections
  import opened FxJson
  import opened TtlCache

  // ------------------------------------------------------ the error preview

  predicate NotRegexSpace(c: char)
  {
    !IsRegexSpace(c)
  }

  /** `s.replaceAll("\\s+", " ")`: every run of `\s` characters becomes one space. */
  function CollapseSpaces(s: string): (r: string)
    ensures |r| <= |s|
    ensures r == [] <==> s == []
    ensures s != [] ==> r[|r| - 1] == if IsRegexSpace(s[|s| - 1]) then ' ' else s[|s| - 1]
  {
    if s == [] then []
    else
      var n := |s|;
      var p := CollapseSpaces(s[..n - 1]);
      if !IsRegexSpace(s[n - 1]) then p + [s[n - 1]]
      else if n >= 2 && IsRegexSpace(s[n - 2]) then p
      else p + " "
  }

  /** The only `\s` character left is the plain space, and no two are adjacent. */
  predicate SpacesCollapsed(s: string)
  {
    forall i :: 0 <= i < |s| && IsRegexSpace(s[i]) ==> s[i] == ' ' && (i + 1 == |s| || !IsRegexSpace(s[i + 1]))
  }

  lemma {:induction false} CollapseSpacesShape(s: string)
    ensures SpacesCollapsed(CollapseSpaces(s))
  {
    if s != [] {
      var n := |s|;
      var q := s[..n - 1];
      var p := CollapseSpaces(q);
      CollapseSpacesShape(q);
      var r := CollapseSpaces(s);
      if !IsRegexSpace(s[n - 1]) {
        assert r == p + [s[n - 1]];
      } else if n >= 2 && IsRegexSpace(s[n - 2]) {
        assert r == p;
      } else {
        assert r == p + " ";
        if p != [] {
          assert q[|q| - 1] == s[n - 2];
          assert !IsRegexSpace(p[|p| - 1]);
        }
        forall i | 0 <= i < |r| && IsRegexSpace(r[i])
          ensures r[i] == ' ' && (i + 1 == |r| || !IsRegexSpace(r[i + 1]))
        {
          if i < |p| {
            assert r[i] == p[i];
          }
        }
      }
    }
  }

  /** Everything but the whitespace is kept, in order. */
  lemma {:induction false} CollapseSpacesKeepsText(s: string)
    ensures Filter(CollapseSpaces(s), NotRegexSpace) == Filter(s, NotRegexSpace)
  {
    if s != [] {
      var n := |s|;
      var q := s[..n - 1];
      var p := CollapseSpaces(q);
      CollapseSpacesKeepsText(q);
      assert s == q + [s[n - 1]];
      FilterAppend(q, [s[n - 1]], NotRegexSpace);
      if !IsRegexSpace(s[n - 1]) {
        FilterAppend(p, [s[n - 1]], NotRegexSpace);
      } else if n >= 2 && IsRegexSpace(s[n - 2]) {
      } else {
        FilterAppend(p, " ", NotRegexSpace);
      }
    }
  }

  /** A text already collapsed is left as it is, so collapsing is idempotent. */
  lemma {:induction false} CollapseSpacesFixed(s: string)
    requires SpacesCollapsed(s)
    ensures CollapseSpaces(s) == s
  {
    if s != [] {
      var n := |s|;
      var q := s[..n - 1];
      assert SpacesCollapsed(q) by {
        forall i | 0 <= i < |q| && IsRegexSpace(q[i])
          ensures q[i] == ' ' && (i + 1 == |q| || !IsRegexSpace(q[i + 1]))
        {
          assert q[i] == s[i];
          if i + 1 < |q| {
            assert q[i + 1] == s[i + 1];
          }
        }
      }
      CollapseSpacesFixed(q);
      assert s == q + [s[n - 1]];
    }
  }

  lemma CollapseSpacesIdempotent(s: string)
    ensures CollapseSpaces(CollapseSpaces(s)) == CollapseSpaces(s)
  {
    CollapseSpacesShape(s);
    CollapseSpacesFixed(CollapseSpaces(s));
  }

  const PreviewLimit := 240

  /** The preview `fetchRate` puts in its parse error: the collapsed body, cut to 240
      characters plus "..." when longer. */
  function Preview(body: string): (r: string)
    ensures |r| <= PreviewLimit + 3
    ensures |CollapseSpaces(body)| <= PreviewLimit ==> r == CollapseSpaces(body)
    ensures |CollapseSpaces(body)| > PreviewLimit ==>
              r == CollapseSpaces(body)[..PreviewLimit] + "..." && |r| == PreviewLimit + 3
  {
    var p := CollapseSpaces(body);
    if |p| > PreviewLimit then p[..PreviewLimit] + "..." else p
  }

  // ------------------------------------------------------- the request URL

  /** The URL `formatUrl` builds when the template has no `%s` (or formatting throws). */
  function FallbackUrl(apiUrl: string, from: string, to: string): string
  {
    apiUrl + (if Contains(apiUrl, "?") then "&" else "?") + "from=" + from + "&to=" + to + "&amount=1"
  }

  /** `formatUrl(from, to)`. `format` is `String.format(Locale.ROOT, template, from,
      to)`, `None` where it throws. */
  function FormatUrl(apiUrl: string, from: string, to: string,
                     format: (string, string, string) -> Option<string>): (r: string)
    ensures !Contains(apiUrl, "%s") ==> r == FallbackUrl(apiUrl, from, to)
    ensures Contains(apiUrl, "%s") && format(apiUrl, from, to).Some? ==> r == format(apiUrl, from, to).value
    ensures Contains(apiUrl, "%s") && format(apiUrl, from, to).None? ==> r == FallbackUrl(apiUrl, from, to)
  {
    if Contains(apiUrl, "%s") && format(apiUrl, from, to).Some? then format(apiUrl, from, to).value
    else FallbackUrl(apiUrl, from, to)
  }

  /** The fallback URL extends the configured one by one separator, `&` exactly when it
      already has a query, and then the three parameters; so it always has a query. */
  lemma FallbackUrlShape(apiUrl: string, from: string, to: string)
    ensures var r := FallbackUrl(apiUrl, from, to);
      |r| > |apiUrl| && r[..|apiUrl|] == apiUrl
      && (r[|apiUrl|] == '&' <==> Contains(apiUrl, "?"))
      && r[|apiUrl| + 1..] == "from=" + from + "&to=" + to + "&amount=1"
      && Contains(r, "?")
  {
    var r := FallbackUrl(apiUrl, from, to);
    var sep := if Contains(apiUrl, "?") then "&" else "?";
    var tail := "from=" + from + "&to=" + to + "&amount=1";
    assert r == apiUrl + sep + tail;
    assert (apiUrl + sep + tail)[|apiUrl| + 1..] == tail;
    if Contains(apiUrl, "?") {
      var j := IndexOf(apiUrl, "?").value;
      assert r[j..j + 1] == apiUrl[j..j + 1];
      assert OccursAt(r, "?", j);
    } else {
      assert OccursAt(r, "?", |apiUrl|);
    }
    ContainsIff(r, "?");
  }

  // ------------------------------------------------------- configuration

  const DefaultApiUrl := "https://api.frankfurter.app/latest?from=%s&to=%s"

  /** The settings the constructor fixes, and the library functions the service uses. */
  datatype FxConfig = FxConfig(
    apiUrl: string,
    apiKey: NullableString,
    ttlMillis: int,
    readTree: string -> Option<Json>,
    format: (string, string, string) -> Option<string>)

  /** `FXService(apiUrl, apiKey, ttlMinutes)`: a null or blank URL becomes the Frankfurter
      template, a null or blank key becomes null, and the minutes become milliseconds. */
  function Configure(apiUrl: NullableString, apiKey: NullableString, ttlMinutes: int,
                     readTree: string -> Option<Json>,
                     format: (string, string, string) -> Option<string>): (r: FxConfig)
    ensures r.readTree == readTree && r.format == format
  {
    FxConfig(
      if apiUrl.None? || IsBlank(apiUrl.value) then DefaultApiUrl else apiUrl.value,
      if apiKey.None? || IsBlank(apiKey.value) then None else apiKey,
      ttlMinutes * 60000,
      readTree,
      format)
  }

  /** What the constructor guarantees: a usable URL, no blank key, and a TTL of
      `ttlMinutes` minutes. */
  lemma ConfigureDefaults(apiUrl: NullableString, apiKey: NullableString, ttlMinutes: int,
                          readTree: string -> Option<Json>,
                          format: (string, string, string) -> Option<string>)
    ensures var c := Configure(apiUrl, apiKey, ttlMinutes, readTree, format);
      !IsBlank(c.apiUrl)
      && (apiUrl.Some? && !IsBlank(apiUrl.value) ==> c.apiUrl == apiUrl.value)
      && (apiUrl.None? || IsBlank(apiUrl.value) ==> c.apiUrl == DefaultApiUrl)
      && (c.apiKey.Some? <==> apiKey.Some? && !IsBlank(apiKey.value))
      && (c.apiKey.Some? ==> c.apiKey == apiKey)
      && c.ttlMillis == 60 * 1000 * ttlMinutes
  {
    DefaultApiUrlNotBlank();
  }

  lemma DefaultApiUrlNotBlank()
    ensures !IsBlank(DefaultApiUrl)
  {
    assert DefaultApiUrl == "https://api.frankfurter.app" + "/latest?from=%s&to=%s";
    assert DefaultApiUrl[0] == 'h';
  }

  /** `readTtlMinutesEnv(def)` with `raw` the value of `FX_TTL_MINUTES` and `parseInt`
      `Integer.parseInt`, `None` where it throws. */
  function ReadTtlMinutesEnv(def: int, raw: NullableString, parseInt: string -> Option<int>): (r: int)
    ensures r == def || r >= 1
    ensures raw.None? || IsBlank(raw.value) ==> r == def
    ensures raw.Some? && !IsBlank(raw.value) && parseInt(Trim(raw.value)).None? ==> r == def
    ensures raw.Some? && !IsBlank(raw.value) && parseInt(Trim(raw.value)).Some? ==>
              r == if parseInt(Trim(raw.value)).value < 1 then 1 else parseInt(Trim(raw.value)).value
  {
    if raw.None? || IsBlank(raw.value) then def
    else match parseInt(Trim(raw.value))
      case None => def
      case Some(n) => if n < 1 then 1 else n
  }

  // ------------------------------------------------------- fetching

  /** The request `fetchRate` sends: the URL and its headers. */
  datatype HttpRequest = HttpRequest(url: string, headers: seq<(string, string)>)

  /** What the HTTP call gives back: a response, or an `IOException` with its message. */
  datatype HttpOutcome =
    | Response(code: int, body: Option<string>)
    | IoFailure(message: NullableString)

  /** The `RuntimeException`s `fetchRate` throws. */
  datatype FxError =
    | HttpError(code: int)
    | ParseError(preview: string)
    | RequestFailed(message: NullableString)

  /** The request for a pair: a fixed user agent, and the key header only when a key is
      configured. */
  function RateRequest(c: FxConfig, from: string, to: string): (r: HttpRequest)
    ensures r.url == FormatUrl(c.apiUrl, from, to, c.format)
    ensures |r.headers| == if c.apiKey.Some? then 2 else 1
    ensures r.headers[0] == ("User-Agent", "HiveFi/1.0 (CLI)")
    ensures c.apiKey.Some? ==> r.headers[1] == ("apikey", c.apiKey.value)
  {
    HttpRequest(FormatUrl(c.apiUrl, from, to, c.format),
                [("User-Agent", "HiveFi/1.0 (CLI)")] + (if c.apiKey.Some? then [("apikey", c.apiKey.value)] else []))
  }

  /** `fetchRate(from, to)`: a status outside 200-299 or a missing body is an HTTP error;
      a body with no recognised rate is a parse error carrying the preview. */
  function FetchRate(c: FxConfig, from: string, to: string, transport: HttpRequest -> HttpOutcome): (r: Result<real, FxError>)
    ensures r.Ok? <==> transport(RateRequest(c, from, to)).Response?
                       && 200 <= transport(RateRequest(c, from, to)).code < 300
                       && transport(RateRequest(c, from, to)).body.Some?
                       && ParseRateJson(c.readTree, transport(RateRequest(c, from, to)).body.value, to).Some?
    ensures r.Ok? ==> r.value == ParseRateJson(c.readTree, transport(RateRequest(c, from, to)).body.value, to).value
    ensures var o := transport(RateRequest(c, from, to));
      o.IoFailure? ==> r == Err(RequestFailed(o.message))
    ensures var o := transport(RateRequest(c, from, to));
      o.Response? && (!(200 <= o.code < 300) || o.body.None?) ==> r == Err(HttpError(o.code))
    ensures var o := transport(RateRequest(c, from, to));
      (o.Response? && 200 <= o.code < 300 && o.body.Some?
       && ParseRateJson(c.readTree, o.body.value, to).None?) ==> r == Err(ParseError(Preview(o.body.value)))
  {
    match transport(RateRequest(c, from, to))
    case IoFailure(message) => Err(RequestFailed(message))
    case Response(code, body) =>
      if !(200 <= code < 300) || body.None? then Err(HttpError(code))
      else
        match ParseRateJson(c.readTree, body.value, to)
        case None => Err(ParseError(Preview(body.value)))
        case Some(rate) => Ok(rate)
  }

  // ------------------------------------------------------- rate lookup

  /** The cache key of a pair of upper-cased codes. */
  function CacheKey(from: string, to: string): string
  {
    from + "->" + to
  }

  /** For codes of one length (ISO codes have three letters) the key determines the
      pair. */
  lemma CacheKeyInjective(f1: string, t1: string, f2: string, t2: string)
    requires |f1| == |f2| && CacheKey(f1, t1) == CacheKey(f2, t2)
    ensures f1 == f2 && t1 == t2
  {
    var k := CacheKey(f1, t1);
    assert k[..|f1|] == f1;
    assert CacheKey(f2, t2)[..|f2|] == f2;
    assert k[|f1| + 2..] == t1;
    assert CacheKey(f2, t2)[|f2| + 2..] == t2;
  }

  /** `getRate(from, to)` on the cache entries `entries`: the answer and the entries
      afterwards. */
  function RateLookup(c: FxConfig, entries: map<string, Entry<real>>, from: string, to: string,
                      now: int, later: int, transport: HttpRequest -> HttpOutcome)
    : (Result<real, FxError>, map<string, Entry<real>>)
  {
    var f := ToUpper(from);
    var t := ToUpper(to);
    if f == t then (Ok(1.0), entries)
    else
      var key := CacheKey(f, t);
      var cached := Fresh(entries, key, now);
      if cached.Some? then (Ok(cached.value), entries)
      else
        var evicted := AfterLookup(entries, key, now);
        match FetchRate(c, f, t, transport)
        case Err(e) => (Err(e), evicted)
        case Ok(rate) => (Ok(rate), evicted[key := Entry(rate, later + c.ttlMillis)])
  }

  /** Codes equal but for case give 1.0, and neither the cache nor the provider is
      consulted. */
  lemma RateLookupIdentity(c: FxConfig, entries: map<string, Entry<real>>, from: string, to: string,
                           now: int, later: int, transport: HttpRequest -> HttpOutcome)
    requires EqualsIgnoreCase(from, to)
    ensures RateLookup(c, entries, from, to, now, later, transport) == (Ok(1.0), entries)
  {
  }

  /** A fresh entry under the pair's key is the answer, whatever the provider would
      say, and the cache is left as it is. */
  lemma RateLookupHit(c: FxConfig, entries: map<string, Entry<real>>, from: string, to: string,
                      now: int, later: int, transport: HttpRequest -> HttpOutcome, v: real)
    requires ToUpper(from) != ToUpper(to)
    requires Fresh(entries, CacheKey(ToUpper(from), ToUpper(to)), now) == Some(v)
    ensures RateLookup(c, entries, from, to, now, later, transport) == (Ok(v), entries)
  {
  }

  /** On a miss the provider is asked with the upper-cased codes; a rate it gives is
      stored under the key for `ttlMillis` from `later` and returned, and a failure
      stores nothing. Either way a stale entry under the key is dropped, and every other
      key keeps its entry. */
  lemma RateLookupMiss(c: FxConfig, entries: map<string, Entry<real>>, from: string, to: string,
                       now: int, later: int, transport: HttpRequest -> HttpOutcome)
    requires ToUpper(from) != ToUpper(to)
    requires Fresh(entries, CacheKey(ToUpper(from), ToUpper(to)), now).None?
    ensures var key := CacheKey(ToUpper(from), ToUpper(to));
      var (r, after) := RateLookup(c, entries, from, to, now, later, transport);
      r == FetchRate(c, ToUpper(from), ToUpper(to), transport)
      && (r.Ok? ==> key in after && after[key] == Entry(r.value, later + c.ttlMillis))
      && (r.Err? ==> key !in after)
      && (forall k :: k != key ==> (k in after <==> k in entries))
      && (forall k :: k != key && k in entries ==> after[k] == entries[k])
  {
  }

  /** Once a rate has been fetched, asking again for the same pair before it expires
      gives the same rate without the provider (which may be gone) and changes
      nothing. */
  lemma {:induction false} RateLookupRepeats(c: FxConfig, entries: map<string, Entry<real>>, from: string, to: string,
                                             now: int, later: int, transport: HttpRequest -> HttpOutcome,
                                             now2: int, later2: int, transport2: HttpRequest -> HttpOutcome)
    requires RateLookup(c, entries, from, to, now, later, transport).0.Ok?
    requires Fresh(entries, CacheKey(ToUpper(from), ToUpper(to)), now).None?
    requires now2 <= later + c.ttlMillis
    ensures var (r, after) := RateLookup(c, entries, from, to, now, later, transport);
      RateLookup(c, after, from, to, now2, later2, transport2) == (r, after)
  {
    var (r, after) := RateLookup(c, entries, from, to, now, later, transport);
    if ToUpper(from) != ToUpper(to) {
      var key := CacheKey(ToUpper(from), ToUpper(to));
      assert after[key] == Entry(r.value, later + c.ttlMillis);
      assert Fresh(after, key, now2) == Some(r.value);
    }
  }

  // ------------------------------------------------------- the service

  class FXService {
    const cache: CacheManager<string, real>
    const config: FxConfig

    /** `FXService(apiUrl, apiKey, ttlMinutes)`, with the parser and `String.format`. */
    constructor(apiUrl: NullableString, apiKey: NullableString, ttlMinutes: int,
                readTree: string -> Option<Json>, format: (string, string, string) -> Option<string>)
      ensures config == Configure(apiUrl, apiKey, ttlMinutes, readTree, format)
      ensures fresh(cache) && cache.entries == map[]
    {
      config := Configure(apiUrl, apiKey, ttlMinutes, readTree, format);
      cache := new CacheManager();
    }

    /** `FXService()`: the URL and key from `FX_API_URL` and `FX_API_KEY`, the TTL from
        `FX_TTL_MINUTES` with 30 minutes by default. */
    constructor FromEnvironment(getenv: string -> NullableString, parseInt: string -> Option<int>,
                                readTree: string -> Option<Json>, format: (string, string, string) -> Option<string>)
      ensures config == Configure(getenv("FX_API_URL"), getenv("FX_API_KEY"),
                                  ReadTtlMinutesEnv(30, getenv("FX_TTL_MINUTES"), parseInt), readTree, format)
      ensures fresh(cache) && cache.entries == map[]
    {
      config := Configure(getenv("FX_API_URL"), getenv("FX_API_KEY"),
                          ReadTtlMinutesEnv(30, getenv("FX_TTL_MINUTES"), parseInt), readTree, format);
      cache := new CacheManager();
    }

    /** `getRate(from, to)`; an error is the exception `fetchRate` throws. */
    method GetRate(from: string, to: string, now: int, later: int, transport: HttpRequest -> HttpOutcome)
      returns (r: Result<real, FxError>)
      modifies cache
      ensures (r, cache.entries) == RateLookup(config, old(cache.entries), from, to, now, later, transport)
    {
      var f := ToUpper(from);
      var t := ToUpper(to);
      if f == t {
        return Ok(1.0);
      }
      var key := CacheKey(f, t);
      var cached := cache.GetIfFresh(key, now);
      if cached.Some? {
        return Ok(cached.value);
      }
      r := FetchRate(config, f, t, transport);
      if r.Ok? {
        cache.Put(key, r.value, config.ttlMillis, later);
      }
    }
  }

  /** The provider answers every request with the Frankfurter body. */
  function Serving(body: string): HttpRequest -> HttpOutcome
  {
    (q: HttpRequest) => Response(200, Some(body))
  }

  /** The provider is unreachable. */
  function Unreachable(): HttpRequest -> HttpOutcome
  {
    (q: HttpRequest) => IoFailure(Some("Connection refused"))
  }

  /** EUR to USD against a provider serving the Frankfurter answer gives 1.10; asked
      again within the hour after the provider has gone, the cache gives 1.10 again. */
  lemma {:induction false} FrankfurterThenCached(url: string, readTree: string -> Option<Json>,
                                                 format: (string, string, string) -> Option<string>,
                                                 now: int, later: int, now2: int, later2: int)
    requires readTree(FrankfurterBody) == Some(FrankfurterTree)
    requires now2 <= later + 60 * 60000
    ensures var c := Configure(Some(url), None, 60, readTree, format);
      var (r1, after) := RateLookup(c, map[], "EUR", "USD", now, later, Serving(FrankfurterBody));
      r1 == Ok(1.10)
      && RateLookup(c, after, "EUR", "USD", now2, later2, Unreachable()) == (Ok(1.10), after)
  {
    var c := Configure(Some(url), None, 60, readTree, format);
    assert ToUpper("EUR") == "EUR" && ToUpper("USD") == "USD";
    ParsesFrankfurter(readTree);
    assert FetchRate(c, "EUR", "USD", Serving(FrankfurterBody)) == Ok(1.10);
    RateLookupRepeats(c, map[], "EUR", "USD", now, later, Serving(FrankfurterBody), now2, later2, Unreachable());
  }
}
