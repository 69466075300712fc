/**
 * `ApiRateService`: the latest USD-based quotes, cached for twelve hours under one
 * fixed key. With live rates switched off (as shipped) the quotes come from a built-in
 * table; switched on they are scraped from the primary provider's JSON by scanning for
 * each currency's key. `Rate` is `Rate(base, fetchedAtMillis, quotes)`.
 */
module ApiRates {
  import opened Wrappers
  import opened JavaText
  import opened SimpleCache

  /** A `Rate`. A quote that `put` stored as null reads as absent. */
  datatype Rate = Rate(base: NullableString, fetchedAtMillis: int, quotes: map<string, real>)

  /** What one call sees of the world: the clock, the primary provider's body (`None`
      where the HTTP call throws), and `Double.parseDouble` (`None` where it throws). */
  datatype RateEnv = RateEnv(now: int, body: Option<string>, parseDouble: string -> Option<real>)

  const TtlMs: int := 12 * 60 * 60 * 1000
  const CacheKeyRate: string := "rates:USD"

  /** `isStale(fetchedAt)`: strictly older than the TTL. */
  predicate IsStale(now: int, fetchedAt: int)
    ensures IsStale(now, fetchedAt) <==> now > fetchedAt + 43200000
  {
    now - fetchedAt > TtlMs
  }

  lemma IsStaleBoundary(fetchedAt: int)
    ensures !IsStale(fetchedAt + 43200000, fetchedAt)
    ensures IsStale(fetchedAt + 43200001, fetchedAt)
  {
  }

  const StubQuotes: map<string, real> :=
    map["USD" := 1.0, "EUR" := 0.920, "GBP" := 0.790, "JPY" := 146.0, "CAD" := 1.360, "AUD" := 1.520]

  /** `stub(base)`: the fixed table, tagged with the requested base and the time. */
  function Stub(base: NullableString, now: int): (r: Rate)
    ensures r.base == base && r.fetchedAtMillis == now && r.quotes == StubQuotes
  {
    Rate(base, now, StubQuotes)
  }

  // ------------------------------------------------------ scraping a quote

  /** The characters `extractRate` takes as part of a number. */
  predicate IsNumberChar(c: char)
  {
    ('0' <= c <= '9') || c == '.' || c == 'e' || c == 'E' || c == '-'
  }

  /** The end of the run of characters satisfying `p` that starts at `i`. */
  function SpanEnd(s: string, i: nat, p: char -> bool): (r: nat)
    requires i <= |s|
    ensures i <= r <= |s|
    ensures forall k :: i <= k < r ==> p(s[k])
    ensures r == |s| || !p(s[r])
    decreases |s| - i
  {
    if i == |s| || !p(s[i]) then i else SpanEnd(s, i + 1, p)
  }

  /** What `extractRate(json, token)` returns: nothing without the token; otherwise the
      parse of the longest run of number characters after the token and any
      whitespace. */
  function ExtractRateSpec(json: string, token: string, parseDouble: string -> Option<real>): Option<real>
  {
    match IndexOf(json, token)
    case None => None
    case Some(k) =>
      var i := SpanEnd(json, k + |token|, IsJavaWhitespace);
      var j := SpanEnd(json, i, IsNumberChar);
      parseDouble(json[i..j])
  }

  /** The text handed to the number parser sits right after the token's first
      occurrence and the whitespace following it, and is the longest run of number
      characters there. */
  lemma ExtractRateReads(json: string, token: string, parseDouble: string -> Option<real>, k: nat, i: nat, j: nat)
    requires OccursAt(json, token, k) && forall m :: 0 <= m < k ==> !OccursAt(json, token, m)
    requires k + |token| <= i <= j <= |json|
    requires forall m :: k + |token| <= m < i ==> IsJavaWhitespace(json[m])
    requires i == |json| || !IsJavaWhitespace(json[i])
    requires forall m :: i <= m < j ==> IsNumberChar(json[m])
    requires j == |json| || !IsNumberChar(json[j])
    ensures ExtractRateSpec(json, token, parseDouble) == parseDouble(json[i..j])
  {
    SpanEndUnique(json, k + |token|, i, IsJavaWhitespace);
    SpanEndUnique(json, i, j, IsNumberChar);
  }

  /** A run's end is determined by the run and the character after it. */
  lemma {:induction false} SpanEndUnique(s: string, i: nat, e: nat, p: char -> bool)
    requires i <= e <= |s|
    requires forall m :: i <= m < e ==> p(s[m])
    requires e == |s| || !p(s[e])
    ensures SpanEnd(s, i, p) == e
    decreases e - i
  {
    if i < e {
      SpanEndUnique(s, i + 1, e, p);
    }
  }

  /** `extractRate(json, token)`: the two index-advancing loops. */
  method ExtractRate(json: string, token: string, parseDouble: string -> Option<real>) returns (r: Option<real>)
    ensures r == ExtractRateSpec(json, token, parseDouble)
  {
    var found := IndexOf(json, token);
    if found.None? {
      return None;
    }
    var i := found.value + |token|;
    ghost var start := i;
    while i < |json| && IsJavaWhitespace(json[i])
      invariant start <= i <= |json|
      invariant SpanEnd(json, i, IsJavaWhitespace) == SpanEnd(json, start, IsJavaWhitespace)
      decreases |json| - i
    {
      i := i + 1;
    }
    var j := i;
    while j < |json| && IsNumberChar(json[j])
      invariant i <= j <= |json|
      invariant SpanEnd(json, j, IsNumberChar) == SpanEnd(json, i, IsNumberChar)
      decreases |json| - j
    {
      j := j + 1;
    }
    r := parseDouble(json[i..j]);
  }

  // ------------------------------------------------------ the live provider

  /** The key `extractRate` looks for: the code in quotes, then a colon. */
  function Token(code: string): string
  {
    "\"" + code + "\":"
  }

  /** The codes scraped after USD, in the order they are put. */
  const ScrapedCodes: seq<string> := ["EUR", "GBP", "JPY", "CAD", "AUD"]

  /** The map the six `quotes.put` calls leave: USD is 1.0, and each scraped code has
      its extracted quote, or no entry where `extractRate` gives null (a null value reads
      back as absent). The keys are distinct, so the order of the puts does not
      matter. */
  function ScrapedQuotes(body: string, parseDouble: string -> Option<real>): (r: map<string, real>)
    ensures "USD" in r && r["USD"] == 1.0
    ensures forall c :: c in ScrapedCodes ==> (c in r <==> ExtractRateSpec(body, Token(c), parseDouble).Some?)
    ensures forall c :: c in ScrapedCodes && c in r ==> r[c] == ExtractRateSpec(body, Token(c), parseDouble).value
    ensures forall c :: c in r ==> c == "USD" || c in ScrapedCodes
  {
    assert "USD" !in ScrapedCodes;
    map c | c in ["USD"] + ScrapedCodes && (c == "USD" || ExtractRateSpec(body, Token(c), parseDouble).Some?)
      :: if c == "USD" then 1.0 else ExtractRateSpec(body, Token(c), parseDouble).value
  }

  /** The EUR entry is the extracted EUR quote. */
  lemma ScrapedEur(body: string, parseDouble: string -> Option<real>)
    ensures var q := ScrapedQuotes(body, parseDouble);
      var eur := ExtractRateSpec(body, Token("EUR"), parseDouble);
      ("EUR" in q <==> eur.Some?) && ("EUR" in q ==> q["EUR"] == eur.value)
  {
    assert ScrapedCodes[0] == "EUR";
  }

  /** `fetchFromPrimary(base)`: null where the request fails or the EUR quote is missing
      or zero. */
  function FetchFromPrimary(base: NullableString, env: RateEnv): (r: Option<Rate>)
    ensures r.None? <==> env.body.None?
                         || ExtractRateSpec(env.body.value, Token("EUR"), env.parseDouble).None?
                         || ExtractRateSpec(env.body.value, Token("EUR"), env.parseDouble).value == 0.0
    ensures r.Some? ==> r.value.base == base && r.value.fetchedAtMillis == env.now
                        && r.value.quotes == ScrapedQuotes(env.body.value, env.parseDouble)
  {
    if env.body.None? then None
    else
      ScrapedEur(env.body.value, env.parseDouble);
      var quotes := ScrapedQuotes(env.body.value, env.parseDouble);
      if "EUR" !in quotes || quotes["EUR"] == 0.0 then None else Some(Rate(base, env.now, quotes))
  }

  // ------------------------------------------------------ the cached lookup

  /** The Rate a cache miss obtains. */
  function FreshRate(useLiveApi: bool, base: NullableString, env: RateEnv): (r: Option<Rate>)
    ensures !useLiveApi ==> r == Some(Stub(base, env.now))
    ensures r.Some? ==> r.value.fetchedAtMillis == env.now
  {
    if useLiveApi then FetchFromPrimary(base, env) else Some(Stub(base, env.now))
  }

  /** Whether the cache answers by itself. */
  predicate CacheServes(entries: map<string, Rate>, now: int)
  {
    CacheKeyRate in entries && !IsStale(now, entries[CacheKeyRate].fetchedAtMillis)
  }

  /** `fetchLatestRates(base)` on the cache `entries`: the answer and the cache after. */
  function LatestRates(useLiveApi: bool, entries: map<string, Rate>, base: NullableString, env: RateEnv)
    : (Option<Rate>, map<string, Rate>)
  {
    if CacheServes(entries, env.now) then (Some(entries[CacheKeyRate]), entries)
    else
      var obtained := FreshRate(useLiveApi, base, env);
      if obtained.Some? then (obtained, entries[CacheKeyRate := obtained.value]) else (None, entries)
  }

  /** A cached Rate that is not stale is the answer, whatever the provider would give,
      and the cache is untouched. */
  lemma LatestRatesHit(useLiveApi: bool, entries: map<string, Rate>, base: NullableString, env: RateEnv, env2: RateEnv)
    requires CacheServes(entries, env.now) && env2.now == env.now
    ensures LatestRates(useLiveApi, entries, base, env) == (Some(entries[CacheKeyRate]), entries)
    ensures LatestRates(useLiveApi, entries, base, env2) == LatestRates(useLiveApi, entries, base, env)
  {
  }

  /** On a miss a Rate is stored under "rates:USD" whatever the base, and returned; no
      Rate leaves the cache as it was. */
  lemma LatestRatesMiss(useLiveApi: bool, entries: map<string, Rate>, base: NullableString, env: RateEnv)
    requires !CacheServes(entries, env.now)
    ensures var (r, after) := LatestRates(useLiveApi, entries, base, env);
      r == FreshRate(useLiveApi, base, env)
      && after == if r.Some? then entries[CacheKeyRate := r.value] else entries
  {
  }

  /** With live rates off, a miss yields the stub table tagged with the requested
      base. */
  lemma LatestRatesStub(entries: map<string, Rate>, base: NullableString, env: RateEnv)
    requires !CacheServes(entries, env.now)
    ensures LatestRates(false, entries, base, env) == (Some(Stub(base, env.now)), entries[CacheKeyRate := Stub(base, env.now)])
  {
  }

  /** Asking again at the same instant gives the same answer and changes nothing more:
      a Rate just stored is not stale. */
  lemma {:induction false} LatestRatesSettles(useLiveApi: bool, entries: map<string, Rate>, base: NullableString, env: RateEnv)
    ensures var (r, after) := LatestRates(useLiveApi, entries, base, env);
      LatestRates(useLiveApi, after, base, env) == (r, after)
  {
    var (r, after) := LatestRates(useLiveApi, entries, base, env);
    if !CacheServes(entries, env.now) && r.Some? {
      assert after[CacheKeyRate] == r.value;
      assert r.value.fetchedAtMillis == env.now;
      assert CacheServes(after, env.now);
    }
  }

  /** Every Rate in the cache carries the stub table. */
  predicate OnlyStubQuotes(entries: map<string, Rate>)
  {
    forall k :: k in entries ==> entries[k].quotes == StubQuotes
  }

  /** With live rates off the answer, when there is one, always carries the stub table,
      and the cache keeps holding only stub tables. */
  lemma LatestRatesStubOnly(entries: map<string, Rate>, base: NullableString, env: RateEnv)
    requires OnlyStubQuotes(entries)
    ensures var (r, after) := LatestRates(false, entries, base, env);
      r.Some? && r.value.quotes == StubQuotes && OnlyStubQuotes(after)
  {
  }

  class ApiRateService {
    const cache: Cache<Rate>
    /** `USE_LIVE_API`. */
    const useLiveApi: bool

    constructor()
      ensures !useLiveApi
      ensures fresh(cache) && cache.entries == map[]
    {
      useLiveApi := false;
      cache := new Cache();
    }

    /** `fetchLatestRates(base)`; `None` is the empty `Optional`. */
    method FetchLatestRates(base: NullableString, env: RateEnv) returns (r: Option<Rate>)
      modifies cache
      ensures (r, cache.entries) == LatestRates(useLiveApi, old(cache.entries), base, env)
    {
      var cached := cache.Get(CacheKeyRate);
      if cached.Some? && !IsStale(env.now, cached.value.fetchedAtMillis) {
        return cached;
      }
      var obtained: Option<Rate>;
      if useLiveApi {
        obtained := FetchFromPrimary(base, env);
      } else {
        obtained := Some(Stub(base, env.now));
      }
      if obtained.Some? {
        cache.Put(CacheKeyRate, obtained.value);
        return obtained;
      }
      r := None;
    }
  }
}
