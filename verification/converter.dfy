/**
 * `Converter`: converts an amount between currencies through the USD-based quotes of
 * the rate service, and rounds half away from zero. Amounts are exact reals; `None`
 * stands for the `NaN` the source returns when a conversion is unavailable.
 */
module Conversion {
  import opened Wrappers
  import opened JavaText
  import opened ApiRates

  function Pow10(s: nat): (r: nat)
    ensures r >= 1
  {
    if s == 0 then 1 else 10 * Pow10(s - 1)
  }

  /** Half-up rounding to a whole number: halves go away from zero. */
  function RoundUnit(x: real): (r: int)
  {
    if x >= 0.0 then (x + 0.5).Floor else -((-x + 0.5).Floor)
  }

  /** `round(value, scale)`, i.e. `new BigDecimal(value).setScale(scale, HALF_UP)`: the
      value scaled by `10^scale`, rounded half-up to a whole number and scaled back. One
      decimal place is shifted per step. */
  function Round(v: real, scale: nat): (r: real)
    ensures v >= 0.0 ==> r >= 0.0
    ensures v <= 0.0 ==> r <= 0.0
    decreases scale
  {
    if scale == 0 then RoundUnit(v) as real else Round(v * 10.0, scale - 1) / 10.0
  }

  /** The whole number of units of the last place that `Round(v, scale)` keeps. */
  function Units(v: real, scale: nat): int
    decreases scale
  {
    if scale == 0 then RoundUnit(v) else Units(v * 10.0, scale - 1)
  }

  /** `v` measured in units of the last of `scale` decimal places, i.e. `v * 10^scale`. */
  function Scaled(v: real, scale: nat): real
    decreases scale
  {
    if scale == 0 then v else Scaled(v * 10.0, scale - 1)
  }

  lemma {:induction false} ScaledIsPow10(v: real, scale: nat)
    ensures Scaled(v, scale) == v * Pow10(scale) as real
    decreases scale
  {
    if scale > 0 {
      ScaledIsPow10(v * 10.0, scale - 1);
      assert (v * 10.0) * Pow10(scale - 1) as real == v * (10 * Pow10(scale - 1)) as real;
    }
  }

  /** The result has `scale` decimals, and lies within half a unit in the last place of
      `v`, so it is the nearest such number. */
  lemma {:induction false} RoundIsNearest(v: real, scale: nat)
    ensures Scaled(Round(v, scale), scale) == Units(v, scale) as real
    ensures -0.5 <= Scaled(Round(v, scale), scale) - Scaled(v, scale) <= 0.5
    decreases scale
  {
    if scale > 0 {
      var w := Round(v * 10.0, scale - 1);
      RoundIsNearest(v * 10.0, scale - 1);
      assert w / 10.0 * 10.0 == w;
    }
  }

  /** A tie goes away from zero: the number `n + 1/2` units of the last place rounds to
      `n + 1` units, and its negation to `-(n + 1)` units. */
  lemma {:induction false} RoundHalfUp(x: real, n: nat, scale: nat)
    requires Scaled(x, scale) == n as real + 0.5
    ensures Scaled(Round(x, scale), scale) == (n + 1) as real
    ensures Scaled(Round(-x, scale), scale) == -((n + 1) as real)
    decreases scale
  {
    if scale == 0 {
      assert (x + 0.5).Floor == n + 1;
    } else {
      var w := Round(x * 10.0, scale - 1);
      var w' := Round(-x * 10.0, scale - 1);
      assert -x * 10.0 == -(x * 10.0);
      RoundHalfUp(x * 10.0, n, scale - 1);
      assert w / 10.0 * 10.0 == w;
      assert w' / 10.0 * 10.0 == w';
    }
  }

  /** Rounding is symmetric about zero. */
  lemma {:induction false} RoundNegate(v: real, scale: nat)
    ensures Round(-v, scale) == -Round(v, scale)
    decreases scale
  {
    if scale > 0 {
      assert -v * 10.0 == -(v * 10.0);
      RoundNegate(v * 10.0, scale - 1);
    }
  }

  /** A value that already has `scale` decimals is left unchanged, so rounding twice is
      rounding once. */
  lemma {:induction false} RoundExact(v: real, n: int, scale: nat)
    requires Scaled(v, scale) == n as real
    ensures Round(v, scale) == v
    decreases scale
  {
    if scale == 0 {
      if n >= 0 {
        assert (v + 0.5).Floor == n;
      } else {
        assert (-v + 0.5).Floor == -n;
      }
    } else {
      RoundExact(v * 10.0, n, scale - 1);
    }
  }

  lemma RoundIdempotent(v: real, scale: nat)
    ensures Round(Round(v, scale), scale) == Round(v, scale)
  {
    RoundIsNearest(v, scale);
    RoundExact(Round(v, scale), Units(v, scale), scale);
  }

  /** The amount in USD (divided by the source quote) expressed in the target currency
      (multiplied by the target quote), before rounding. */
  function Cross(amount: real, fromQuote: real, toQuote: real): real
    requires fromQuote != 0.0
  {
    amount / fromQuote * toQuote
  }

  /** What `convert(amount, from, to)` returns given the answer `latest` of
      `fetchLatestRates("USD")`; the answer is only consulted when the codes differ. */
  function ConvertWith(amount: real, from: NullableString, to: NullableString, latest: Option<Rate>): (r: Option<real>)
    ensures from.None? || to.None? ==> r.None?
    ensures from.Some? && to.Some? && EqualsIgnoreCase(from.value, to.value) ==> r == Some(Round(amount, 3))
  {
    if from.None? || to.None? then None
    else if EqualsIgnoreCase(from.value, to.value) then Some(Round(amount, 3))
    else if latest.None? then None
    else
      var quotes := latest.value.quotes;
      var f := ToUpper(from.value);
      var t := ToUpper(to.value);
      if f !in quotes || t !in quotes || quotes[f] == 0.0 then None
      else Some(Round(Cross(amount, quotes[f], quotes[t]), 3))
  }

  /** The conversion of different codes: unavailable without quotes, without a quote for
      either upper-cased code or with a zero quote for the source currency; otherwise
      the amount in USD times the target quote, rounded to three decimals. */
  lemma ConvertWithCrossRate(amount: real, from: string, to: string, latest: Option<Rate>)
    requires !EqualsIgnoreCase(from, to)
    ensures var r := ConvertWith(amount, Some(from), Some(to), latest);
      var f := ToUpper(from);
      var t := ToUpper(to);
      (r.Some? <==> latest.Some? && f in latest.value.quotes && t in latest.value.quotes
                    && latest.value.quotes[f] != 0.0)
      && (r.Some? ==> r.value == Round(Cross(amount, latest.value.quotes[f], latest.value.quotes[t]), 3))
  {
  }

  /** The codes' case does not matter. */
  lemma ConvertWithIgnoresCase(amount: real, from: string, to: string, latest: Option<Rate>)
    ensures ConvertWith(amount, Some(from), Some(to), latest)
         == ConvertWith(amount, Some(ToUpper(from)), Some(ToUpper(to)), latest)
  {
    ToUpperIdempotent(from);
    ToUpperIdempotent(to);
  }

  class Converter {
    /** The `RateService`; the model has its one implementation. */
    const rateService: ApiRateService

    constructor(rateService: ApiRateService)
      ensures this.rateService == rateService
    {
      this.rateService := rateService;
    }

    /** `convert(amount, from, to)`: the rate service is asked, with base "USD", only
        when both codes are present and differ. */
    method Convert(amount: real, from: NullableString, to: NullableString, env: RateEnv) returns (r: Option<real>)
      modifies rateService.cache
      ensures var (latest, after) := LatestRates(rateService.useLiveApi, old(rateService.cache.entries), Some("USD"), env);
        r == ConvertWith(amount, from, to, latest)
        && rateService.cache.entries == if Asks(from, to) then after else old(rateService.cache.entries)
    {
      if from.None? || to.None? {
        return None;
      }
      if EqualsIgnoreCase(from.value, to.value) {
        return Some(Round(amount, 3));
      }
      var rateOpt := rateService.FetchLatestRates(Some("USD"), env);
      if rateOpt.None? {
        return None;
      }
      var quotes := rateOpt.value.quotes;
      var f := ToUpper(from.value);
      var t := ToUpper(to.value);
      if f !in quotes || t !in quotes || quotes[f] == 0.0 {
        return None;
      }
      r := Some(Round(Cross(amount, quotes[f], quotes[t]), 3));
    }
  }

  /** Whether converting between these codes consults the rate service. */
  predicate Asks(from: NullableString, to: NullableString)
  {
    from.Some? && to.Some? && !EqualsIgnoreCase(from.value, to.value)
  }

  /** With the stub table, 100 USD is 92 EUR, and 92 EUR is 100 USD again. */
  lemma StubRoundTrip(base: NullableString, now: int)
    ensures ConvertWith(100.0, Some("USD"), Some("EUR"), Some(Stub(base, now))) == Some(92.0)
    ensures ConvertWith(92.0, Some("EUR"), Some("USD"), Some(Stub(base, now))) == Some(100.0)
  {
    assert ToUpper("USD") == "USD" && ToUpper("EUR") == "EUR";
    assert !EqualsIgnoreCase("USD", "EUR") && !EqualsIgnoreCase("EUR", "USD");
    assert Pow10(3) == 1000;
    assert Cross(100.0, 1.0, 0.920) == 92.0;
    assert (92.0 * 1000.0 + 0.5).Floor == 92000;
    assert Cross(92.0, 0.920, 1.0) == 100.0;
    assert (100.0 * 1000.0 + 0.5).Floor == 100000;
  }
}
