/**
 * The trip-expense service: an in-memory list of expense records, filtered by trip and
 * totalled in a home currency through the `Converter`. A record's strings may be null,
 * and `Objects.equals` compares them as `Option` values.
 */
module TripExpenses {
  import opened Wrappers
  import opened JavaText
  import opened Collections
  import opened ApiRates
  import opened Conversion

  /** The immutable `Expense` record: the amount is in `currency`, the timestamp is an
      instant in milliseconds. */
  datatype Expense = Expense(
    id: NullableString,
    tripId: NullableString,
    category: NullableString,
    amountNative: real,
    currency: NullableString,
    timestamp: int)

  /** The expenses of one trip, in store order. */
  function OfTrip(store: seq<Expense>, tripId: NullableString): (r: seq<Expense>)
    ensures forall e :: e in r <==> e in store && e.tripId == tripId
    ensures IsSubsequence(r, store)
  {
    FilterIsSubsequence(store, (e: Expense) => e.tripId == tripId);
    Filter(store, (e: Expense) => e.tripId == tripId)
  }

  /** The (category, amount in `home`) pair of each expense whose conversion is
      available, in order; `latest` is the rate service's answer. */
  function Converted(es: seq<Expense>, home: NullableString, latest: Option<Rate>): seq<(NullableString, real)>
  {
    if es == [] then []
    else
      var e := es[|es| - 1];
      var c := ConvertWith(e.amountNative, e.currency, home, latest);
      Converted(es[..|es| - 1], home, latest) + (if c.Some? then [(e.category, c.value)] else [])
  }

  /** Whether converting some of the expenses into `home` consults the rate service. */
  predicate AnyAsks(es: seq<Expense>, home: NullableString)
  {
    es != [] && (AnyAsks(es[..|es| - 1], home) || Asks(es[|es| - 1].currency, home))
  }

  /** `AnyAsks` holds exactly when some expense's conversion asks. */
  lemma {:induction false} AnyAsksSome(es: seq<Expense>, home: NullableString)
    ensures AnyAsks(es, home) <==> exists e :: e in es && Asks(e.currency, home)
  {
    if es != [] {
      var init := es[..|es| - 1];
      AnyAsksSome(init, home);
      assert es == init + [es[|es| - 1]];
      if exists e :: e in es && Asks(e.currency, home) {
        var e :| e in es && Asks(e.currency, home);
        assert e in init || e == es[|es| - 1];
      }
    }
  }

  lemma AnyAsksSnoc(es: seq<Expense>, e: Expense, home: NullableString)
    ensures AnyAsks(es + [e], home) == (AnyAsks(es, home) || Asks(e.currency, home))
  {
    assert (es + [e])[..|es|] == es;
  }

  /** Money totals keep two decimals. */
  function Cents(v: real): real
  {
    Round(v, 2)
  }

  /** An expense whose conversion is unavailable is skipped; the others are counted in
      order. */
  lemma {:induction false} ConvertedSkipsUnavailable(es: seq<Expense>, home: NullableString, latest: Option<Rate>)
    ensures |Converted(es, home, latest)| <= |es|
    ensures forall p :: p in Converted(es, home, latest) ==>
      exists e :: e in es && e.category == p.0 && ConvertWith(e.amountNative, e.currency, home, latest) == Some(p.1)
  {
    if es != [] {
      var init := es[..|es| - 1];
      ConvertedSkipsUnavailable(init, home, latest);
      forall p | p in Converted(es, home, latest)
        ensures exists e :: e in es && e.category == p.0 && ConvertWith(e.amountNative, e.currency, home, latest) == Some(p.1)
      {
        if p in Converted(init, home, latest) {
          var e :| e in init && e.category == p.0 && ConvertWith(e.amountNative, e.currency, home, latest) == Some(p.1);
          assert e in es;
        } else {
          assert es[|es| - 1] in es;
        }
      }
    }
  }

  /** A category is among the converted pairs exactly when some expense of that
      category converts. */
  lemma {:induction false} ConvertedCategories(es: seq<Expense>, home: NullableString, latest: Option<Rate>, c: NullableString)
    ensures c in Firsts(Converted(es, home, latest)) <==>
      exists e :: e in es && e.category == c && ConvertWith(e.amountNative, e.currency, home, latest).Some?
  {
    if es != [] {
      var init := es[..|es| - 1];
      var last := es[|es| - 1];
      var conv := ConvertWith(last.amountNative, last.currency, home, latest);
      var before := Converted(init, home, latest);
      ConvertedCategories(init, home, latest, c);
      assert es == init + [last];
      if conv.Some? {
        var p := (last.category, conv.value);
        assert Converted(es, home, latest) == before + [p];
        assert Firsts(before + [p]) == Firsts(before) + [p.0] by { assert (before + [p])[..|before|] == before; }
      } else {
        assert Converted(es, home, latest) == before + [];
        assert before + [] == before;
      }
    }
  }

  lemma ConvertedSnoc(es: seq<Expense>, e: Expense, home: NullableString, latest: Option<Rate>)
    ensures var c := ConvertWith(e.amountNative, e.currency, home, latest);
      Converted(es + [e], home, latest) == Converted(es, home, latest) + (if c.Some? then [(e.category, c.value)] else [])
  {
    assert (es + [e])[..|es|] == es;
  }

  lemma SumSndSnoc(pairs: seq<(NullableString, real)>, p: (NullableString, real))
    ensures SumSnd(pairs + [p]) == SumSnd(pairs) + p.1
  {
    assert (pairs + [p])[..|pairs|] == pairs;
  }

  lemma GroupSumSnocPair(pairs: seq<(NullableString, real)>, p: (NullableString, real))
    ensures GroupSum(pairs + [p]) == MergeAdd(GroupSum(pairs), p.0, p.1)
  {
    assert (pairs + [p])[..|pairs|] == pairs;
  }

  /** The category totals split the trip total: before rounding they add up to it, and
      each category present among the converted expenses has exactly one entry, in
      first-appearance order, holding the sum of its amounts. */
  lemma CategoryTotalsSplitTotal(pairs: seq<(NullableString, real)>)
    ensures SumValues(GroupSum(pairs)) == SumSnd(pairs)
    ensures GroupSum(pairs).keys == Distinct(Firsts(pairs))
    ensures forall k :: Get(GroupSum(pairs), k) == if k in Firsts(pairs) then Some(SumFor(pairs, k)) else None
  {
    GroupSumPreservesTotal(pairs);
    GroupSumKeys(pairs);
    forall k
      ensures Get(GroupSum(pairs), k) == if k in Firsts(pairs) then Some(SumFor(pairs, k)) else None
    {
      GroupSumGet(pairs, k);
    }
  }

  class ExpenseService {
    /** The records, in insertion order. */
    var store: seq<Expense>
    const converter: Converter

    constructor(converter: Converter)
      ensures this.converter == converter && store == []
    {
      this.converter := converter;
      store := [];
    }

    /** `add(e)`: appends the record. */
    method Add(e: Expense)
      modifies this
      ensures store == old(store) + [e]
      ensures OfTrip(store, e.tripId) == OfTrip(old(store), e.tripId) + [e]
    {
      store := store + [e];
      FilterAppend(old(store), [e], (x: Expense) => x.tripId == e.tripId);
    }

    /** `listByTrip(tripId)`. */
    function ListByTrip(tripId: NullableString): (r: seq<Expense>)
      reads this
      ensures r == OfTrip(store, tripId)
    {
      OfTrip(store, tripId)
    }

    /** `remove(id)`: drops every record with that id, and reports whether there was
        one. */
    method Remove(id: NullableString) returns (removed: bool)
      modifies this
      ensures store == Filter(old(store), (e: Expense) => e.id != id)
      ensures removed <==> exists i :: 0 <= i < |old(store)| && old(store)[i].id == id
    {
      var keep := (e: Expense) => e.id != id;
      FilterShrinksIff(store, keep);
      var before := |store|;
      store := Filter(store, keep);
      removed := |store| < before;
    }

    /** `clearTrip(tripId)`: drops the trip's records and keeps the others in order. */
    method ClearTrip(tripId: NullableString)
      modifies this
      ensures store == Filter(old(store), (e: Expense) => e.tripId != tripId)
      ensures OfTrip(store, tripId) == []
      ensures forall t :: t != tripId ==> OfTrip(store, t) == OfTrip(old(store), t)
    {
      var keep := (e: Expense) => e.tripId != tripId;
      var remaining := Filter(store, keep);
      forall t | t != tripId
        ensures OfTrip(remaining, t) == OfTrip(store, t)
      {
        FilterOther(store, tripId, t);
      }
      store := remaining;
    }

    /** `totalTripInHome(tripId, home)`: the available conversions of the trip's
        expenses summed in order, then rounded to cents. Every conversion sees the same
        rate answer: the first one that consults the service settles the cache, and the
        later ones, asked at the same instant, are served from it. */
    method TotalTripInHome(tripId: NullableString, home: NullableString, env: RateEnv) returns (total: real)
      modifies converter.rateService.cache
      ensures var (latest, after) := LatestRates(converter.rateService.useLiveApi, old(converter.rateService.cache.entries), Some("USD"), env);
        total == Cents(SumSnd(Converted(ListByTrip(tripId), home, latest)))
        && converter.rateService.cache.entries
             == if AnyAsks(ListByTrip(tripId), home) then after else old(converter.rateService.cache.entries)
    {
      var trip := ListByTrip(tripId);
      var cache := converter.rateService.cache;
      var live := converter.rateService.useLiveApi;
      ghost var start := cache.entries;
      ghost var answer := LatestRates(live, start, Some("USD"), env);
      var sum := 0.0;
      for i := 0 to |trip|
        invariant sum == SumSnd(Converted(trip[..i], home, answer.0))
        invariant cache.entries == if AnyAsks(trip[..i], home) then answer.1 else start
      {
        var e := trip[i];
        ghost var before := cache.entries;
        var converted := converter.Convert(e.amountNative, e.currency, home, env);
        TotalTurn(live, start, env, trip, i, home, sum, before, converted, cache.entries);
        if converted.Some? {
          sum := sum + converted.value;
        }
      }
      assert trip[..|trip|] == trip;
      total := Cents(sum);
    }

    /** `categoryTotalsInHome(tripId, home)`: the available conversions merged per
        category in first-appearance order, then each total rounded to cents. */
    method CategoryTotalsInHome(tripId: NullableString, home: NullableString, env: RateEnv)
      returns (out: LinkedMap<NullableString, real>)
      modifies converter.rateService.cache
      ensures var (latest, after) := LatestRates(converter.rateService.useLiveApi, old(converter.rateService.cache.entries), Some("USD"), env);
        out == MapValues(GroupSum(Converted(ListByTrip(tripId), home, latest)), Cents)
        && converter.rateService.cache.entries
             == if AnyAsks(ListByTrip(tripId), home) then after else old(converter.rateService.cache.entries)
    {
      var trip := ListByTrip(tripId);
      var cache := converter.rateService.cache;
      var live := converter.rateService.useLiveApi;
      ghost var start := cache.entries;
      ghost var answer := LatestRates(live, start, Some("USD"), env);
      out := EmptyMap();
      for i := 0 to |trip|
        invariant out == GroupSum(Converted(trip[..i], home, answer.0))
        invariant cache.entries == if AnyAsks(trip[..i], home) then answer.1 else start
      {
        var e := trip[i];
        ghost var before := cache.entries;
        var converted := converter.Convert(e.amountNative, e.currency, home, env);
        MergeTurn(live, start, env, trip, i, home, out, before, converted, cache.entries);
        if converted.Some? {
          out := MergeAdd(out, e.category, converted.value);
        }
      }
      assert trip[..|trip|] == trip;
      out := MapValues(out, Cents);
    }
  }

  /** One turn of the summing loop: an available conversion is added, an unavailable
      one skipped. */
  lemma TotalStep(done: seq<Expense>, e: Expense, home: NullableString, latest: Option<Rate>, sum: real, converted: Option<real>)
    requires sum == SumSnd(Converted(done, home, latest))
    requires converted == ConvertWith(e.amountNative, e.currency, home, latest)
    ensures (if converted.Some? then sum + converted.value else sum) == SumSnd(Converted(done + [e], home, latest))
  {
    ConvertedSnoc(done, e, home, latest);
    if converted.Some? {
      SumSndSnoc(Converted(done, home, latest), (e.category, converted.value));
    } else {
      assert Converted(done + [e], home, latest) == Converted(done, home, latest) + [] == Converted(done, home, latest);
    }
  }

  /** One turn of the merging loop: an available conversion is merged under its
      category, an unavailable one skipped. */
  lemma MergeStep(done: seq<Expense>, e: Expense, home: NullableString, latest: Option<Rate>,
                  out: LinkedMap<NullableString, real>, converted: Option<real>)
    requires out == GroupSum(Converted(done, home, latest))
    requires converted == ConvertWith(e.amountNative, e.currency, home, latest)
    ensures (if converted.Some? then MergeAdd(out, e.category, converted.value) else out)
         == GroupSum(Converted(done + [e], home, latest))
  {
    ConvertedSnoc(done, e, home, latest);
    if converted.Some? {
      GroupSumSnocPair(Converted(done, home, latest), (e.category, converted.value));
    } else {
      assert Converted(done + [e], home, latest) == Converted(done, home, latest) + [] == Converted(done, home, latest);
    }
  }

  /** One turn of `totalTripInHome`'s loop, from what `convert` promises about the
      `i`-th expense to both loop invariants for the next turn. */
  lemma TotalTurn(live: bool, start: map<string, Rate>, env: RateEnv, trip: seq<Expense>, i: nat, home: NullableString,
                  sum: real, before: map<string, Rate>, converted: Option<real>, now: map<string, Rate>)
    requires i < |trip|
    requires sum == SumSnd(Converted(trip[..i], home, LatestRates(live, start, Some("USD"), env).0))
    requires before == if AnyAsks(trip[..i], home) then LatestRates(live, start, Some("USD"), env).1 else start
    requires var (latest, after) := LatestRates(live, before, Some("USD"), env);
      converted == ConvertWith(trip[i].amountNative, trip[i].currency, home, latest)
      && now == if Asks(trip[i].currency, home) then after else before
    ensures (if converted.Some? then sum + converted.value else sum)
         == SumSnd(Converted(trip[..i + 1], home, LatestRates(live, start, Some("USD"), env).0))
    ensures now == if AnyAsks(trip[..i + 1], home) then LatestRates(live, start, Some("USD"), env).1 else start
  {
    SameAnswer(live, start, before, env);
    assert trip[..i + 1] == trip[..i] + [trip[i]];
    TotalStep(trip[..i], trip[i], home, LatestRates(live, start, Some("USD"), env).0, sum, converted);
    CacheStep(live, start, env, trip[..i], trip[i], home, before, now);
  }

  /** One turn of `categoryTotalsInHome`'s loop, likewise. */
  lemma MergeTurn(live: bool, start: map<string, Rate>, env: RateEnv, trip: seq<Expense>, i: nat, home: NullableString,
                  out: LinkedMap<NullableString, real>, before: map<string, Rate>, converted: Option<real>, now: map<string, Rate>)
    requires i < |trip|
    requires out == GroupSum(Converted(trip[..i], home, LatestRates(live, start, Some("USD"), env).0))
    requires before == if AnyAsks(trip[..i], home) then LatestRates(live, start, Some("USD"), env).1 else start
    requires var (latest, after) := LatestRates(live, before, Some("USD"), env);
      converted == ConvertWith(trip[i].amountNative, trip[i].currency, home, latest)
      && now == if Asks(trip[i].currency, home) then after else before
    ensures (if converted.Some? then MergeAdd(out, trip[i].category, converted.value) else out)
         == GroupSum(Converted(trip[..i + 1], home, LatestRates(live, start, Some("USD"), env).0))
    ensures now == if AnyAsks(trip[..i + 1], home) then LatestRates(live, start, Some("USD"), env).1 else start
  {
    SameAnswer(live, start, before, env);
    assert trip[..i + 1] == trip[..i] + [trip[i]];
    MergeStep(trip[..i], trip[i], home, LatestRates(live, start, Some("USD"), env).0, out, converted);
    CacheStep(live, start, env, trip[..i], trip[i], home, before, now);
  }

  /** One turn of either loop leaves the cache as it was, unless this or an earlier
      conversion consulted the rate service, which settled it. */
  lemma CacheStep(live: bool, start: map<string, Rate>, env: RateEnv, done: seq<Expense>, e: Expense, home: NullableString,
                  before: map<string, Rate>, now: map<string, Rate>)
    requires before == if AnyAsks(done, home) then LatestRates(live, start, Some("USD"), env).1 else start
    requires now == if Asks(e.currency, home) then LatestRates(live, before, Some("USD"), env).1 else before
    ensures now == if AnyAsks(done + [e], home) then LatestRates(live, start, Some("USD"), env).1 else start
  {
    SameAnswer(live, start, before, env);
    AnyAsksSnoc(done, e, home);
  }

  /** Within one call the cache is either as it was or as the first consultation left
      it, and either way the rate service gives the same answer. */
  lemma SameAnswer(useLiveApi: bool, start: map<string, Rate>, entries: map<string, Rate>, env: RateEnv)
    requires entries == start || entries == LatestRates(useLiveApi, start, Some("USD"), env).1
    ensures LatestRates(useLiveApi, entries, Some("USD"), env) == LatestRates(useLiveApi, start, Some("USD"), env)
  {
    LatestRatesSettles(useLiveApi, start, Some("USD"), env);
  }

  /** Clearing one trip leaves another trip's list as it was. */
  lemma FilterOther(store: seq<Expense>, tripId: NullableString, t: NullableString)
    requires t != tripId
    ensures OfTrip(Filter(store, (e: Expense) => e.tripId != tripId), t) == OfTrip(store, t)
  {
    FilterImplied(store, (e: Expense) => e.tripId != tripId, (e: Expense) => e.tripId == t);
  }

  // ------------------------------------------------------------ an example

  /** A hotel night of 200 EUR and a 50 USD meal. */
  const Hotel: Expense := Expense(Some("1"), Some("t1"), Some("Hotel"), 200.0, Some("EUR"), 0)
  const Food: Expense := Expense(Some("2"), Some("t1"), Some("Food"), 50.0, Some("USD"), 0)

  /** With the stub table, the hotel is 217.391 USD and the meal 50 USD. */
  lemma TripConverted(base: NullableString, now: int)
    ensures Converted([Hotel, Food], Some("USD"), Some(Stub(base, now)))
         == [(Some("Hotel"), 217.391), (Some("Food"), 50.0)]
  {
    var latest := Some(Stub(base, now));
    assert ConvertWith(200.0, Some("EUR"), Some("USD"), latest) == Some(217.391) by {
      assert ToUpper("USD") == "USD" && ToUpper("EUR") == "EUR";
      assert !EqualsIgnoreCase("EUR", "USD");
      assert 217391.0 <= Cross(200.0, 0.920, 1.0) * 1000.0 + 0.5 < 217392.0;
      assert (Cross(200.0, 0.920, 1.0) * 1000.0 + 0.5).Floor == 217391;
    }
    assert ConvertWith(50.0, Some("USD"), Some("USD"), latest) == Some(50.0) by {
      assert EqualsIgnoreCase("USD", "USD");
      assert (50.0 * 1000.0 + 0.5).Floor == 50000;
    }
    ConvertedSnoc([], Hotel, Some("USD"), latest);
    ConvertedSnoc([Hotel], Food, Some("USD"), latest);
    assert [Hotel, Food] == [Hotel] + [Food];
  }

  /** With the stub table the trip total is 267.39 USD, and both categories appear in
      the breakdown, the hotel first. */
  lemma TripInUsd(base: NullableString, now: int)
    ensures Cents(SumSnd(Converted([Hotel, Food], Some("USD"), Some(Stub(base, now))))) == 267.39
    ensures GroupSum(Converted([Hotel, Food], Some("USD"), Some(Stub(base, now)))).keys
         == [Some("Hotel"), Some("Food")]
  {
    TripConverted(base, now);
    var hotel := [(Some("Hotel"), 217.391)];
    var pairs := hotel + [(Some("Food"), 50.0)];
    assert pairs == [(Some("Hotel"), 217.391), (Some("Food"), 50.0)];
    assert SumSnd(pairs) == 267.391 by {
      SumSndSnoc(hotel, (Some("Food"), 50.0));
      SumSndSnoc([], (Some("Hotel"), 217.391));
    }
    assert Cents(267.391) == 267.39 by {
      assert (267.391 * 100.0 + 0.5).Floor == 26739;
    }
    assert GroupSum(pairs).keys == [Some("Hotel"), Some("Food")] by {
      GroupSumSnocPair(hotel, (Some("Food"), 50.0));
      GroupSumSnocPair([], (Some("Hotel"), 217.391));
    }
  }
}
