/**
 * `CacheManager`: a map from keys to values with an expiry time each. A stale entry
 * is only removed when a lookup finds it. The clock is the parameter `now`, in
 * milliseconds.
 */
module TtlCache {
  import opened Wrappers

  /** A value and the instant after which it is stale. */
  datatype Entry<V> = Entry(value: V, expiresAt: int)

  /** What `getIfFresh(key)` returns at time `now`. */
  function Fresh<K, V>(entries: map<K, Entry<V>>, key: K, now: int): (r: Option<V>)
    ensures r.Some? <==> key in entries && now <= entries[key].expiresAt
    ensures r.Some? ==> r.value == entries[key].value
  {
    if key !in entries || now > entries[key].expiresAt then None else Some(entries[key].value)
  }

  /** The entries after `getIfFresh(key)` at time `now`: a stale entry for `key` is
      dropped, and nothing else changes. */
  function AfterLookup<K, V>(entries: map<K, Entry<V>>, key: K, now: int): (r: map<K, Entry<V>>)
    ensures key in entries && now > entries[key].expiresAt ==> r == entries - {key}
    ensures !(key in entries && now > entries[key].expiresAt) ==> r == entries
  {
    if key in entries && now > entries[key].expiresAt then entries - {key} else entries
  }

  class CacheManager<K(==), V> {
    var entries: map<K, Entry<V>>

    constructor()
      ensures entries == map[]
    {
      entries := map[];
    }

    /** `getIfFresh(key)`. */
    method GetIfFresh(key: K, now: int) returns (r: Option<V>)
      modifies this
      ensures r == Fresh(old(entries), key, now)
      ensures entries == AfterLookup(old(entries), key, now)
    {
      if key !in entries {
        return None;
      }
      var e := entries[key];
      if now > e.expiresAt {
        entries := entries - {key};
        return None;
      }
      r := Some(e.value);
    }

    /** `put(key, value, ttlMillis)`: replaces any entry for `key`. */
    method Put(key: K, value: V, ttlMillis: int, now: int)
      modifies this
      ensures entries == old(entries)[key := Entry(value, now + ttlMillis)]
    {
      entries := entries[key := Entry(value, now + ttlMillis)];
    }

    /** `clear()`. */
    method Clear()
      modifies this
      ensures entries == map[]
    {
      entries := map[];
    }
  }

  /** A value put at time `t` with time-to-live `ttl` is returned at any `now` up to and
      including `t + ttl`, and not after. */
  lemma PutThenFresh<K, V>(entries: map<K, Entry<V>>, key: K, value: V, ttl: int, t: int, now: int)
    ensures Fresh(entries[key := Entry(value, t + ttl)], key, now) == if now <= t + ttl then Some(value) else None
  {
  }

  /** Putting or looking up one key leaves every other key's entry as it was. */
  lemma OtherKeysUntouched<K, V>(entries: map<K, Entry<V>>, key: K, other: K, value: V, expiresAt: int, now: int)
    requires other != key
    ensures Fresh(entries[key := Entry(value, expiresAt)], other, now) == Fresh(entries, other, now)
    ensures other in AfterLookup(entries, key, now) <==> other in entries
    ensures other in entries ==> AfterLookup(entries, key, now)[other] == entries[other]
  {
  }

  /** A lookup never changes what later lookups at the same or a later time return. */
  lemma LookupIsInvisible<K, V>(entries: map<K, Entry<V>>, key: K, k: K, now: int, later: int)
    requires now <= later
    ensures Fresh(AfterLookup(entries, key, now), k, later) == Fresh(entries, k, later)
  {
  }
}
