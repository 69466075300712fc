/**
 * `utils.Cache`: a plain string-keyed map with no expiry. The stored value's type is
 * the type parameter where the source stores `Object` and casts on `get`.
 */
module SimpleCache {
  import opened Wrappers

  class Cache<V> {
    var entries: map<string, V>

    constructor()
      ensures entries == map[]
    {
      entries := map[];
    }

    /** `put(key, value)`: sets or overwrites the value under `key`. */
    method Put(key: string, value: V)
      modifies this
      ensures entries == old(entries)[key := value]
      ensures Get(key) == Some(value)
      ensures forall k :: k != key ==> Get(k) == old(Get(k))
    {
      entries := entries[key := value];
    }

    /** `get(key)`, `None` for a key never put. */
    function Get(key: string): (r: Option<V>)
      reads this
      ensures r.None? <==> key !in entries
      ensures r.Some? ==> r.value == entries[key]
    {
      if key in entries then Some(entries[key]) else None
    }
  }
}
