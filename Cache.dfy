/** The time-limited key/value cache of src/services/cache.ts.

    The browser's `localStorage` is the field `store`: a dictionary from storage keys to
    the stored `{ data, timestamp }` records (the JSON encoding is not modelled). The
    store may also hold keys of other applications; the cache only ever writes keys
    that start with `Prefix`. `Date.now()` is the parameter `now`, in milliseconds. */
module Cache {
  import opened Types
  import opened Strings

  /** `CACHE_EXPIRY`: thirty minutes in milliseconds. */
  const Expiry: int := 1000 * 60 * 30

  /** `CacheService.PREFIX`, the namespace of the cache's storage keys. */
  const Prefix: string := "gh_roaster_"

  datatype CachedData<V> = CachedData(data: V, timestamp: int)

  /** The storage key of a cache key. */
  function StoreKey(key: string): (k: string)
    ensures StartsWith(k, Prefix) && k[|Prefix|..] == key
  {
    Prefix + key
  }

  /** Different cache keys never share a storage key. */
  lemma StoreKeyInjective(a: string, b: string)
    requires StoreKey(a) == StoreKey(b)
    ensures a == b
  {
    assert a == StoreKey(a)[|Prefix|..];
  }

  /** An entry is served while at most `Expiry` milliseconds old: the source drops it
      only when `now - timestamp > CACHE_EXPIRY`. */
  predicate IsFresh<V>(entry: CachedData<V>, now: int) {
    now - entry.timestamp <= Expiry
  }

  /** The store after `set(key, data)` at time `now`. */
  function Stored<V>(store: map<string, CachedData<V>>, key: string, data: V, now: int): (s: map<string, CachedData<V>>)
    ensures s.Keys == store.Keys + {StoreKey(key)}
    ensures s[StoreKey(key)] == CachedData(data, now)
    ensures forall k :: k in store && k != StoreKey(key) ==> s[k] == store[k]
  {
    store[StoreKey(key) := CachedData(data, now)]
  }

  /** The store after `remove(key)`. */
  function Removed<V>(store: map<string, CachedData<V>>, key: string): (s: map<string, CachedData<V>>)
    ensures s.Keys == store.Keys - {StoreKey(key)}
    ensures forall k :: k in s ==> s[k] == store[k]
  {
    store - {StoreKey(key)}
  }

  /** What `get(key)` returns at time `now`: the data of a fresh entry, null otherwise. */
  function GetResult<V>(store: map<string, CachedData<V>>, key: string, now: int): (r: Option<V>)
    ensures r.Some? <==> StoreKey(key) in store && IsFresh(store[StoreKey(key)], now)
    ensures r.Some? ==> r.value == store[StoreKey(key)].data
  {
    var k := StoreKey(key);
    if k !in store then None
    else if now - store[k].timestamp > Expiry then None
    else Some(store[k].data)
  }

  /** The store after `get(key)` at time `now`: a stale entry is evicted, nothing else
      changes. */
  function AfterGet<V>(store: map<string, CachedData<V>>, key: string, now: int): (s: map<string, CachedData<V>>)
    ensures StoreKey(key) in store && !IsFresh(store[StoreKey(key)], now) ==> s == Removed(store, key)
    ensures !(StoreKey(key) in store && !IsFresh(store[StoreKey(key)], now)) ==> s == store
  {
    var k := StoreKey(key);
    if k in store && now - store[k].timestamp > Expiry then Removed(store, key) else store
  }

  /** The store after `clear()`: exactly the entries whose keys lack the prefix. */
  function Cleared<V>(store: map<string, CachedData<V>>): (s: map<string, CachedData<V>>)
    ensures forall k :: k in s <==> k in store && !StartsWith(k, Prefix)
    ensures forall k :: k in s ==> s[k] == store[k]
  {
    map k | k in store && !StartsWith(k, Prefix) :: store[k]
  }

  class CacheService<V> {
    var store: map<string, CachedData<V>>

    /** A cache over a store that may already hold entries. */
    constructor(initial: map<string, CachedData<V>>)
      ensures store == initial
    {
      store := initial;
    }

    method Set(key: string, data: V, now: int)
      modifies this
      ensures store == Stored(old(store), key, data, now)
    {
      store := store[StoreKey(key) := CachedData(data, now)];
    }

    method Get(key: string, now: int) returns (r: Option<V>)
      modifies this
      ensures r == GetResult(old(store), key, now)
      ensures store == AfterGet(old(store), key, now)
    {
      var k := StoreKey(key);
      if k !in store {
        return None;
      }
      var cached := store[k];
      if now - cached.timestamp > Expiry {
        Remove(key);
        return None;
      }
      return Some(cached.data);
    }

    method Remove(key: string)
      modifies this
      ensures store == Removed(old(store), key)
    {
      store := store - {StoreKey(key)};
    }

    /** Collects the prefixed keys, then removes them one at a time. */
    method Clear()
      modifies this
      ensures store == Cleared(old(store))
    {
      var doomed := set k | k in store && StartsWith(k, Prefix);
      while doomed != {}
        invariant forall k :: k in doomed ==> StartsWith(k, Prefix)
        invariant forall k :: k in store <==> k in old(store) && (!StartsWith(k, Prefix) || k in doomed)
        invariant forall k :: k in store ==> store[k] == old(store)[k]
        decreases |doomed|
      {
        var k :| k in doomed;
        store := store - {k};
        doomed := doomed - {k};
      }
      assert store == Cleared(old(store));
    }
  }

  // ---------------------------------------------------------------------------
  // What the operations promise to each other

  /** A value set at `t` is returned by a `get` at most thirty minutes later, and that
      `get` leaves the store as the `set` left it. */
  lemma SetThenGet<V>(store: map<string, CachedData<V>>, key: string, data: V, t: int, later: int)
    requires later - t <= Expiry
    ensures GetResult(Stored(store, key, data, t), key, later) == Some(data)
    ensures AfterGet(Stored(store, key, data, t), key, later) == Stored(store, key, data, t)
  {
  }

  /** Past thirty minutes the value is gone: `get` returns null and leaves the store as
      if the key had been removed instead of set. */
  lemma SetThenGetExpired<V>(store: map<string, CachedData<V>>, key: string, data: V, t: int, later: int)
    requires later - t > Expiry
    ensures GetResult(Stored(store, key, data, t), key, later) == None
    ensures AfterGet(Stored(store, key, data, t), key, later) == Removed(store, key)
  {
    assert Removed(Stored(store, key, data, t), key) == Removed(store, key);
  }

  /** `set` overwrites: an older entry under the same key no longer matters. */
  lemma SetOverwrites<V>(store: map<string, CachedData<V>>, key: string, previous: V, t0: int, data: V, t: int)
    ensures Stored(Stored(store, key, previous, t0), key, data, t) == Stored(store, key, data, t)
  {
  }

  /** `get` of a key that is not stored returns null and changes nothing. */
  lemma GetAbsent<V>(store: map<string, CachedData<V>>, key: string, now: int)
    requires StoreKey(key) !in store
    ensures GetResult(store, key, now) == None
    ensures AfterGet(store, key, now) == store
  {
  }

  /** `set`, `remove` and `get` on one key do not change what `get` returns for any
      other key. */
  lemma OtherKeysUnaffected<V>(store: map<string, CachedData<V>>, key: string, other: string, data: V, t: int, now: int)
    requires key != other
    ensures GetResult(Stored(store, key, data, t), other, now) == GetResult(store, other, now)
    ensures GetResult(Removed(store, key), other, now) == GetResult(store, other, now)
    ensures GetResult(AfterGet(store, key, t), other, now) == GetResult(store, other, now)
  {
    if StoreKey(key) == StoreKey(other) {
      StoreKeyInjective(key, other);
    }
  }

  /** After `remove(key)` a `get(key)` returns null. */
  lemma RemoveThenGet<V>(store: map<string, CachedData<V>>, key: string, now: int)
    ensures GetResult(Removed(store, key), key, now) == None
  {
  }

  /** After `clear()` every `get` returns null, whatever the key. */
  lemma ClearThenGet<V>(store: map<string, CachedData<V>>, key: string, now: int)
    ensures GetResult(Cleared(store), key, now) == None
  {
  }

  /** `clear()` forgets whatever the cache wrote before, and only that. */
  lemma ClearAfterSet<V>(store: map<string, CachedData<V>>, key: string, data: V, t: int)
    ensures Cleared(Stored(store, key, data, t)) == Cleared(store)
    ensures Cleared(Removed(store, key)) == Cleared(store)
  {
  }
}
