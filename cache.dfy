/**
 * The in-memory TTL cache: a string-keyed dictionary of entries, each carrying
 * an absolute expiry instant. Expiry is checked lazily when a key is read.
 * The wall clock is not read here: every operation that needs the current
 * time receives it as `now`.
 */
module Cache {
  import opened Wrappers

  /** A cached value and the instant after which it is stale. */
  datatype Entry<V> = Entry(value: V, expiresAt: real)

  /** An entry is stale only once `now` is strictly past its expiry instant. */
  predicate Expired<V>(e: Entry<V>, now: real) {
    now > e.expiresAt
  }

  /** Python's `key.startswith(prefix)`. */
  predicate HasPrefix(key: string, prefix: string) {
    prefix <= key
  }

  // ---------------------------------------------------------------------
  // The store's dictionary before and after each operation
  // ---------------------------------------------------------------------

  /** What `get` returns when the dictionary is `m` at instant `now`. */
  function Lookup<V>(m: map<string, Entry<V>>, key: string, now: real): Option<V> {
    if key in m && !Expired(m[key], now) then Some(m[key].value) else None
  }

  /** The dictionary after `get(key)` at `now`: a stale entry is deleted. */
  function AfterGet<V>(m: map<string, Entry<V>>, key: string, now: real): map<string, Entry<V>> {
    if key in m && Expired(m[key], now) then m - {key} else m
  }

  /** The dictionary after `set(key, value, ttl)` at `now`. */
  function Store<V>(m: map<string, Entry<V>>, key: string, value: V, ttl: int, now: real): map<string, Entry<V>> {
    m[key := Entry(value, now + ttl as real)]
  }

  /** The dictionary with every key that starts with `prefix` dropped. */
  function RemovePrefix<V>(m: map<string, Entry<V>>, prefix: string): map<string, Entry<V>> {
    map k | k in m && !HasPrefix(k, prefix) :: m[k]
  }

  // ---------------------------------------------------------------------
  // The store itself
  // ---------------------------------------------------------------------

  class SimpleCache<V> {
    var entries: map<string, Entry<V>>

    constructor ()
      ensures entries == map[]
    {
      entries := map[];
    }

    /** The value under `key` if it has not expired at `now`; a stale entry is deleted. */
    method Get(key: string, now: real) returns (r: Option<V>)
      modifies this
      ensures r == Lookup(old(entries), key, now)
      ensures entries == AfterGet(old(entries), key, now)
    {
      if key !in entries {
        return None;
      }
      var entry := entries[key];
      if now > entry.expiresAt {
        entries := entries - {key};
        return None;
      }
      return Some(entry.value);
    }

    /** Stores `value` under `key`, replacing any entry, to expire `ttl` seconds after `now`. */
    method Set(key: string, value: V, ttl: int, now: real)
      modifies this
      ensures entries == Store(old(entries), key, value, ttl, now)
    {
      entries := entries[key := Entry(value, now + ttl as real)];
    }

    /** Removes `key` if present. */
    method Invalidate(key: string)
      modifies this
      ensures entries == old(entries) - {key}
    {
      entries := entries - {key};
    }

    /** Collects the keys that start with `prefix`, then deletes them one at a time. */
    method InvalidatePrefix(prefix: string)
      modifies this
      ensures entries == RemovePrefix(old(entries), prefix)
    {
      var keysToRemove := set k | k in entries.Keys && HasPrefix(k, prefix);
      var pending := keysToRemove;
      while pending != {}
        invariant pending <= keysToRemove
        invariant entries == old(entries) - (keysToRemove - pending)
        decreases pending
      {
        var key :| key in pending;
        entries := entries - {key};
        pending := pending - {key};
      }
      assert entries.Keys == RemovePrefix(old(entries), prefix).Keys;
    }

    /** Removes every entry. */
    method Clear()
      modifies this
      ensures entries == map[]
    {
      entries := map[];
    }
  }

  // ---------------------------------------------------------------------
  // Properties of the operations
  // ---------------------------------------------------------------------

  /** A `set` with a non-negative TTL is read back by a `get` at the same instant, which deletes nothing. */
  lemma SetThenGet<V>(m: map<string, Entry<V>>, key: string, value: V, ttl: int, now: real)
    requires ttl >= 0
    ensures Lookup(Store(m, key, value, ttl, now), key, now) == Some(value)
    ensures AfterGet(Store(m, key, value, ttl, now), key, now) == Store(m, key, value, ttl, now)
  {
  }

  /** Reading a key past its expiry yields nothing and deletes exactly that key. */
  lemma GetPastExpiry<V>(m: map<string, Entry<V>>, key: string, now: real)
    requires key in m && now > m[key].expiresAt
    ensures Lookup(m, key, now) == None
    ensures AfterGet(m, key, now).Keys == m.Keys - {key}
    ensures forall k :: k in AfterGet(m, key, now) ==> AfterGet(m, key, now)[k] == m[k]
  {
  }

  /** Once a stale entry has been deleted by a read, no later read finds it. */
  lemma ExpiredStaysAbsent<V>(m: map<string, Entry<V>>, key: string, now: real, later: real)
    requires key in m && now > m[key].expiresAt
    ensures Lookup(AfterGet(m, key, now), key, later) == None
  {
  }

  /** At exactly the expiry instant the entry is still served and kept. */
  lemma GetAtExpiryInstant<V>(m: map<string, Entry<V>>, key: string, now: real)
    requires key in m && now == m[key].expiresAt
    ensures Lookup(m, key, now) == Some(m[key].value)
    ensures AfterGet(m, key, now) == m
  {
  }

  /** Reading a missing key yields nothing and changes nothing. */
  lemma GetMissing<V>(m: map<string, Entry<V>>, key: string, now: real)
    requires key !in m
    ensures Lookup(m, key, now) == None
    ensures AfterGet(m, key, now) == m
  {
  }

  /** The last `set` of a key wins, and `set` leaves every other key as it was. */
  lemma SetLastWriterWins<V>(m: map<string, Entry<V>>, key: string, v1: V, ttl1: int, now1: real,
                             v2: V, ttl2: int, now2: real)
    ensures Store(Store(m, key, v1, ttl1, now1), key, v2, ttl2, now2) == Store(m, key, v2, ttl2, now2)
    ensures Store(m, key, v1, ttl1, now1).Keys == m.Keys + {key}
    ensures forall k :: k in m && k != key ==> Store(m, key, v1, ttl1, now1)[k] == m[k]
  {
  }

  /** `invalidate` makes the key unreadable, is a no-op on a missing key, is idempotent, and keeps the other keys. */
  lemma InvalidateProperties<V>(m: map<string, Entry<V>>, key: string, now: real)
    ensures Lookup(m - {key}, key, now) == None
    ensures key !in m ==> m - {key} == m
    ensures (m - {key}) - {key} == m - {key}
    ensures forall k :: k in m && k != key ==> k in m - {key} && (m - {key})[k] == m[k]
  {
  }

  /** `invalidate_prefix` drops exactly the keys that start with the prefix and keeps the others' entries. */
  lemma RemovePrefixExact<V>(m: map<string, Entry<V>>, prefix: string)
    ensures forall k :: k in RemovePrefix(m, prefix) <==> k in m && !HasPrefix(k, prefix)
    ensures forall k :: k in RemovePrefix(m, prefix) ==> RemovePrefix(m, prefix)[k] == m[k]
  {
  }
}
