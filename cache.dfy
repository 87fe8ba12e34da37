/** backend/utils/cache.py: an in-memory map from keys to values, each stored
    with an expiry instant; a value read after its expiry is treated as absent. */
module TtlCache {
  import opened Types

  /** The lifetime of the module-level instance, in minutes. */
  const DefaultTtlMinutes: int := 12

  datatype Entry<V> = Entry(value: V, expiry: int)

  /** What `get(key)` answers at `now`: the stored value unless `now` is strictly past its expiry. */
  function Lookup<V>(entries: map<string, Entry<V>>, key: string, now: int): Option<V> {
    if key in entries && now <= entries[key].expiry then Some(entries[key].value) else None
  }

  /** The entries `get(key)` leaves behind: an expired entry for `key` is deleted. */
  function AfterGet<V>(entries: map<string, Entry<V>>, key: string, now: int): map<string, Entry<V>> {
    if key in entries && now > entries[key].expiry then entries - {key} else entries
  }

  /** The keys whose entries have expired at `now`. */
  function ExpiredKeys<V>(entries: map<string, Entry<V>>, now: int): set<string> {
    set k | k in entries && now > entries[k].expiry
  }

  /** The entries that survive `cleanup_expired()` at `now`. */
  function Live<V>(entries: map<string, Entry<V>>, now: int): (live: map<string, Entry<V>>)
    ensures forall k :: k in live <==> k in entries && now <= entries[k].expiry
    ensures forall k :: k in live ==> live[k] == entries[k]
  {
    map k | k in entries && now <= entries[k].expiry :: entries[k]
  }

  class Cache<V> {
    var entries: map<string, Entry<V>>
    const ttl: int

    /** `Cache(ttl_minutes)`: empty, with a lifetime of `ttl_minutes` minutes, held in seconds. */
    constructor (ttlMinutes: int)
      ensures entries == map[] && ttl == ttlMinutes * 60
    {
      entries := map[];
      ttl := ttlMinutes * 60;
    }

    /** `get(key)`: answers per `Lookup` and deletes the entry it finds expired. */
    method Get(key: string, now: int) returns (r: Option<V>)
      modifies this
      ensures r == Lookup(old(entries), key, now)
      ensures entries == AfterGet(old(entries), key, now)
    {
      if key !in entries {
        return None;
      }
      var entry := entries[key];
      if now > entry.expiry {
        entries := entries - {key};
        return None;
      }
      return Some(entry.value);
    }

    /** `set(key, value)`: stores the value until `now + ttl`, replacing any earlier entry. */
    method Set(key: string, value: V, now: int)
      modifies this
      ensures entries == old(entries)[key := Entry(value, now + ttl)]
    {
      entries := entries[key := Entry(value, now + ttl)];
    }

    /** `clear()`. */
    method Clear()
      modifies this
      ensures entries == map[]
    {
      entries := map[];
    }

    /** `cleanup_expired()`: collects the expired keys first, then deletes them one by one. */
    method CleanupExpired(now: int)
      modifies this
      ensures entries == Live(old(entries), now)
    {
      var expiredKeys := ExpiredKeys(entries, now);
      var pending := expiredKeys;
      while pending != {}
        invariant pending <= expiredKeys
        invariant entries == old(entries) - (expiredKeys - pending)
        decreases |pending|
      {
        var key :| key in pending;
        entries := entries - {key};
        pending := pending - {key};
      }
      assert expiredKeys - pending == expiredKeys;
      LiveWithoutExpired(old(entries), now);
    }
  }

  /** Deleting the expired keys leaves exactly the live entries. */
  lemma LiveWithoutExpired<V>(entries: map<string, Entry<V>>, now: int)
    ensures Live(entries, now) == entries - ExpiredKeys(entries, now)
  {
    var live, rest := Live(entries, now), entries - ExpiredKeys(entries, now);
    assert forall k :: k in live <==> k in rest;
    assert live.Keys == rest.Keys;
  }

  /** A value just stored is read back until `ttl` seconds have passed, and not after. */
  lemma LookupAfterSet<V>(entries: map<string, Entry<V>>, key: string, value: V, t: int, ttl: int, now: int)
    ensures Lookup(entries[key := Entry(value, t + ttl)], key, now) == Some(value) <==> now <= t + ttl
    ensures now > t + ttl ==> Lookup(entries[key := Entry(value, t + ttl)], key, now) == None
  {
  }

  /** Storing under one key leaves every other key's answer unchanged. */
  lemma LookupAfterSetOther<V>(entries: map<string, Entry<V>>, key: string, other: string, value: V, expiry: int, now: int)
    requires other != key
    ensures Lookup(entries[key := Entry(value, expiry)], other, now) == Lookup(entries, other, now)
  {
  }

  /** Once a key reads as absent it stays absent as time advances, until it is set again. */
  lemma LookupExpiryMonotone<V>(entries: map<string, Entry<V>>, key: string, now: int, later: int)
    requires now <= later && Lookup(entries, key, now).None?
    ensures Lookup(entries, key, later).None?
  {
  }

  /** The deletion `get` performs cannot be observed: every key reads the same at `now` and afterwards. */
  lemma AfterGetUnobservable<V>(entries: map<string, Entry<V>>, key: string, now: int, k: string, later: int)
    requires now <= later
    ensures Lookup(AfterGet(entries, key, now), k, later) == Lookup(entries, k, later)
  {
  }

  /** Likewise `cleanup_expired` changes no answer at `now` or afterwards, and running it twice is the same as once. */
  lemma LiveUnobservable<V>(entries: map<string, Entry<V>>, now: int, k: string, later: int)
    requires now <= later
    ensures Lookup(Live(entries, now), k, later) == Lookup(entries, k, later)
    ensures Live(Live(entries, now), now) == Live(entries, now)
  {
  }

  /** After `cleanup_expired` every remaining key still reads as present at that instant. */
  lemma LiveAllPresent<V>(entries: map<string, Entry<V>>, now: int)
    ensures forall k :: k in Live(entries, now) ==> Lookup(Live(entries, now), k, now) == Some(entries[k].value)
  {
  }
}
