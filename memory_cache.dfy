/** The current generation of the in-memory cache: entries expire after a
    per-entry keep time, a zero keep time stores nothing, and expired entries
    are swept out at most once per `revokeExpiresInterval`. */
module MemoryCache {
  import opened Common
  import opened ExpiringStore

  /** The default sweep interval: 180 seconds. */
  const DefaultRevokeExpiresInterval: int := 180 * TicksPerSecond

  class MemoryCache<K(==), V> {
    /** Minimum time between two sweeps; settable by the owner. */
    var revokeExpiresInterval: int
    /** { key: (value, expiry) } */
    var cache: Table<K, V>
    /** When the last sweep ran. */
    var lastRevokeExpires: int

    constructor (now: int)
      ensures revokeExpiresInterval == DefaultRevokeExpiresInterval
      ensures cache == map[] && lastRevokeExpires == now
    {
      revokeExpiresInterval := DefaultRevokeExpiresInterval;
      cache := map[];
      lastRevokeExpires := now;
    }

    /** The table a sweep attempted at `now` leaves behind. */
    ghost function SweptAt(now: int): Table<K, V>
      reads this
    {
      if RevokeDue(lastRevokeExpires, revokeExpiresInterval, now) then Revoked(cache, now) else cache
    }

    /** The time of the last sweep after a sweep attempted at `now`. */
    ghost function LastSweepAt(now: int): int
      reads this
    {
      if RevokeDue(lastRevokeExpires, revokeExpiresInterval, now) then now else lastRevokeExpires
    }

    /** Sweeps out the expired entries, unless the last sweep was too recent. */
    method RevokeExpires(now: int)
      modifies this
      ensures cache == old(SweptAt(now)) && lastRevokeExpires == old(LastSweepAt(now))
      ensures revokeExpiresInterval == old(revokeExpiresInterval)
    {
      if now - lastRevokeExpires < revokeExpiresInterval {
        return;
      }
      lastRevokeExpires := now;
      ghost var before := cache;
      var expireKeys := set k | k in cache && cache[k].expires < now;
      var todo := expireKeys;
      while todo != {}
        invariant todo <= expireKeys
        invariant lastRevokeExpires == now && revokeExpiresInterval == old(revokeExpiresInterval)
        invariant forall k :: k in cache <==> k in before && k !in expireKeys - todo
        invariant forall k | k in cache :: cache[k] == before[k]
        decreases todo
      {
        var key :| key in todo;
        cache := cache - {key};
        todo := todo - {key};
      }
      assert cache == Revoked(before, now);
    }

    /** Stores `value` until `now + keepTime`, replacing any entry for `key`;
        a zero keep time stores nothing. */
    method Put(key: K, value: V, keepTime: int, now: int)
      modifies this
      ensures cache == if keepTime == 0 then old(SweptAt(now))
                       else old(SweptAt(now))[key := Entry(value, now + keepTime)]
      ensures lastRevokeExpires == old(LastSweepAt(now))
      ensures revokeExpiresInterval == old(revokeExpiresInterval)
    {
      RevokeExpires(now);
      if keepTime == 0 {
        return;
      }
      cache := cache[key := Entry(value, now + keepTime)];
    }

    /** The value stored for `key` if it expires strictly after `now`, else none
        (the C# out-parameter then holds `default(TValue)`). */
    method TryGetValue(key: K, now: int) returns (r: Option<V>)
      modifies this
      ensures r == Live(old(cache), key, now)
      ensures cache == old(SweptAt(now)) && lastRevokeExpires == old(LastSweepAt(now))
      ensures revokeExpiresInterval == old(revokeExpiresInterval)
    {
      ghost var before := cache;
      RevokeExpires(now);
      RevokedKeepsLive(before, key, now);
      if key in cache && cache[key].expires > now {
        r := Some(cache[key].value);
      } else {
        r := None;
      }
    }

    /** The live value for `key`, or `defaultValue`. */
    method GetOrDefault(key: K, defaultValue: V, now: int) returns (r: V)
      modifies this
      ensures r == Live(old(cache), key, now).GetOr(defaultValue)
      ensures cache == old(SweptAt(now)) && lastRevokeExpires == old(LastSweepAt(now))
      ensures revokeExpiresInterval == old(revokeExpiresInterval)
    {
      var found := TryGetValue(key, now);
      if found.Some? {
        return found.value;
      }
      r := defaultValue;
    }

    /** Returns the live value for `key` without calling `creator`; when the
        keep time is zero or there is no live value, calls `creator` once,
        stores its result and returns it. `created` tells whether it was called. */
    method GetOrCreate(key: K, creator: () -> V, keepTime: int, now: int) returns (value: V, created: bool)
      modifies this
      ensures created <==> keepTime == 0 || Live(old(cache), key, now).None?
      ensures value == if created then creator() else Live(old(cache), key, now).value
      ensures cache == if created && keepTime != 0 then old(SweptAt(now))[key := Entry(value, now + keepTime)]
                       else old(SweptAt(now))
      ensures lastRevokeExpires == old(LastSweepAt(now))
      ensures revokeExpiresInterval == old(revokeExpiresInterval)
    {
      if keepTime != 0 {
        var found := TryGetValue(key, now);
        if found.Some? {
          return found.value, false;
        }
        value := creator();
        created := true;
        Put(key, value, keepTime, now);
        RevokedIdempotent(old(cache), now);
        return;
      }
      value := creator();
      created := true;
      Put(key, value, keepTime, now);
    }

    /** Deletes the entry for `key` only. */
    method Remove(key: K, now: int)
      modifies this
      ensures cache == old(SweptAt(now)) - {key}
      ensures lastRevokeExpires == old(LastSweepAt(now))
      ensures revokeExpiresInterval == old(revokeExpiresInterval)
    {
      RevokeExpires(now);
      cache := cache - {key};
    }

    /** The number of stored entries, expired ones not yet swept included. */
    method Count() returns (n: int)
      ensures n == |cache.Keys|
    {
      n := |cache|;
    }

    /** Empties the cache. */
    method Clear()
      modifies this
      ensures cache == map[]
      ensures lastRevokeExpires == old(lastRevokeExpires)
      ensures revokeExpiresInterval == old(revokeExpiresInterval)
    {
      cache := map[];
    }
  }
}
