/** The older generation of the in-memory cache. It differs from the current
    one in three ways: the sweep interval is a fixed 180 seconds, `Put` has no
    zero-keep-time guard, and there is no `TryGetValue`/`GetOrCreate`.

    The functions on `CacheState` say what each operation does to the whole
    state; the class below performs them in place. The translation manager
    keeps its per-language caches as `CacheState` values. */
module LegacyMemoryCache {
  import opened Common
  import opened ExpiringStore

  /** Seconds between two sweeps, as ticks. */
  const RevokeExpiresInterval: int := 180 * TicksPerSecond

  datatype CacheState<K, V> = CacheState(cache: Table<K, V>, lastRevokeExpires: int)

  /** The state a sweep attempted at `now` leaves behind. */
  function Sweep<K, V>(s: CacheState<K, V>, now: int): (r: CacheState<K, V>)
    ensures RevokeDue(s.lastRevokeExpires, RevokeExpiresInterval, now) ==>
              r == CacheState(Revoked(s.cache, now), now)
    ensures !RevokeDue(s.lastRevokeExpires, RevokeExpiresInterval, now) ==> r == s
  {
    if now - s.lastRevokeExpires < RevokeExpiresInterval then s
    else CacheState(Revoked(s.cache, now), now)
  }

  /** `Put`: sweep, then store (value, now + keepTime) whatever the keep time. */
  function PutEntry<K, V>(s: CacheState<K, V>, key: K, value: V, keepTime: int, now: int): (r: CacheState<K, V>)
    ensures key in r.cache && r.cache[key] == Entry(value, now + keepTime)
    ensures r.cache - {key} == Sweep(s, now).cache - {key}
    ensures forall k | k in r.cache && k != key :: k in s.cache && r.cache[k] == s.cache[k]
    ensures r.lastRevokeExpires == Sweep(s, now).lastRevokeExpires
  {
    var swept := Sweep(s, now);
    swept.(cache := swept.cache[key := Entry(value, now + keepTime)])
  }

  /** `GetOrDefault`'s result: read after the sweep. */
  function Lookup<K, V>(s: CacheState<K, V>, key: K, defaultValue: V, now: int): (r: V)
    ensures r == Live(s.cache, key, now).GetOr(defaultValue)
  {
    var swept := Sweep(s, now);
    RevokedKeepsLive(s.cache, key, now);
    if key in swept.cache && swept.cache[key].expires > now then swept.cache[key].value else defaultValue
  }

  /** `Remove`: sweep, then drop `key` only. */
  function RemoveEntry<K, V>(s: CacheState<K, V>, key: K, now: int): (r: CacheState<K, V>)
    ensures key !in r.cache
    ensures r.cache == Sweep(s, now).cache - {key}
    ensures r.lastRevokeExpires == Sweep(s, now).lastRevokeExpires
  {
    var swept := Sweep(s, now);
    swept.(cache := swept.cache - {key})
  }

  /** A value put with a positive keep time is read back at the same time;
      one put with a zero (or negative) keep time never is. */
  lemma PutThenLookup<K, V>(s: CacheState<K, V>, key: K, value: V, keepTime: int, defaultValue: V, now: int)
    ensures Lookup(PutEntry(s, key, value, keepTime, now), key, defaultValue, now)
            == if keepTime > 0 then value else defaultValue
  {
  }

  /** A sweep never removes an entry that is still live at the sweep time. */
  lemma SweepKeepsLive<K, V>(s: CacheState<K, V>, key: K, now: int)
    ensures Live(Sweep(s, now).cache, key, now) == Live(s.cache, key, now)
  {
    RevokedKeepsLive(s.cache, key, now);
  }

  class MemoryCache<K(==), V> {
    /** { key: (value, expiry) } */
    var cache: Table<K, V>
    /** When the last sweep ran. */
    var lastRevokeExpires: int

    ghost function State(): CacheState<K, V>
      reads this
    {
      CacheState(cache, lastRevokeExpires)
    }

    constructor (now: int)
      ensures State() == CacheState(map[], now)
    {
      cache := map[];
      lastRevokeExpires := now;
    }

    /** Sweeps out the entries expired strictly before `now`, at most once per interval. */
    method RevokeExpires(now: int)
      modifies this
      ensures State() == Sweep(old(State()), now)
    {
      if now - lastRevokeExpires < RevokeExpiresInterval {
        return;
      }
      lastRevokeExpires := now;
      ghost var before := cache;
      var expireKeys := set k | k in cache && cache[k].expires < now;
      var todo := expireKeys;
      while todo != {}
        invariant todo <= expireKeys
        invariant lastRevokeExpires == now
        invariant forall k :: k in cache <==> k in before && k !in expireKeys - todo
        invariant forall k | k in cache :: cache[k] == before[k]
        decreases todo
      {
        var key :| key in todo;
        cache := cache - {key};
        todo := todo - {key};
      }
      assert cache == Revoked(before, now);
    }

    method Put(key: K, value: V, keepTime: int, now: int)
      modifies this
      ensures State() == PutEntry(old(State()), key, value, keepTime, now)
    {
      RevokeExpires(now);
      cache := cache[key := Entry(value, now + keepTime)];
    }

    method GetOrDefault(key: K, defaultValue: V, now: int) returns (r: V)
      modifies this
      ensures r == Lookup(old(State()), key, defaultValue, now)
      ensures State() == Sweep(old(State()), now)
    {
      RevokeExpires(now);
      if key in cache && cache[key].expires > now {
        return cache[key].value;
      }
      r := defaultValue;
    }

    method Remove(key: K, now: int)
      modifies this
      ensures State() == RemoveEntry(old(State()), key, now)
    {
      RevokeExpires(now);
      cache := cache - {key};
    }

    /** The number of stored entries, expired ones not yet swept included. */
    method Count() returns (n: int)
      ensures n == |cache.Keys|
    {
      n := |cache|;
    }

    method Clear()
      modifies this
      ensures State() == old(State()).(cache := map[])
    {
      cache := map[];
    }
  }
}
