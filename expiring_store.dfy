/** What both generations of the in-memory cache store: a table from key to
    (value, expiry time), read at an explicit time `now` in ticks. */
module ExpiringStore {
  import opened Common

  datatype Entry<V> = Entry(value: V, expires: int)

  type Table<K, V> = map<K, Entry<V>>

  /** The value a read at `now` sees: present and expiring strictly after `now`. */
  function Live<K, V>(t: Table<K, V>, key: K, now: int): (r: Option<V>)
    ensures r.Some? <==> key in t && t[key].expires > now
    ensures r.Some? ==> r.value == t[key].value
  {
    if key in t && t[key].expires > now then Some(t[key].value) else None
  }

  /** The table after a revocation pass at `now`: every entry whose expiry is
      strictly before `now` is gone, every other entry is kept as it was. */
  function Revoked<K, V>(t: Table<K, V>, now: int): (r: Table<K, V>)
    ensures r.Keys <= t.Keys
    ensures forall k | k in t :: k in r <==> t[k].expires >= now
    ensures forall k | k in r :: r[k] == t[k]
  {
    map k | k in t && t[k].expires >= now :: t[k]
  }

  /** A pass runs only once `interval` has elapsed since the last one. */
  predicate RevokeDue(lastRevoke: int, interval: int, now: int) {
    !(now - lastRevoke < interval)
  }

  /** Revocation never hides a value that a read at the same time would see. */
  lemma RevokedKeepsLive<K, V>(t: Table<K, V>, key: K, now: int)
    ensures Live(Revoked(t, now), key, now) == Live(t, key, now)
  {
  }

  /** A second pass at the same time removes nothing more. */
  lemma RevokedIdempotent<K, V>(t: Table<K, V>, now: int)
    ensures Revoked(Revoked(t, now), now) == Revoked(t, now)
  {
  }
}
