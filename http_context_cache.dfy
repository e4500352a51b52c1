/** A key-value cache that lives inside the current HTTP context: its
    storage is created lazily in the context's items under the cache's own
    key and disappears with the context. Without a current context every
    operation does nothing. */
module HttpContextCache {
  import opened Common
  import opened HttpManager

  /** What a context's items hold for this model: the storages of the
      caches, by context key. */
  type Items<K, V> = map<string, map<K, V>>

  /** The storage a cache with key `contextKey` sees, empty until created. */
  function StorageIn<K, V>(items: Items<K, V>, contextKey: string): (r: map<K, V>)
    ensures contextKey !in items ==> r == map[]
    ensures contextKey in items ==> r == items[contextKey]
  {
    if contextKey in items then items[contextKey] else map[]
  }

  /** The items after `GetStorage`: the cache's storage exists. */
  function WithStorage<K, V>(items: Items<K, V>, contextKey: string): (r: Items<K, V>)
    ensures contextKey in r && r[contextKey] == StorageIn(items, contextKey)
    ensures forall ck | ck in items :: ck in r && r[ck] == items[ck]
  {
    items[contextKey := StorageIn(items, contextKey)]
  }

  /** The items after the cache's storage is replaced by `storage`. */
  function Store<K, V>(items: Items<K, V>, contextKey: string, storage: map<K, V>): (r: Items<K, V>)
    ensures StorageIn(r, contextKey) == storage
    ensures forall ck | ck != contextKey :: StorageIn(r, ck) == StorageIn(items, ck)
  {
    items[contextKey := storage]
  }

  /** A value put under one context key is read back under it, whatever the keep time. */
  lemma PutThenGet<K, V>(items: Items<K, V>, contextKey: string, key: K, value: V)
    ensures var after := Store(items, contextKey, StorageIn(items, contextKey)[key := value]);
      key in StorageIn(after, contextKey) && StorageIn(after, contextKey)[key] == value
  {
  }

  /** Caches with different context keys never see each other's entries. */
  lemma KeysIsolate<K, V>(items: Items<K, V>, ck1: string, ck2: string, storage: map<K, V>)
    requires ck1 != ck2
    ensures StorageIn(Store(items, ck1, storage), ck2) == StorageIn(items, ck2)
  {
  }

  /** An HTTP context; only its items are modelled. */
  class HttpContext<K(==), V> {
    var items: Items<K, V>

    constructor ()
      ensures items == map[]
    {
      items := map[];
    }
  }

  /** The objects an operation may change: the current context, if any. */
  function CurrentObjects<K, V>(manager: HttpManager<HttpContext<K, V>>): set<object>
    reads manager
  {
    if manager.current.Some? then {manager.current.value} else {}
  }

  class HttpContextCache<K(==), V> {
    /** The key of this cache's storage in the context items (a random
        string in the original, a constructor argument here). */
    var contextKey: string

    constructor (contextKey: string)
      ensures this.contextKey == contextKey
    {
      this.contextKey := contextKey;
    }

    /** The storage of this cache in `ctx`, created empty when missing. */
    method GetStorage(ctx: HttpContext<K, V>) returns (storage: map<K, V>)
      modifies ctx
      ensures storage == StorageIn(old(ctx.items), contextKey)
      ensures ctx.items == WithStorage(old(ctx.items), contextKey)
    {
      if contextKey !in ctx.items {
        ctx.items := ctx.items[contextKey := map[]];
      }
      storage := ctx.items[contextKey];
    }

    /** Stores `value` under `key` in the current context; `keepTime` is not used. */
    method Put(manager: HttpManager<HttpContext<K, V>>, key: K, value: V, keepTime: int)
      modifies CurrentObjects(manager)
      ensures manager.current.Some? ==>
        manager.current.value.items == Store(old(manager.current.value.items), contextKey,
                                             StorageIn(old(manager.current.value.items), contextKey)[key := value])
    {
      var present := manager.CurrentContextExists();
      if !present {
        return;
      }
      var ctx := manager.current.value;
      var storage := GetStorage(ctx);
      ctx.items := ctx.items[contextKey := storage[key := value]];
    }

    /** The value stored under `key` in the current context; none without a context. */
    method TryGetValue(manager: HttpManager<HttpContext<K, V>>, key: K) returns (r: Option<V>)
      modifies CurrentObjects(manager)
      ensures manager.current.None? ==> r == None
      ensures manager.current.Some? ==>
        var storage := StorageIn(old(manager.current.value.items), contextKey);
        (r.Some? <==> key in storage) && (r.Some? ==> r.value == storage[key]) &&
        manager.current.value.items == WithStorage(old(manager.current.value.items), contextKey)
    {
      var present := manager.CurrentContextExists();
      if !present {
        return None;
      }
      var storage := GetStorage(manager.current.value);
      r := if key in storage then Some(storage[key]) else None;
    }

    /** Deletes `key` only from the current context's storage. */
    method Remove(manager: HttpManager<HttpContext<K, V>>, key: K)
      modifies CurrentObjects(manager)
      ensures manager.current.Some? ==>
        manager.current.value.items == Store(old(manager.current.value.items), contextKey,
                                             StorageIn(old(manager.current.value.items), contextKey) - {key})
    {
      var present := manager.CurrentContextExists();
      if !present {
        return;
      }
      var ctx := manager.current.value;
      var storage := GetStorage(ctx);
      ctx.items := ctx.items[contextKey := storage - {key}];
    }

    /** The number of entries in the current context's storage; 0 without a context. */
    method Count(manager: HttpManager<HttpContext<K, V>>) returns (n: int)
      modifies CurrentObjects(manager)
      ensures manager.current.None? ==> n == 0
      ensures manager.current.Some? ==>
        n == |StorageIn(old(manager.current.value.items), contextKey).Keys| &&
        manager.current.value.items == WithStorage(old(manager.current.value.items), contextKey)
    {
      var present := manager.CurrentContextExists();
      if !present {
        return 0;
      }
      var storage := GetStorage(manager.current.value);
      n := |storage|;
    }

    /** Empties the current context's storage. */
    method Clear(manager: HttpManager<HttpContext<K, V>>)
      modifies CurrentObjects(manager)
      ensures manager.current.Some? ==>
        manager.current.value.items == Store(old(manager.current.value.items), contextKey, map[])
    {
      var present := manager.CurrentContextExists();
      if !present {
        return;
      }
      var ctx := manager.current.value;
      var _ := GetStorage(ctx);
      ctx.items := ctx.items[contextKey := map[]];
    }
  }
}
