/** The dictionary helpers: a lookup with a fallback value, a lookup that
    creates and stores a missing value, and a typed lookup over an
    object-valued dictionary. */
module DictionaryExtensions {
  import opened Common

  /** `dict.GetOrDefault(key, defaultValue)`; a null key (`None`) never matches. */
  function GetOrDefault<K, V>(dict: map<K, V>, key: Option<K>, defaultValue: V): (r: V)
    ensures key.Some? && key.value in dict ==> r == dict[key.value]
    ensures key.None? || key.value !in dict ==> r == defaultValue
  {
    if key.Some? && key.value in dict then dict[key.value] else defaultValue
  }

  /** The typed lookup over a dictionary whose values may be null: an absent
      key, a null key or a null value gives `defaultValue`; anything else is
      passed to `convert` (the conversion helper, with `defaultValue` as its
      fallback). */
  function GetOrDefaultConverted<O, T>(dict: map<string, Option<O>>, key: Option<string>, defaultValue: T,
                                       convert: (O, T) -> T): (r: T)
    ensures GetOrDefault(dict, key, None).None? ==> r == defaultValue
    ensures GetOrDefault(dict, key, None).Some? ==> r == convert(dict[key.value].value, defaultValue)
  {
    var result := GetOrDefault(dict, key, None);
    if result.None? then defaultValue else convert(result.value, defaultValue)
  }

  /** A stored value is found, whatever the fallback. */
  lemma GetOrDefaultAfterStore<K, V>(dict: map<K, V>, key: K, value: V, defaultValue: V)
    ensures GetOrDefault(dict[key := value], Some(key), defaultValue) == value
  {
  }

  /** The typed lookup of a null entry is the fallback, whatever the conversion. */
  lemma ConvertedNullIsDefault<O, T>(dict: map<string, Option<O>>, key: string, defaultValue: T, convert: (O, T) -> T)
    requires key !in dict || dict[key].None?
    ensures GetOrDefaultConverted(dict, Some(key), defaultValue, convert) == defaultValue
  {
  }

  /** A mutable dictionary, as the helpers receive it. */
  class Dictionary<K(==), V> {
    var entries: map<K, V>

    constructor (entries: map<K, V>)
      ensures this.entries == entries
    {
      this.entries := entries;
    }

    /** Returns the stored value for `key` without calling `create`; when the
        key is absent, calls `create` once, stores its result under `key` and
        returns it. `created` tells whether `create` was called. */
    method GetOrCreate(key: K, create: () -> V) returns (value: V, created: bool)
      modifies this
      ensures created <==> key !in old(entries)
      ensures !created ==> value == old(entries)[key] && entries == old(entries)
      ensures created ==> value == create() && entries == old(entries)[key := value]
      ensures key in entries && GetOrDefault(entries, Some(key), value) == value
    {
      if key in entries {
        return entries[key], false;
      }
      value := create();
      entries := entries[key := value];
      created := true;
    }
  }
}
