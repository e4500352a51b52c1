/** The translation manager. Text is translated for a language code by the
    registered providers that accept the code, tried in reverse registration
    order; the first translation found wins and the text itself is the
    fallback. Provider lists and translations are cached per language in
    the older in-memory caches, for a configurable time (3 seconds unless
    configured). Clearing drops the translations but not the provider lists. */
module TranslateManager {
  import opened Common
  import opened ExpiringStore
  import opened LegacyMemoryCache

  /** A translation provider: the codes it accepts (`CanTranslate`) and
      its translations (`Translate`, null for text it does not know). */
  datatype TranslateProvider = TranslateProvider(codes: set<string>, translations: map<string, string>)

  function TranslateBy(p: TranslateProvider, text: string): (r: Option<string>)
    ensures r.Some? <==> text in p.translations
    ensures r.Some? ==> r.value == p.translations[text]
  {
    if text in p.translations then Some(p.translations[text]) else None
  }

  /** The providers accepting `code`, in registration order (`Where`). */
  function Accepting(ps: seq<TranslateProvider>, code: string): (r: seq<TranslateProvider>)
    ensures forall p | p in r :: p in ps && code in p.codes
    ensures forall p | p in ps && code in p.codes :: p in r
  {
    if |ps| == 0 then []
    else Accepting(ps[..|ps| - 1], code) + (if code in ps[|ps| - 1].codes then [ps[|ps| - 1]] else [])
  }

  /** `Reverse`. */
  function Reverse<T>(s: seq<T>): (r: seq<T>)
    ensures |r| == |s|
    ensures forall i | 0 <= i < |s| :: r[i] == s[|s| - 1 - i]
  {
    if |s| == 0 then [] else [s[|s| - 1]] + Reverse(s[..|s| - 1])
  }

  /** `GetTranslateProviders` before caching: accepting providers, last registered first. */
  function Candidates(ps: seq<TranslateProvider>, code: string): seq<TranslateProvider> {
    Reverse(Accepting(ps, code))
  }

  /** The first non-null translation over `ps`, in order. */
  function FirstTranslation(ps: seq<TranslateProvider>, text: string): (r: Option<string>)
    ensures r.None? <==> forall i | 0 <= i < |ps| :: TranslateBy(ps[i], text).None?
  {
    if |ps| == 0 then None
    else if TranslateBy(ps[0], text).Some? then TranslateBy(ps[0], text)
    else
      assert forall i | 1 <= i < |ps| :: ps[1..][i - 1] == ps[i];
      FirstTranslation(ps[1..], text)
  }

  /** A found translation is that of some provider all of whose predecessors know nothing. */
  lemma {:induction false} FirstTranslationIsFirst(ps: seq<TranslateProvider>, text: string)
    requires FirstTranslation(ps, text).Some?
    ensures exists i | 0 <= i < |ps| ::
      (TranslateBy(ps[i], text) == FirstTranslation(ps, text) &&
       forall j | 0 <= j < i :: TranslateBy(ps[j], text).None?)
    decreases |ps|
  {
    if TranslateBy(ps[0], text).None? {
      FirstTranslationIsFirst(ps[1..], text);
      var i :| 0 <= i < |ps[1..]| && TranslateBy(ps[1..][i], text) == FirstTranslation(ps[1..], text) &&
        forall j | 0 <= j < i :: TranslateBy(ps[1..][j], text).None?;
      assert TranslateBy(ps[i + 1], text) == FirstTranslation(ps, text);
      assert forall j | 1 <= j < i + 1 :: ps[j] == ps[1..][j - 1];
    } else {
      assert TranslateBy(ps[0], text) == FirstTranslation(ps, text);
    }
  }

  /** Extending the providers tried by one. */
  lemma {:induction false} FirstTranslationSnoc(ps: seq<TranslateProvider>, p: TranslateProvider, text: string)
    ensures FirstTranslation(ps + [p], text) ==
      if FirstTranslation(ps, text).Some? then FirstTranslation(ps, text) else TranslateBy(p, text)
    decreases |ps|
  {
    if |ps| > 0 {
      assert (ps + [p])[1..] == ps[1..] + [p];
      FirstTranslationSnoc(ps[1..], p, text);
    } else {
      assert (ps + [p])[1..] == [];
    }
  }

  /** The translation by the last registered provider that accepts the code
      and knows the text: a reference definition of what the reversed list yields. */
  function LastTranslation(ps: seq<TranslateProvider>, code: string, text: string): Option<string> {
    if |ps| == 0 then None
    else
      var p := ps[|ps| - 1];
      if code in p.codes && TranslateBy(p, text).Some? then TranslateBy(p, text)
      else LastTranslation(ps[..|ps| - 1], code, text)
  }

  /** Trying the candidates in order finds what the last registered
      accepting provider that knows the text says: later providers override
      earlier ones. */
  lemma {:induction false} CandidatesLastWins(ps: seq<TranslateProvider>, code: string, text: string)
    ensures FirstTranslation(Candidates(ps, code), text) == LastTranslation(ps, code, text)
    decreases |ps|
  {
    if |ps| > 0 {
      var last := |ps| - 1;
      var p := ps[last];
      var before := Accepting(ps[..last], code);
      CandidatesLastWins(ps[..last], code, text);
      if code in p.codes {
        assert Accepting(ps, code) == before + [p];
        ReverseSnoc(before, p);
        FirstTranslationCons(p, Reverse(before), text);
      } else {
        assert Accepting(ps, code) == before + [];
        assert before + [] == before;
      }
    }
  }

  /** Reversing a list with one more element at the end puts it first. */
  lemma ReverseSnoc<T>(s: seq<T>, x: T)
    ensures Reverse(s + [x]) == [x] + Reverse(s)
  {
    assert (s + [x])[..|s|] == s;
  }

  /** Trying a provider before the rest. */
  lemma FirstTranslationCons(p: TranslateProvider, rest: seq<TranslateProvider>, text: string)
    ensures FirstTranslation([p] + rest, text) ==
      if TranslateBy(p, text).Some? then TranslateBy(p, text) else FirstTranslation(rest, text)
  {
    assert ([p] + rest)[1..] == rest;
  }

  /** The translation of non-empty `text` for `code`: the first candidate's, or the text itself. */
  function Translation(ps: seq<TranslateProvider>, code: string, text: string): string {
    FirstTranslation(Candidates(ps, code), text).GetOr(text)
  }

  /** What the translation is, in terms of the registered providers alone. */
  lemma TranslationMeaning(ps: seq<TranslateProvider>, code: string, text: string)
    ensures LastTranslation(ps, code, text).Some? ==> Translation(ps, code, text) == LastTranslation(ps, code, text).value
    ensures LastTranslation(ps, code, text).None? ==> Translation(ps, code, text) == text
  {
    CandidatesLastWins(ps, code, text);
  }

  /** A provider that does not accept the code, wherever it is registered, changes no translation. */
  lemma {:induction false} NonAcceptingIgnored(a: seq<TranslateProvider>, p: TranslateProvider, b: seq<TranslateProvider>, code: string, text: string)
    requires code !in p.codes
    ensures LastTranslation(a + [p] + b, code, text) == LastTranslation(a + b, code, text)
    decreases |b|
  {
    if |b| == 0 {
      assert (a + [p] + b)[..|a + [p] + b| - 1] == a;
      assert a + b == a;
    } else {
      var last := |b| - 1;
      assert (a + [p] + b)[..|a + [p] + b| - 1] == a + [p] + b[..last];
      assert (a + b)[..|a + b| - 1] == a + b[..last];
      NonAcceptingIgnored(a, p, b[..last], code, text);
    }
  }

  /** `TranslateCacheTime` in ticks: the configured number of seconds, 3 by default. */
  function CacheTime(configuredSeconds: Option<int>): (r: int)
    ensures configuredSeconds.None? ==> r == 3 * TicksPerSecond
    ensures configuredSeconds.Some? ==> r == configuredSeconds.value * TicksPerSecond
  {
    configuredSeconds.GetOr(3) * TicksPerSecond
  }

  class TranslateManager {
    /** The registered providers, in resolution order. */
    const providers: seq<TranslateProvider>
    const translateCacheTime: int
    /** { code: { text: translation } } */
    var translateCache: map<string, CacheState<string, string>>
    /** { code: provider list } */
    var providersCache: CacheState<string, seq<TranslateProvider>>

    /** Every cached provider list and translation is what the providers give. */
    ghost predicate Valid()
      reads this
    {
      AllCached(providersCache.cache, code => Candidates(providers, code)) &&
      forall code | code in translateCache ::
        AllCached(translateCache[code].cache, text => Translation(providers, code, text))
    }

    constructor (providers: seq<TranslateProvider>, configuredSeconds: Option<int>, now: int)
      ensures Valid()
      ensures this.providers == providers && translateCacheTime == CacheTime(configuredSeconds)
      ensures translateCache == map[] && providersCache == CacheState(map[], now)
    {
      this.providers := providers;
      translateCacheTime := configuredSeconds.GetOr(3) * TicksPerSecond;
      translateCache := map[];
      providersCache := CacheState(map[], now);
    }

    /** Translates `text` for `code` at time `now`; null or empty text gives "". */
    method Translate(text: Option<string>, code: string, now: int) returns (r: string)
      requires Valid()
      modifies this
      ensures Valid()
      ensures !NonEmpty(text) ==> r == ""
      ensures NonEmpty(text) ==> r == Translation(providers, code, text.value)
      ensures NonEmpty(text) && code in old(translateCache) ==>
        var hit := Live(old(translateCache)[code].cache, text.value, now);
        hit.Some? ==> r == hit.value && providersCache == old(providersCache)
    {
      if !NonEmpty(text) {
        return "";
      }
      var t := text.value;
      ghost var f := (text: string) => Translation(providers, code, text);
      // the per-language cache, created on first use
      var localize := if code in translateCache then translateCache[code] else CacheState(map[], now);
      SweepKeepsLive(localize, t, now);
      SweepKeepsCached(localize, f, now);
      localize := Sweep(localize, now);
      translateCache := translateCache[code := localize];
      var hit := Live(localize.cache, t, now);
      if hit.Some? {
        return hit.value;
      }
      var ps := GetTranslateProviders(code, now);
      var translated := FirstOf(ps, t);
      r := translated.GetOr(t);
      PutKeepsCached(localize, t, f, translateCacheTime, now);
      translateCache := translateCache[code := PutEntry(localize, t, r, translateCacheTime, now)];
    }

    /** The providers for `code`: the cached list, else the accepting
        providers in reverse order, cached. */
    method GetTranslateProviders(code: string, now: int) returns (ps: seq<TranslateProvider>)
      requires Valid()
      modifies this
      ensures Valid()
      ensures ps == Candidates(providers, code)
      ensures translateCache == old(translateCache)
    {
      ghost var f := (code: string) => Candidates(providers, code);
      SweepKeepsLive(providersCache, code, now);
      SweepKeepsCached(providersCache, f, now);
      providersCache := Sweep(providersCache, now);
      var cached := Live(providersCache.cache, code, now);
      if cached.Some? {
        return cached.value;
      }
      ps := Reverse(Accepting(providers, code));
      PutKeepsCached(providersCache, code, f, translateCacheTime, now);
      providersCache := PutEntry(providersCache, code, ps, translateCacheTime, now);
    }

    /** Drops every cached translation; the provider lists stay cached. */
    method ClearCache()
      requires Valid()
      modifies this
      ensures Valid()
      ensures translateCache == map[] && providersCache == old(providersCache)
    {
      translateCache := map[];
    }
  }

  /** The first translation over `ps`, trying them in order until one knows `text`. */
  method FirstOf(ps: seq<TranslateProvider>, text: string) returns (translated: Option<string>)
    ensures translated == FirstTranslation(ps, text)
  {
    translated := None;
    var i := 0;
    while i < |ps| && translated.None?
      invariant 0 <= i <= |ps|
      invariant translated == FirstTranslation(ps[..i], text)
    {
      translated := TranslateBy(ps[i], text);
      FirstTranslationSnoc(ps[..i], ps[i], text);
      assert ps[..i + 1] == ps[..i] + [ps[i]];
      i := i + 1;
    }
    if i < |ps| {
      assert ps == ps[..i] + ps[i..];
      FirstTranslationKept(ps[..i], ps[i..], text);
    } else {
      assert ps[..i] == ps;
    }
  }

  /** Every cached value is what `f` gives for its key. */
  ghost predicate AllCached<K, V>(t: Table<K, V>, f: K -> V) {
    forall k | k in t :: t[k].value == f(k)
  }

  lemma SweepKeepsCached<K, V>(s: CacheState<K, V>, f: K -> V, now: int)
    requires AllCached(s.cache, f)
    ensures AllCached(Sweep(s, now).cache, f)
  {
  }

  lemma PutKeepsCached<K, V>(s: CacheState<K, V>, key: K, f: K -> V, keepTime: int, now: int)
    requires AllCached(s.cache, f)
    ensures AllCached(PutEntry(s, key, f(key), keepTime, now).cache, f)
  {
  }

  /** Once a translation is found, later providers do not change it. */
  lemma {:induction false} FirstTranslationKept(a: seq<TranslateProvider>, b: seq<TranslateProvider>, text: string)
    requires FirstTranslation(a, text).Some?
    ensures FirstTranslation(a + b, text) == FirstTranslation(a, text)
    decreases |a|
  {
    if TranslateBy(a[0], text).None? {
      assert (a + b)[1..] == a[1..] + b;
      FirstTranslationKept(a[1..], b, text);
    }
  }
}
