/** The older context helpers. The current context is the override, else
    the host's context, else none; request data and cookies go to the
    current context, or to per-thread fallback stores when there is none. */
module HttpContextUtils {
  import opened Common
  import opened DictionaryExtensions

  /** `new DateTime(1970, 1, 1)` in ticks. */
  const Jan1st1970: int := 621355968000000000
  /** `new DateTime(1971, 1, 1)` in ticks: a time's year is at most 1970
      exactly when it is before this. */
  const Jan1st1971: int := 621671328000000000
  /** `DateTime.MinValue` in ticks. */
  const MinValue: int := 0

  const DefaultClientIpAddress: string := "::1"
  const DefaultHostUrl: string := "http://localhost"

  /** A cookie as the request and response hold it (the value URL-encoded). */
  datatype Cookie = Cookie(name: string, value: Option<string>, expires: int, httpOnly: bool)

  /** An object in the request data as `GetData<T>` reads it: null, a `T`
      (here `V`), or an object of some other type. */
  datatype Stored<V> = Null | Typed(value: V) | OtherType

  /** A `T` or null, stored as such. */
  function StoredOf<V>(data: Option<V>): Stored<V>
  {
    if data.Some? then Typed(data.value) else Null
  }

  /** A request data table: values may be null or of any type. */
  type Items<V> = map<string, Stored<V>>

  /** `stored as T`: null unless the object is a `T`. */
  function AsT<V>(stored: Stored<V>): Option<V>
  {
    if stored.Typed? then Some(stored.value) else None
  }

  /** `GetData`: the stored value when it is a `T`, else `defaultValue`
      (a missing key, a null and an object of another type alike). */
  function DataIn<V>(items: Items<V>, key: string, defaultValue: Option<V>): (r: Option<V>)
    ensures key in items && items[key].Typed? ==> r == Some(items[key].value)
    ensures key !in items || !items[key].Typed? ==> r == defaultValue
  {
    var cast := AsT(GetOrDefault(items, Some(key), Null));
    if cast.Some? then cast else defaultValue
  }

  /** What `PutData` stores is what `GetData` returns when it is a `T`;
      a null or an object of another type reads as the default. */
  lemma PutThenGetData<V>(items: Items<V>, key: string, data: Stored<V>, defaultValue: Option<V>)
    ensures DataIn(items[key := data], key, defaultValue) == if data.Typed? then Some(data.value) else defaultValue
  {
  }

  /** After `RemoveData` the key reads as the default. */
  lemma RemoveThenGetData<V>(items: Items<V>, key: string, defaultValue: Option<V>)
    ensures DataIn(items - {key}, key, defaultValue) == defaultValue
  {
  }

  /** The fallback cookie table after `PutCookie`: an expiry in 1970 or
      earlier deletes the key, anything else (no expiry included) stores
      the value. */
  function FallbackPutCookie(cookies: map<string, Option<string>>, key: string, value: Option<string>,
                             expired: Option<int>): (r: map<string, Option<string>>)
    ensures expired.Some? && expired.value < Jan1st1971 ==> r == cookies - {key}
    ensures !(expired.Some? && expired.value < Jan1st1971) ==> r == cookies[key := value]
  {
    if expired.Some? && expired.value < Jan1st1971 then cookies - {key} else cookies[key := value]
  }

  /** `GetCookie` without a context. */
  function FallbackGetCookie(cookies: map<string, Option<string>>, key: string): (r: Option<string>)
    ensures key !in cookies ==> r == None
    ensures key in cookies ==> r == cookies[key]
  {
    GetOrDefault(cookies, Some(key), None)
  }

  /** The cookie `PutCookie` starts from: the response's, else the
      request's, else a new one. */
  function BaseCookie(request: map<string, Cookie>, response: map<string, Cookie>, key: string): Cookie
  {
    if key in response then response[key]
    else if key in request then request[key]
    else Cookie(key, None, MinValue, false)
  }

  /** The response cookies after `PutCookie` with a context: the base cookie
      with the given expiry (`MinValue` when none), flag and encoded value
      replaces any response cookie of that name. */
  function ContextPutCookie(request: map<string, Cookie>, response: map<string, Cookie>, key: string,
                            value: Option<string>, expired: Option<int>, httpOnly: bool,
                            encode: string -> string): (r: map<string, Cookie>)
    ensures key in r && r[key].expires == expired.GetOr(MinValue) && r[key].httpOnly == httpOnly
    ensures r[key].value == if value.Some? then Some(encode(value.value)) else None
    ensures r - {key} == response - {key}
  {
    var cookie := BaseCookie(request, response, key);
    var encoded := if value.Some? then Some(encode(value.value)) else None;
    response[key := cookie.(expires := expired.GetOr(MinValue), httpOnly := httpOnly, value := encoded)]
  }

  /** Whether the cookie `PutCookie` changes is the request's own object:
      the response cookie when it was taken from the request (its name is
      in `shared`), else the request's cookie when the response has none. */
  predicate BaseIsRequests(request: map<string, Cookie>, response: map<string, Cookie>, shared: set<string>,
                           key: string)
  {
    if key in response then key in shared else key in request
  }

  /** The request cookies after `PutCookie` with a context: when the changed
      cookie is the request's own object, the request sees the change. */
  function ContextPutRequestCookies(request: map<string, Cookie>, response: map<string, Cookie>,
                                    shared: set<string>, key: string, value: Option<string>,
                                    expired: Option<int>, httpOnly: bool,
                                    encode: string -> string): (r: map<string, Cookie>)
    ensures BaseIsRequests(request, response, shared, key) ==>
      r == request[key := ContextPutCookie(request, response, key, value, expired, httpOnly, encode)[key]]
    ensures !BaseIsRequests(request, response, shared, key) ==> r == request
  {
    if BaseIsRequests(request, response, shared, key)
    then request[key := ContextPutCookie(request, response, key, value, expired, httpOnly, encode)[key]]
    else request
  }

  /** The names whose response cookie is the request's own object after `PutCookie`. */
  function SharedAfterPut(request: map<string, Cookie>, response: map<string, Cookie>, shared: set<string>,
                          key: string): (r: set<string>)
    ensures key in r <==> BaseIsRequests(request, response, shared, key)
    ensures r - {key} == shared - {key}
  {
    if BaseIsRequests(request, response, shared, key) then shared + {key} else shared - {key}
  }

  /** Every shared name has a request and a response cookie, and they are equal. */
  predicate CookiesShared(request: map<string, Cookie>, response: map<string, Cookie>, shared: set<string>)
  {
    forall k | k in shared :: k in request && k in response && request[k] == response[k]
  }

  /** `PutCookie` with a context keeps shared cookies equal on both sides. */
  lemma PutCookieKeepsShared(request: map<string, Cookie>, response: map<string, Cookie>, shared: set<string>,
                             key: string, value: Option<string>, expired: Option<int>, httpOnly: bool,
                             encode: string -> string)
    requires CookiesShared(request, response, shared)
    ensures CookiesShared(ContextPutRequestCookies(request, response, shared, key, value, expired, httpOnly, encode),
                          ContextPutCookie(request, response, key, value, expired, httpOnly, encode),
                          SharedAfterPut(request, response, shared, key))
  {
  }

  /** A request cookie the response did not hold yet is changed in place by
      `PutCookie`, so the request reads the new value as well. */
  lemma PutCookieChangesRequestCookie(request: map<string, Cookie>, response: map<string, Cookie>,
                                      shared: set<string>, key: string, value: string, expired: Option<int>,
                                      httpOnly: bool, encode: string -> string, decode: string -> string)
    requires key in request && key !in response
    requires decode(encode(value)) == value && encode(value) != ""
    ensures var request' := ContextPutRequestCookies(request, response, shared, key, Some(value), expired, httpOnly, encode);
      ContextGetCookie(request', map[], key, decode) == Some(value)
  {
  }

  /** `GetCookie` with a context: the response cookie if one was put, else
      the request cookie; a missing cookie or an empty value is null,
      anything else is decoded. */
  function ContextGetCookie(request: map<string, Cookie>, response: map<string, Cookie>, key: string,
                            decode: string -> string): (r: Option<string>)
    ensures var c := if key in response then Some(response[key])
                     else if key in request then Some(request[key]) else None;
      if c.None? || !NonEmpty(c.value.value) then r == None
      else r == Some(decode(c.value.value.value))
  {
    var cookie := if key in response then Some(response[key])
                  else if key in request then Some(request[key]) else None;
    if cookie.None? || !NonEmpty(cookie.value.value) then None
    else Some(decode(cookie.value.value.value))
  }

  /** Without a context, a cookie put without expiry is read back as put. */
  lemma FallbackPutThenGet(cookies: map<string, Option<string>>, key: string, value: Option<string>)
    ensures FallbackGetCookie(FallbackPutCookie(cookies, key, value, None), key) == value
  {
  }

  /** With a context, a non-empty value put is read back through the codec. */
  lemma ContextPutThenGet(request: map<string, Cookie>, response: map<string, Cookie>, key: string,
                          value: string, expired: Option<int>, httpOnly: bool,
                          encode: string -> string, decode: string -> string)
    requires decode(encode(value)) == value && encode(value) != ""
    ensures ContextGetCookie(request, ContextPutCookie(request, response, key, Some(value), expired, httpOnly, encode),
                             key, decode) == Some(value)
  {
  }

  /** `RemoveCookie` hides the cookie from `GetCookie` on both paths: it
      deletes the fallback entry, and it gives the response cookie an empty
      value (URL encoding maps "" to ""). */
  lemma RemoveCookieHides(cookies: map<string, Option<string>>, request: map<string, Cookie>,
                          response: map<string, Cookie>, key: string, encode: string -> string,
                          decode: string -> string)
    requires encode("") == ""
    ensures FallbackGetCookie(FallbackPutCookie(cookies, key, Some(""), Some(Jan1st1970)), key) == None
    ensures ContextGetCookie(request, ContextPutCookie(request, response, key, Some(""), Some(Jan1st1970), false, encode),
                             key, decode) == None
  {
  }

  /** The URL `UseContext(path, method)` requests: the local host, a "/"
      when the path does not start with one, then the path. */
  function LocalUrl(path: string): (r: string)
    ensures StartsWith(r, DefaultHostUrl + "/") && EndsWith(r, path)
    ensures |r| == |DefaultHostUrl| + |path| + (if StartsWith(path, "/") then 0 else 1)
  {
    var r := DefaultHostUrl + (if StartsWith(path, "/") then "" else "/") + path;
    assert r[|r| - |path|..] == path;
    if StartsWith(path, "/") then
      assert r[..|DefaultHostUrl| + 1] == DefaultHostUrl + [path[0]] by { assert path[..1] == "/"; }
      r
    else
      assert r[..|DefaultHostUrl| + 1] == DefaultHostUrl + "/";
      r
  }

  /** "abc" and "/abc" request the same URL. */
  lemma LocalUrlLeadingSlash(path: string)
    requires !StartsWith(path, "/")
    ensures LocalUrl("/" + path) == LocalUrl(path)
  {
    assert StartsWith("/" + path, "/") by { assert ("/" + path)[..1] == "/"; }
    assert DefaultHostUrl + "/" + path == DefaultHostUrl + "" + ("/" + path);
  }

  /** A host or mock context, as far as these helpers read and write it. */
  class LegacyContext<V> {
    var items: Items<V>
    /** `Request.UserHostAddress`, none when the request or the address is null. */
    var userHostAddress: Option<string>
    /** `Request.Url.GetLeftPart(UriPartial.Authority)`. */
    var hostUrl: string
    var requestCookies: map<string, Cookie>
    var responseCookies: map<string, Cookie>
    /** The names whose response cookie is the request's own cookie object. */
    var sharedCookies: set<string>

    /** Everything but the request data: the request's fields and both cookie tables. */
    ghost function Others(): (Option<string>, string, map<string, Cookie>, map<string, Cookie>, set<string>)
      reads this
    {
      (userHostAddress, hostUrl, requestCookies, responseCookies, sharedCookies)
    }

    /** Everything the cookie helpers leave alone: the request data and the request's fields. */
    ghost function NonCookies(): (Items<V>, Option<string>, string)
      reads this
    {
      (items, userHostAddress, hostUrl)
    }

    constructor (userHostAddress: Option<string>, hostUrl: string, requestCookies: map<string, Cookie>)
      ensures this.userHostAddress == userHostAddress && this.hostUrl == hostUrl
      ensures this.requestCookies == requestCookies
      ensures items == map[] && responseCookies == map[] && sharedCookies == {}
    {
      this.userHostAddress := userHostAddress;
      this.hostUrl := hostUrl;
      this.requestCookies := requestCookies;
      items := map[];
      responseCookies := map[];
      sharedCookies := {};
    }

    /** The context branch of `PutCookie`: the base cookie is updated in
        place and replaces the response cookie of that name; when it is the
        request's own object, the request cookie changes with it. */
    method PutResponseCookie(key: string, value: Option<string>, expired: Option<int>, httpOnly: bool,
                             encode: string -> string)
      modifies this
      ensures responseCookies ==
        ContextPutCookie(old(requestCookies), old(responseCookies), key, value, expired, httpOnly, encode)
      ensures requestCookies == ContextPutRequestCookies(old(requestCookies), old(responseCookies),
                                                         old(sharedCookies), key, value, expired, httpOnly, encode)
      ensures sharedCookies == SharedAfterPut(old(requestCookies), old(responseCookies), old(sharedCookies), key)
      ensures items == old(items)
      ensures userHostAddress == old(userHostAddress) && hostUrl == old(hostUrl)
    {
      var cookie: Cookie;
      var fromRequest: bool;
      if key in responseCookies {
        cookie := responseCookies[key];
        fromRequest := key in sharedCookies;
      } else if key in requestCookies {
        cookie := requestCookies[key];
        fromRequest := true;
      } else {
        cookie := Cookie(key, None, MinValue, false);
        fromRequest := false;
      }
      assert fromRequest == BaseIsRequests(requestCookies, responseCookies, sharedCookies, key);
      ghost var base := cookie;
      assert base == BaseCookie(requestCookies, responseCookies, key);
      cookie := cookie.(expires := if expired.Some? then expired.value else MinValue);
      cookie := cookie.(httpOnly := httpOnly);
      cookie := cookie.(value := if value.Some? then Some(encode(value.value)) else None);
      assert cookie == base.(expires := expired.GetOr(MinValue), httpOnly := httpOnly,
                             value := if value.Some? then Some(encode(value.value)) else None);
      assert (responseCookies - {key})[key := cookie] == responseCookies[key := cookie];
      responseCookies := (responseCookies - {key})[key := cookie];
      if fromRequest {
        requestCookies := requestCookies[key := cookie];
        sharedCookies := sharedCookies + {key};
      } else {
        sharedCookies := sharedCookies - {key};
      }
    }
  }

  /** What `UseContext`'s disposer puts back. */
  datatype UseContextDisposer<V> = UseContextDisposer(original: Option<LegacyContext<V>>)

  /** The helpers' per-thread state. */
  class HttpContextUtils<V> {
    var overrideContext: Option<LegacyContext<V>>
    /** The host's own current context (`HttpContext.Current`), not changed here. */
    var hostContext: Option<LegacyContext<V>>
    var itemsFallback: Items<V>
    var cookiesFallback: map<string, Option<string>>

    constructor (hostContext: Option<LegacyContext<V>>)
      ensures this.hostContext == hostContext && overrideContext == None
      ensures itemsFallback == map[] && cookiesFallback == map[]
    {
      this.hostContext := hostContext;
      overrideContext := None;
      itemsFallback := map[];
      cookiesFallback := map[];
    }

    /** The override if set, else the host's context, else none. */
    function Current(): (r: Option<LegacyContext<V>>)
      reads this
      ensures overrideContext.Some? ==> r == overrideContext
      ensures overrideContext.None? ==> r == hostContext
    {
      if overrideContext.Some? then overrideContext else hostContext
    }

    function CurrentObjects(): set<object>
      reads this
    {
      if Current().Some? then {Current().value} else {}
    }

    method CurrentContext() returns (r: Option<LegacyContext<V>>)
      ensures r == Current()
      ensures r.None? <==> overrideContext.None? && hostContext.None?
    {
      if overrideContext.Some? {
        return overrideContext;
      } else if hostContext.Some? {
        return hostContext;
      }
      r := None;
    }

    method PutData(key: string, data: Stored<V>)
      modifies this, CurrentObjects()
      ensures overrideContext == old(overrideContext) && hostContext == old(hostContext)
      ensures Current().Some? ==> Current().value.Others() == old(Current().value.Others())
      ensures old(Current()).None? ==> itemsFallback == old(itemsFallback)[key := data]
      ensures old(Current()).Some? ==>
        Current().value.items == old(Current().value.items)[key := data] && itemsFallback == old(itemsFallback)
      ensures cookiesFallback == old(cookiesFallback)
    {
      var context := CurrentContext();
      if context.None? {
        itemsFallback := itemsFallback[key := data];
      } else {
        context.value.items := context.value.items[key := data];
      }
    }

    method GetData(key: string, defaultValue: Option<V>) returns (r: Option<V>)
      ensures Current().None? ==> r == DataIn(itemsFallback, key, defaultValue)
      ensures Current().Some? ==> r == DataIn(Current().value.items, key, defaultValue)
    {
      var context := CurrentContext();
      if context.None? {
        r := DataIn(itemsFallback, key, defaultValue);
      } else {
        r := DataIn(context.value.items, key, defaultValue);
      }
    }

    /** Returns the stored non-null value without calling `create`;
        otherwise calls it once, stores its result and returns it. */
    method GetOrCreateData(key: string, create: () -> Option<V>) returns (r: Option<V>, created: bool)
      modifies this, CurrentObjects()
      ensures overrideContext == old(overrideContext) && hostContext == old(hostContext)
      ensures var items := if old(Current()).None? then old(itemsFallback) else old(Current().value.items);
        (created <==> DataIn(items, key, None).None?) &&
        (!created ==> r == DataIn(items, key, None)) &&
        (created ==> r == create())
      ensures created ==> DataIn(if Current().None? then itemsFallback else Current().value.items, key, r) == r
      ensures !created ==>
        itemsFallback == old(itemsFallback) &&
        (Current().Some? ==> Current().value.items == old(Current().value.items))
      ensures created && old(Current()).None? ==> itemsFallback == old(itemsFallback)[key := StoredOf(r)]
      ensures created && old(Current()).Some? ==>
        Current().value.items == old(Current().value.items)[key := StoredOf(r)] && itemsFallback == old(itemsFallback)
      ensures Current().Some? ==> Current().value.Others() == old(Current().value.Others())
      ensures cookiesFallback == old(cookiesFallback)
    {
      r := GetData(key, None);
      created := false;
      if r.None? {
        r := create();
        created := true;
        PutData(key, StoredOf(r));
      }
    }

    method RemoveData(key: string)
      modifies this, CurrentObjects()
      ensures overrideContext == old(overrideContext) && hostContext == old(hostContext)
      ensures Current().Some? ==> Current().value.Others() == old(Current().value.Others())
      ensures old(Current()).None? ==> itemsFallback == old(itemsFallback) - {key}
      ensures old(Current()).Some? ==>
        Current().value.items == old(Current().value.items) - {key} && itemsFallback == old(itemsFallback)
      ensures cookiesFallback == old(cookiesFallback)
    {
      var context := CurrentContext();
      if context.None? {
        itemsFallback := itemsFallback - {key};
      } else {
        context.value.items := context.value.items - {key};
      }
    }

    /** The client address, "::1" without a context or without an address. */
    method GetClientIpAddress() returns (r: string)
      ensures Current().Some? && Current().value.userHostAddress.Some? ==> r == Current().value.userHostAddress.value
      ensures Current().None? || Current().value.userHostAddress.None? ==> r == DefaultClientIpAddress
    {
      var context := CurrentContext();
      if context.Some? && context.value.userHostAddress.Some? {
        return context.value.userHostAddress.value;
      }
      r := DefaultClientIpAddress;
    }

    /** The scheme and authority of the request, "http://localhost" without a context. */
    method GetRequestHostUrl() returns (r: string)
      ensures Current().None? ==> r == DefaultHostUrl
      ensures Current().Some? ==> r == Current().value.hostUrl
    {
      var context := CurrentContext();
      if context.None? {
        return DefaultHostUrl;
      }
      r := context.value.hostUrl;
    }

    method GetCookie(key: string, decode: string -> string) returns (r: Option<string>)
      ensures Current().None? ==> r == FallbackGetCookie(cookiesFallback, key)
      ensures Current().Some? ==>
        r == ContextGetCookie(Current().value.requestCookies, Current().value.responseCookies, key, decode)
    {
      var context := CurrentContext();
      if context.None? {
        return GetOrDefault(cookiesFallback, Some(key), None);
      }
      var cookie: Option<Cookie>;
      if key in context.value.responseCookies {
        cookie := Some(context.value.responseCookies[key]);
      } else if key in context.value.requestCookies {
        cookie := Some(context.value.requestCookies[key]);
      } else {
        cookie := None;
      }
      if cookie.None? || !NonEmpty(cookie.value.value) {
        return None;
      }
      r := Some(decode(cookie.value.value.value));
    }

    /** Always succeeds in this model (the original returns false only when
        the response throws, which is not modelled). */
    method PutCookie(key: string, value: Option<string>, expired: Option<int>, httpOnly: bool,
                     encode: string -> string) returns (ok: bool)
      modifies this, CurrentObjects()
      ensures ok
      ensures overrideContext == old(overrideContext) && hostContext == old(hostContext)
      ensures itemsFallback == old(itemsFallback)
      ensures Current().Some? ==> Current().value.NonCookies() == old(Current().value.NonCookies())
      ensures old(Current()).None? ==> cookiesFallback == FallbackPutCookie(old(cookiesFallback), key, value, expired)
      ensures old(Current()).Some? ==>
        cookiesFallback == old(cookiesFallback) &&
        Current().value.responseCookies ==
          ContextPutCookie(old(Current().value.requestCookies), old(Current().value.responseCookies),
                           key, value, expired, httpOnly, encode) &&
        Current().value.requestCookies ==
          ContextPutRequestCookies(old(Current().value.requestCookies), old(Current().value.responseCookies),
                                   old(Current().value.sharedCookies), key, value, expired, httpOnly, encode) &&
        Current().value.sharedCookies ==
          SharedAfterPut(old(Current().value.requestCookies), old(Current().value.responseCookies),
                         old(Current().value.sharedCookies), key)
    {
      var context := CurrentContext();
      if context.None? {
        if expired.Some? && expired.value < Jan1st1971 {
          cookiesFallback := cookiesFallback - {key};
        } else {
          cookiesFallback := cookiesFallback[key := value];
        }
        return true;
      }
      context.value.PutResponseCookie(key, value, expired, httpOnly, encode);
      ok := true;
    }

    /** `PutCookie` with an empty value expiring on 1 January 1970. */
    method RemoveCookie(key: string, encode: string -> string) returns (ok: bool)
      modifies this, CurrentObjects()
      ensures ok
      ensures overrideContext == old(overrideContext) && hostContext == old(hostContext)
      ensures itemsFallback == old(itemsFallback)
      ensures Current().Some? ==> Current().value.NonCookies() == old(Current().value.NonCookies())
      ensures old(Current()).None? ==> cookiesFallback == old(cookiesFallback) - {key}
      ensures old(Current()).Some? ==>
        cookiesFallback == old(cookiesFallback) &&
        Current().value.responseCookies ==
          ContextPutCookie(old(Current().value.requestCookies), old(Current().value.responseCookies),
                           key, Some(""), Some(Jan1st1970), false, encode) &&
        Current().value.requestCookies ==
          ContextPutRequestCookies(old(Current().value.requestCookies), old(Current().value.responseCookies),
                                   old(Current().value.sharedCookies), key, Some(""), Some(Jan1st1970), false, encode) &&
        Current().value.sharedCookies ==
          SharedAfterPut(old(Current().value.requestCookies), old(Current().value.responseCookies),
                         old(Current().value.sharedCookies), key)
    {
      ok := PutCookie(key, Some(""), Some(Jan1st1970), false, encode);
    }

    /** Makes `context` the override; the disposer restores the previous
        override unconditionally. */
    method UseContext(context: LegacyContext<V>) returns (d: UseContextDisposer<V>)
      modifies this
      ensures overrideContext == Some(context) && Current() == Some(context)
      ensures d == UseContextDisposer(old(overrideContext))
      ensures hostContext == old(hostContext) && itemsFallback == old(itemsFallback)
      ensures cookiesFallback == old(cookiesFallback)
    {
      d := UseContextDisposer(overrideContext);
      overrideContext := Some(context);
    }

    method Dispose(d: UseContextDisposer<V>)
      modifies this
      ensures overrideContext == d.original
      ensures hostContext == old(hostContext) && itemsFallback == old(itemsFallback)
      ensures cookiesFallback == old(cookiesFallback)
    {
      overrideContext := d.original;
    }
  }
}
