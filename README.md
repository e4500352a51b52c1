# ZKWeb core, modelled in Dafny

This project models the core of ZKWeb, a C# web framework, and proves
properties of that model. It covers:

- action routing by normalised path and HTTP method;
- the current HTTP context and the per-request cache stored in it;
- the legacy `HttpContextUtils` helpers;
- request header and parameter lookup;
- both generations of the expiring in-memory cache;
- dictionary helpers;
- the in-memory database session (save, delete, bulk update and delete, with callbacks);
- the entity-mapping builders for MongoDB and NHibernate;
- EF Core backend selection;
- the dependency-injection factory rules;
- translation lookup with its caches;
- template and resource path lookup;
- normalisation of the website configuration and of plugin information;
- the conditional file response of both `FileResult` generations.

Classes whose fields the C# code updates in place are Dafny classes with
`modifies` clauses. Pure logic is functions and lemmas. Each state-changing
method is tied to a value-level specification function, and the promised
properties are proved about that function.

Modelling conventions:

- A nullable reference is `Option`.
- A thrown exception is an error value (`Result` or `Outcome`).
- Time is a number of 100 ns ticks.
- The clock, the file system, path combination, JSON parsing and the host
  objects are parameters.

## Model

| member | source | states |
|---|---|---|
| Common.IndexOf | ZKWeb/Core/PathManager.cs:50 | `IndexOf(':')` is -1 iff the character is absent; otherwise it points at the character with no earlier occurrence |
| Routing.NormalizePath | ZKWeb/ZKWeb/Web/ControllerManager.cs:93-101 | the result starts with "/" and ends with "/" only when it is exactly "/" |
| Routing.TrimEnd | ZKWeb/ZKWeb/Web/ControllerManager.cs:95 | `TrimEnd('/')` keeps a prefix, removes only '/' characters and leaves no trailing '/' |
| Routing.NormalizedIsFixedPoint | ZKWeb/ZKWeb/Web/ControllerManager.cs:93-101 | an already normalised path is returned unchanged |
| Routing.NormalizePathIdempotent | ZKWeb/ZKWeb/Web/ControllerManager.cs:93-101 | normalising twice equals normalising once |
| Routing.NormalizedIffUnchanged | ZKWeb/ZKWeb/Web/ControllerManager.cs:93-101 | a path is normalised iff normalisation leaves it unchanged |
| Routing.LeadingSlashIrrelevant | ZKWeb/ZKWeb/Web/ControllerManager.cs:97-99 | "abc" and "/abc" normalise alike |
| Routing.TrailingSlashIrrelevant | ZKWeb/ZKWeb/Web/ControllerManager.cs:94-96 | "p/" and "p" normalise alike |
| Routing.ControllerManager.RegisterAction | ZKWeb/ZKWeb/Web/ControllerManager.cs:109-111 | without override, a taken (normalised path, method) pair is an ArgumentException with the table unchanged; otherwise only that entry is added |
| Routing.ControllerManager.RegisterActionWithOverride | ZKWeb/ZKWeb/Web/ControllerManager.cs:120-128 | with override, only that entry is replaced and every other entry is kept, including the same path under another method |
| Routing.ControllerManager.UnregisterAction | ZKWeb/ZKWeb/Web/ControllerManager.cs:136-140 | returns whether the normalised key was present, and removes exactly that key |
| Routing.ControllerManager.GetAction | ZKWeb/ZKWeb/Web/ControllerManager.cs:149-153 | returns the action under the normalised key, or null |
| DictionaryExtensions.GetOrDefault | ZKWebStandard/Extensions/IDictionaryExtensions.cs:18-25 | the stored value for a present non-null key, else the default |
| DictionaryExtensions.GetOrDefaultConverted | ZKWebStandard/Extensions/IDictionaryExtensions.cs:55-62 | the default when the key is absent or null or its value is null, else the converted value |
| DictionaryExtensions.GetOrDefaultAfterStore | ZKWebStandard/Extensions/IDictionaryExtensions.cs:18-25 | a value just stored is read back |
| DictionaryExtensions.ConvertedNullIsDefault | ZKWebStandard/Extensions/IDictionaryExtensions.cs:57-60 | a missing or null entry gives the default without conversion |
| DictionaryExtensions.Dictionary.GetOrCreate | ZKWebStandard/Extensions/IDictionaryExtensions.cs:36-44 | the factory runs iff the key is absent; its value is stored and returned, otherwise the stored value is returned and nothing changes |
| HttpManager.AfterDispose | ZKWeb/ZKWebStandard/Web/HttpManager.cs:39-44 | disposing restores the original context only while the overriding context is still current |
| HttpManager.NestedRestores | ZKWeb/ZKWebStandard/Web/HttpManager.cs:36-45 | overrides disposed in reverse order restore the context that was current before them |
| HttpManager.StaleDisposeIsIgnored | ZKWeb/ZKWebStandard/Web/HttpManager.cs:41 | a disposer whose context is no longer current changes nothing |
| HttpManager.HttpManager.CurrentContext | ZKWeb/ZKWebStandard/Web/HttpManager.cs:15-23 | the current context, or NullReferenceException("Context does not exists") iff there is none |
| HttpManager.HttpManager.CurrentContextExists | ZKWeb/ZKWebStandard/Web/HttpManager.cs:28 | true iff a context is current |
| HttpManager.HttpManager.OverrideContext | ZKWeb/ZKWebStandard/Web/HttpManager.cs:36-39 | the given context becomes current, and the disposer remembers the previous one |
| HttpManager.HttpManager.Dispose | ZKWeb/ZKWebStandard/Web/HttpManager.cs:39-44 | the new current context is `AfterDispose` of the old one |
| HttpContextCache.StorageIn | ZKWeb/ZKWebStandard/Collections/HttpContextCache.cs:33-36 | the dictionary under the context key, or an empty one |
| HttpContextCache.WithStorage | ZKWeb/ZKWebStandard/Collections/HttpContextCache.cs:34-35 | `GetOrCreate` adds the storage under the context key and keeps every other item |
| HttpContextCache.Store | ZKWeb/ZKWebStandard/Collections/HttpContextCache.cs:49 | writing one cache's storage leaves every other context key's storage as it was |
| HttpContextCache.PutThenGet | ZKWeb/ZKWebStandard/Collections/HttpContextCache.cs:44-66 | a value put in a context is found there |
| HttpContextCache.KeysIsolate | ZKWeb/ZKWebStandard/Collections/HttpContextCache.cs:25 | caches with different context keys do not see each other's entries |
| HttpContextCache.HttpContextCache.GetStorage | ZKWeb/ZKWebStandard/Collections/HttpContextCache.cs:33-36 | returns the storage and creates it in the items if missing |
| HttpContextCache.HttpContextCache.Put | ZKWeb/ZKWebStandard/Collections/HttpContextCache.cs:44-50 | with a context, stores the value under the key in that context's storage; without one, changes nothing |
| HttpContextCache.HttpContextCache.TryGetValue | ZKWeb/ZKWebStandard/Collections/HttpContextCache.cs:59-66 | not found without a context; otherwise the storage's entry |
| HttpContextCache.HttpContextCache.Remove | ZKWeb/ZKWebStandard/Collections/HttpContextCache.cs:72-78 | removes the key from the current context's storage only |
| HttpContextCache.HttpContextCache.Count | ZKWeb/ZKWebStandard/Collections/HttpContextCache.cs:84-90 | 0 without a context, else the number of stored keys |
| HttpContextCache.HttpContextCache.Clear | ZKWeb/ZKWebStandard/Collections/HttpContextCache.cs:95-101 | empties the current context's storage only |
| HttpContextUtils.DataIn | ZKWeb.Utils/Functions/HttpContextUtils.cs:71-79 | `GetData` yields the stored value when `as T` accepts it; a missing key, a null and an object of another type give the default |
| HttpContextUtils.PutThenGetData | ZKWeb.Utils/Functions/HttpContextUtils.cs:58-79 | data put is read back when it is a `T`; a null or an object of another type reads as the default |
| HttpContextUtils.RemoveThenGetData | ZKWeb.Utils/Functions/HttpContextUtils.cs:71-104 | after removal the key reads as the default |
| HttpContextUtils.FallbackPutCookie | ZKWeb.Utils/Functions/HttpContextUtils.cs:157-163 | without a context, an expiry whose year is 1970 or earlier deletes the cookie; otherwise the value is stored |
| HttpContextUtils.FallbackGetCookie | ZKWeb.Utils/Functions/HttpContextUtils.cs:133-135 | without a context, the stored value or null |
| HttpContextUtils.ContextPutCookie | ZKWeb.Utils/Functions/HttpContextUtils.cs:167-180 | the response cookie gets the expiry (`MinValue` when none), the HttpOnly flag and the encoded value; other response cookies are kept |
| HttpContextUtils.ContextPutRequestCookies | ZKWeb.Utils/Functions/HttpContextUtils.cs:167-177 | when the changed cookie is the request's own object, the request cookie takes the new expiry, flag and value; otherwise the request cookies stay as they were |
| HttpContextUtils.SharedAfterPut | ZKWeb.Utils/Functions/HttpContextUtils.cs:167-181 | after the put, the response cookie of that name is the request's object iff the base cookie was |
| HttpContextUtils.PutCookieKeepsShared | ZKWeb.Utils/Functions/HttpContextUtils.cs:167-181 | a shared request and response cookie stay equal through any put |
| HttpContextUtils.PutCookieChangesRequestCookie | ZKWeb.Utils/Functions/HttpContextUtils.cs:167-177 | putting a cookie that only the request held changes the request's cookie too, so it reads back the new value |
| HttpContextUtils.LegacyContext.PutResponseCookie | ZKWeb.Utils/Functions/HttpContextUtils.cs:167-181 | the response cookie becomes `ContextPutCookie`, the request cookies `ContextPutRequestCookies`, and the shared names `SharedAfterPut` |
| HttpContextUtils.ContextGetCookie | ZKWeb.Utils/Functions/HttpContextUtils.cs:138-147 | the response cookie wins over the request's; a missing or empty value is null, anything else is decoded |
| HttpContextUtils.FallbackPutThenGet | ZKWeb.Utils/Functions/HttpContextUtils.cs:130-164 | a cookie put without expiry and no context is read back |
| HttpContextUtils.ContextPutThenGet | ZKWeb.Utils/Functions/HttpContextUtils.cs:130-185 | with a context, a non-empty value put is read back through the URL codec |
| HttpContextUtils.RemoveCookieHides | ZKWeb.Utils/Functions/HttpContextUtils.cs:190-192 | after `RemoveCookie` the cookie reads as null with and without a context |
| HttpContextUtils.LocalUrl | ZKWeb.Utils/Functions/HttpContextUtils.cs:245-247 | the URL is "http://localhost/" followed by the path, adding "/" only when the path lacks one |
| HttpContextUtils.LocalUrlLeadingSlash | ZKWeb.Utils/Functions/HttpContextUtils.cs:246 | "abc" and "/abc" give the same URL |
| HttpContextUtils.HttpContextUtils.Current | ZKWeb.Utils/Functions/HttpContextUtils.cs:29-37 | the override context if set, else the host's context, else none |
| HttpContextUtils.HttpContextUtils.CurrentContext | ZKWeb.Utils/Functions/HttpContextUtils.cs:29-37 | is none iff neither an override nor a host context exists |
| HttpContextUtils.HttpContextUtils.PutData | ZKWeb.Utils/Functions/HttpContextUtils.cs:58-66 | stores into the current context's items, or into the fallback items without a context; the contexts, the context's cookies and request fields, and the cookie fallback are unchanged |
| HttpContextUtils.HttpContextUtils.GetData | ZKWeb.Utils/Functions/HttpContextUtils.cs:71-79 | reads `DataIn` of the current context's items, or of the fallback, so an object of another type reads as the default |
| HttpContextUtils.HttpContextUtils.GetOrCreateData | ZKWeb.Utils/Functions/HttpContextUtils.cs:84-92 | on a hit returns the stored value and changes nothing; otherwise calls the creator once and leaves the state `PutData` of its result gives; the context's cookies and request fields and the cookie fallback are unchanged either way |
| HttpContextUtils.HttpContextUtils.RemoveData | ZKWeb.Utils/Functions/HttpContextUtils.cs:97-104 | removes the key from the current items, or from the fallback; the contexts, the context's cookies and request fields, and the cookie fallback are unchanged |
| HttpContextUtils.HttpContextUtils.GetClientIpAddress | ZKWeb.Utils/Functions/HttpContextUtils.cs:110-112 | the request's address, else "::1" |
| HttpContextUtils.HttpContextUtils.GetRequestHostUrl | ZKWeb.Utils/Functions/HttpContextUtils.cs:119-125 | "http://localhost" without a context, else the request's authority |
| HttpContextUtils.HttpContextUtils.GetCookie | ZKWeb.Utils/Functions/HttpContextUtils.cs:130-148 | `FallbackGetCookie` without a context, `ContextGetCookie` with one |
| HttpContextUtils.HttpContextUtils.PutCookie | ZKWeb.Utils/Functions/HttpContextUtils.cs:153-185 | `FallbackPutCookie` without a context; with one, `ContextPutCookie` on the response cookies, `ContextPutRequestCookies` on the request cookies it aliases and `SharedAfterPut` on the shared names; the contexts, the context's items and request fields, and the data fallback are unchanged |
| HttpContextUtils.HttpContextUtils.RemoveCookie | ZKWeb.Utils/Functions/HttpContextUtils.cs:190-192 | deletes the fallback cookie, or writes an empty cookie expiring on 1 January 1970 through the same aliasing as `PutCookie`; the contexts, the context's items and request fields, and the data fallback are unchanged |
| HttpContextUtils.HttpContextUtils.UseContext | ZKWeb.Utils/Functions/HttpContextUtils.cs:200-204 | the context becomes the override, and the disposer remembers the previous override |
| HttpContextUtils.HttpContextUtils.Dispose | ZKWeb.Utils/Functions/HttpContextUtils.cs:203 | the disposer puts the previous override back unconditionally |
| HttpRequestExtensions.GetHeader | ZKWeb/ZKWebStandard/Extensions/IHttpRequestExtensions.cs:19 | a header is present iff it is in the request, and then it is the request's value |
| HttpRequestExtensions.IsAjaxRequest | ZKWeb/ZKWebStandard/Extensions/IHttpRequestExtensions.cs:18-20 | true iff X-Requested-With is present and equals "XMLHttpRequest" |
| HttpRequestExtensions.Split | ZKWeb/ZKWebStandard/Extensions/IHttpRequestExtensions.cs:38 | `Split` gives at least one piece, and no piece holds the separator |
| HttpRequestExtensions.JoinSplit | ZKWeb/ZKWebStandard/Extensions/IHttpRequestExtensions.cs:38 | joining the pieces of a split gives the input back |
| HttpRequestExtensions.SplitJoin | ZKWeb/ZKWebStandard/Extensions/IHttpRequestExtensions.cs:38 | splitting the join of separator-free pieces gives the pieces back |
| HttpRequestExtensions.BeforeFirst | ZKWeb/ZKWebStandard/Extensions/IHttpRequestExtensions.cs:38 | `Split(';')[0]` is the longest prefix without ';' |
| HttpRequestExtensions.GetAcceptLanguages | ZKWeb/ZKWebStandard/Extensions/IHttpRequestExtensions.cs:36-40 | one language per ','-piece of the header (missing header read as ""), each cut at its first ';' |
| HttpRequestExtensions.AcceptLanguagesShape | ZKWeb/ZKWebStandard/Extensions/IHttpRequestExtensions.cs:37-38 | no language holds ',' or ';', and a missing header gives [""] |
| HttpRequestExtensions.FirstIndexOfKey | ZKWeb/ZKWebStandard/Extensions/IHttpRequestExtensions.cs:89-91 | the index of the first argument with that name, or -1 when none has it |
| HttpRequestExtensions.ValuesOf | ZKWeb/ZKWebStandard/Extensions/IHttpRequestExtensions.cs:89-91 | the value list of the first argument with that name, or null |
| HttpRequestExtensions.Get | ZKWeb/ZKWebStandard/Extensions/IHttpRequestExtensions.cs:88-97 | the form list if non-empty, else the query list; the default when both are null or empty, else the first value converted |
| HttpRequestExtensions.GetAll | ZKWeb/ZKWebStandard/Extensions/IHttpRequestExtensions.cs:105-112 | every form argument, then every query argument, in order |
| HttpRequestExtensions.FirstOccurrenceSpec | ZKWeb/ZKWebStandard/Extensions/IHttpRequestExtensions.cs:120-128 | the dictionary's names are exactly the argument names, each mapped to the values of its first occurrence |
| HttpRequestExtensions.GetAllDictionary | ZKWeb/ZKWebStandard/Extensions/IHttpRequestExtensions.cs:120-128 | the loop builds the first-occurrence dictionary of `GetAll` |
| HttpRequestExtensions.FormWinsInDictionary | ZKWeb/ZKWebStandard/Extensions/IHttpRequestExtensions.cs:105-128 | a name in the form maps to its form values even when the query also has it |
| HttpRequestExtensions.GetAgreesWithDictionary | ZKWeb/ZKWebStandard/Extensions/IHttpRequestExtensions.cs:88-128 | when the form has values for a key, `Get` converts the first value in the dictionary's list |
| HttpRequestExtensions.GetIfModifiedSince | ZKWeb/ZKWebStandard/Extensions/IHttpRequestExtensions.cs:48-59 | a missing, empty or unparsable header is `MinValue`; otherwise the parsed time |
| HttpRequestExtensions.GetReferer | ZKWeb/ZKWebStandard/Extensions/IHttpRequestExtensions.cs:67-77 | null without the header; otherwise the result of parsing it as an absolute URI |
| ExpiringStore.Live | ZKWeb/ZKWebStandard/Collections/MemoryCache.cs:99-106 | a value is seen iff its key is stored with an expiry strictly after now |
| ExpiringStore.Revoked | ZKWeb/ZKWebStandard/Collections/MemoryCache.cs:58-61 | a sweep removes exactly the entries expiring strictly before now and keeps the rest unchanged |
| ExpiringStore.RevokedKeepsLive | ZKWeb/ZKWebStandard/Collections/MemoryCache.cs:58-61 | a sweep never hides a value that a read at the same time would see |
| ExpiringStore.RevokedIdempotent | ZKWeb/ZKWebStandard/Collections/MemoryCache.cs:58-61 | a second sweep at the same time removes nothing more |
| MemoryCache.MemoryCache.constructor | ZKWeb/ZKWebStandard/Collections/MemoryCache.cs:36-41 | an empty cache with a 180-second sweep interval whose last sweep is now |
| MemoryCache.MemoryCache.RevokeExpires | ZKWeb/ZKWebStandard/Collections/MemoryCache.cs:47-65 | sweeps and records the time only when the interval has elapsed; otherwise changes nothing |
| MemoryCache.MemoryCache.Put | ZKWeb/ZKWebStandard/Collections/MemoryCache.cs:73-85 | after the sweep, a zero keep time stores nothing; otherwise only the key's entry becomes (value, now + keepTime) |
| MemoryCache.MemoryCache.TryGetValue | ZKWeb/ZKWebStandard/Collections/MemoryCache.cs:94-110 | finds the value iff it expires strictly after now; the only state change is the sweep |
| MemoryCache.MemoryCache.GetOrDefault | ZKWeb/ZKWebStandard/Collections/MemoryCache.cs:119-125 | the live value, else the default |
| MemoryCache.MemoryCache.GetOrCreate | ZKWeb/ZKWebStandard/Collections/MemoryCache.cs:136-143 | the creator runs iff the keep time is zero or nothing live is stored; its value is returned and stored unless the keep time is zero; the table and the last sweep time are those of one sweep attempt |
| MemoryCache.MemoryCache.Remove | ZKWeb/ZKWebStandard/Collections/MemoryCache.cs:149-157 | after the sweep, removes that key only |
| MemoryCache.MemoryCache.Count | ZKWeb/ZKWebStandard/Collections/MemoryCache.cs:163-170 | the number of stored entries, including expired ones not yet swept |
| MemoryCache.MemoryCache.Clear | ZKWeb/ZKWebStandard/Collections/MemoryCache.cs:175-182 | empties the table and leaves the sweep time alone |
| LegacyMemoryCache.Sweep | ZKWeb.Utils/Collections/MemoryCache.cs:43-61 | once 180 seconds have passed since the last sweep, removes the entries expiring before now and records the time; otherwise the state is unchanged |
| LegacyMemoryCache.PutEntry | ZKWeb.Utils/Collections/MemoryCache.cs:69-78 | after the sweep, the key holds (value, now + keepTime) even for a zero keep time, and every other entry is kept |
| LegacyMemoryCache.Lookup | ZKWeb.Utils/Collections/MemoryCache.cs:87-100 | the value if it expires strictly after now, else the default |
| LegacyMemoryCache.RemoveEntry | ZKWeb.Utils/Collections/MemoryCache.cs:106-114 | after the sweep, exactly that key is gone |
| LegacyMemoryCache.PutThenLookup | ZKWeb.Utils/Collections/MemoryCache.cs:69-100 | a value put with a positive keep time is read back at the same time |
| LegacyMemoryCache.SweepKeepsLive | ZKWeb.Utils/Collections/MemoryCache.cs:54-57 | a sweep never removes an entry that is live at the sweep time |
| LegacyMemoryCache.MemoryCache.constructor | ZKWeb.Utils/Collections/MemoryCache.cs:27-37 | an empty table whose last sweep is now |
| LegacyMemoryCache.MemoryCache.RevokeExpires | ZKWeb.Utils/Collections/MemoryCache.cs:43-61 | the new state is `Sweep` of the old one |
| LegacyMemoryCache.MemoryCache.Put | ZKWeb.Utils/Collections/MemoryCache.cs:69-78 | the new state is `PutEntry` of the old one |
| LegacyMemoryCache.MemoryCache.GetOrDefault | ZKWeb.Utils/Collections/MemoryCache.cs:87-100 | returns `Lookup`, and only the sweep changes the state |
| LegacyMemoryCache.MemoryCache.Remove | ZKWeb.Utils/Collections/MemoryCache.cs:106-114 | the new state is `RemoveEntry` of the old one |
| LegacyMemoryCache.MemoryCache.Count | ZKWeb.Utils/Collections/MemoryCache.cs:120-127 | the number of stored entries, including expired ones not yet swept |
| LegacyMemoryCache.MemoryCache.Clear | ZKWeb.Utils/Collections/MemoryCache.cs:132-139 | empties the table and leaves the sweep time alone |
| DatabaseContext.IndexOfId | ZKWeb/Database/DatabaseContext.cs:94 | the position of the row with that identity, or -1 when the session has none |
| DatabaseContext.Merge | ZKWeb/Database/DatabaseContext.cs:94 | `Session.Merge` replaces the row with the same identity, or else appends a copy under a fresh id; either way it returns the stored row |
| DatabaseContext.MergeValid | ZKWeb/Database/DatabaseContext.cs:94 | a merge keeps identities positive, unique and ascending |
| DatabaseContext.RemoveId | ZKWeb/Database/DatabaseContext.cs:109 | `Session.Delete` removes the row with that identity and keeps the others in order; nothing changes when there is none |
| DatabaseContext.RemoveIdValid | ZKWeb/Database/DatabaseContext.cs:109 | a delete keeps the table valid and leaves no row with that id |
| DatabaseContext.Names | ZKWeb/Database/DatabaseContext.cs:90 | the save callbacks, in resolution order |
| DatabaseContext.EachCallback | ZKWeb/Database/DatabaseContext.cs:92-111 | one hook call per callback, in order |
| DatabaseContext.SaveEventsShape | ZKWeb/Database/DatabaseContext.cs:88-98 | a save calls every BeforeSave, then writes, then calls every AfterSave with the merged row |
| DatabaseContext.DeleteEventsShape | ZKWeb/Database/DatabaseContext.cs:105-112 | a delete calls every BeforeDelete, then removes, then calls every AfterDelete |
| DatabaseContext.FirstMatch | ZKWeb/Database/DatabaseContext.cs:55-58 | null iff no row matches; otherwise a matching row of the table |
| DatabaseContext.CountMatching | ZKWeb/Database/DatabaseContext.cs:66-69 | the number of matching rows, at most the table size |
| DatabaseContext.Unmatched | ZKWeb/Database/DatabaseContext.cs:134-139 | what a bulk delete keeps holds no matching row |
| DatabaseContext.UnmatchedKeepsRows | ZKWeb/Database/DatabaseContext.cs:134-139 | a bulk delete keeps only rows of the table |
| DatabaseContext.UnmatchedKeepsNonMatching | ZKWeb/Database/DatabaseContext.cs:134-139 | a bulk delete keeps every row that does not match |
| DatabaseContext.UnmatchedAppend | ZKWeb/Database/DatabaseContext.cs:134-139 | a bulk delete keeps the rows' order: over a concatenation it is the concatenation of the two results |
| DatabaseContext.UpdatedRows | ZKWeb/Database/DatabaseContext.cs:121-126 | a bulk update keeps every identity and every non-matching row; each matching row holds the callbacks' data with the update applied |
| DatabaseContext.CountPlusUnmatched | ZKWeb/Database/DatabaseContext.cs:134-139 | every row is either counted as deleted or kept |
| DatabaseContext.NothingMatchesAfterDeleteWhere | ZKWeb/Database/DatabaseContext.cs:134-139 | after a bulk delete, `Get` with the same predicate is null and `Count` is 0 |
| DatabaseContext.BulkDeleteCount | ZKWeb/Database/DatabaseContext.cs:134-139 | the rows kept are the table size minus the count returned |
| DatabaseContext.UpdateWhereTouchesOnlyMatches | ZKWeb/Database/DatabaseContext.cs:121-126 | a row changed by a bulk update matched the predicate |
| DatabaseContext.SaveOfExistingIsNoInsert | ZKWeb/Database/DatabaseContext.cs:94 | saving a row already in the session updates it in place and adds none |
| DatabaseContext.SaveOfNewInserts | ZKWeb/Database/DatabaseContext.cs:94 | saving a new object adds exactly one row, found by its new id |
| DatabaseContext.UpdatedRowsValid | ZKWeb/Database/DatabaseContext.cs:121-126 | a bulk update keeps the table valid |
| DatabaseContext.UnmatchedValid | ZKWeb/Database/DatabaseContext.cs:134-139 | a bulk delete keeps the table valid |
| DatabaseContext.DatabaseContext.constructor | ZKWeb/Database/DatabaseContext.cs:36-39 | opens a session on the committed table with an empty log and a transaction not yet committed |
| DatabaseContext.DatabaseContext.Dispose | ZKWeb/Database/DatabaseContext.cs:44-47 | ends the session: every later operation requires a live session, so use after `Dispose` is refused; the committed table keeps only what was committed |
| DatabaseContext.DatabaseContext.Get | ZKWeb/Database/DatabaseContext.cs:55-58 | on a live session, returns `FirstMatch` of the session |
| DatabaseContext.DatabaseContext.Count | ZKWeb/Database/DatabaseContext.cs:66-69 | on a live session, returns `CountMatching` of the session |
| DatabaseContext.DatabaseContext.RunBeforeSave | ZKWeb/Database/DatabaseContext.cs:92 | every save callback sees the data, in order |
| DatabaseContext.DatabaseContext.Save | ZKWeb/Database/DatabaseContext.cs:88-98 | merges the prepared data, returns the stored row, keeps the session valid and logs BeforeSave*, the write and AfterSave* |
| DatabaseContext.DatabaseContext.Delete | ZKWeb/Database/DatabaseContext.cs:105-112 | removes the row, keeps the session valid and logs BeforeDelete*, the removal and AfterDelete* |
| DatabaseContext.DatabaseContext.UpdateWhere | ZKWeb/Database/DatabaseContext.cs:121-126 | the session becomes `UpdatedRows`, the count is `CountMatching`, and the log holds one save per match in order |
| DatabaseContext.DatabaseContext.DeleteWhere | ZKWeb/Database/DatabaseContext.cs:134-139 | the session becomes `Unmatched`, the count is `CountMatching`, and the log holds one delete per match in order |
| DatabaseContext.DatabaseContext.SaveChanges | ZKWeb/Database/DatabaseContext.cs:145-148 | on a live session whose transaction is not yet committed, commits the session's table to the store and marks the transaction committed, so it cannot commit again |
| MappingOptions.OrDefault | ZKWeb/ZKWeb.ORM.MongoDB/MongoDBEntityMappingBuilder.cs:97 | null options read as a fresh `EntityMappingOptions` with nothing set |
| MongoMapping.LiftedNot | ZKWeb/ZKWeb.ORM.MongoDB/MongoDBEntityMappingBuilder.cs:138 | `!` on a nullable bool keeps null and negates a value |
| MongoMapping.ElementName | ZKWeb/ZKWeb.ORM.MongoDB/MongoDBEntityMappingBuilder.cs:101-103 | the element name is set iff Column is non-empty, and then it is Column |
| MongoMapping.IndexFor | ZKWeb/ZKWeb.ORM.MongoDB/MongoDBEntityMappingBuilder.cs:128-141 | an index is queued iff Unique is true or Index is non-empty; it is background, Unique is passed through, and Sparse is `!Unique` |
| MongoMapping.IndexSparseness | ZKWeb/ZKWeb.ORM.MongoDB/MongoDBEntityMappingBuilder.cs:135-139 | a unique index is not sparse, an explicitly non-unique one is sparse, and one with Unique unset leaves both unset |
| MongoMapping.AsSeq | ZKWeb/ZKWeb.ORM.MongoDB/MongoDBEntityMappingBuilder.cs:128-142 | at most one collection action is added per `Map` |
| MongoMapping.RunAppend | ZKWeb/ZKWeb.ORM.MongoDB/MongoDBEntityMappingBuilder.cs:66-68 | running the providers one after another equals running their concatenated directives |
| MongoMapping.MappedMembersAppend | ZKWeb/ZKWeb.ORM.MongoDB/MongoDBEntityMappingBuilder.cs:116 | the mapped members of concatenated directives concatenate |
| MongoMapping.RunOrdinaryMembers | ZKWeb/ZKWeb.ORM.MongoDB/MongoDBEntityMappingBuilder.cs:115-116 | `OrdinaryMembers` gains exactly the member of each `Map`, in order |
| MongoMapping.LastId | ZKWeb/ZKWeb.ORM.MongoDB/MongoDBEntityMappingBuilder.cs:98 | the member of the last `Id` directive, which is none iff there is no `Id` |
| MongoMapping.RunIdMember | ZKWeb/ZKWeb.ORM.MongoDB/MongoDBEntityMappingBuilder.cs:98 | `IdMember` is the last `Id` call's member, or stays null without one |
| MongoMapping.RunCollectionActions | ZKWeb/ZKWeb.ORM.MongoDB/MongoDBEntityMappingBuilder.cs:128-142 | only `Map` queues collection actions, one index per indexed member, in order |
| MongoMapping.RelationshipsOnlyLog | ZKWeb/ZKWeb.ORM.MongoDB/MongoDBEntityMappingBuilder.cs:149-182 | References, HasMany and HasManyToMany log one error and change nothing else |
| MongoMapping.Register | ZKWeb/ZKWeb.ORM.MongoDB/MongoDBEntityMappingBuilder.cs:70-75 | a class map is registered only when none exists for the type, with the map actions and extra elements ignored; other types are kept |
| MongoMapping.RegisterOnce | ZKWeb/ZKWeb.ORM.MongoDB/MongoDBEntityMappingBuilder.cs:70 | a later configuration of the same type is ignored |
| MongoMapping.ConvertAllAppend | ZKWeb/ZKWeb.ORM.MongoDB/MongoDBEntityMappingBuilder.cs:77-80 | the handlers rewrite the collection name one after another, in order |
| MongoMapping.OnCollection | ZKWeb/ZKWeb.ORM.MongoDB/MongoDBEntityMappingBuilder.cs:82-85 | every queued index is created on the converted collection, in order |
| MongoMapping.MongoEntityMappingBuilder.constructor | ZKWeb/ZKWeb.ORM.MongoDB/MongoDBEntityMappingBuilder.cs:58-86 | the state is the run of every provider's directives; then the class map is registered, the collection name converted and the indexes created |
| MongoMapping.MongoEntityMappingBuilder.Apply | ZKWeb/ZKWeb.ORM.MongoDB/MongoDBEntityMappingBuilder.cs:67 | one directive changes the state as `Step` says |
| MongoMapping.MongoEntityMappingBuilder.Id | ZKWeb/ZKWeb.ORM.MongoDB/MongoDBEntityMappingBuilder.cs:92-105 | sets the id member and appends an id map with the Column element name; nothing else changes |
| MongoMapping.MongoEntityMappingBuilder.Map | ZKWeb/ZKWeb.ORM.MongoDB/MongoDBEntityMappingBuilder.cs:111-143 | appends the member, a member map (element name from Column, IsRequired equal to Nullable when set) and the index `IndexFor` gives |
| MongoMapping.MongoEntityMappingBuilder.References | ZKWeb/ZKWeb.ORM.MongoDB/MongoDBEntityMappingBuilder.cs:149-156 | logs "References is unsupported with mongodb, expression: ..." and nothing else |
| MongoMapping.MongoEntityMappingBuilder.HasMany | ZKWeb/ZKWeb.ORM.MongoDB/MongoDBEntityMappingBuilder.cs:162-169 | logs the HasMany message and nothing else |
| MongoMapping.MongoEntityMappingBuilder.HasManyToMany | ZKWeb/ZKWeb.ORM.MongoDB/MongoDBEntityMappingBuilder.cs:175-182 | logs the HasManyToMany message and nothing else |
| NHibernateMapping.Given | ZKWeb/ZKWeb.ORM.NHibernate/NHibernateEntityMappingBuilder.cs:36-42 | a string option is applied iff it is non-empty |
| NHibernateMapping.CascadeFor | ZKWeb/ZKWeb.ORM.NHibernate/NHibernateEntityMappingBuilder.cs:120-124 | CascadeDelete true selects AllDeleteOrphan, false selects None, and unset leaves the cascade unset; each in both directions |
| NHibernateMapping.TranslateId | ZKWeb/ZKWeb.ORM.NHibernate/NHibernateEntityMappingBuilder.cs:28-49 | the id part gets Column, Length, CustomSqlType and the JSON type; a Length outside int32 throws after Column was applied and before the later settings |
| NHibernateMapping.TranslateMap | ZKWeb/ZKWeb.ORM.NHibernate/NHibernateEntityMappingBuilder.cs:54-86 | the property part gets every option but CascadeDelete, with Unique only when true and Nullable as set; a Length outside int32 throws after Column was applied |
| NHibernateMapping.Translate | ZKWeb/ZKWeb.ORM.NHibernate/NHibernateEntityMappingBuilder.cs:28-143 | each directive adds one part for its member; only Id and Map can throw; References takes Column and Nullable; the collections take the cascade |
| NHibernateMapping.IgnoredOptions | ZKWeb/ZKWeb.ORM.NHibernate/NHibernateEntityMappingBuilder.cs:31-142 | changing an option a directive does not support leaves its part unchanged |
| NHibernateMapping.NullOptionsAreDefault | ZKWeb/ZKWeb.ORM.NHibernate/NHibernateEntityMappingBuilder.cs:32-136 | null options behave as options with nothing set |
| NHibernateMapping.RunAppend | ZKWeb/ZKWeb.ORM.NHibernate/NHibernateEntityMappingBuilder.cs:20-22 | running providers one after another equals running their concatenated directives |
| NHibernateMapping.RunAfterOverflow | ZKWeb/ZKWeb.ORM.NHibernate/NHibernateEntityMappingBuilder.cs:18-23 | once a directive throws, the remaining ones have no effect |
| NHibernateMapping.FlattenAppend | ZKWeb/ZKWeb.ORM.NHibernate/NHibernateEntityMappingBuilder.cs:19-22 | the directives of concatenated provider lists concatenate |
| NHibernateMapping.RunParts | ZKWeb/ZKWeb.ORM.NHibernate/NHibernateEntityMappingBuilder.cs:18-23 | part i comes from directive i, up to and including the first directive that throws; the error is that directive's |
| NHibernateMapping.RunPartsFrom | ZKWeb/ZKWeb.ORM.NHibernate/NHibernateEntityMappingBuilder.cs:18-23 | part i of the class map comes from directive i, and with no overflow there is one part per directive |
| NHibernateMapping.RunErrors | ZKWeb/ZKWeb.ORM.NHibernate/NHibernateEntityMappingBuilder.cs:18-23 | every directive before the last part translated cleanly, and the configuration fails exactly with the overflow of the last part's directive |
| NHibernateMapping.NHibernateEntityMappingBuilder.constructor | ZKWeb/ZKWeb.ORM.NHibernate/NHibernateEntityMappingBuilder.cs:18-23 | the class map is the run of every provider's directives in resolution order, stopping at the first exception |
| NHibernateMapping.NHibernateEntityMappingBuilder.Apply | ZKWeb/ZKWeb.ORM.NHibernate/NHibernateEntityMappingBuilder.cs:21 | one directive appends its part and returns its overflow, if any |
| NHibernateMapping.NHibernateEntityMappingBuilder.Id | ZKWeb/ZKWeb.ORM.NHibernate/NHibernateEntityMappingBuilder.cs:28-49 | appends `TranslateId`'s part and fails iff the length overflows |
| NHibernateMapping.NHibernateEntityMappingBuilder.Map | ZKWeb/ZKWeb.ORM.NHibernate/NHibernateEntityMappingBuilder.cs:54-86 | appends `TranslateMap`'s part and fails iff the length overflows |
| NHibernateMapping.NHibernateEntityMappingBuilder.References | ZKWeb/ZKWeb.ORM.NHibernate/NHibernateEntityMappingBuilder.cs:91-107 | appends a many-to-one part with Column and Nullable |
| NHibernateMapping.NHibernateEntityMappingBuilder.HasMany | ZKWeb/ZKWeb.ORM.NHibernate/NHibernateEntityMappingBuilder.cs:112-125 | appends a one-to-many part with the cascade `CascadeFor` gives |
| NHibernateMapping.NHibernateEntityMappingBuilder.HasManyToMany | ZKWeb/ZKWeb.ORM.NHibernate/NHibernateEntityMappingBuilder.cs:130-143 | appends a many-to-many part with the cascade `CascadeFor` gives |
| EFCoreBackend.Fold | ZKWeb/ZKWeb.ORM.EFCore/EFCoreDatabaseContextBase.cs:41 | case folding maps 'A'..'Z' to 'a'..'z' and leaves every other character alone |
| EFCoreBackend.ReplaceAbsent | ZKWeb/ZKWeb.ORM.EFCore/EFCoreDatabaseContextBase.cs:46 | `Replace` leaves a string without the pattern unchanged |
| EFCoreBackend.ReplaceFirst | ZKWeb/ZKWeb.ORM.EFCore/EFCoreDatabaseContextBase.cs:46 | `Replace` substitutes the first occurrence and keeps the text before it |
| EFCoreBackend.SqliteAppData | ZKWeb/ZKWeb.ORM.EFCore/EFCoreDatabaseContextBase.cs:44-46 | a SQLite connection string has `{{App_Data}}` replaced by the App_Data directory |
| EFCoreBackend.Configure | ZKWeb/ZKWeb.ORM.EFCore/EFCoreDatabaseContextBase.cs:39-55 | an error iff the identifier matches none of the five names, and then the ArgumentException message |
| EFCoreBackend.NamesDisjoint | ZKWeb/ZKWeb.ORM.EFCore/EFCoreDatabaseContextBase.cs:41-47 | no identifier matches both MSSQL and MySQL, so the order of the checks does not matter |
| EFCoreBackend.BackendOf | ZKWeb/ZKWeb.ORM.EFCore/EFCoreDatabaseContextBase.cs:41-52 | each identifier, in any case, selects its provider: SQL Server with row-number paging, SQLite with the App_Data rewrite, MySQL, Npgsql, or in-memory |
| EFCoreBackend.LowerCaseNames | ZKWeb/ZKWeb.ORM.EFCore/EFCoreDatabaseContextBase.cs:41-49 | "mssql" and "postgresql" select SQL Server and Npgsql |
| EFCoreBackend.UnknownName | ZKWeb/ZKWeb.ORM.EFCore/EFCoreDatabaseContextBase.cs:53-55 | "Oracle" is rejected |
| EFCoreBackend.EFCoreDatabaseContextBase.constructor | ZKWeb/ZKWeb.ORM.EFCore/EFCoreDatabaseContextBase.cs:29-32 | stores the identifier and connection string without checking them |
| EFCoreBackend.EFCoreDatabaseContextBase.OnConfiguring | ZKWeb/ZKWeb.ORM.EFCore/EFCoreDatabaseContextBase.cs:39-56 | the branch chain gives `Configure` of the stored identifier and connection string |
| ContainerExtensions.BuiltFactory.Invoke | ZKWeb/ZKWebStandard/Extensions/IContainerExtensions.cs:27-43 | a transient factory calls the original each time; a singleton returns the kept instance, or else calls the original and keeps a non-null result |
| ContainerExtensions.BuildFactory | ZKWeb/ZKWebStandard/Extensions/IContainerExtensions.cs:23-47 | Transient gives the original factory, Singleton a wrapper with nothing kept yet, and any other reuse type is "unsupported reuse type ..." |
| ContainerExtensions.SingletonCallsUntilInstance | ZKWeb/ZKWebStandard/Extensions/IContainerExtensions.cs:32-43 | after n calls, the original was called until it first returned an instance and never again; while it returns null it is called every time |
| ContainerExtensions.SingletonKeepsInstance | ZKWeb/ZKWebStandard/Extensions/IContainerExtensions.cs:33-35 | once an instance is kept, later calls return it without calling the original |
| ContainerExtensions.FirstInject | ZKWeb/ZKWebStandard/Extensions/IContainerExtensions.cs:71-72 | the first constructor with the Inject attribute, or -1 iff none has it |
| ContainerExtensions.MostParameters | ZKWeb/ZKWebStandard/Extensions/IContainerExtensions.cs:74-77 | a public constructor with the most parameters, the first one on a tie, or -1 iff none is public |
| ContainerExtensions.ChooseConstructor | ZKWeb/ZKWebStandard/Extensions/IContainerExtensions.cs:70-82 | Inject wins; otherwise the most-parameters public constructor; an ArgumentException iff neither exists |
| ContainerExtensions.ArgumentFor | ZKWeb/ZKWebStandard/Extensions/IContainerExtensions.cs:84-98 | an `IEnumerable<X>` parameter resolves many X; any other parameter resolves its type or the default |
| ContainerExtensions.ArgumentExpressions | ZKWeb/ZKWebStandard/Extensions/IContainerExtensions.cs:83-99 | one argument per parameter, in order |
| ContainerExtensions.MakeTypeFactory | ZKWeb/ZKWebStandard/Extensions/IContainerExtensions.cs:66-102 | the per-type factory resolves from the building container and uses the chosen constructor with `ArgumentFor` of each parameter, or fails as `ChooseConstructor` does |
| ContainerExtensions.TypeFactoryCache.BuildTypeFactory | ZKWeb/ZKWebStandard/Extensions/IContainerExtensions.cs:64-104 | a cached type is reused unchanged, with the container that built it; otherwise the factory is built for this container and cached, and a failed build caches nothing; the result is a new `BuildFactory` wrapper around the per-type factory, a singleton wrapper for Singleton, or the unsupported-reuse error |
| ContainerExtensions.SecondContainerGetsFirst | ZKWeb/ZKWebStandard/Extensions/IContainerExtensions.cs:53-103 | the cache is keyed by type alone, so a second container gets a wrapper around the factory that resolves from the first |
| ContainerExtensions.TypeReuseScenario | ZKWeb/ZKWebStandard/Extensions/IContainerExtensions.cs:28-43 | a type built as Singleton yields the same instance on every call, and built as Transient a new one each call |
| TranslateManager.TranslateBy | ZKWeb/Localize/TranslateManager.cs:78 | a provider translates a text iff its table holds it, and then to the table's entry |
| TranslateManager.Accepting | ZKWeb/Localize/TranslateManager.cs:100-101 | exactly the registered providers that accept the code are kept |
| TranslateManager.Reverse | ZKWeb/Localize/TranslateManager.cs:102 | the same length, element i taken from position n-1-i |
| TranslateManager.FirstTranslation | ZKWeb/Localize/TranslateManager.cs:77-82 | no translation iff no provider knows the text |
| TranslateManager.FirstTranslationIsFirst | ZKWeb/Localize/TranslateManager.cs:77-82 | a found translation is that of some provider whose predecessors all know nothing |
| TranslateManager.FirstTranslationSnoc | ZKWeb/Localize/TranslateManager.cs:77-82 | trying one more provider only matters when the earlier ones found nothing |
| TranslateManager.FirstTranslationKept | ZKWeb/Localize/TranslateManager.cs:79-81 | once a translation is found, later providers do not change it (the `break`) |
| TranslateManager.FirstOf | ZKWeb/Localize/TranslateManager.cs:77-82 | the loop finds the first translation over the providers in order |
| TranslateManager.CandidatesLastWins | ZKWeb/Localize/TranslateManager.cs:77-102 | trying the reversed accepting providers finds the translation of the last registered provider that accepts the code and knows the text |
| TranslateManager.TranslationMeaning | ZKWeb/Localize/TranslateManager.cs:77-83 | the translation is the last accepting provider's, or the text itself when none knows it |
| TranslateManager.NonAcceptingIgnored | ZKWeb/Localize/TranslateManager.cs:100-101 | a provider that does not accept the code changes no translation, wherever it is registered |
| TranslateManager.CacheTime | ZKWeb/Localize/TranslateManager.cs:40-41 | the configured number of seconds, 3 when not configured |
| TranslateManager.TranslateManager.constructor | ZKWeb/Localize/TranslateManager.cs:38-44 | both caches start empty and the cache time comes from the configuration |
| TranslateManager.TranslateManager.Translate | ZKWeb/Localize/TranslateManager.cs:62-86 | null or empty text gives ""; otherwise the result is the providers' translation or the text; a live cached translation is returned without consulting the providers; every cached entry stays what the providers give |
| TranslateManager.TranslateManager.GetTranslateProviders | ZKWeb/Localize/TranslateManager.cs:93-105 | the accepting providers, last registered first, whether cached or not; the translation cache is untouched |
| TranslateManager.TranslateManager.ClearCache | ZKWeb/Localize/TranslateManager.cs:110-112 | every cached translation is dropped and the provider lists stay |
| TranslateManager.SweepKeepsCached | ZKWeb/Localize/TranslateManager.cs:68-69 | removing expired entries keeps every remaining entry faithful |
| TranslateManager.PutKeepsCached | ZKWeb/Localize/TranslateManager.cs:84 | storing the providers' own answer keeps every entry faithful |
| PathManager.GetPluginDirectories | ZKWeb/Core/PathManager.cs:21-25 | one absolute directory per configured plugin directory, in order, each rooted at the web root |
| PathManager.FirstExisting | ZKWeb/Core/PathManager.cs:72-79 | null iff no candidate exists; otherwise an existing candidate |
| PathManager.FirstExistingAt | ZKWeb/Core/PathManager.cs:72-79 | the result is the first existing candidate: one that exists after only missing ones |
| PathManager.FirstExistingSkip | ZKWeb/Core/PathManager.cs:75-77 | a missing candidate is passed over |
| PathManager.SplitPlugin | ZKWeb/Core/PathManager.cs:50-55 | no explicit plugin iff the path has no ':'; otherwise the path is the plugin, ':' and the rest, and the plugin holds no ':' |
| PathManager.SplitJoin | ZKWeb/Core/PathManager.cs:50-55 | splitting "plugin:path" gives back the plugin and the path, whatever ':' the path holds |
| PathManager.ExplicitCandidates | ZKWeb/Core/PathManager.cs:59-61 | one candidate per plugin directory, combined in the argument order the source uses |
| PathManager.PluginTemplateCandidates | ZKWeb/Core/PathManager.cs:72-74 | one candidate per loaded plugin, in load order, under its template directory |
| PathManager.ExplicitPluginOnly | ZKWeb/Core/PathManager.cs:57-62 | a template named with its plugin is only found among that plugin's candidates, never in App_Data or another plugin |
| PathManager.AppDataOverridesTemplate | ZKWeb/Core/PathManager.cs:64-69 | a template stored in App_Data wins over every plugin's |
| PathManager.FirstPluginTemplate | ZKWeb/Core/PathManager.cs:70-79 | otherwise the first loaded plugin holding the template supplies it |
| PathManager.GetTemplateFullPath | ZKWeb/Core/PathManager.cs:48-81 | the method's search loop returns the template path the lookup rules define |
| PathManager.PluginResourceCandidates | ZKWeb/Core/PathManager.cs:103-104 | one candidate per loaded plugin, in load order |
| PathManager.StoredResourceFound | ZKWeb/Core/PathManager.cs:94-100 | a file at the storage path is returned before any plugin's |
| PathManager.ResourceFoundIff | ZKWeb/Core/PathManager.cs:94-110 | a resource is found iff it is stored in App_Data or some plugin has it, and what is found exists |
| PathManager.GetResourceFullPath | ZKWeb/Core/PathManager.cs:94-110 | the method's search loop returns the resource path the lookup rules define |
| WebsiteConfig.Normalized | ZKWeb/Model/WebsiteConfig.cs:46-51 | plugin directories are never missing or empty ("App_Data/Plugins" when they were), plugins and extra are never missing, and the other fields are as parsed |
| WebsiteConfig.NormalizedIdempotent | ZKWeb/Model/WebsiteConfig.cs:46-51 | normalising a loaded configuration again changes nothing |
| WebsiteConfig.WebsiteConfig.FromFile | ZKWeb/Model/WebsiteConfig.cs:43-53 | a fresh configuration holding the normalised parsed fields |
| PluginInfo.Normalized | ZKWeb/Model/PluginInfo.cs:38-41 | the directory is the one read from; name, description and dependencies are never missing |
| PluginInfo.NormalizedIdempotent | ZKWeb/Model/PluginInfo.cs:38-41 | normalising again changes nothing |
| PluginInfo.FieldsKept | ZKWeb/Model/PluginInfo.cs:39-41 | fields present in plugin.json are kept as parsed; only the directory is set |
| PluginInfo.PluginInfo.FromDirectory | ZKWeb/Model/PluginInfo.cs:35-43 | a fresh plugin info holding the normalised parsed fields |
| Common.Truncate | ZKWeb/ZKWeb/Web/ActionResults/FileResult.cs:38-39 | the write time cut down to a whole second, as both file result generations do: at most one second earlier, a multiple of a second |
| Common.TruncateIdempotent | ZKWeb/ZKWeb/Web/ActionResults/FileResult.cs:38-39 | truncating a truncated time changes nothing |
| FileResult.NotModifiedIff | ZKWeb/ZKWeb/Web/ActionResults/FileResult.cs:36-53 | 304 with nothing written iff If-Modified-Since equals the truncated write time, otherwise 200 with the file written; Last-Modified and the content type are set either way |
| FileResult.LaterTimeIsModified | ZKWeb/ZKWeb/Web/ActionResults/FileResult.cs:43-46 | a client time a second or more after the write still gets the whole file |
| FileResult.RevalidationRoundTrip | ZKWeb/ZKWeb/Web/ActionResults/FileResult.cs:39-46 | sending back the Last-Modified received gets 304 while the file is unchanged |
| FileResult.HttpResponse.constructor | ZKWeb/ZKWeb/Web/ActionResults/FileResult.cs:36 | a response starts at 200 with no headers and nothing written |
| FileResult.FileResult.constructor | ZKWeb/ZKWeb/Web/ActionResults/FileResult.cs:26-29 | keeps the file path and the client's If-Modified-Since |
| FileResult.FileResult.WriteResponse | ZKWeb/ZKWeb/Web/ActionResults/FileResult.cs:36-53 | the response becomes what `Respond` gives for the old response |
| LegacyFileResult.NotModifiedIff | ZKWeb/Web/ActionResults/FileResult.cs:37-50 | 304 with content suppressed iff If-Modified-Since equals the truncated write time; otherwise the status is kept, the content type set and the file written |
| LegacyFileResult.RevalidationRoundTrip | ZKWeb/Web/ActionResults/FileResult.cs:40-46 | sending back the Last-Modified received gets 304 while the file is unchanged |
| LegacyFileResult.HttpResponse.constructor | ZKWeb/Web/ActionResults/FileResult.cs:37 | a response starts at 200, not suppressed, with no headers and nothing written |
| LegacyFileResult.FileResult.constructor | ZKWeb/Web/ActionResults/FileResult.cs:28-31 | keeps the file path and the client's If-Modified-Since |
| LegacyFileResult.FileResult.WriteResponse | ZKWeb/Web/ActionResults/FileResult.cs:37-50 | the response becomes what `Respond` gives for the old response |

## Left out

- Locks, `ThreadLocal` and `ConcurrentDictionary` thread safety: concurrency is out of scope, so every operation is modelled as running alone.
- The wall clock: `DateTime.UtcNow` is the `now` parameter, in ticks.
- Reflection and expression trees: member selectors are field names, constructors are records, and the compiled `Expression.Lambda` factory is the `TypeFactory` value that says which constructor and which arguments it uses.
- JSON parsing in `WebsiteConfig.FromFile` and `PluginInfo.FromDirectory`: the parsed fields are an input, and the file read is not modelled.
- The ORM and driver machinery (NHibernate sessions and transactions, FluentNHibernate parts, the MongoDB class map and index API, the EF Core options builder): these are foreign libraries, modelled as stores, descriptor records and lists of settings.
- Routing.NormalizePath and HttpContextUtils.LocalUrl: the one-argument `StartsWith("/")` and `EndsWith("/")` compare under the current culture; the model compares ordinally. The two differ only for paths holding characters the culture ignores, such as a soft hyphen before the slash.
- Culture-aware case-insensitive comparison in the EF Core backend choice: only ASCII letters are folded, because the backend names are ASCII.
- Translation providers are modelled as data: the codes each accepts and a table of its translations.
- `Translate(text)`, the overload that reads the thread's current culture, is left out because thread state is not modelled.
- ContainerExtensions.BuiltFactory.Invoke: the original factory is a function of the call number, which lets it return a fresh object or null on each call; object identity is not modelled.
- ContainerExtensions.TypeFactoryCache.BuildTypeFactory: each wrapper numbers the instances it asks the per-type factory for from 0. Two wrappers built for one type therefore yield equal first instances, where the source creates two distinct objects.
- The path helpers `PathUtils.SecureCombine`, `Path.GetFullPath` and `File.Exists` are not part of this model, and neither are the `PathConfig` constants: all are parameters. PathManager lemmas hold for every choice of them.
- The MIME type lookup and the file's last write time are inputs of `WriteResponse`. The response body is modelled as the list of files written.
- RFC 1123 date parsing in `GetIfModifiedSince` is a parameter. Cookie URL encoding and decoding in `HttpContextUtils` are parameters too.
- DatabaseContext.DatabaseContext.Save: a save callback acts only through its `beforeSave` data change. An AfterSave that changes the merged entity, which the next flush would write, is not modelled; neither is a callback that calls back into the context. `UpdatedRows` holds under this restriction.
- DatabaseContext.DatabaseContext.Delete: delete callbacks only show in the log and cannot change data or call back into the context. Deleting an entity that has no row leaves the session unchanged; the error NHibernate's flush can raise for a missing row is not modelled.
- DatabaseContext.DatabaseContext.SaveChanges: the commit overwrites the store with the session's table. Two contexts open on one store, isolation levels and a failing commit are not modelled. Operations after the commit reach only the session, since the one transaction cannot commit again.
- HttpContextUtils.HttpContextUtils.PutCookie: the catch of an exception thrown when the connection is already closed is not modelled, so the context branch always succeeds.
- The host wrappers, bootstrap code, `ControllerManager.OnRequest` and the attribute scan of `RegisterController` are not part of this model.
- Typed conversion (`ConvertOrDefault`) is not part of this model: `GetOrDefault<T>` and `Get<T>` take it as a `convert` parameter, so only which string or value is chosen is modelled.

## Notes on the code as written

Where the code and its own comments differ, the model follows the code:

- `PathManager.GetTemplateFullPath` and `GetResourceFullPath` try the plugins in the order `PluginManager.Plugins` lists them. A comment says the order is reversed, but nothing reverses it.
- For a template named `plugin:path`, the path parts are passed to `SecureCombine` as (path, plugin, template directory, plugin directory), exactly as written.
- The MongoDB builder calls `SetIsRequired(true)` when Nullable is true and `SetIsRequired(false)` when it is false.
- The EF Core backend error message formats `{Database}`, which is the context's `DatabaseFacade`, not the configured identifier. The message therefore holds that type's name.
- An unknown EF Core backend fails when the context is configured, not when it is constructed.
- The NHibernate `Id` directive ignores Unique and Nullable; no non-null or unique setting is added for the key.
- Both `FileResult` generations answer 304 only when If-Modified-Since equals the truncated write time exactly. They do not use the "not modified since" comparison of section 3.3 of RFC 7232, so a later client time gets the whole file.
