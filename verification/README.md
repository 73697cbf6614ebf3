# Offline cache service worker — Dafny model

This project models the service worker of the Go-Budgeting web app
(`public/service-worker.js`). The worker keeps an offline cache of the app's
static assets. It has four event handlers:

- **install** opens the cache of the current generation (`CACHE_NAME`) and
  adds the asset list in one `addAll` batch.
- **activate** deletes every cache whose name is not `CACHE_NAME`.
- **fetch** routes each request:
  - a request to the backend API host (`supabase.co`) goes to the network only;
  - any other request is looked up cache-first across all caches;
  - on a miss, a cacheable network response (status 200, type `basic`) is
    stored in the current cache;
  - when a lookup or fetch fails, the cached `./index.html` is the fallback for
    URLs containing `.html`.
- **message** calls skip-waiting only for a `SKIP_WAITING` message.

Each handler is a pure step function over an abstract cache storage. The
browser's `fetch` and `caches` APIs become inputs: the network outcome, the
responses served to `addAll`, and whether a cache lookup rejects.

Modules:

- `Wrappers` (wrappers.dfy): `Option`, for a value that may be `undefined`.
- `Strings` (strings.dfy): `indexOf`/`includes` substring search, proved
  against a direct definition of "occurs at position i".
- `Http` (http.dfy): requests, responses, network outcomes, and how the
  promise passed to `respondWith` settles.
- `CacheStorage` (cache_storage.dfy): the host's CacheStorage. It is a map
  from cache name to a map from URL to response, plus the caches' creation
  order. The order matters because `caches.match` returns the entry from the
  first cache that holds one. `open`, `put`, `delete`, `keys`, `match` and
  `addAll` are modelled. `addAll` is taken to be all-or-nothing, as
  section 5.4.4 of the W3C Service Workers specification describes it. That is
  an assumption about the host, not something the worker checks.
- `ServiceWorker` (service_worker.dfy): the constants and the four handlers.
- `Properties` (properties.dfy): what the handlers promise, stated against
  `Holds` (what the storage contains) and `OccursAt` (where a substring
  occurs).

Where the worker's comments differ from its code, or where the host's
behaviour matters, the model follows the code:

- The comment at line 44 says "Network first for API". The code at line 50
  is network-only: a failed API fetch rejects, even when a cache holds the
  request (`Properties.ApiRequestsBypassCaches`).
- The lookup at line 55 is `caches.match`, which searches every cache, not
  only the current one. Before activate runs, an older generation can still
  answer a request.
- The comment at line 75 says the offline page is for when "both cache and
  network fail". The code also takes that branch when only the lookup at
  line 55 rejects, and then the network is never tried
  (`Properties.FailureFallsBackToOfflinePage`).
- The offline test at line 76 is a substring test on the whole URL. A query
  string that mentions `.html` is enough (`Properties.QueryStringTriggersOfflinePage`).
- With `addAll` all-or-nothing, a failed install batch leaves the current
  cache as it was, though `caches.open` still creates it if missing.
- Cache entries are keyed by URL alone (see Left out).

## Model

| member | source | states |
|---|---|---|
| Strings.IndexOf | public/service-worker.js:76 | `indexOf` returns the first position at which the pattern occurs, and -1 exactly when it occurs nowhere |
| Strings.IncludesIffOccurs | public/service-worker.js:49 | `includes` holds exactly when the pattern occurs at some position, which is also exactly when `indexOf` is above -1 |
| CacheStorage.Match | public/service-worker.js:55 | `caches.match` finds nothing exactly when no cache holds the URL, and otherwise returns the entry of the first holder in creation order |
| CacheStorage.Open | public/service-worker.js:18 | opening a cache creates it empty at the end of the order when it is missing, and changes nothing when it exists |
| CacheStorage.Put | public/service-worker.js:68-70 | after open-then-put, the named cache maps the URL to the response and every other cache is unchanged |
| CacheStorage.Delete | public/service-worker.js:35 | deleting a cache keeps the storage well formed, removes exactly that name from the order and from the map, and leaves the other caches in their creation order |
| CacheStorage.Keys | public/service-worker.js:30 | `caches.keys()` lists every existing cache exactly once |
| CacheStorage.AddAll | public/service-worker.js:21 | `addAll` succeeds exactly when every URL is served storable and none is repeated; then every URL maps to its served response, and otherwise the cache is unchanged |
| ServiceWorker.Populate | public/service-worker.js:17-23 | install always completes; on success every manifest URL is in the named cache with its served response, and no key appears that was neither in the manifest nor in the cache before; old entries outside the manifest keep their values; on failure only the open took effect; the order is the open's and other caches are untouched |
| ServiceWorker.HandleInstall | public/service-worker.js:15-25 | the same for the asset list and `CACHE_NAME`: after a successful install every asset is a key of the current cache with its served response, and the cache holds nothing but the assets and its old entries; old non-asset entries keep their values; the order is the open's; other caches are untouched |
| ServiceWorker.DeleteStale | public/service-worker.js:31-37 | deleting the listed stale names removes exactly the non-current listed names from the map and from the order |
| ServiceWorker.KeepOnly | public/service-worker.js:33 | dropping every name but the current one from a duplicate-free list leaves that one name if it was listed, else nothing |
| ServiceWorker.HandleActivate | public/service-worker.js:28-40 | after activate only `CACHE_NAME` can remain; it remains exactly when it existed, with all its entries |
| ServiceWorker.OfflineFallback | public/service-worker.js:74-79 | a failed request whose URL has `.html` at some position gets what the lookup of the entry document yields, possibly nothing, or a rejection if that lookup rejects; a URL with no such position gets no response |
| ServiceWorker.HandleFetch | public/service-worker.js:45-81 | the fetch handler leaves the storage well formed, and either unchanged or changed only by putting the fetched response under the request URL in the current cache |
| ServiceWorker.HandleMessage | public/service-worker.js:84-88 | skip-waiting is requested exactly when the message data is an object whose `type` is the string `SKIP_WAITING` |
| Properties.MatchIsFirstHolder | public/service-worker.js:55 | the entry of the first cache holding the URL is what `caches.match` returns |
| Properties.ApiRequestsBypassCaches | public/service-worker.js:49-51 | for the API host the reply is exactly the network outcome: a failure stays a failure, never the offline page. The reply is the same whatever the storage holds, and the storage is unchanged |
| Properties.CacheHitServedWithoutNetwork | public/service-worker.js:55-58 | when some cache holds the request, the first holder's entry is returned, the reply does not depend on the network, and the storage is unchanged |
| Properties.CacheableMissIsStored | public/service-worker.js:59-72 | on a miss with a 200 `basic` response, that response is returned, the current cache maps the request to it, and no other entry appears or changes |
| Properties.PutHolds | public/service-worker.js:68-70 | after open-then-put, a cache holds a URL exactly when it held it before or it is the entry just put, and every other entry keeps its value |
| Properties.UncacheableMissPassesThrough | public/service-worker.js:61-63 | on a miss with no response, a non-200 response or a non-`basic` response, that answer is returned and the storage is unchanged |
| Properties.FailureFallsBackToOfflinePage | public/service-worker.js:74-79 | when the request's lookup rejects, or a miss meets a failed fetch, a URL containing `.html` gets the stored entry document, possibly nothing, provided the lookup of that document does not itself reject; any other URL gets no response; the storage is unchanged |
| Properties.QueryStringTriggersOfflinePage | public/service-worker.js:76-77 | a URL whose query string starts with `.html` counts as an HTML request, whatever its path: a rejected lookup or a failed fetch of it gets the stored entry document |
| Properties.SecondFetchHits | public/service-worker.js:55-72 | after a cacheable miss, the next fetch of the same request returns the stored response whatever the network does |
| Properties.AssetsDistinct | public/service-worker.js:2-12 | the asset list has no duplicates, so the install batch succeeds exactly when every asset is served storable |
| Properties.PopulateIdempotent | public/service-worker.js:17-23 | populating a cache twice from the same manifest leaves the storage as populating it once does |
| Properties.InstallIdempotent | public/service-worker.js:15-25 | installing twice leaves the storage, and so the current cache's keys, as installing once does |
| Properties.InstalledAssetsMatch | public/service-worker.js:17-23 | after a successful install, `caches.match` finds every asset |
| Properties.InstallThenActivateServesAssets | public/service-worker.js:15-42 | after a successful install and then activate, only the current cache remains and `caches.match` returns each asset's served response |
| Properties.ActivateIdempotent | public/service-worker.js:28-40 | a second activate changes nothing |

## Left out

- The unconditional `self.skipWaiting()` in install (line 16) and `self.clients.claim()` in activate (line 41) are host lifecycle calls with no decision attached. Only the conditional skip-waiting of the message handler is modelled.
- Logging: the `console.log` calls are not modelled.
- Promise scheduling: the un-awaited `cache.put` (lines 68-70) lands in the post-state, and a rejection of that put, which nobody observes, is not modelled. The race between two concurrent misses for the same request is a concurrency matter and is left out.
- Failures of `caches.open` and `caches.delete` are not modelled. Activate assumes every deletion succeeds. Deletions run concurrently on distinct names, so they are applied in `keys()` order.
- URL parsing (`new URL`, line 46): a request carries its full URL and its host name as given strings. Relative URLs such as `./index.html` are taken as already resolved, so a stored key equals the string used to look it up.
- Cache keys are the URL alone. The request method and `Vary` headers take no part in matching, and the host's refusal to store non-GET requests is not modelled.
- CacheStorage.Match and CacheStorage.Put compare and store whole URL strings. The host drops the URL fragment (`#...`) when it matches and stores requests, so a request for `app.css#x` would find an entry stored for `app.css`; the model reports a miss there. The `.html` test at line 76 still sees the whole URL, fragment included.
- `addAll` is modelled by its outcome only: no network-error type, an ok status that is not 206, and no duplicate URL. The fetches themselves and `Vary: *` responses are not modelled.
- `Response.clone()` (line 66) is treated as producing an equal value, and bodies are opaque.
- What the browser does with a `respondWith` promise that settles to `undefined` or rejects is host behaviour. The model stops at how the promise settles.
- Why a cache lookup rejects is not modelled. Two inputs say whether it does: `lookupRejects` for the lookup of the request (line 55) and `fallbackRejects` for the lookup of the offline page (line 77).
- Message data: NaN, BigInt and prototype properties are not represented. None of them can make `data.type` equal the string `SKIP_WAITING`.
- String positions count Unicode scalar values, where JavaScript counts UTF-16 code units. The worker only tests whether `.html` and `supabase.co` occur at all, and URLs and host names as the browser serializes them are ASCII, so the difference never shows.
