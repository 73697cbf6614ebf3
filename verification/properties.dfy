/** What the handlers promise, stated against the independent definitions
    they rely on: `Holds` for what the storage contains, `OccursAt` for
    substring search, and the host contracts of `Open`, `Put` and `AddAll`. */
module Properties {
  import opened Wrappers
  import opened Strings
  import opened Http
  import opened CacheStorage
  import opened ServiceWorker

  /** No cache in the storage holds an entry for `url`. */
  predicate Uncached(s: Storage, url: Url)
  {
    forall i :: 0 <= i < |s.order| ==> !Holds(s, s.order[i], url)
  }

  /** Position `i` is the first cache, in creation order, holding `url`. */
  predicate FirstHolder(s: Storage, url: Url, i: int)
  {
    && 0 <= i < |s.order|
    && Holds(s, s.order[i], url)
    && forall j :: 0 <= j < i ==> !Holds(s, s.order[j], url)
  }

  /** In a well-formed storage a cache that holds `url` is listed in the
      order. */
  lemma HoldsListed(s: Storage, name: CacheName, url: Url)
    requires Valid(s)
    ensures Holds(s, name, url) ==> exists i :: 0 <= i < |s.order| && s.order[i] == name && Holds(s, s.order[i], url)
  {
  }

  /** `caches.match` returns the entry of the first holder. */
  lemma MatchIsFirstHolder(s: Storage, url: Url, i: int)
    requires FirstHolder(s, url, i)
    ensures Match(s, url) == Some(s.caches[s.order[i]][url])
  {
    var m := Match(s, url);
    var k :| 0 <= k < |s.order| && Holds(s, s.order[k], url)
             && m.value == s.caches[s.order[k]][url]
             && forall j :: 0 <= j < k ==> !Holds(s, s.order[j], url);
    assert k == i;
  }

  // ------------------------------------------------------------------ fetch

  /** Requests to the API host: the reply is exactly the network's outcome
      (a failure stays a failure, never the offline page), no cache is read
      (the reply is the same whatever the storage holds) and none is written. */
  lemma ApiRequestsBypassCaches(s: Storage, s': Storage, req: Request, lookupRejects: bool, lookupRejects': bool,
                                fallbackRejects: bool, fallbackRejects': bool, net: Network)
    requires Valid(s) && Valid(s')
    requires exists i :: OccursAt(req.hostname, API_HOST, i)
    ensures HandleFetch(s, req, lookupRejects, fallbackRejects, net).storage == s
    ensures HandleFetch(s, req, lookupRejects, fallbackRejects, net).reply == HandleFetch(s', req, lookupRejects', fallbackRejects', net).reply
    ensures net.Failed? <==> HandleFetch(s, req, lookupRejects, fallbackRejects, net).reply == Rejected
    ensures net.Ok? ==> HandleFetch(s, req, lookupRejects, fallbackRejects, net).reply == Resolved(net.response)
  {
  }

  /** A request some cache holds is answered from the first such cache
      without consulting the network, and the storage is unchanged. */
  lemma CacheHitServedWithoutNetwork(s: Storage, req: Request, i: int, fallbackRejects: bool, net: Network, net': Network)
    requires Valid(s) && !IsApiRequest(req)
    requires FirstHolder(s, req.url, i)
    ensures HandleFetch(s, req, false, fallbackRejects, net) == FetchResult(Resolved(Some(s.caches[s.order[i]][req.url])), s)
    ensures HandleFetch(s, req, false, fallbackRejects, net) == HandleFetch(s, req, false, fallbackRejects, net')
  {
  }

  /** A miss answered with a cacheable response returns that response and
      stores it under the request in the current cache; every other entry of
      every cache is kept, and nothing else is added. */
  lemma CacheableMissIsStored(s: Storage, req: Request, fallbackRejects: bool, resp: Response)
    requires Valid(s) && !IsApiRequest(req)
    requires Uncached(s, req.url)
    requires resp.status == 200 && resp.kind == Basic
    ensures HandleFetch(s, req, false, fallbackRejects, Ok(Some(resp))).reply == Resolved(Some(resp))
    ensures var t := HandleFetch(s, req, false, fallbackRejects, Ok(Some(resp))).storage;
            && Holds(t, CACHE_NAME, req.url)
            && t.caches[CACHE_NAME][req.url] == resp
            && (forall n, u :: Holds(s, n, u) ==> Holds(t, n, u) && t.caches[n][u] == s.caches[n][u])
            && (forall n, u :: Holds(t, n, u) ==> Holds(s, n, u) || (n == CACHE_NAME && u == req.url))
  {
    var t := HandleFetch(s, req, false, fallbackRejects, Ok(Some(resp))).storage;
    assert t == Put(s, CACHE_NAME, req.url, resp);
    PutHolds(s, CACHE_NAME, req.url, resp);
    HoldsListed(s, CACHE_NAME, req.url);
  }

  /** After open-then-put, a cache holds a URL exactly when it held it
      before or it is the one just put; entries other than that one keep
      their values. */
  lemma PutHolds(s: Storage, name: CacheName, url: Url, resp: Response)
    requires Valid(s)
    ensures var t := Put(s, name, url, resp);
            && (forall n, u :: Holds(t, n, u) <==> Holds(s, n, u) || (n == name && u == url))
            && (forall n, u :: Holds(s, n, u) && (n != name || u != url) ==> t.caches[n][u] == s.caches[n][u])
  {
  }

  /** A miss answered with no response, or with one that is not status 200
      or not same-origin, passes the answer through and stores nothing. */
  lemma UncacheableMissPassesThrough(s: Storage, req: Request, fallbackRejects: bool, net: Network)
    requires Valid(s) && !IsApiRequest(req)
    requires Uncached(s, req.url)
    requires net.Ok?
    requires net.response.None? || net.response.value.status != 200 || net.response.value.kind != Basic
    ensures HandleFetch(s, req, false, fallbackRejects, net) == FetchResult(Resolved(net.response), s)
  {
  }

  /** When the lookup rejects, or the request misses and the network fails:
      a URL containing `.html` anywhere gets whatever the storage holds for
      the entry document, possibly nothing, unless that second lookup rejects
      too; any other URL gets no response. The storage is unchanged either
      way. */
  lemma FailureFallsBackToOfflinePage(s: Storage, req: Request, lookupRejects: bool, fallbackRejects: bool, net: Network)
    requires Valid(s) && !IsApiRequest(req)
    requires lookupRejects || (Uncached(s, req.url) && net.Failed?)
    ensures HandleFetch(s, req, lookupRejects, fallbackRejects, net).storage == s
    ensures (exists i :: OccursAt(req.url, HTML_MARKER, i)) && !fallbackRejects ==>
              HandleFetch(s, req, lookupRejects, fallbackRejects, net).reply == Resolved(Match(s, OFFLINE_PAGE))
    ensures (exists i :: OccursAt(req.url, HTML_MARKER, i)) && fallbackRejects ==>
              HandleFetch(s, req, lookupRejects, fallbackRejects, net).reply == Rejected
    ensures (forall i :: !OccursAt(req.url, HTML_MARKER, i)) ==>
              HandleFetch(s, req, lookupRejects, fallbackRejects, net).reply == Resolved(None)
  {
  }

  /** The `.html` test looks at the whole URL: a query string mentioning
      `.html` makes a failed request for any path receive the offline page. */
  lemma QueryStringTriggersOfflinePage(s: Storage, path: string, query: string, net: Network)
    requires Valid(s)
    requires |query| >= 5 && query[..5] == HTML_MARKER
    ensures var req := Request("https://app.local/" + path + "?" + query, "app.local");
            && HandleFetch(s, req, true, false, net).reply == Resolved(Match(s, OFFLINE_PAGE))
            && (Uncached(s, req.url) ==> HandleFetch(s, req, false, false, Failed).reply == Resolved(Match(s, OFFLINE_PAGE)))
  {
    var req := Request("https://app.local/" + path + "?" + query, "app.local");
    var k := |"https://app.local/" + path + "?"|;
    assert req.url[k..k + 5] == query[..5];
    assert OccursAt(req.url, HTML_MARKER, k);
    IncludesIffOccurs(req.url, HTML_MARKER);
    assert !IsApiRequest(req) by {
      assert |req.hostname| < |API_HOST|;
      IncludesIffOccurs(req.hostname, API_HOST);
    }
  }

  /** After a cacheable miss the same request is a hit: the stored
      response comes back whatever the network would do. */
  lemma SecondFetchHits(s: Storage, req: Request, fallbackRejects: bool, resp: Response, net: Network)
    requires Valid(s) && !IsApiRequest(req)
    requires Uncached(s, req.url)
    requires resp.status == 200 && resp.kind == Basic
    ensures var t := HandleFetch(s, req, false, fallbackRejects, Ok(Some(resp))).storage;
            HandleFetch(t, req, false, fallbackRejects, net) == FetchResult(Resolved(Some(resp)), t)
  {
    var t := HandleFetch(s, req, false, fallbackRejects, Ok(Some(resp))).storage;
    CacheableMissIsStored(s, req, fallbackRejects, resp);
    HoldsListed(t, CACHE_NAME, req.url);
    var i :| 0 <= i < |t.order| && t.order[i] == CACHE_NAME && Holds(t, t.order[i], req.url);
    assert FirstHolder(t, req.url, i) by {
      forall j | 0 <= j < i
        ensures !Holds(t, t.order[j], req.url)
      {
        assert t.order[j] != CACHE_NAME;
      }
    }
    CacheHitServedWithoutNetwork(t, req, i, fallbackRejects, net, net);
  }

  // ------------------------------------------------------- install/activate

  /** The asset list names no URL twice, so the duplicate rule of `addAll`
      never rejects the install batch: it succeeds exactly when every asset
      is served with a storable response. */
  lemma AssetsDistinct(served: map<Url, Response>)
    ensures Distinct(ASSETS)
    ensures BatchAccepted(ASSETS, served) <==> forall a :: a in ASSETS ==> a in served && Storable(served[a])
  {
  }

  /** Populating a cache twice from the same manifest and served responses
      leaves the storage as populating it once does. */
  lemma PopulateIdempotent(s: Storage, name: CacheName, manifest: seq<Url>, served: map<Url, Response>)
    requires Valid(s)
    ensures var once := Populate(s, name, manifest, served).storage;
            Populate(once, name, manifest, served).storage == once
  {
    var once := Populate(s, name, manifest, served).storage;
    var twice := Populate(once, name, manifest, served).storage;
    if BatchAccepted(manifest, served) {
      var added := map u | u in manifest :: served[u];
      var e := Open(s, name).caches[name];
      assert once.caches[name] == e + added;
      OverlayTwice(e, added);
      assert twice.caches[name] == once.caches[name];
      assert twice.caches == once.caches;
    }
  }

  /** Overlaying the same entries twice is overlaying them once. */
  lemma OverlayTwice(e: Entries, m: Entries)
    ensures (e + m) + m == e + m
  {
  }

  /** Installing twice leaves the storage as installing once does, so the
      current cache has the same keys either way. */
  lemma InstallIdempotent(s: Storage, served: map<Url, Response>)
    requires Valid(s)
    ensures var once := HandleInstall(s, served).storage;
            HandleInstall(once, served).storage == once
  {
    PopulateIdempotent(s, CACHE_NAME, ASSETS, served);
  }

  /** After a successful install every asset is found by `caches.match`. */
  lemma InstalledAssetsMatch(s: Storage, served: map<Url, Response>)
    requires Valid(s)
    requires BatchAccepted(ASSETS, served)
    ensures forall a :: a in ASSETS ==> Match(HandleInstall(s, served).storage, a).Some?
  {
  }

  /** A successful install followed by activate: only the current cache
      remains, and `caches.match` answers every asset with exactly the
      response served for it at install time. */
  lemma InstallThenActivateServesAssets(s: Storage, served: map<Url, Response>)
    requires Valid(s)
    requires BatchAccepted(ASSETS, served)
    ensures var t := HandleActivate(HandleInstall(s, served).storage);
            && t.order == [CACHE_NAME]
            && forall a :: a in ASSETS ==> Match(t, a) == Some(served[a])
  {
  }

  /** Activating again changes nothing. */
  lemma ActivateIdempotent(s: Storage)
    requires Valid(s)
    ensures HandleActivate(HandleActivate(s)) == HandleActivate(s)
  {
  }
}
