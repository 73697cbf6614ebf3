/** The worker's four event handlers as step functions over the cache
    storage: install pre-populates the current cache, activate deletes every
    other cache, fetch routes a request, and message honours a skip-waiting
    request. */
module ServiceWorker {
  import opened Wrappers
  import opened Strings
  import opened Http
  import opened CacheStorage

  /** The current cache generation. */
  const CACHE_NAME: CacheName := "Go-Budgeting-v1.0.1"

  /** The asset manifest stored at install time. */
  const ASSETS: seq<Url> := [
    "./",
    "./index.html",
    "./manifest.json",
    "./icon-192x192.png",
    "./icon-512x512.png",
    "https://cdn.tailwindcss.com",
    "https://unpkg.com/lucide@latest",
    "https://cdn.jsdelivr.net/npm/@supabase/supabase-js@2.39.3/dist/umd/supabase.min.js",
    "https://fonts.googleapis.com/css2?family=Plus+Jakarta+Sans:wght@400;600;700;800&display=swap"
  ]

  /** Requests whose host name contains this go straight to the network. */
  const API_HOST: string := "supabase.co"

  /** A failed request whose URL contains this gets the offline page. */
  const HTML_MARKER: string := ".html"

  /** The cached entry document served as the offline page. */
  const OFFLINE_PAGE: Url := "./index.html"

  /** The message type that asks the waiting worker to activate. */
  const SKIP_WAITING: string := "SKIP_WAITING"

  // ---------------------------------------------------------------- install

  /** How the install phase ends, by how the promise given to `waitUntil`
      settles: a rejected promise would fail the install. The `catch` on the
      pre-population batch means this handler always yields `Installed`;
      `InstallFailed` is the outcome that catch rules out. */
  datatype Phase = Installed | InstallFailed

  datatype InstallResult = InstallResult(storage: Storage, phase: Phase, assetsCached: bool)

  /** Open the cache `name` and add every URL of `manifest` in one batch; a
      rejected batch is caught and logged, so the phase still completes. */
  function Populate(s: Storage, name: CacheName, manifest: seq<Url>, served: map<Url, Response>): (r: InstallResult)
    requires Valid(s)
    ensures Valid(r.storage)
    ensures r.phase == Installed
    ensures r.assetsCached <==> BatchAccepted(manifest, served)
    ensures name in r.storage.caches
    ensures r.assetsCached ==> forall u :: u in manifest ==> u in r.storage.caches[name] && r.storage.caches[name][u] == served[u]
    ensures r.assetsCached ==> forall u :: Holds(r.storage, name, u) ==> u in manifest || Holds(s, name, u)
    ensures forall u :: Holds(s, name, u) && u !in manifest ==> Holds(r.storage, name, u) && r.storage.caches[name][u] == s.caches[name][u]
    ensures !r.assetsCached ==> r.storage == Open(s, name)
    ensures r.storage.order == Open(s, name).order
    ensures forall n :: n in s.caches && n != name ==> n in r.storage.caches && r.storage.caches[n] == s.caches[n]
  {
    var o := Open(s, name);
    var added := AddAll(o.caches[name], manifest, served);
    var t := o.(caches := o.caches[name := added.entries]);
    assert t.caches.Keys == o.caches.Keys;
    assert Valid(t);
    InstallResult(t, Installed, added.ok)
  }

  /** The install handler: populate the current cache from the asset list. */
  function HandleInstall(s: Storage, served: map<Url, Response>): (r: InstallResult)
    requires Valid(s)
    ensures Valid(r.storage)
    ensures r.phase == Installed
    ensures r.assetsCached <==> BatchAccepted(ASSETS, served)
    ensures r.assetsCached ==> forall a :: a in ASSETS ==> Holds(r.storage, CACHE_NAME, a) && r.storage.caches[CACHE_NAME][a] == served[a]
    ensures r.assetsCached ==> forall u :: Holds(r.storage, CACHE_NAME, u) ==> u in ASSETS || Holds(s, CACHE_NAME, u)
    ensures forall u :: Holds(s, CACHE_NAME, u) && u !in ASSETS ==>
              Holds(r.storage, CACHE_NAME, u) && r.storage.caches[CACHE_NAME][u] == s.caches[CACHE_NAME][u]
    ensures !r.assetsCached ==> r.storage == Open(s, CACHE_NAME)
    ensures r.storage.order == Open(s, CACHE_NAME).order
    ensures forall n :: n in s.caches && n != CACHE_NAME ==> n in r.storage.caches && r.storage.caches[n] == s.caches[n]
  {
    Populate(s, CACHE_NAME, ASSETS, served)
  }

  // --------------------------------------------------------------- activate

  /** Caches among `names` other than the current one. The ensures spells
      out the comprehension for the solver's benefit; it is no claim about
      the worker. */
  function Stale(names: seq<CacheName>): (r: set<CacheName>)
    ensures forall n :: n in r <==> n in names && n != CACHE_NAME
  {
    set n | n in names && n != CACHE_NAME
  }

  /** Walk the listed names, deleting each that is not the current cache. */
  function DeleteStale(s: Storage, names: seq<CacheName>): (r: Storage)
    requires Valid(s)
    ensures r.caches == s.caches - Stale(names)
    ensures r.order == Without(s.order, Stale(names))
    decreases |names|
  {
    if names == [] then
      assert Stale(names) == {};
      WithoutNothing(s.order);
      s
    else if names[0] == CACHE_NAME then
      StaleSkip(names);
      DeleteStale(s, names[1..])
    else
      var next := Delete(s, names[0]);
      var r := DeleteStale(next, names[1..]);
      StaleCons(names);
      WithoutTwice(s.order, {names[0]}, Stale(names[1..]));
      RemoveTwice(s.caches, {names[0]}, Stale(names[1..]));
      r
  }

  /** A list headed by the current cache has its tail's stale names. */
  lemma StaleSkip(names: seq<CacheName>)
    requires names != [] && names[0] == CACHE_NAME
    ensures Stale(names) == Stale(names[1..])
  {
    assert names == [names[0]] + names[1..];
  }

  /** A list headed by a stale name has that name and its tail's. */
  lemma StaleCons(names: seq<CacheName>)
    requires names != [] && names[0] != CACHE_NAME
    ensures Stale(names) == {names[0]} + Stale(names[1..])
  {
    assert names == [names[0]] + names[1..];
  }

  /** Removing two sets of keys in turn removes their union. */
  lemma RemoveTwice(m: map<CacheName, Entries>, a: set<CacheName>, b: set<CacheName>)
    ensures (m - a) - b == m - (a + b)
  {
  }

  lemma {:induction false} WithoutNothing(names: seq<CacheName>)
    ensures Without(names, {}) == names
  {
    if names != [] {
      WithoutNothing(names[1..]);
    }
  }

  lemma {:induction false} WithoutTwice(names: seq<CacheName>, a: set<CacheName>, b: set<CacheName>)
    ensures Without(Without(names, a), b) == Without(names, a + b)
  {
    if names != [] {
      WithoutTwice(names[1..], a, b);
    }
  }

  /** The activate handler: list the caches and delete every one whose name
      is not the current cache's. The deletions run concurrently; each
      removes a different name, so the model applies them in list order. */
  function HandleActivate(s: Storage): (r: Storage)
    requires Valid(s)
    ensures Valid(r)
    ensures forall n :: n in r.caches ==> n == CACHE_NAME
    ensures CACHE_NAME in r.caches <==> CACHE_NAME in s.caches
    ensures CACHE_NAME in s.caches ==> r.caches[CACHE_NAME] == s.caches[CACHE_NAME]
    ensures r.order == if CACHE_NAME in s.caches then [CACHE_NAME] else []
  {
    var r := DeleteStale(s, Keys(s));
    KeepOnly(s.order, CACHE_NAME);
    r
  }

  /** Only membership of the listed names in the dropped set matters. */
  lemma {:induction false} WithoutAgree(names: seq<CacheName>, d1: set<CacheName>, d2: set<CacheName>)
    requires forall n :: n in names ==> (n in d1 <==> n in d2)
    ensures Without(names, d1) == Without(names, d2)
  {
    if names != [] {
      assert names[0] in names;
      WithoutAgree(names[1..], d1, d2);
    }
  }

  /** A duplicate-free list's head does not recur in its tail, and the tail
      is duplicate-free. */
  lemma HeadNotInTail(names: seq<CacheName>)
    requires Distinct(names) && names != []
    ensures names[0] !in names[1..]
    ensures Distinct(names[1..])
  {
    forall j | 0 <= j < |names[1..]|
      ensures names[1..][j] != names[0]
    {
      assert names[1..][j] == names[j + 1];
    }
  }

  /** Dropping every name but `c` from a duplicate-free list leaves `[c]`
      when `c` was listed and nothing otherwise. */
  lemma {:induction false} KeepOnly(names: seq<CacheName>, c: CacheName)
    requires Distinct(names)
    ensures Without(names, set n | n in names && n != c) == if c in names then [c] else []
  {
    if names != [] {
      var dead := set n | n in names && n != c;
      var tail := names[1..];
      var tailDead := set n | n in tail && n != c;
      assert names == [names[0]] + tail;
      assert forall n :: n in tail ==> (n in dead <==> n in tailDead);
      WithoutAgree(tail, dead, tailDead);
      KeepOnly(tail, c);
      HeadNotInTail(names);
    }
  }

  // ------------------------------------------------------------------ fetch

  datatype FetchResult = FetchResult(reply: Reply, storage: Storage)

  /** The request targets the backend API host and bypasses every cache. */
  predicate IsApiRequest(req: Request)
  {
    Includes(req.hostname, API_HOST)
  }

  /** A network response worth keeping: status 200 and same-origin. */
  predicate Cacheable(resp: Response)
  {
    resp.status == 200 && resp.kind == Basic
  }

  /** The failed request asks for the offline page: `.html` appears anywhere
      in its full URL. */
  predicate WantsOfflinePage(req: Request)
  {
    IndexOf(req.url, HTML_MARKER) > -1
  }

  /** The `catch` branch: a request whose URL contains `.html` anywhere gets
      what the second lookup, `caches.match` of the entry document, settles
      to; any other request gets no response. `fallbackRejects` says whether
      that second lookup rejects. */
  function OfflineFallback(s: Storage, req: Request, fallbackRejects: bool): (r: Reply)
    ensures (forall i :: !OccursAt(req.url, HTML_MARKER, i)) ==> r == Resolved(None)
    ensures (exists i :: OccursAt(req.url, HTML_MARKER, i)) && !fallbackRejects ==>
              r == Resolved(Match(s, OFFLINE_PAGE))
    ensures (exists i :: OccursAt(req.url, HTML_MARKER, i)) && fallbackRejects ==> r == Rejected
  {
    if WantsOfflinePage(req) then
      if fallbackRejects then Rejected else Resolved(Match(s, OFFLINE_PAGE))
    else
      Resolved(None)
  }

  /** The fetch handler. `lookupRejects` says whether the host rejects the
      lookup of the request itself and `fallbackRejects` whether it rejects
      the lookup of the offline page; `net` is how `fetch(request)` would
      settle. */
  function HandleFetch(s: Storage, req: Request, lookupRejects: bool, fallbackRejects: bool, net: Network): (r: FetchResult)
    requires Valid(s)
    ensures Valid(r.storage)
    ensures r.storage == s || (net.Ok? && net.response.Some? && r.storage == Put(s, CACHE_NAME, req.url, net.response.value))
  {
    if IsApiRequest(req) then
      FetchResult(Forward(net), s)
    else if lookupRejects then
      FetchResult(OfflineFallback(s, req, fallbackRejects), s)
    else
      match Match(s, req.url)
      case Some(hit) => FetchResult(Resolved(Some(hit)), s)
      case None =>
        match net
        case Failed => FetchResult(OfflineFallback(s, req, fallbackRejects), s)
        case Ok(None) => FetchResult(Resolved(None), s)
        case Ok(Some(resp)) =>
          if Cacheable(resp) then FetchResult(Resolved(Some(resp)), Put(s, CACHE_NAME, req.url, resp))
          else FetchResult(Resolved(Some(resp)), s)
  }

  // ---------------------------------------------------------------- message

  /** The structured-clone values a client can post. Objects (arrays too)
      are maps from property name to value; the prototype chain is empty. */
  datatype JsValue =
    | Undefined
    | Null
    | Bool(b: bool)
    | Num(x: real)
    | Str(s: string)
    | Object(fields: map<string, JsValue>)

  /** JavaScript truthiness (NaN is not represented). */
  predicate Truthy(v: JsValue)
  {
    match v
    case Undefined => false
    case Null => false
    case Bool(b) => b
    case Num(x) => x != 0.0
    case Str(t) => t != ""
    case Object(_) => true
  }

  /** Property read `v[key]` on a value that is neither undefined nor null:
      primitives have no own properties, and a missing property reads as
      undefined. */
  function Get(v: JsValue, key: string): JsValue
    requires !v.Undefined? && !v.Null?
  {
    if v.Object? && key in v.fields then v.fields[key] else Undefined
  }

  /** The message handler: does this message make the worker skip waiting? */
  function HandleMessage(data: JsValue): (skip: bool)
    ensures skip <==> data.Object? && "type" in data.fields && data.fields["type"] == Str(SKIP_WAITING)
  {
    Truthy(data) && Get(data, "type") == Str(SKIP_WAITING)
  }
}
