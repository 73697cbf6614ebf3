/** The host's CacheStorage: named caches, each a map from request URL to
    stored response. The host keeps its name-to-cache map ordered by creation,
    and `caches.match` searches the caches in that order, so the model keeps
    the order beside the map. */
module CacheStorage {
  import opened Wrappers
  import opened Http

  type CacheName = string

  /** One cache: request URL to stored response. */
  type Entries = map<Url, Response>

  datatype Storage = Storage(order: seq<CacheName>, caches: map<CacheName, Entries>)

  /** No name listed twice. */
  predicate Distinct(names: seq<CacheName>)
  {
    forall i, j :: 0 <= i < j < |names| ==> names[i] != names[j]
  }

  /** The order lists every cache exactly once. */
  predicate Valid(s: Storage)
  {
    && Distinct(s.order)
    && (forall n :: n in s.order ==> n in s.caches)
    && (forall n :: n in s.caches ==> n in s.order)
  }

  /** The cache named `name` exists and holds an entry for `url`. */
  predicate Holds(s: Storage, name: CacheName, url: Url)
  {
    name in s.caches && url in s.caches[name]
  }

  /** `caches.keys()`: the cache names in creation order. */
  function Keys(s: Storage): (r: seq<CacheName>)
    requires Valid(s)
    ensures forall n :: n in r <==> n in s.caches
    ensures Distinct(r)
  {
    s.order
  }

  /** Search of `caches.match` starting at position `k` of the order. */
  function MatchFrom(s: Storage, url: Url, k: nat): (r: Option<Response>)
    requires k <= |s.order|
    decreases |s.order| - k
    ensures r.None? <==> forall i :: k <= i < |s.order| ==> !Holds(s, s.order[i], url)
    ensures r.Some? ==> exists i :: k <= i < |s.order| && Holds(s, s.order[i], url)
                                    && r.value == s.caches[s.order[i]][url]
                                    && forall j :: k <= j < i ==> !Holds(s, s.order[j], url)
  {
    if k == |s.order| then None
    else if Holds(s, s.order[k], url) then Some(s.caches[s.order[k]][url])
    else MatchFrom(s, url, k + 1)
  }

  /** `caches.match(url)`: the entry of the first cache, in creation order,
      that holds one; None when no cache does. */
  function Match(s: Storage, url: Url): (r: Option<Response>)
    ensures r.None? <==> forall i :: 0 <= i < |s.order| ==> !Holds(s, s.order[i], url)
    ensures r.Some? ==> exists i :: 0 <= i < |s.order| && Holds(s, s.order[i], url)
                                    && r.value == s.caches[s.order[i]][url]
                                    && forall j :: 0 <= j < i ==> !Holds(s, s.order[j], url)
  {
    MatchFrom(s, url, 0)
  }

  /** `caches.open(name)`: the named cache, created empty at the end of the
      order when it does not exist yet. */
  function Open(s: Storage, name: CacheName): (r: Storage)
    requires Valid(s)
    ensures Valid(r)
    ensures name in r.caches
    ensures name in s.caches ==> r == s
    ensures name !in s.caches ==> r.order == s.order + [name] && r.caches == s.caches[name := map[]]
  {
    if name in s.caches then s
    else Storage(s.order + [name], s.caches[name := map[]])
  }

  /** `caches.open(name)` followed by `cache.put(url, response)`. */
  function Put(s: Storage, name: CacheName, url: Url, resp: Response): (r: Storage)
    requires Valid(s)
    ensures Valid(r)
    ensures r.order == Open(s, name).order
    ensures r.caches.Keys == s.caches.Keys + {name}
    ensures r.caches[name] == Open(s, name).caches[name][url := resp]
    ensures forall n :: n in s.caches && n != name ==> r.caches[n] == s.caches[n]
  {
    var o := Open(s, name);
    o.(caches := o.caches[name := o.caches[name][url := resp]])
  }

  /** `caches.delete(name)`: the named cache and its entries disappear, and
      the remaining caches keep their creation order. */
  function Delete(s: Storage, name: CacheName): (r: Storage)
    requires Valid(s)
    ensures Valid(r)
    ensures forall n :: n in r.order <==> n in s.order && n != name
    ensures Subsequence(r.order, s.order)
    ensures r.caches == s.caches - {name}
  {
    WithoutKeepsOrder(s.order, {name});
    Storage(Without(s.order, {name}), s.caches - {name})
  }

  /** `sub` is `names` with some entries left out and the rest kept in
      their original order: each entry of `names` is either kept, matching
      the head of `sub`, or skipped. */
  predicate Subsequence(sub: seq<CacheName>, names: seq<CacheName>)
    decreases |names|
  {
    if names == [] then sub == []
    else
      || (sub != [] && sub[0] == names[0] && Subsequence(sub[1..], names[1..]))
      || Subsequence(sub, names[1..])
  }

  /** The names not in `dead`, in their original order. */
  function Without(names: seq<CacheName>, dead: set<CacheName>): (r: seq<CacheName>)
    ensures forall n :: n in r <==> n in names && n !in dead
    ensures Distinct(names) ==> Distinct(r)
  {
    if names == [] then []
    else if names[0] in dead then Without(names[1..], dead)
    else [names[0]] + Without(names[1..], dead)
  }

  /** Dropping names keeps the survivors in their original order. */
  lemma {:induction false} WithoutKeepsOrder(names: seq<CacheName>, dead: set<CacheName>)
    ensures Subsequence(Without(names, dead), names)
  {
    if names != [] {
      WithoutKeepsOrder(names[1..], dead);
    }
  }

  /** A response `cache.addAll` accepts (section 5.4.4 of the W3C Service
      Workers specification): not a network error, an ok status, and not a
      partial (206) response. */
  predicate Storable(resp: Response)
  {
    resp.kind != Error && OkStatus(resp.status) && resp.status != 206
  }

  /** The whole batch is accepted: every URL is served with a storable
      response and no URL is requested twice. `served` is what the network
      returns for each URL; a URL it lacks is a failed fetch. */
  predicate BatchAccepted(urls: seq<Url>, served: map<Url, Response>)
  {
    && Distinct(urls)
    && forall u :: u in urls ==> u in served && Storable(served[u])
  }

  datatype AddAllResult = AddAllResult(entries: Entries, ok: bool)

  /** `cache.addAll(urls)`, taken to be all-or-nothing as the W3C Service
      Workers specification describes it: either every URL is stored with the
      response served for it, or the promise rejects and the cache keeps its
      entries as they were. */
  function AddAll(entries: Entries, urls: seq<Url>, served: map<Url, Response>): (r: AddAllResult)
    ensures r.ok <==> BatchAccepted(urls, served)
    ensures r.ok ==> forall u :: u in urls ==> u in r.entries && r.entries[u] == served[u]
    ensures r.ok ==> forall u :: u in r.entries <==> u in entries || u in urls
    ensures forall u :: u in entries && u !in urls ==> u in r.entries && r.entries[u] == entries[u]
    ensures !r.ok ==> r.entries == entries
  {
    if BatchAccepted(urls, served) then
      AddAllResult(entries + map u | u in urls :: served[u], true)
    else
      AddAllResult(entries, false)
  }
}
