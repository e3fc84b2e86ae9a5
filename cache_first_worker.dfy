/** service-worker.js: the single-cache worker. GET requests are served cache
    first; on a miss the network answer is returned and, when it is a
    non-opaque 200, also stored; a document request that misses both gets
    the cached offline page if any. Install precaches all-or-nothing and
    only then skips waiting; activate deletes every other cache. */
module CacheFirstWorker {
  import opened Http
  import opened CacheStore

  const CACHE_NAME := "wens-cache-v1"
  const OFFLINE_PAGE := "offline.html"

  /** Only a 200 that is not opaque is worth storing. */
  predicate IsCacheable(resp: Response)
  {
    resp.status == 200 && !resp.isOpaque
  }

  /** The fetch handler. `net` is the outcome of the network fetch, made only
      on a cache miss (`fetched`); `landed` whether the cache write
      completes (a quota failure is swallowed). */
  method HandleFetch(caches: CacheStorage, req: Request, net: Attempt, landed: bool)
    returns (reply: Reply, fetched: bool)
    requires caches.Valid()
    modifies caches
    ensures caches.Valid()
    ensures req.verb != "GET" ==> reply == PassThrough && !fetched
    ensures reply.PassThrough? ==> req.verb != "GET"
    ensures req.verb == "GET" && FirstMatch(old(caches.names), old(caches.entries), req.url).Some? ==>
      reply == Respond(FirstMatch(old(caches.names), old(caches.entries), req.url)) && !fetched
    ensures fetched <==> req.verb == "GET" && FirstMatch(old(caches.names), old(caches.entries), req.url).None?
    ensures fetched && net.Answered? ==> reply == Respond(Some(net.response))
    ensures fetched && net.Answered? && IsCacheable(net.response) ==>
      && caches.names == OpenedNames(old(caches.names), CACHE_NAME)
      && caches.entries == AfterPut(Opened(old(caches.entries), CACHE_NAME), CACHE_NAME, req, net.response, landed)
    ensures fetched && net.Failed? ==>
      reply == Respond(if req.destination == "document"
                       then FirstMatch(old(caches.names), old(caches.entries), OFFLINE_PAGE)
                       else None)
    ensures !(fetched && net.Answered? && IsCacheable(net.response)) ==>
      caches.names == old(caches.names) && caches.entries == old(caches.entries)
  {
    fetched := false;
    if req.verb != "GET" {
      reply := PassThrough;
      return;
    }
    var cached := caches.MatchAll(req.url);
    if cached.Some? {
      reply := Respond(cached);
      return;
    }
    fetched := true;
    match net
    case Answered(resp) =>
      if IsCacheable(resp) {
        caches.Open(CACHE_NAME);
        caches.Put(CACHE_NAME, req, resp, landed);
      }
      reply := Respond(Some(resp));
    case Failed =>
      // `caches.match(...) || new Response(...)`: the promise is always
      // truthy, so the 503 page is never built
      if req.destination == "document" {
        reply := Respond(caches.MatchAll(OFFLINE_PAGE));
      } else {
        reply := Respond(None);
      }
  }

  /** Install: opens the cache and precaches `urls` all-or-nothing
      (`attempt(k)` is the fetch of `urls[k]`); skipWaiting is emitted only
      when every URL was stored. */
  method Install(caches: CacheStorage, urls: seq<string>, attempt: nat -> Attempt)
    returns (installed: bool, cmds: seq<Command>)
    requires caches.Valid()
    modifies caches
    ensures caches.Valid()
    ensures installed == Batch(urls, attempt).Some?
    ensures cmds == if installed then [SkipWaiting] else []
    ensures caches.names == OpenedNames(old(caches.names), CACHE_NAME)
    ensures installed ==>
      var before := Opened(old(caches.entries), CACHE_NAME);
      caches.entries == before[CACHE_NAME := before[CACHE_NAME] + Batch(urls, attempt).value]
    ensures !installed ==> caches.entries == Opened(old(caches.entries), CACHE_NAME)
  {
    caches.Open(CACHE_NAME);
    installed := caches.AddAll(CACHE_NAME, urls, attempt);
    cmds := if installed then [SkipWaiting] else [];
  }

  /** Activate: deletes every cache not named `CACHE_NAME`, then claims the
      clients; afterwards at most that cache is left, and activating again
      changes nothing. */
  method Activate(caches: CacheStorage) returns (cmds: seq<Command>)
    requires caches.Valid()
    modifies caches
    ensures caches.Valid()
    ensures cmds == [ClaimClients]
    ensures forall n :: n in caches.names ==> n == CACHE_NAME
    ensures CACHE_NAME in caches.entries <==> CACHE_NAME in old(caches.entries)
    ensures CACHE_NAME in caches.entries ==> caches.entries[CACHE_NAME] == old(caches.entries)[CACHE_NAME]
    ensures (forall n :: n in old(caches.names) ==> n == CACHE_NAME) ==>
      caches.names == old(caches.names) && caches.entries == old(caches.entries)
  {
    caches.EvictExcept({CACHE_NAME});
    cmds := [ClaimClients];
  }
}
