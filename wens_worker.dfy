/** sw.js: the offline-first worker with two caches (shell and runtime). Its
    fetch handler routes every request to network-first for navigations,
    stale-while-revalidate for same-origin GETs, post-or-queue for POSTs,
    and leaves everything else to the browser; install precaches the shell
    and activate deletes every cache whose name is neither of its two. */
module WensWorker {
  import opened Http
  import opened CacheStore
  import opened QueueStore
  import opened WensReplay

  const VERSION := "v1.0.0"
  const SHELL_CACHE := "wens-shell-" + VERSION
  const RUNTIME_CACHE := "wens-runtime-" + VERSION
  const INDEX_PAGE := "/index.html"
  const OFFLINE_PAGE := "/offline.html"
  const REFRESH_TAG := "update-content"
  const QUEUED_JSON := "{\"queued\":true,\"message\":\"Saved offline. Will sync later.\"}"

  /** The names activation keeps. */
  function CurrentCaches(): set<string>
  {
    {SHELL_CACHE, RUNTIME_CACHE}
  }

  // ---------------------------------------------------------------------
  // Routing
  // ---------------------------------------------------------------------

  datatype Route = NetworkFirst | StaleWhileRevalidate | PostOrQueue | Untouched

  /** The fetch handler's first-match-wins classification. */
  function Classify(req: Request): (r: Route)
    ensures req.mode == Navigate ==> r == NetworkFirst
    ensures r == StaleWhileRevalidate <==> req.mode != Navigate && req.verb == "GET" && req.sameOrigin
    ensures r == PostOrQueue <==> req.mode != Navigate && req.verb == "POST"
    ensures r == Untouched <==>
      req.mode != Navigate && req.verb != "POST" && !(req.verb == "GET" && req.sameOrigin)
    ensures req.mode != Navigate && req.verb == "GET" && !req.sameOrigin ==> r == Untouched
  {
    if req.mode == Navigate then NetworkFirst
    else if req.verb == "GET" && req.sameOrigin then StaleWhileRevalidate
    else if req.verb == "POST" then PostOrQueue
    else Untouched
  }

  /** The 202 answer to a POST that was queued: a JSON acknowledgement. */
  function QueuedAck(): Response
  {
    Response(202, false, map["content-type" := "application/json"], AsciiBytes(QUEUED_JSON))
  }

  // What each strategy answers and leaves behind, as functions of the state
  // before the request; the router's contract is stated with these.

  function NavigateReply(entries: Entries, net: Attempt): Reply
  {
    match net
    case Answered(resp) => Respond(Some(resp))
    case Failed =>
      if Holds(entries, SHELL_CACHE, INDEX_PAGE) then Respond(Some(entries[SHELL_CACHE][INDEX_PAGE]))
      else Respond(Lookup(entries, SHELL_CACHE, OFFLINE_PAGE))
  }

  function NavigateEntries(entries: Entries, req: Request, net: Attempt, landed: bool): Entries
  {
    match net
    case Answered(resp) => AfterPut(Opened(entries, RUNTIME_CACHE), RUNTIME_CACHE, req, resp, landed)
    case Failed => Opened(entries, SHELL_CACHE)
  }

  function NavigateNames(names: seq<string>, net: Attempt): seq<string>
  {
    OpenedNames(names, if net.Answered? then RUNTIME_CACHE else SHELL_CACHE)
  }

  function RevalidateReply(entries: Entries, req: Request, net: Attempt): Reply
  {
    if Holds(entries, RUNTIME_CACHE, req.url) then Respond(Some(entries[RUNTIME_CACHE][req.url]))
    else if net.Answered? then Respond(Some(net.response))
    else Respond(None)
  }

  function RevalidateEntries(entries: Entries, req: Request, net: Attempt, landed: bool): Entries
  {
    match net
    case Answered(resp) => AfterPut(Opened(entries, RUNTIME_CACHE), RUNTIME_CACHE, req, resp, landed)
    case Failed => Opened(entries, RUNTIME_CACHE)
  }

  function PostReply(net: Attempt): Reply
  {
    match net
    case Answered(resp) => Respond(Some(resp))
    case Failed => Respond(Some(QueuedAck()))
  }

  function PostCommands(net: Attempt, syncSupported: bool): seq<Command>
  {
    if net.Failed? && syncSupported then [RegisterSync(SYNC_TAG)] else []
  }

  function PostItems(items: seq<Item>, nextId: nat, req: Request, net: Attempt, now: int): seq<Item>
  {
    if net.Failed? then items + [Item(nextId, Captured(req, now))] else items
  }

  /** Navigation, network first: a network answer (whatever its status) is
      returned as is and a copy goes to the runtime cache, and no other cache
      changes; on a network failure the shell's index page is served, else
      the shell's offline page, else nothing. */
  method HandleNavigate(caches: CacheStorage, req: Request, net: Attempt, landed: bool) returns (reply: Reply)
    requires caches.Valid()
    modifies caches
    ensures caches.Valid()
    ensures net.Answered? ==> reply == Respond(Some(net.response))
    ensures net.Answered? ==> caches.names == OpenedNames(old(caches.names), RUNTIME_CACHE)
    ensures net.Answered? ==>
      caches.entries == AfterPut(Opened(old(caches.entries), RUNTIME_CACHE), RUNTIME_CACHE, req, net.response, landed)
    ensures net.Answered? ==>
      forall n :: n in old(caches.entries) && n != RUNTIME_CACHE ==> caches.entries[n] == old(caches.entries)[n]
    ensures net.Failed? ==> caches.names == OpenedNames(old(caches.names), SHELL_CACHE)
    ensures net.Failed? ==> caches.entries == Opened(old(caches.entries), SHELL_CACHE)
    ensures net.Failed? && Holds(old(caches.entries), SHELL_CACHE, INDEX_PAGE) ==>
      reply == Respond(Some(old(caches.entries)[SHELL_CACHE][INDEX_PAGE]))
    ensures net.Failed? && !Holds(old(caches.entries), SHELL_CACHE, INDEX_PAGE) ==>
      reply == Respond(Lookup(old(caches.entries), SHELL_CACHE, OFFLINE_PAGE))
  {
    match net
    case Answered(resp) =>
      caches.Open(RUNTIME_CACHE);
      caches.Put(RUNTIME_CACHE, req, resp, landed);
      reply := Respond(Some(resp));
    case Failed =>
      caches.Open(SHELL_CACHE);
      var cached := caches.Match(SHELL_CACHE, INDEX_PAGE);
      if cached.Some? {
        reply := Respond(cached);
      } else {
        reply := Respond(caches.Match(SHELL_CACHE, OFFLINE_PAGE));
      }
  }

  /** Same-origin GET, stale-while-revalidate: a runtime-cache hit is served;
      the network fetch is always made and its answer overwrites the key in
      the runtime cache; on a miss the network answer is served, and on a
      miss with a network failure nothing is (the offline page is never
      consulted, because the fetch promise is always truthy). */
  method HandleStaleWhileRevalidate(caches: CacheStorage, req: Request, net: Attempt, landed: bool) returns (reply: Reply)
    requires caches.Valid()
    modifies caches
    ensures caches.Valid()
    ensures caches.names == OpenedNames(old(caches.names), RUNTIME_CACHE)
    ensures Holds(old(caches.entries), RUNTIME_CACHE, req.url) ==>
      reply == Respond(Some(old(caches.entries)[RUNTIME_CACHE][req.url]))
    ensures !Holds(old(caches.entries), RUNTIME_CACHE, req.url) && net.Answered? ==>
      reply == Respond(Some(net.response))
    ensures !Holds(old(caches.entries), RUNTIME_CACHE, req.url) && net.Failed? ==>
      reply == Respond(None)
    ensures net.Answered? ==>
      caches.entries == AfterPut(Opened(old(caches.entries), RUNTIME_CACHE), RUNTIME_CACHE, req, net.response, landed)
    ensures net.Failed? ==> caches.entries == Opened(old(caches.entries), RUNTIME_CACHE)
  {
    caches.Open(RUNTIME_CACHE);
    var cached := caches.Match(RUNTIME_CACHE, req.url);
    // the background revalidation; it runs whether or not there was a hit
    var fetched: Option<Response> := None;
    if net.Answered? {
      caches.Put(RUNTIME_CACHE, req, net.response, landed);
      fetched := Some(net.response);
    }
    if cached.Some? {
      reply := Respond(cached);
    } else {
      reply := Respond(fetched);
    }
  }

  /** POST: a network answer is returned as is and the queue is untouched;
      on a network failure the request is queued under a fresh key, a sync
      registration for `sync-queue` is emitted when the host supports it,
      and the 202 acknowledgement is returned. */
  method HandlePost(queue: Queue, req: Request, net: Attempt, now: int, syncSupported: bool)
    returns (reply: Reply, cmds: seq<Command>)
    requires queue.Valid()
    modifies queue
    ensures queue.Valid()
    ensures net.Answered? ==> reply == Respond(Some(net.response)) && cmds == []
    ensures net.Answered? ==> queue.items == old(queue.items) && queue.nextId == old(queue.nextId)
    ensures net.Failed? ==> reply == Respond(Some(QueuedAck()))
    ensures net.Failed? ==>
      reply.answer.value.status == 202 && reply.answer.value.headers["content-type"] == "application/json"
    ensures net.Failed? ==>
      && queue.items == old(queue.items) + [Item(old(queue.nextId), Captured(req, now))]
      && (forall k | 0 <= k < |old(queue.items)| :: old(queue.items)[k].id < old(queue.nextId))
      && queue.nextId == old(queue.nextId) + 1
    ensures net.Failed? ==> cmds == if syncSupported then [RegisterSync(SYNC_TAG)] else []
  {
    match net
    case Answered(resp) =>
      reply, cmds := Respond(Some(resp)), [];
    case Failed =>
      var id := QueueFailedRequest(queue, req, now);
      cmds := if syncSupported then [RegisterSync(SYNC_TAG)] else [];
      reply := Respond(Some(QueuedAck()));
  }

  /** The fetch handler. `net` is the outcome of the one fetch the chosen
      strategy makes, `landed` whether a cache write it issues completes,
      `now` the clock, `syncSupported` whether background sync exists. */
  method HandleFetch(caches: CacheStorage, queue: Queue, req: Request, net: Attempt, landed: bool,
                     now: int, syncSupported: bool)
    returns (reply: Reply, fetched: bool, cmds: seq<Command>)
    requires caches.Valid() && queue.Valid()
    modifies caches, queue
    ensures caches.Valid() && queue.Valid()
    ensures reply.PassThrough? <==> Classify(req) == Untouched
    ensures fetched <==> Classify(req) != Untouched
    ensures Classify(req) == Untouched ==>
      && caches.names == old(caches.names) && caches.entries == old(caches.entries)
      && queue.items == old(queue.items) && queue.nextId == old(queue.nextId)
    ensures Classify(req) != PostOrQueue ==>
      queue.items == old(queue.items) && queue.nextId == old(queue.nextId) && cmds == []
    ensures Classify(req) == PostOrQueue ==>
      caches.names == old(caches.names) && caches.entries == old(caches.entries)
    ensures Classify(req) == NetworkFirst ==>
      && reply == NavigateReply(old(caches.entries), net)
      && caches.names == NavigateNames(old(caches.names), net)
      && caches.entries == NavigateEntries(old(caches.entries), req, net, landed)
    ensures Classify(req) == StaleWhileRevalidate ==>
      && reply == RevalidateReply(old(caches.entries), req, net)
      && caches.names == OpenedNames(old(caches.names), RUNTIME_CACHE)
      && caches.entries == RevalidateEntries(old(caches.entries), req, net, landed)
    ensures Classify(req) == PostOrQueue ==>
      && reply == PostReply(net)
      && cmds == PostCommands(net, syncSupported)
      && queue.items == PostItems(old(queue.items), old(queue.nextId), req, net, now)
      && queue.nextId == old(queue.nextId) + (if net.Failed? then 1 else 0)
  {
    match Classify(req)
    case NetworkFirst =>
      reply := HandleNavigate(caches, req, net, landed);
      fetched, cmds := true, [];
    case StaleWhileRevalidate =>
      reply := HandleStaleWhileRevalidate(caches, req, net, landed);
      fetched, cmds := true, [];
    case PostOrQueue =>
      reply, cmds := HandlePost(queue, req, net, now, syncSupported);
      fetched := true;
    case Untouched =>
      reply, fetched, cmds := PassThrough, false, [];
  }

  // ---------------------------------------------------------------------
  // Lifecycle
  // ---------------------------------------------------------------------

  /** Install: opens the shell cache and precaches `shell` all-or-nothing
      (`attempt(k)` is the fetch of `shell[k]`); skipWaiting is emitted
      whatever the outcome. */
  method Install(caches: CacheStorage, shell: seq<string>, attempt: nat -> Attempt)
    returns (installed: bool, cmds: seq<Command>)
    requires caches.Valid()
    modifies caches
    ensures caches.Valid()
    ensures cmds == [SkipWaiting]
    ensures installed == Batch(shell, attempt).Some?
    ensures caches.names == OpenedNames(old(caches.names), SHELL_CACHE)
    ensures installed ==>
      var before := Opened(old(caches.entries), SHELL_CACHE);
      caches.entries == before[SHELL_CACHE := before[SHELL_CACHE] + Batch(shell, attempt).value]
    ensures !installed ==> caches.entries == Opened(old(caches.entries), SHELL_CACHE)
  {
    caches.Open(SHELL_CACHE);
    installed := caches.AddAll(SHELL_CACHE, shell, attempt);
    cmds := [SkipWaiting];
  }

  /** Activate: deletes every cache whose name is neither the shell nor the
      runtime cache of this version, then claims the clients. Afterwards the
      surviving names are the old ones that are current, so a second
      activation changes nothing. */
  method Activate(caches: CacheStorage) returns (cmds: seq<Command>)
    requires caches.Valid()
    modifies caches
    ensures caches.Valid()
    ensures cmds == [ClaimClients]
    ensures forall n :: n in caches.names <==> n in old(caches.names) && n in CurrentCaches()
    ensures forall n :: n in caches.entries <==> n in old(caches.entries) && n in CurrentCaches()
    ensures forall n :: n in caches.entries ==> caches.entries[n] == old(caches.entries)[n]
    ensures (forall n :: n in old(caches.names) ==> n in CurrentCaches()) ==>
      caches.names == old(caches.names) && caches.entries == old(caches.entries)
  {
    caches.EvictExcept(CurrentCaches());
    cmds := [ClaimClients];
  }

  /** Periodic sync: only `update-content` triggers the refresh, which opens
      the runtime cache and, its list of URLs being empty, fetches nothing. */
  method OnPeriodicSync(caches: CacheStorage, tag: string) returns (refreshed: bool)
    requires caches.Valid()
    modifies caches
    ensures caches.Valid()
    ensures refreshed <==> tag == REFRESH_TAG
    ensures refreshed ==> caches.names == OpenedNames(old(caches.names), RUNTIME_CACHE)
    ensures refreshed ==> caches.entries == Opened(old(caches.entries), RUNTIME_CACHE)
    ensures !refreshed ==> caches.names == old(caches.names) && caches.entries == old(caches.entries)
  {
    refreshed := tag == REFRESH_TAG;
    if refreshed {
      caches.Open(RUNTIME_CACHE);
    }
  }

  /** Install with both pages answering, activate over a cache left by an
      older version, then a navigation with the network down: the older
      cache is gone and the shell's index page is served, not the offline
      page. */
  method OfflineNavigationScenario() returns (survivors: seq<string>, reply: Reply, index: Response)
    ensures "wens-shell-v0.9.0" !in survivors
    ensures reply == Respond(Some(index))
    ensures index.body == AsciiBytes("<h1>WENS</h1>")
  {
    var caches := new CacheStorage();
    caches.Open("wens-shell-v0.9.0");
    index := Response(200, false, map[], AsciiBytes("<h1>WENS</h1>"));
    var offline := Response(200, false, map[], AsciiBytes("<h1>Offline</h1>"));
    var network: nat -> Attempt := k => if k == 0 then Answered(index) else Answered(offline);
    var shell := [INDEX_PAGE, OFFLINE_PAGE];
    BatchAllOrNothing(shell, network);
    var installed, installCmds := Install(caches, shell, network);
    var activateCmds := Activate(caches);
    survivors := caches.names;
    assert "wens-shell-v0.9.0" !in CurrentCaches() by {
      assert |RUNTIME_CACHE| != |"wens-shell-v0.9.0"|;
      assert SHELL_CACHE[12] == '1' && "wens-shell-v0.9.0"[12] == '0';
    }
    var nav := Request("GET", "/lessons", Navigate, "document", true, map[], None);
    assert Holds(caches.entries, SHELL_CACHE, INDEX_PAGE);
    reply := HandleNavigate(caches, nav, Failed, true);
  }

  // ---------------------------------------------------------------------
  // The POST handler as written: the body is gone before it is queued
  // ---------------------------------------------------------------------

  /** The POST handler with the Fetch standard's body handling taken into
      account: `fetch(req)` takes over the request's body stream, so when the
      request has a body, the `request.clone()` at the start of
      `queueFailedRequest` throws; the handler's promise rejects, nothing is
      queued and no sync is registered. A request without a body is queued
      as intended. */
  method HandlePostAsWritten(queue: Queue, req: Request, net: Attempt, now: int, syncSupported: bool)
    returns (reply: Reply, cmds: seq<Command>)
    requires queue.Valid()
    modifies queue
    ensures queue.Valid()
    ensures net.Answered? ==> reply == Respond(Some(net.response)) && cmds == []
    ensures net.Failed? && req.body.Some? ==> reply == Respond(None) && cmds == []
    ensures net.Answered? || req.body.Some? ==>
      queue.items == old(queue.items) && queue.nextId == old(queue.nextId)
    ensures net.Failed? && req.body.None? ==> reply == Respond(Some(QueuedAck()))
    ensures net.Failed? && req.body.None? ==>
      && queue.items == old(queue.items) + [Item(old(queue.nextId), Captured(req, now))]
      && queue.nextId == old(queue.nextId) + 1
    ensures net.Failed? && req.body.None? ==> cmds == if syncSupported then [RegisterSync(SYNC_TAG)] else []
  {
    match net
    case Answered(resp) =>
      reply, cmds := Respond(Some(resp)), [];
    case Failed =>
      if req.body.Some? {
        // request.clone() on a request whose body the fetch consumed throws
        reply, cmds := Respond(None), [];
      } else {
        var id := QueueFailedRequest(queue, req, now);
        cmds := if syncSupported then [RegisterSync(SYNC_TAG)] else [];
        reply := Respond(Some(QueuedAck()));
      }
  }

  /** A form POST with body `{"a":1}` while offline: as written the page
      gets a network error and the queue stays empty; the intended handler
      answers 202 and queues the request with its body. */
  method PostDiscrepancyExample() returns (asWritten: Reply, intended: Reply, queuedAsWritten: nat, queuedIntended: nat)
    ensures asWritten == Respond(None) && queuedAsWritten == 0
    ensures intended.Respond? && intended.answer.Some? && intended.answer.value.status == 202
    ensures queuedIntended == 1
  {
    var body: seq<byte> := [123, 34, 97, 34, 58, 49, 125];
    var req := Request("POST", "/api/form", Cors, "", true, map[], Some(body));
    var q1 := new Queue();
    var cmds1;
    asWritten, cmds1 := HandlePostAsWritten(q1, req, Failed, 0, true);
    queuedAsWritten := |q1.items|;
    var q2 := new Queue();
    var cmds2;
    intended, cmds2 := HandlePost(q2, req, Failed, 0, true);
    queuedIntended := |q2.items|;
  }
}
