# WENS offline-caching service workers, modelled in Dafny

This project models the decision logic of the two service workers of the
WENS web application:

- `sw.js`: an offline-first worker with a shell cache and a runtime cache
  (both named after the version `v1.0.0`). Its fetch handler sends
  navigations network-first with a shell fallback, same-origin GETs
  stale-while-revalidate, and POSTs to the network or, on failure, to an
  IndexedDB queue. Every other request is passed through. A background-sync
  wake-up with tag `sync-queue` replays the queue, and a periodic-sync
  wake-up with tag `update-content` runs a refresh. Install precaches the
  shell. Activate deletes every cache whose name is neither the shell nor
  the runtime cache of this version, including caches of other workers.
- `service-worker.js`: a single-cache (`wens-cache-v1`) cache-first worker.
  It stores only non-opaque 200 responses, and a document request that
  misses both cache and network gets the cached offline page. Install
  precaches all-or-nothing and only then skips waiting. Activate deletes
  every other cache.

The browser is modelled as explicit state and parameters:

- **Cache Storage** (`CacheStore.CacheStorage`): cache names in creation
  order, plus a map from name to a cache. A cache maps a request URL to a
  response snapshot (status, opaque flag, headers, body bytes).
  `caches.match` searches the caches in creation order. `caches.open`
  creates a missing cache. `cache.put` rejects non-GET requests and 206
  responses.
- **The IndexedDB queue** (`QueueStore.Queue`): a sequence of
  `(id, entry)` records in key order, plus the key generator.
- **The network** is an oracle. Each fetch handler receives the outcome
  (`Attempt`: `Failed` or `Answered(response)`) of the one fetch it makes.
  Precache and replay receive `attempt: nat -> Attempt`, the outcome of
  their k-th fetch. A response with an HTTP error status is an answer, not a
  failure.
- **Writes that are not awaited**: a `landed` flag says whether the host
  completes a fire-and-forget `cache.put`. It covers only the `put` itself,
  for example a quota failure.
- **Other inputs**: `now` is the clock. `listed` says whether `getAll`
  succeeded. `syncSupported` says whether background sync exists.
- **Host commands**: `skipWaiting`, `clients.claim()` and
  `sync.register` are returned as `Command` values.

A handler's `Reply` is `PassThrough` (no `respondWith`) or
`Respond(answer)`. An answer of `None` means the promise settled to
`undefined` or rejected, which the page sees as a network error.

Behaviour kept from the source as written, although a reader might expect otherwise:

- sw.js:75: the stale-while-revalidate fallback to `/offline.html` is
  unreachable, because `fetchPromise` is always truthy. A miss plus a
  network failure gives `Respond(None)`.
- service-worker.js:73: the synthesized 503 page is unreachable for the same
  reason. A document request gets the result of `caches.match('offline.html')`,
  possibly `None`.
- sw.js:51-55 and 71-73: navigations and stale-while-revalidate store a
  response whatever its status. Only `cache.put`'s own rejections (non-GET,
  206) stop the write.
- sw.js:25: `skipWaiting` is emitted even when the precache fails.
- sw.js:202-207: any redelivery that does not throw counts as a success,
  even one with an HTTP error status.

## Model

| member | source | states |
|---|---|---|
| `CacheStore.DropMembers` | sw.js:33-35 | the names left by the stale-name filter are exactly the listed names outside the removed set |
| `CacheStore.EvictionSurvivors` | sw.js:31-36 | after deleting the stale names, the survivors are exactly the old names that are current |
| `CacheStore.NothingStaleAfterEviction` | sw.js:31-36 | after one activation no name is stale, so a second activation deletes nothing |
| `CacheStore.FirstMatch` | service-worker.js:50 | `caches.match` finds nothing iff no cache holds the key; otherwise it returns the key's entry from a cache that holds it |
| `CacheStore.FirstMatchIsEarliest` | service-worker.js:50 | the match comes from the earliest cache, in creation order, that holds the key |
| `CacheStore.AfterPut` | sw.js:54 | a put overwrites only the key in the named cache, and only when accepted and completed; other caches and a rejected or lost put change nothing |
| `CacheStore.BatchAllOrNothing` | service-worker.js:24-28 | addAll succeeds iff the URL list has no duplicate and every fetch answers 200-299 other than 206; it then stores exactly each URL's own response |
| `CacheStore.CacheStorage.Open` | sw.js:53 | opening is idempotent and creates an empty cache, appended to the name order, when the name is new |
| `CacheStore.CacheStorage.Put` | sw.js:54 | the new contents are `AfterPut` of the old; names unchanged |
| `CacheStore.CacheStorage.Delete` | sw.js:35 | the name and its entries are removed; the other names keep their order |
| `CacheStore.CacheStorage.DeleteAll` | sw.js:32-36 | deleting each listed name removes exactly those names and their entries |
| `CacheStore.CacheStorage.EvictExcept` | sw.js:31-36 | names and entries that survive are the old ones in the current set, with contents unchanged; with nothing stale it changes nothing |
| `CacheStore.CacheStorage.AddAll` | sw.js:23 | all-or-nothing: on success the cache gains exactly the batch, otherwise nothing changes |
| `QueueStore.WithoutIdMembers` | sw.js:207 | deleting a key removes exactly the records with that key |
| `QueueStore.Queue.Add` | sw.js:185 | the entry is appended under a key greater than every stored key, and the generator advances |
| `QueueStore.Queue.Delete` | sw.js:207 | the record with that key is removed, the rest keep their order, and the generator is unchanged |
| `QueueStore.Queue.DeleteInTransaction` | sw.js:192-207 | a delete on an inactive transaction throws and changes nothing; on an active one it deletes |
| `WensReplay.QueueFailedRequest` | sw.js:170-188 | exactly one entry is appended, with the request's URL, method, headers, body bytes (empty for no body) and the time, under a fresh key above all existing keys |
| `WensReplay.UndeliveredMembers` | sw.js:200-211 | an entry stays queued after replay iff its own redelivery threw |
| `WensReplay.UndeliveredAscending` | sw.js:194-211 | the entries that stay queued keep their original order |
| `WensReplay.AllDeliveredEmptiesQueue` | sw.js:200-211 | when every redelivery is answered, the queue ends empty |
| `WensReplay.NoneDeliveredKeepsQueue` | sw.js:200-211 | when every redelivery throws, the queue is left as it was |
| `WensReplay.ReplayQueue` | sw.js:190-214 | each entry is redelivered once, in key order, with its stored method, headers and body; the queue then holds the undelivered entries; if `getAll` fails nothing is sent or removed |
| `WensReplay.OnSync` | sw.js:103-107 | only tag `sync-queue` replays, sending each stored entry in key order and leaving the undelivered ones; any other tag sends nothing and changes nothing |
| `WensReplay.ReplayQueueAsWritten` | sw.js:190-214 | with deletes issued on the committed transaction, every entry is sent and none is removed |
| `WensReplay.ReplayDiscrepancyExample` | sw.js:200-211 | one stored POST and the network up: as written the entry is still queued, while the intended replay empties the queue |
| `WensWorker.Classify` | sw.js:48-97 | `navigate` mode wins whatever the method; then same-origin GET; then POST; everything else, cross-origin GET included, is untouched |
| `WensWorker.HandleNavigate` | sw.js:48-63 | network answer returned unchanged and stored under the request URL in the runtime cache only; on failure the shell's `/index.html`, else the shell's `/offline.html`, else nothing |
| `WensWorker.HandleStaleWhileRevalidate` | sw.js:67-78 | a runtime hit is served; a network answer overwrites the key (last write wins); a miss serves the network answer; a miss with a failure serves nothing and leaves the entries unchanged |
| `WensWorker.HandlePost` | sw.js:81-97 | a network answer is returned and the queue untouched; on failure one entry is queued under a fresh key, `sync-queue` is registered when supported, and a 202 JSON acknowledgement is returned |
| `WensWorker.HandleFetch` | sw.js:44-98 | pass-through iff the route is untouched, and then nothing changes; a navigation gets the network-first reply, names and entries; a same-origin GET gets the stale-while-revalidate reply and entries; a POST gets the post-or-queue reply, commands and queue; only POST touches the queue or emits commands, and it leaves the caches alone |
| `WensWorker.Install` | sw.js:21-26 | the shell is precached all-or-nothing into the shell cache; skipWaiting is emitted whatever the outcome |
| `WensWorker.Activate` | sw.js:29-39 | the surviving caches are the old ones named shell or runtime, contents unchanged; a second activate changes nothing; clients are claimed |
| `WensWorker.OnPeriodicSync` | sw.js:112-131 | only tag `update-content` refreshes, which only opens the runtime cache; other tags change nothing |
| `WensWorker.OfflineNavigationScenario` | sw.js:21-63 | after install and activate, a cache of an older version is gone, and an offline navigation is served the installed index page (body `<h1>WENS</h1>`), not the offline page |
| `WensWorker.HandlePostAsWritten` | sw.js:83-95 | a POST with a body that fails on the network is not queued and the page gets a network error; without a body it is queued under a fresh key, `sync-queue` is registered when supported, and 202 is answered, as intended |
| `WensWorker.PostDiscrepancyExample` | sw.js:83-95 | an offline POST with body `{"a":1}`: as written nothing is queued and no response is given, while the intended handler queues it and answers 202 |
| `CacheFirstWorker.HandleFetch` | service-worker.js:45-81 | non-GET is passed through; a cache hit is served with no network call; a miss returns the network answer unchanged and stores it only if it is a non-opaque 200 (a lost write is swallowed); a failed miss gives the cached `offline.html` for documents and nothing otherwise, never a 503 |
| `CacheFirstWorker.Install` | service-worker.js:23-29 | precache all-or-nothing; skipWaiting is emitted iff every URL was stored |
| `CacheFirstWorker.Activate` | service-worker.js:32-42 | every cache not named `wens-cache-v1` is deleted, so at most that one remains, unchanged; a second activate changes nothing; clients are claimed |

## Findings

| source | as written | input that shows it | evidently intended | confidence | as-written member | corrected member |
|---|---|---|---|---|---|---|
| sw.js:190-211 | `store.delete(item.id)` runs after `await fetch(...)` inside the transaction that listed the store. A transaction with no pending request commits when control returns to the event loop, so the delete throws `TransactionInactiveError`. The catch swallows it as if the redelivery had failed. | one queued POST, then a `sync-queue` wake-up with the network up | a delivered entry is deleted, so it is not sent again | medium, not executed | `WensReplay.ReplayQueueAsWritten` | `WensReplay.ReplayQueue` |
| sw.js:83-86, sw.js:170-172 | `fetch(req)` takes over the request's body stream. The later `request.clone()` in `queueFailedRequest` then throws for any request with a body. The handler's promise rejects and nothing is queued. | a POST to `/api/form` with body `{"a":1}` while offline | the request is queued with its body and answered 202 | medium, not executed | `WensWorker.HandlePostAsWritten` | `WensWorker.HandlePost` |

The rest of the model (`HandleFetch`, `OnSync`) uses the intended
behaviour. In the code, the fix is to open a new transaction for each
delete and to clone the request before fetching it.

## Left out

- IndexedDB mechanics: opening and upgrading the database, a failure to open
  it (which would make `queueFailedRequest` and the POST handler reject),
  and `db.close`. The queue store is always available.
- Promise scheduling, `waitUntil` and the race between the background
  revalidation and the returned response. Each event is one sequential
  step, and `landed` stands for whether an unawaited cache write
  completes.
- The effect of `skipWaiting`, `clients.claim()` and `sync.register` on the
  host. They are returned as commands. A rejected sync registration is
  swallowed in the source and is not modelled.
- The push and notificationclick handlers (sw.js:136-153), which only
  display notifications and open windows.
- `refreshImportantResources`' fetch-and-put loop (sw.js:125-130). Its URL
  list is empty, so the model only opens the runtime cache.
- The `caches.open` in service-worker.js:64 is not awaited either. The
  model always creates `wens-cache-v1` before the `put`, and `landed` does
  not cover an open that never completes.
- URL parsing and resolution. `sameOrigin` is a field of the request, and
  cache keys are compared as the strings given (`/offline.html` in sw.js,
  `offline.html` in service-worker.js).
- Cache API details beyond those stated: `Vary` matching, query-string
  options, URL scheme checks, and rejections other than non-GET and 206.
  A failing `caches.open` or `caches.delete` is also not modelled.
- `Response`, `Blob` and `Headers` objects, and body conversion. Bodies
  are byte sequences, and headers a map.
- The concrete asset lists (sw.js:3-15, service-worker.js:4-20). They are
  parameters.
- `CacheFirstWorker.Activate` states that every surviving name is
  `wens-cache-v1`. That at most one name survives follows from the
  distinct-names invariant `Valid()`, and is not stated separately.
