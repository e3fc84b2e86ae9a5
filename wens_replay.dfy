/** The failed-POST queue of sw.js and its replay engine: a POST that cannot
    reach the network is stored; a background-sync wake-up with the tag
    `sync-queue` redelivers every stored request once, in key order, and
    deletes each one whose redelivery did not throw. */
module WensReplay {
  import opened Http
  import opened QueueStore

  const SYNC_TAG := "sync-queue"

  /** The request that replay sends for a stored entry. */
  datatype Redelivery = Redelivery(
    url: string,
    verb: string,
    headers: map<string, string>,
    body: seq<byte>)

  function Redeliver(e: QueuedRequest): Redelivery
  {
    Redelivery(e.url, e.verb, e.headers, e.body)
  }

  /** Reading the body of a request with no body gives an empty buffer, so
      every stored entry has a byte body, possibly empty. */
  function BodyBytes(body: Option<seq<byte>>): seq<byte>
  {
    match body
    case None => []
    case Some(b) => b
  }

  /** The entry stored for a failed request received at time `now`. */
  function Captured(req: Request, now: int): QueuedRequest
  {
    QueuedRequest(req.url, req.verb, req.headers, BodyBytes(req.body), now)
  }

  /** `queueFailedRequest(req)`: appends one entry under a fresh key. */
  method QueueFailedRequest(queue: Queue, req: Request, now: int) returns (id: nat)
    requires queue.Valid()
    modifies queue
    ensures queue.Valid()
    ensures queue.items == old(queue.items) + [Item(id, Captured(req, now))]
    ensures forall k | 0 <= k < |old(queue.items)| :: old(queue.items)[k].id < id
    ensures id == old(queue.nextId) && queue.nextId == id + 1
  {
    id := queue.Add(Captured(req, now));
  }

  // ---------------------------------------------------------------------
  // Replay
  // ---------------------------------------------------------------------

  /** The entries of `all` that stay queued when the k-th redelivery has
      outcome `attempt(k)`: those whose redelivery threw, in order. */
  function Undelivered(all: seq<Item>, attempt: nat -> Attempt): seq<Item>
    decreases |all|
  {
    if all == [] then []
    else
      var last := |all| - 1;
      Undelivered(all[..last], attempt) + (if attempt(last).Failed? then [all[last]] else [])
  }

  /** An entry stays queued exactly when its own redelivery threw. */
  lemma {:induction false} UndeliveredMembers(all: seq<Item>, attempt: nat -> Attempt)
    ensures forall x :: x in Undelivered(all, attempt) <==>
      exists k | 0 <= k < |all| :: all[k] == x && attempt(k).Failed?
    decreases |all|
  {
    if all != [] {
      var last := |all| - 1;
      var p := all[..last];
      UndeliveredMembers(p, attempt);
      forall x ensures x in Undelivered(all, attempt) <==>
        exists k | 0 <= k < |all| :: all[k] == x && attempt(k).Failed?
      {
        if x in Undelivered(p, attempt) {
          var k :| 0 <= k < |p| && p[k] == x && attempt(k).Failed?;
          assert all[k] == x;
        }
        if exists k | 0 <= k < |all| :: all[k] == x && attempt(k).Failed? {
          var k :| 0 <= k < |all| && all[k] == x && attempt(k).Failed?;
          if k < last { assert p[k] == x; }
        }
      }
    }
  }

  /** The entries that stay queued keep their original order. */
  lemma {:induction false} UndeliveredAscending(all: seq<Item>, attempt: nat -> Attempt)
    requires Ascending(all)
    ensures Ascending(Undelivered(all, attempt))
    decreases |all|
  {
    if all != [] {
      var last := |all| - 1;
      var p := all[..last];
      UndeliveredAscending(p, attempt);
      UndeliveredMembers(p, attempt);
      var u := Undelivered(p, attempt);
      if attempt(last).Failed? {
        var s := u + [all[last]];
        forall i, j | 0 <= i < j < |s| ensures s[i].id < s[j].id {
          if j == |u| {
            assert s[i] in u;
            var k :| 0 <= k < |p| && p[k] == s[i] && attempt(k).Failed?;
            assert all[k] == s[i];
          }
        }
      }
    }
  }

  /** With the network answering every redelivery, the queue empties. */
  lemma {:induction false} AllDeliveredEmptiesQueue(all: seq<Item>, attempt: nat -> Attempt)
    requires forall k | 0 <= k < |all| :: attempt(k).Answered?
    ensures Undelivered(all, attempt) == []
    decreases |all|
  {
    if all != [] {
      AllDeliveredEmptiesQueue(all[..|all| - 1], attempt);
    }
  }

  /** With every redelivery throwing, the queue is left as it was. */
  lemma {:induction false} NoneDeliveredKeepsQueue(all: seq<Item>, attempt: nat -> Attempt)
    requires forall k | 0 <= k < |all| :: attempt(k).Failed?
    ensures Undelivered(all, attempt) == all
    decreases |all|
  {
    if all != [] {
      NoneDeliveredKeepsQueue(all[..|all| - 1], attempt);
      assert all[..|all| - 1] + [all[|all| - 1]] == all;
    }
  }

  /** The entries still queued from the processed prefix all have keys below
      the key of the entry being processed. */
  lemma UndeliveredBelow(all: seq<Item>, attempt: nat -> Attempt, i: nat)
    requires Ascending(all) && i < |all|
    ensures forall x | x in Undelivered(all[..i], attempt) :: x.id != all[i].id
  {
    UndeliveredMembers(all[..i], attempt);
    forall x | x in Undelivered(all[..i], attempt) ensures x.id != all[i].id {
      var k :| 0 <= k < i && all[..i][k] == x && attempt(k).Failed?;
      assert all[k] == x;
    }
  }

  /** The entries after the one being processed all have larger keys. */
  lemma SuffixAbove(all: seq<Item>, i: nat)
    requires Ascending(all) && i < |all|
    ensures WithoutId(all[i..], all[i].id) == all[i + 1..]
  {
    var id := all[i].id;
    var rest := all[i + 1..];
    assert all[i..] == [all[i]] + rest;
    WithoutIdConcat([all[i]], rest, id);
    assert WithoutId([all[i]], id) == [] by {
      assert [all[i]][1..] == [];
    }
    forall x | x in rest ensures x.id != id {
      var k :| 0 <= k < |rest| && rest[k] == x;
      assert all[i + 1 + k] == x;
    }
    WithoutIdAbsent(rest, id);
  }

  /** One more entry processed: it joins the undelivered ones iff its
      redelivery threw. */
  lemma UndeliveredSnoc(all: seq<Item>, attempt: nat -> Attempt, i: nat)
    requires i < |all|
    ensures Undelivered(all[..i + 1], attempt)
         == Undelivered(all[..i], attempt) + (if attempt(i).Failed? then [all[i]] else [])
  {
    assert all[..i + 1][..i] == all[..i];
  }

  /** Keeping entry i after a failed redelivery. */
  lemma ReplayKeep(all: seq<Item>, attempt: nat -> Attempt, i: nat)
    requires i < |all| && attempt(i).Failed?
    ensures Undelivered(all[..i], attempt) + all[i..] == Undelivered(all[..i + 1], attempt) + all[i + 1..]
  {
    UndeliveredSnoc(all, attempt, i);
    assert all[i..] == [all[i]] + all[i + 1..];
  }

  /** Deleting entry i after its redelivery leaves the processed prefix
      filtered and the rest untouched. */
  lemma ReplayStep(all: seq<Item>, attempt: nat -> Attempt, i: nat)
    requires Ascending(all) && i < |all| && attempt(i).Answered?
    ensures WithoutId(Undelivered(all[..i], attempt) + all[i..], all[i].id)
         == Undelivered(all[..i + 1], attempt) + all[i + 1..]
  {
    UndeliveredSnoc(all, attempt, i);
    var u := Undelivered(all[..i], attempt);
    UndeliveredBelow(all, attempt, i);
    WithoutIdAbsent(u, all[i].id);
    WithoutIdConcat(u, all[i..], all[i].id);
    SuffixAbove(all, i);
  }

  /** `replayQueue()`: lists the store (`listed` false: `getAll` failed and
      nothing is listed), redelivers each entry once in key order, and
      deletes the entries whose redelivery did not throw. Returns the
      requests sent. */
  method ReplayQueue(queue: Queue, listed: bool, attempt: nat -> Attempt) returns (sent: seq<Redelivery>)
    requires queue.Valid()
    modifies queue
    ensures queue.Valid()
    ensures queue.nextId == old(queue.nextId)
    ensures listed ==> queue.items == Undelivered(old(queue.items), attempt)
    ensures listed ==> |sent| == |old(queue.items)|
    ensures listed ==> forall k | 0 <= k < |sent| :: sent[k] == Redeliver(old(queue.items)[k].entry)
    ensures !listed ==> queue.items == old(queue.items) && sent == []
  {
    var all := if listed then queue.items else [];
    sent := [];
    var i := 0;
    while i < |all|
      invariant 0 <= i <= |all|
      invariant queue.Valid() && queue.nextId == old(queue.nextId)
      invariant listed ==> all == old(queue.items)
      invariant listed ==> queue.items == Undelivered(all[..i], attempt) + all[i..]
      invariant !listed ==> all == [] && queue.items == old(queue.items)
      invariant |sent| == i && forall k | 0 <= k < i :: sent[k] == Redeliver(all[k].entry)
    {
      var item := all[i];
      sent := sent + [Redeliver(item.entry)];
      if attempt(i).Answered? {
        ReplayStep(all, attempt, i);
        queue.Delete(item.id);
      } else {
        ReplayKeep(all, attempt, i);
      }
      i := i + 1;
    }
    assert all[..i] == all;
  }

  /** Background sync: only the tag `sync-queue` triggers a replay. */
  method OnSync(tag: string, queue: Queue, listed: bool, attempt: nat -> Attempt) returns (sent: seq<Redelivery>)
    requires queue.Valid()
    modifies queue
    ensures queue.Valid()
    ensures queue.nextId == old(queue.nextId)
    ensures tag == SYNC_TAG && listed ==> queue.items == Undelivered(old(queue.items), attempt)
    ensures tag == SYNC_TAG && listed ==> |sent| == |old(queue.items)|
    ensures tag == SYNC_TAG && listed ==>
      forall k | 0 <= k < |sent| :: sent[k] == Redeliver(old(queue.items)[k].entry)
    ensures tag != SYNC_TAG || !listed ==> queue.items == old(queue.items) && sent == []
  {
    if tag == SYNC_TAG {
      sent := ReplayQueue(queue, listed, attempt);
    } else {
      sent := [];
    }
  }

  // ---------------------------------------------------------------------
  // The replay loop as written: deletes inside a committed transaction
  // ---------------------------------------------------------------------

  /** `replayQueue()` with IndexedDB's transaction lifetime taken into
      account: the loop awaits `fetch` inside the transaction that listed the
      store, and a transaction with no pending request commits as soon as
      control returns to the event loop. Every `store.delete` therefore runs
      on an inactive transaction, throws, and is swallowed by the same catch
      that handles a failed redelivery: every entry is sent and none is
      removed. */
  method ReplayQueueAsWritten(queue: Queue, listed: bool, attempt: nat -> Attempt) returns (sent: seq<Redelivery>)
    requires queue.Valid()
    modifies queue
    ensures queue.Valid()
    ensures queue.items == old(queue.items) && queue.nextId == old(queue.nextId)
    ensures listed ==> |sent| == |old(queue.items)|
    ensures listed ==> forall k | 0 <= k < |sent| :: sent[k] == Redeliver(old(queue.items)[k].entry)
    ensures !listed ==> sent == []
  {
    var all := if listed then queue.items else [];
    var txActive := true;
    sent := [];
    var i := 0;
    while i < |all|
      invariant 0 <= i <= |all|
      invariant queue.Valid()
      invariant queue.items == old(queue.items) && queue.nextId == old(queue.nextId)
      invariant listed ==> all == old(queue.items)
      invariant !listed ==> all == []
      invariant |sent| == i && forall k | 0 <= k < i :: sent[k] == Redeliver(all[k].entry)
    {
      var item := all[i];
      sent := sent + [Redeliver(item.entry)];
      // awaiting the fetch leaves the transaction without a pending request
      txActive := false;
      if attempt(i).Answered? {
        var threw := queue.DeleteInTransaction(txActive, item.id);
      }
      i := i + 1;
    }
  }

  /** One stored POST, one sync with the network up: as written the entry is
      still queued afterwards (and is sent again at every later sync); the
      intended replay empties the queue. */
  method ReplayDiscrepancyExample() returns (asWritten: seq<Item>, intended: seq<Item>)
    ensures |asWritten| == 1 && intended == []
  {
    var entry := QueuedRequest("/api/form", "POST", map[], [123, 34, 97, 34, 58, 49, 125], 0);
    var ok: nat -> Attempt := _ => Answered(Response(200, false, map[], []));
    var q1 := new Queue();
    var id1 := q1.Add(entry);
    var sent1 := ReplayQueueAsWritten(q1, true, ok);
    asWritten := q1.items;
    var q2 := new Queue();
    var id2 := q2.Add(entry);
    var sent2 := ReplayQueue(q2, true, ok);
    AllDeliveredEmptiesQueue([Item(id2, entry)], ok);
    intended := q2.items;
  }
}
