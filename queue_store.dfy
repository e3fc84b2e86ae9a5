/** The IndexedDB object store `queue` of database `wens-bg-sync` as explicit
    state: records keyed by an auto-incremented id, listed in key order, each
    inserted once and never changed, only deleted. */
module QueueStore {
  import opened Http

  /** One failed request as stored: URL, method, header map, body bytes and
      the enqueue time. */
  datatype QueuedRequest = QueuedRequest(
    url: string,
    verb: string,
    headers: map<string, string>,
    body: seq<byte>,
    timestamp: int)

  /** A stored record with the key the store generated for it. */
  datatype Item = Item(id: nat, entry: QueuedRequest)

  /** Keys strictly increase along the sequence, so key order is insertion
      order and no key is repeated. */
  predicate Ascending(s: seq<Item>)
  {
    forall i, j | 0 <= i < j < |s| :: s[i].id < s[j].id
  }

  /** The records of `s` whose key is not `id`, in their original order. */
  function WithoutId(s: seq<Item>, id: nat): (r: seq<Item>)
    ensures |r| <= |s|
    decreases |s|
  {
    if s == [] then []
    else (if s[0].id == id then [] else [s[0]]) + WithoutId(s[1..], id)
  }

  lemma {:induction false} WithoutIdMembers(s: seq<Item>, id: nat)
    ensures forall x :: x in WithoutId(s, id) <==> x in s && x.id != id
    decreases |s|
  {
    if s != [] {
      WithoutIdMembers(s[1..], id);
      assert forall x :: x in s <==> x == s[0] || x in s[1..];
    }
  }

  lemma {:induction false} WithoutIdAscending(s: seq<Item>, id: nat)
    requires Ascending(s)
    ensures Ascending(WithoutId(s, id))
    decreases |s|
  {
    if s != [] {
      WithoutIdAscending(s[1..], id);
      WithoutIdMembers(s[1..], id);
      var rest := WithoutId(s[1..], id);
      forall y | y in rest ensures s[0].id < y.id {
        var j :| 0 <= j < |s[1..]| && s[1..][j] == y;
        assert y == s[j + 1];
      }
      AscendingCons(s[0], rest);
    }
  }

  lemma AscendingCons(x: Item, t: seq<Item>)
    requires Ascending(t) && forall y | y in t :: x.id < y.id
    ensures Ascending([x] + t)
  {
    var s := [x] + t;
    forall i, j | 0 <= i < j < |s| ensures s[i].id < s[j].id {
      assert s[j] == t[j - 1];
      if i > 0 { assert s[i] == t[i - 1]; }
    }
  }

  /** Deleting a key that no record has changes nothing. */
  lemma {:induction false} WithoutIdAbsent(s: seq<Item>, id: nat)
    requires forall x | x in s :: x.id != id
    ensures WithoutId(s, id) == s
    decreases |s|
  {
    if s != [] {
      assert s[0] in s;
      assert forall x | x in s[1..] :: x in s;
      WithoutIdAbsent(s[1..], id);
      assert [s[0]] + s[1..] == s;
    }
  }

  lemma {:induction false} WithoutIdConcat(s: seq<Item>, t: seq<Item>, id: nat)
    ensures WithoutId(s + t, id) == WithoutId(s, id) + WithoutId(t, id)
    decreases |s|
  {
    if s != [] {
      assert (s + t)[0] == s[0];
      assert (s + t)[1..] == s[1..] + t;
      WithoutIdConcat(s[1..], t, id);
    } else {
      assert s + t == t;
    }
  }

  class Queue {
    /** The records, as `getAll()` lists them. */
    var items: seq<Item>
    /** The key generator: the key the next `add` receives. */
    var nextId: nat

    ghost predicate Valid()
      reads this
    {
      && 1 <= nextId
      && Ascending(items)
      && forall k | 0 <= k < |items| :: 1 <= items[k].id < nextId
    }

    /** A freshly created store: empty, its key generator at 1. */
    constructor ()
      ensures Valid() && items == [] && nextId == 1
    {
      items := [];
      nextId := 1;
    }

    /** `store.add(entry)`: the entry is stored under a key greater than
        every key the store holds, and the generator moves past it. */
    method Add(entry: QueuedRequest) returns (id: nat)
      requires Valid()
      modifies this
      ensures Valid()
      ensures id == old(nextId) && nextId == id + 1
      ensures items == old(items) + [Item(id, entry)]
      ensures forall k | 0 <= k < |old(items)| :: old(items)[k].id < id
    {
      id := nextId;
      items := items + [Item(id, entry)];
      nextId := nextId + 1;
    }

    /** `store.delete(id)`: removes the record with that key, if any; the key
        generator is not reset. */
    method Delete(id: nat)
      requires Valid()
      modifies this
      ensures Valid()
      ensures nextId == old(nextId)
      ensures items == WithoutId(old(items), id)
    {
      WithoutIdAscending(items, id);
      WithoutIdMembers(items, id);
      ghost var before := items;
      items := WithoutId(items, id);
      forall k | 0 <= k < |items| ensures 1 <= items[k].id < nextId {
        assert items[k] in before;
      }
    }

    /** `store.delete(id)` issued on a transaction that is `active` or not:
        on an inactive transaction the call throws (`threw`) and the store
        is unchanged. */
    method DeleteInTransaction(active: bool, id: nat) returns (threw: bool)
      requires Valid()
      modifies this
      ensures Valid()
      ensures threw == !active
      ensures nextId == old(nextId)
      ensures items == if active then WithoutId(old(items), id) else old(items)
    {
      threw := !active;
      if active {
        Delete(id);
      }
    }
  }
}
