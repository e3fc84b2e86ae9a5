/** The host's Cache Storage as explicit state: named caches, kept in the order
    they were created, each a map from request key (the URL) to a response
    snapshot. Both workers read and write it only through these operations. */
module CacheStore {
  import opened Http

  type Cache = map<string, Response>

  /** Cache name to cache contents. */
  type Entries = map<string, Cache>

  predicate Distinct(s: seq<string>)
  {
    forall i, j | 0 <= i < j < |s| :: s[i] != s[j]
  }

  function Elems(s: seq<string>): set<string>
  {
    set x | x in s
  }

  // ---------------------------------------------------------------------
  // Filtering names (the `keys.filter(...)` of activation)
  // ---------------------------------------------------------------------

  /** The names of `s` that are not in `gone`, in their original order. */
  function Drop(s: seq<string>, gone: set<string>): (r: seq<string>)
    ensures |r| <= |s|
    decreases |s|
  {
    if s == [] then []
    else (if s[0] in gone then [] else [s[0]]) + Drop(s[1..], gone)
  }

  lemma {:induction false} DropMembers(s: seq<string>, gone: set<string>)
    ensures forall x :: x in Drop(s, gone) <==> x in s && x !in gone
    decreases |s|
  {
    if s != [] {
      DropMembers(s[1..], gone);
      assert forall x :: x in s <==> x == s[0] || x in s[1..];
    }
  }

  lemma {:induction false} DropDistinct(s: seq<string>, gone: set<string>)
    requires Distinct(s)
    ensures Distinct(Drop(s, gone))
    decreases |s|
  {
    if s != [] {
      DropDistinct(s[1..], gone);
      DropMembers(s[1..], gone);
      assert s[0] !in s[1..] by {
        forall j | 0 <= j < |s[1..]| ensures s[1..][j] != s[0] {
          assert s[1..][j] == s[j + 1];
        }
      }
    }
  }

  /** Dropping `a` and then `b` is dropping both at once. */
  lemma {:induction false} DropTwice(s: seq<string>, a: set<string>, b: set<string>)
    ensures Drop(Drop(s, a), b) == Drop(s, a + b)
    decreases |s|
  {
    if s != [] {
      DropTwice(s[1..], a, b);
      var head := if s[0] in a then [] else [s[0]];
      DropConcat(head, Drop(s[1..], a), b);
      assert Drop(s, a) == head + Drop(s[1..], a);
      if s[0] !in a {
        assert Drop(head, b) == if s[0] in b then [] else [s[0]] by {
          assert head[1..] == [];
        }
      }
    }
  }

  lemma {:induction false} DropConcat(s: seq<string>, t: seq<string>, gone: set<string>)
    ensures Drop(s + t, gone) == Drop(s, gone) + Drop(t, gone)
    decreases |s|
  {
    if s != [] {
      assert (s + t)[0] == s[0];
      assert (s + t)[1..] == s[1..] + t;
      DropConcat(s[1..], t, gone);
    } else {
      assert s + t == t;
    }
  }

  /** Names that are all outside `gone` survive unchanged. */
  lemma {:induction false} DropNothing(s: seq<string>, gone: set<string>)
    requires forall x :: x in s ==> x !in gone
    ensures Drop(s, gone) == s
    decreases |s|
  {
    if s != [] {
      assert s[0] in s;
      assert forall x :: x in s[1..] ==> x in s;
      DropNothing(s[1..], gone);
      assert [s[0]] + s[1..] == s;
    }
  }

  /** The stale names are the listed names that are not current. */
  lemma StaleNames(keys: seq<string>, current: set<string>)
    ensures forall n :: n in Elems(Drop(keys, current)) <==> n in keys && n !in current
  {
    DropMembers(keys, current);
  }

  /** When every listed name is current, nothing is stale and dropping
      nothing keeps every name. */
  lemma NoStaleNames(keys: seq<string>, current: set<string>)
    requires forall n :: n in keys ==> n in current
    ensures Elems(Drop(keys, current)) == {}
    ensures Drop(keys, {}) == keys
  {
    DropEverything(keys, current);
    DropNothing(keys, {});
  }

  /** Names that are all in `gone` are all dropped. */
  lemma {:induction false} DropEverything(s: seq<string>, gone: set<string>)
    requires forall x :: x in s ==> x in gone
    ensures Drop(s, gone) == []
    decreases |s|
  {
    if s != [] {
      assert s[0] in s;
      assert forall x :: x in s[1..] ==> x in s;
      DropEverything(s[1..], gone);
    }
  }

  /** Activation with `current` as the set of current names deletes the stale
      names `Drop(keys, current)`; the names that survive are exactly the old
      names that are current, in their old order. */
  lemma EvictionSurvivors(keys: seq<string>, current: set<string>)
    ensures forall x :: x in Drop(keys, Elems(Drop(keys, current))) <==> x in keys && x in current
  {
    DropMembers(keys, current);
    DropMembers(keys, Elems(Drop(keys, current)));
  }

  /** After one activation no name is stale any more, so a second activation
      with the same current set deletes nothing. */
  lemma NothingStaleAfterEviction(keys: seq<string>, current: set<string>)
    ensures Drop(Drop(keys, Elems(Drop(keys, current))), current) == []
  {
    var survivors := Drop(keys, Elems(Drop(keys, current)));
    EvictionSurvivors(keys, current);
    DropEverything(survivors, current);
  }

  // ---------------------------------------------------------------------
  // Lookups
  // ---------------------------------------------------------------------

  predicate Holds(entries: Entries, name: string, key: string)
  {
    name in entries && key in entries[name]
  }

  /** `caches.match(key)`: the entry for `key` in the first cache, in
      creation order, that holds one. */
  function FirstMatch(names: seq<string>, entries: Entries, key: string): (r: Option<Response>)
    ensures r.None? <==> forall n :: n in names ==> !Holds(entries, n, key)
    ensures r.Some? ==> exists n :: n in names && Holds(entries, n, key) && r.value == entries[n][key]
    decreases |names|
  {
    if names == [] then None
    else if Holds(entries, names[0], key) then Some(entries[names[0]][key])
    else
      assert forall n :: n in names ==> n == names[0] || n in names[1..];
      FirstMatch(names[1..], entries, key)
  }

  /** The match comes from the earliest cache that holds the key. */
  lemma {:induction false} FirstMatchIsEarliest(names: seq<string>, entries: Entries, key: string, i: nat)
    requires i < |names| && Holds(entries, names[i], key)
    requires forall j | 0 <= j < i :: !Holds(entries, names[j], key)
    ensures FirstMatch(names, entries, key) == Some(entries[names[i]][key])
    decreases i
  {
    if i > 0 {
      assert !Holds(entries, names[0], key);
      FirstMatchIsEarliest(names[1..], entries, key, i - 1);
    }
  }

  /** `cache.match(key)` on one named cache. */
  function Lookup(entries: Entries, name: string, key: string): Option<Response>
  {
    if Holds(entries, name, key) then Some(entries[name][key]) else None
  }

  // ---------------------------------------------------------------------
  // Writes
  // ---------------------------------------------------------------------

  /** `caches.open(name)` creates an empty cache when none has that name. */
  function Opened(entries: Entries, name: string): (r: Entries)
  {
    if name in entries then entries else entries[name := map[]]
  }

  function OpenedNames(names: seq<string>, name: string): seq<string>
  {
    if name in names then names else names + [name]
  }

  /** Whether `cache.put(req, resp)` accepts the pair: the Cache API rejects
      a request whose method is not GET and a partial (206) response. */
  predicate Accepts(req: Request, resp: Response)
  {
    req.verb == "GET" && resp.status != 206
  }

  /** The effect of `cache.put(req, resp)` on cache `name`: the key is
      overwritten (last write wins) when the put is accepted and `landed`,
      i.e. the host completes the write; a rejected or lost write changes
      nothing. */
  function AfterPut(entries: Entries, name: string, req: Request, resp: Response, landed: bool): (r: Entries)
    requires name in entries
    ensures r.Keys == entries.Keys
    ensures forall n :: n in entries && n != name ==> r[n] == entries[n]
    ensures Accepts(req, resp) && landed ==> r[name] == entries[name][req.url := resp]
    ensures !(Accepts(req, resp) && landed) ==> r == entries
  {
    if Accepts(req, resp) && landed then entries[name := entries[name][req.url := resp]] else entries
  }

  /** A status the precache accepts: an ok status (200-299) other than 206. */
  predicate PrecacheOk(a: Attempt)
  {
    a.Answered? && 200 <= a.response.status <= 299 && a.response.status != 206
  }

  /** `cache.addAll(urls)` as one batch: the response of the k-th fetch goes
      under `urls[k]`, or nothing at all is stored. */
  function Batch(urls: seq<string>, attempt: nat -> Attempt): Option<Cache>
    decreases |urls|
  {
    if urls == [] then Some(map[])
    else
      var k := |urls| - 1;
      match Batch(urls[..k], attempt)
      case None => None
      case Some(m) =>
        if urls[k] in m || !PrecacheOk(attempt(k)) then None
        else Some(m[urls[k] := attempt(k).response])
  }

  /** The precache is all-or-nothing: it succeeds exactly when the list has no
      duplicate and every fetch answers with an accepted status, and then it
      stores every URL's own response and no other key. */
  lemma {:induction false} BatchAllOrNothing(urls: seq<string>, attempt: nat -> Attempt)
    ensures Batch(urls, attempt).Some? <==>
      Distinct(urls) && forall k | 0 <= k < |urls| :: PrecacheOk(attempt(k))
    ensures Batch(urls, attempt).Some? ==>
      var m := Batch(urls, attempt).value;
      && (forall u :: u in m <==> u in urls)
      && (forall k | 0 <= k < |urls| :: m[urls[k]] == attempt(k).response)
    decreases |urls|
  {
    if urls != [] {
      var k := |urls| - 1;
      var p := urls[..k];
      BatchAllOrNothing(p, attempt);
      assert urls == p + [urls[k]];
      DistinctSnoc(p, urls[k]);
      var b := Batch(p, attempt);
      if b.Some? && urls[k] !in b.value && PrecacheOk(attempt(k)) {
        var m := b.value[urls[k] := attempt(k).response];
        assert Batch(urls, attempt) == Some(m);
        forall j | 0 <= j < |urls| ensures m[urls[j]] == attempt(j).response {
          if j < k { assert urls[j] == p[j]; }
        }
      }
    }
  }

  lemma DistinctSnoc(p: seq<string>, x: string)
    ensures Distinct(p + [x]) <==> Distinct(p) && x !in p
  {
    var s := p + [x];
    if Distinct(s) {
      forall j | 0 <= j < |p| ensures p[j] != x { assert p[j] == s[j] && x == s[|p|]; }
      forall i, j | 0 <= i < j < |p| ensures p[i] != p[j] { assert p[i] == s[i] && p[j] == s[j]; }
    }
    if Distinct(p) && x !in p {
      forall i, j | 0 <= i < j < |s| ensures s[i] != s[j] {
        if j == |p| { assert s[i] == p[i]; } else { assert s[i] == p[i] && s[j] == p[j]; }
      }
    }
  }

  // ---------------------------------------------------------------------
  // The state
  // ---------------------------------------------------------------------

  class CacheStorage {
    /** Cache names in creation order, the order `caches.keys()` lists them
        and `caches.match` searches them. */
    var names: seq<string>
    var entries: Entries

    ghost predicate Valid()
      reads this
    {
      Distinct(names) && forall n :: n in names <==> n in entries
    }

    constructor ()
      ensures Valid() && names == [] && entries == map[]
    {
      names := [];
      entries := map[];
    }

    /** `cache.match(key)` on the cache called `name`. */
    function Match(name: string, key: string): (r: Option<Response>)
      reads this
      ensures r.Some? <==> Holds(entries, name, key)
      ensures r.Some? ==> r.value == entries[name][key]
    {
      Lookup(entries, name, key)
    }

    /** `caches.match(key)` across every cache. */
    function MatchAll(key: string): (r: Option<Response>)
      reads this
    {
      FirstMatch(names, entries, key)
    }

    /** `caches.open(name)`: idempotent; creates the cache if absent. */
    method Open(name: string)
      requires Valid()
      modifies this
      ensures Valid()
      ensures names == OpenedNames(old(names), name)
      ensures entries == Opened(old(entries), name)
    {
      if name !in entries {
        assert name !in names;
        names := names + [name];
        entries := entries[name := map[]];
      }
    }

    /** `cache.put(req, resp)` on the open cache `name`; a rejected put and a
        write the host does not complete (`landed` false) are both
        swallowed. */
    method Put(name: string, req: Request, resp: Response, landed: bool)
      requires Valid() && name in entries
      modifies this
      ensures Valid()
      ensures names == old(names)
      ensures entries == AfterPut(old(entries), name, req, resp, landed)
    {
      if Accepts(req, resp) && landed {
        entries := entries[name := entries[name][req.url := resp]];
      }
    }

    /** `caches.delete(name)`: removes the cache, if any, and its entries. */
    method Delete(name: string)
      requires Valid()
      modifies this
      ensures Valid()
      ensures names == Drop(old(names), {name})
      ensures entries == old(entries) - {name}
    {
      DropDistinct(names, {name});
      DropMembers(names, {name});
      names := Drop(names, {name});
      entries := entries - {name};
    }

    /** Deletes every cache named in `doomed`, one after the other. */
    method DeleteAll(doomed: seq<string>)
      requires Valid()
      modifies this
      ensures Valid()
      ensures names == Drop(old(names), Elems(doomed))
      ensures entries == old(entries) - Elems(doomed)
    {
      var i := 0;
      DropNothing(names, {});
      assert Elems(doomed[..0]) == {} by { assert doomed[..0] == []; }
      while i < |doomed|
        invariant 0 <= i <= |doomed|
        invariant Valid()
        invariant names == Drop(old(names), Elems(doomed[..i]))
        invariant entries == old(entries) - Elems(doomed[..i])
      {
        DropTwice(old(names), Elems(doomed[..i]), {doomed[i]});
        assert Elems(doomed[..i + 1]) == Elems(doomed[..i]) + {doomed[i]} by {
          assert doomed[..i + 1] == doomed[..i] + [doomed[i]];
        }
        Delete(doomed[i]);
        i := i + 1;
      }
      assert doomed[..i] == doomed;
    }

    /** Deletes every cache whose name is not in `current`: the names are
        listed, the stale ones filtered out, and each of those deleted. The
        survivors keep their contents and their order. */
    method EvictExcept(current: set<string>)
      requires Valid()
      modifies this
      ensures Valid()
      ensures names == Drop(old(names), Elems(Drop(old(names), current)))
      ensures forall n :: n in names <==> n in old(names) && n in current
      ensures forall n :: n in entries <==> n in old(entries) && n in current
      ensures forall n :: n in entries ==> entries[n] == old(entries)[n]
      ensures (forall n :: n in old(names) ==> n in current) ==>
        names == old(names) && entries == old(entries)
    {
      var keys := names;
      var stale := Drop(keys, current);
      StaleNames(keys, current);
      if forall n :: n in keys ==> n in current {
        NoStaleNames(keys, current);
      }
      EvictionSurvivors(keys, current);
      DeleteAll(stale);
    }

    /** `cache.addAll(urls)` on the open cache `name`: all-or-nothing. */
    method AddAll(name: string, urls: seq<string>, attempt: nat -> Attempt) returns (ok: bool)
      requires Valid() && name in entries
      modifies this
      ensures Valid()
      ensures names == old(names)
      ensures ok == Batch(urls, attempt).Some?
      ensures ok ==> entries == old(entries)[name := old(entries)[name] + Batch(urls, attempt).value]
      ensures !ok ==> entries == old(entries)
    {
      match Batch(urls, attempt)
      case None =>
        ok := false;
      case Some(m) =>
        ok := true;
        entries := entries[name := entries[name] + m];
    }
  }
}
