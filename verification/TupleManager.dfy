/** The OpenFGA server as far as tuples are concerned, and the tuple manager that wraps it.
    A call either takes full effect or fails without effect. Reads are paginated; how the server
    splits its answer into pages is left open. */
module TupleManager {
  import opened Paging
  import opened Tuples
  import opened Wrappers

  /** An element of a read reply; the server may leave the key out. */
  datatype Entry = NoKey | Key(tuple: Tuple)

  /** A read request key: only the object is ever set. */
  datatype ReadKey = ReadKey(object_: string)

  function AsSet(ts: seq<Tuple>): set<Tuple> {
    set t | t in ts
  }

  /** The tuples with a key that pass the filter, in order. */
  function Select(entries: seq<Entry>, filter: Tuple -> bool): seq<Tuple> {
    if entries == [] then []
    else
      var last := entries[|entries| - 1];
      Select(entries[..|entries| - 1], filter) + (if last.Key? && filter(last.tuple) then [last.tuple] else [])
  }

  const EVERYTHING: Tuple -> bool := t => true

  function Matching(contents: set<Tuple>, key: Option<ReadKey>): set<Tuple> {
    set t | t in contents && (key.None? || t.object_ == key.value.object_)
  }

  lemma {:induction false} SelectAppend(a: seq<Entry>, b: seq<Entry>, filter: Tuple -> bool)
    ensures Select(a + b, filter) == Select(a, filter) + Select(b, filter)
  {
    if b == [] {
      assert a + b == a;
    } else {
      var front := b[..|b| - 1];
      assert (a + b)[..|a + b| - 1] == a + front;
      SelectAppend(a, front, filter);
    }
  }

  /** Exactly the tuples with a key that pass the filter are selected. */
  lemma {:induction false} SelectMembers(entries: seq<Entry>, filter: Tuple -> bool, t: Tuple)
    ensures t in Select(entries, filter) <==> Key(t) in entries && filter(t)
  {
    if entries != [] {
      var front := entries[..|entries| - 1];
      SelectMembers(front, filter, t);
      assert entries == front + [entries[|entries| - 1]];
    }
  }

  class FgaServer {
    /** The tuples of every existing store, by store ID. */
    var stores: map<string, set<Tuple>>

    /** How answers are split into pages. */
    const paging: set<Tuple> -> Listing<Entry>

    /** No call fails for reasons of its own, neither here nor to the Kubernetes API on the way here. */
    const reliable: bool

    constructor (stores: map<string, set<Tuple>>, paging: set<Tuple> -> Listing<Entry>, reliable: bool)
      ensures this.stores == stores && this.paging == paging && this.reliable == reliable
    {
      this.stores, this.paging, this.reliable := stores, paging, reliable;
    }

    /** Every answer is complete: it holds exactly the tuples asked for. */
    ghost predicate Complete() {
      forall answer: set<Tuple> ::
        && paging(answer).Valid()
        && (forall t :: t in answer <==> Key(t) in Flatten(paging(answer).pages))
    }

    /** One transaction. Duplicate writes and missing deletes are ignored. */
    method Write(storeId: string, writes: seq<Tuple>, deletes: seq<Tuple>) returns (ok: bool)
      modifies this`stores
      ensures ok ==> storeId in old(stores)
      ensures ok ==> stores == old(stores)[storeId := old(stores)[storeId] - AsSet(deletes) + AsSet(writes)]
      ensures !ok ==> stores == old(stores)
      ensures reliable && storeId in old(stores) ==> ok
    {
      ok := *;
      ok := (reliable || ok) && storeId in stores;
      if ok {
        stores := stores[storeId := stores[storeId] - AsSet(deletes) + AsSet(writes)];
      }
    }

    method Read(storeId: string, key: Option<ReadKey>, token: string) returns (r: Result<Response<Entry>>)
      requires storeId in stores ==> paging(Matching(stores[storeId], key)).Valid()
      ensures r.Ok? ==> storeId in stores
      ensures r.Ok? ==> var l := paging(Matching(stores[storeId], key));
                        exists i :: 0 <= i < |l.pages| && l.tokens[i] == token && r.value == l.Reply(i)
      ensures reliable && storeId in stores && token in paging(Matching(stores[storeId], key)).tokens ==> r.Ok?
    {
      var ok: bool := *;
      if !(reliable || ok) || storeId !in stores {
        return Err;
      }
      var l := paging(Matching(stores[storeId], key));
      var i := l.Find(token);
      r := if i < |l.pages| then Ok(l.Reply(i)) else Err;
    }
  }

  class TupleManager {
    const client: FgaServer
    const storeId: string

    constructor (client: FgaServer, storeId: string)
      ensures this.client == client && this.storeId == storeId
    {
      this.client := client;
      this.storeId := storeId;
    }

    /** Adds the tuples in one transaction; no tuples, no call. */
    method Apply(tuples: seq<Tuple>) returns (ok: bool)
      modifies client`stores
      ensures tuples == [] ==> ok && client.stores == old(client.stores)
      ensures ok && tuples != [] ==>
                && storeId in old(client.stores)
                && client.stores == old(client.stores)[storeId := old(client.stores)[storeId] + AsSet(tuples)]
      ensures !ok ==> client.stores == old(client.stores)
      ensures client.reliable && storeId in old(client.stores) ==> ok
    {
      if |tuples| == 0 {
        return true;
      }
      var tupleKeys := [];
      for i := 0 to |tuples|
        invariant tupleKeys == tuples[..i]
      {
        tupleKeys := tupleKeys + [Tuple(tuples[i].object_, tuples[i].relation, tuples[i].user)];
      }
      assert tupleKeys == tuples;
      ok := client.Write(storeId, tupleKeys, []);
      assert forall contents: set<Tuple> :: contents - AsSet([]) + AsSet(tuples) == contents + AsSet(tuples);
    }

    /** Removes the tuples in one transaction; no tuples, no call. */
    method Delete(tuples: seq<Tuple>) returns (ok: bool)
      modifies client`stores
      ensures tuples == [] ==> ok && client.stores == old(client.stores)
      ensures ok && tuples != [] ==>
                && storeId in old(client.stores)
                && client.stores == old(client.stores)[storeId := old(client.stores)[storeId] - AsSet(tuples)]
      ensures !ok ==> client.stores == old(client.stores)
      ensures client.reliable && storeId in old(client.stores) ==> ok
    {
      if |tuples| == 0 {
        return true;
      }
      var tupleKeys := [];
      for i := 0 to |tuples|
        invariant tupleKeys == tuples[..i]
      {
        tupleKeys := tupleKeys + [Tuple(tuples[i].object_, tuples[i].relation, tuples[i].user)];
      }
      assert tupleKeys == tuples;
      ok := client.Write(storeId, [], tupleKeys);
      assert forall contents: set<Tuple> :: contents - AsSet(tuples) + AsSet([]) == contents - AsSet(tuples);
    }

    /** Reads all pages and keeps the tuples that pass the filter, in order; whatever the split
        into pages, the result is the filtered concatenation of them all. */
    method ListWithFilter(filter: Option<Tuple -> bool>) returns (r: Result<seq<Tuple>>)
      requires client.Complete()
      ensures filter.None? ==> r.Err?
      ensures r.Ok? ==>
                && storeId in client.stores
                && r.value == Select(Flatten(client.paging(Matching(client.stores[storeId], None)).pages), filter.value)
      ensures r.Ok? ==> forall t :: t in r.value <==> t in client.stores[storeId] && filter.value(t)
      ensures client.reliable && storeId in client.stores ==> (r.Ok? <==> filter.Some?)
    {
      if filter.None? {
        return Err;
      }
      r := ListPages(None, filter.value);
      if r.Ok? {
        forall t ensures t in r.value <==> t in client.stores[storeId] && filter.value(t) {
          var listing := client.paging(Matching(client.stores[storeId], None));
          SelectMembers(Flatten(listing.pages), filter.value, t);
        }
      }
    }

    /** Reads all pages of the tuples with the given object. */
    method ListWithKey(key: ReadKey) returns (r: Result<seq<Tuple>>)
      requires client.Complete()
      ensures r.Ok? ==>
                && storeId in client.stores
                && r.value ==
                     Select(Flatten(client.paging(Matching(client.stores[storeId], Some(key))).pages), EVERYTHING)
      ensures r.Ok? ==> AsSet(r.value) == Matching(client.stores[storeId], Some(key))
      ensures client.reliable && storeId in client.stores ==> r.Ok?
    {
      r := ListPages(Some(key), EVERYTHING);
      if r.Ok? {
        var answer := Matching(client.stores[storeId], Some(key));
        forall t ensures t in r.value <==> t in answer {
          SelectMembers(Flatten(client.paging(answer).pages), EVERYTHING, t);
        }
      }
    }

    /** The loop both listings share: follow the continuation token until it is empty. */
    method ListPages(key: Option<ReadKey>, filter: Tuple -> bool) returns (r: Result<seq<Tuple>>)
      requires client.Complete()
      ensures r.Ok? ==>
                && storeId in client.stores
                && r.value == Select(Flatten(client.paging(Matching(client.stores[storeId], key)).pages), filter)
      ensures client.reliable && storeId in client.stores ==> r.Ok?
    {
      var result := [];
      var continuationToken := "";
      ghost var read := 0;
      ghost var contents := if storeId in client.stores then client.stores[storeId] else {};
      ghost var listing := client.paging(Matching(contents, key));
      while true
        invariant 0 <= read < |listing.pages|
        invariant continuationToken == listing.tokens[read]
        invariant result == Select(Flatten(listing.pages[..read]), filter)
        decreases |listing.pages| - read
      {
        var resp := client.Read(storeId, key, continuationToken);
        if resp.Err? {
          return Err;
        }
        assert resp.value == listing.Reply(read);
        var page := resp.value.entries;
        for i := 0 to |page|
          invariant result == Select(Flatten(listing.pages[..read]), filter) + Select(page[..i], filter)
        {
          assert page[..i + 1][..i] == page[..i];
          if page[i].Key? && filter(page[i].tuple) {
            result := result + [page[i].tuple];
          }
        }
        assert page[..|page|] == page;
        FlattenSnoc(listing.pages, read);
        SelectAppend(Flatten(listing.pages[..read]), page, filter);
        continuationToken := resp.value.continuationToken;
        if continuationToken == "" {
          assert read + 1 == |listing.pages|;
          assert listing.pages[..read + 1] == listing.pages;
          return Ok(result);
        }
        read := read + 1;
      }
      assert false;
    }
  }
}
