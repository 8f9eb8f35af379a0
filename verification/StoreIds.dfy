/** The caching store ID getter: names are resolved by listing all stores once, and kept in a cache
    whose entries may expire at any time. */
module StoreIds {
  import opened Paging
  import opened StoreServer
  import opened Wrappers

  type Cache = map<string, string>

  /** Entering listed stores one after the other; later ones replace earlier ones of the name. */
  function SetAll(cache: Cache, stores: StoreList): Cache {
    if stores == [] then cache
    else
      var last := stores[|stores| - 1];
      SetAll(cache, stores[..|stores| - 1])[last.name := last.id]
  }

  lemma {:induction false} SetAllLookup(cache: Cache, stores: StoreList, name: string)
    ensures name in SetAll(cache, stores) <==> name in cache || FindLast(stores, name).Some?
    ensures FindLast(stores, name).Some? ==>
            name in SetAll(cache, stores) && SetAll(cache, stores)[name] == FindLast(stores, name).value
    ensures FindLast(stores, name).None? && name in cache ==> SetAll(cache, stores)[name] == cache[name]
  {
    if stores != [] {
      SetAllLookup(cache, stores[..|stores| - 1], name);
    }
  }

  lemma EnteringOne(cache: Cache, stores: StoreList, s: StoreInfo, name: string)
    ensures SetAll(cache, stores + [s]) == SetAll(cache, stores)[s.name := s.id]
    ensures FindLast(stores + [s], name) == if s.name == name then Some(s.id) else FindLast(stores, name)
  {
    assert (stores + [s])[..|stores|] == stores;
  }

  lemma {:induction false} EnteringPage(cache: Cache, before: StoreList, page: StoreList, name: string)
    ensures SetAll(cache, before + page) == SetAll(SetAll(cache, before), page)
    ensures FindLast(before + page, name) ==
            if FindLast(page, name).Some? then FindLast(page, name) else FindLast(before, name)
  {
    if page == [] {
      assert before + page == before;
    } else {
      var front, last := page[..|page| - 1], page[|page| - 1];
      EnteringPage(cache, before, front, name);
      EnteringOne(cache, before + front, last, name);
      EnteringOne(SetAll(cache, before), front, last, name);
      assert before + page == (before + front) + [last] && page == front + [last];
    }
  }

  /** Every cached entry is what a full listing would give. */
  predicate Agrees(cache: Cache, stores: StoreList) {
    forall name :: name in cache ==> FindLast(stores, name) == Some(cache[name])
  }

  /** One Get on a listing: a hit is served from the cache; a miss walks all pages, entering what it
      sees; an error on the way is recorded and from then on reported by every Get. */
  ghost predicate GetOutcome(
    listing: Listing<StoreInfo>, cache: Cache, failed: bool, name: string, cache': Cache, failed': bool,
    r: Result<string>) {
    var stores := Flatten(listing.pages);
    if name in cache then
      cache' == cache && failed' == failed && r == (if failed then Err else Ok(cache[name]))
    else
      || (&& failed' == failed
          && cache' == SetAll(cache, stores)
          && r == (if failed || FindLast(stores, name).None? then Err else Ok(FindLast(stores, name).value)))
      || (failed' && r.Err? && exists k ::
           0 <= k < |listing.pages| && cache' == SetAll(cache, Flatten(listing.pages[..k])))
  }

  class CachingStoreIDGetter {
    const fga: StoreServer
    var cache: Cache
    var loadFailed: bool

    constructor (fga: StoreServer)
      ensures this.fga == fga && cache == map[] && !loadFailed
    {
      this.fga := fga;
      cache, loadFailed := map[], false;
    }

    /** Entries expire with time; any set of them may be gone before the next Get. */
    method Expire(names: set<string>)
      modifies this`cache
      ensures cache == old(cache) - names
    {
      cache := cache - names;
    }

    /** Enters the stores of one page and keeps the wanted one. */
    method SetPage(page: StoreList, name: string, wanted: Option<string>) returns (r: Option<string>)
      modifies this`cache
      ensures cache == SetAll(old(cache), page)
      ensures r == if FindLast(page, name).Some? then FindLast(page, name) else wanted
    {
      r := wanted;
      assert page[..0] == [];
      for i := 0 to |page|
        invariant cache == SetAll(old(cache), page[..i])
        invariant r == if FindLast(page[..i], name).Some? then FindLast(page[..i], name) else wanted
      {
        assert page[..i + 1] == page[..i] + [page[i]];
        EnteringOne(old(cache), page[..i], page[i], name);
        cache := cache[page[i].name := page[i].id];
        if page[i].name == name {
          r := Some(page[i].id);
        }
      }
      assert page[..|page|] == page;
    }

    /** Lists all stores, enters them, and returns the wanted one if it is among them. */
    method Load(name: string) returns (wanted: Option<string>)
      requires fga.Complete()
      modifies this
      ensures var listing := fga.paging(fga.stores);
              || (&& loadFailed == old(loadFailed)
                  && cache == SetAll(old(cache), fga.stores)
                  && wanted == FindLast(fga.stores, name))
              || (&& loadFailed && wanted.None?
                  && exists k :: 0 <= k < |listing.pages| && cache == SetAll(old(cache), Flatten(listing.pages[..k])))
      ensures fga.reliable ==> loadFailed == old(loadFailed) && wanted == FindLast(fga.stores, name)
    {
      var continuationToken := "";
      wanted := None;
      ghost var read := 0;
      ghost var listing := fga.paging(fga.stores);
      while true
        invariant 0 <= read < |listing.pages|
        invariant continuationToken == listing.tokens[read]
        invariant loadFailed == old(loadFailed)
        invariant cache == SetAll(old(cache), Flatten(listing.pages[..read]))
        invariant wanted == FindLast(Flatten(listing.pages[..read]), name)
        decreases |listing.pages| - read
      {
        var resp := fga.ListStores(continuationToken);
        if resp.Err? {
          loadFailed := true;
          return None;
        }
        assert resp.value == listing.Reply(read);
        var page := resp.value.entries;
        EnteringPage(old(cache), Flatten(listing.pages[..read]), page, name);
        wanted := SetPage(page, name, wanted);
        FlattenSnoc(listing.pages, read);
        continuationToken := resp.value.continuationToken;
        if continuationToken == "" {
          assert listing.pages[..read + 1] == listing.pages;
          return;
        }
        read := read + 1;
      }
      assert false;
    }

    method Get(name: string) returns (r: Result<string>)
      requires fga.Complete()
      modifies this
      ensures GetOutcome(fga.paging(fga.stores), old(cache), old(loadFailed), name, cache, loadFailed, r)
      ensures fga.reliable ==>
                && loadFailed == old(loadFailed)
                && (r.Ok? <==> !loadFailed && (name in old(cache) || exists i :: i in fga.stores && i.name == name))
    {
      FindLastIsListed(fga.stores, name);
      var item := None;
      if name in cache {
        item := Some(cache[name]);
      } else {
        item := Load(name);
      }
      if loadFailed {
        return Err;
      }
      r := if item.Some? then Ok(item.value) else Err;
    }
  }

  /** What the server lists, every ID it ever handed out, and the getter. */
  datatype State = State(listing: Listing<StoreInfo>, used: set<string>, cache: Cache, failed: bool) {
    function Stores(): StoreList {
      Flatten(listing.pages)
    }
  }

  datatype Event =
    | Get(name: string, result: Result<string>)
    | Expire(names: set<string>)
    | Grow
    | Removed(id: string)
    | Renamed(id: string, newName: string)

  /** Between calls stores appear under new names and IDs, are deleted and are renamed, and the server
      may split its answer anew. */
  ghost predicate Step(s: State, e: Event, s': State) {
    match e
    case Get(name, r) =>
      && s' == s.(cache := s'.cache, failed := s'.failed)
      && GetOutcome(s.listing, s.cache, s.failed, name, s'.cache, s'.failed, r)
    case Expire(names) => s' == s.(cache := s.cache - names)
    case Grow =>
      var before, after := s.Stores(), s'.Stores();
      && s' == s.(listing := s'.listing, used := s.used + set i | i in after :: i.id)
      && before <= after
      && (forall i, j :: 0 <= i < |before| <= j < |after| ==> after[i].name != after[j].name)
      && (forall j :: |before| <= j < |after| ==> after[j].id !in s.used)
    case Removed(id) => s' == s.(listing := s'.listing) && s'.Stores() == Without(s.Stores(), id)
    case Renamed(id, newName) =>
      && s' == s.(listing := s'.listing)
      && NameOf(s.Stores(), id).Some?
      && s'.Stores() == Rename(s.Stores(), id, newName)
  }

  ghost predicate Run(states: seq<State>, events: seq<Event>) {
    && |states| == |events| + 1
    && forall i :: 0 <= i < |events| ==> Step(states[i], events[i], states[i + 1])
  }

  lemma {:induction false} FindLastInPrefix(stores: StoreList, n: nat, name: string)
    requires n <= |stores|
    requires forall i, j :: 0 <= i < n <= j < |stores| ==> stores[i].name != stores[j].name
    requires FindLast(stores[..n], name).Some?
    ensures FindLast(stores, name) == FindLast(stores[..n], name)
  {
    if n == |stores| {
      assert stores[..n] == stores;
    } else {
      var front := stores[..|stores| - 1];
      assert front[..n] == stores[..n];
      FindLastIsListed(stores[..n], name);
      FindLastInPrefix(front, n, name);
    }
  }

  lemma GrowKeepsAgreement(cache: Cache, before: StoreList, after: StoreList)
    requires Agrees(cache, before) && before <= after
    requires forall i, j :: 0 <= i < |before| <= j < |after| ==> after[i].name != after[j].name
    ensures Agrees(cache, after)
  {
    forall name | name in cache
      ensures FindLast(after, name) == Some(cache[name])
    {
      assert after[..|before|] == before;
      FindLastInPrefix(after, |before|, name);
    }
  }

  lemma GetKeepsAgreement(
    listing: Listing<StoreInfo>, cache: Cache, failed: bool, name: string, cache': Cache, failed': bool,
    r: Result<string>)
    requires GetOutcome(listing, cache, failed, name, cache', failed', r)
    requires !failed ==> Agrees(cache, Flatten(listing.pages))
    ensures !failed' ==> Agrees(cache', Flatten(listing.pages))
  {
    var stores := Flatten(listing.pages);
    if !failed' && name !in cache {
      forall n | n in cache'
        ensures FindLast(stores, n) == Some(cache'[n])
      {
        SetAllLookup(cache, stores, n);
      }
    }
  }

  lemma StepKeepsAgreement(s: State, e: Event, s': State)
    requires Step(s, e, s') && !e.Removed? && !e.Renamed?
    requires !s.failed ==> Agrees(s.cache, s.Stores())
    ensures !s'.failed ==> Agrees(s'.cache, s'.Stores())
    ensures s.failed ==> s'.failed
  {
    match e
    case Get(name, r) => GetKeepsAgreement(s.listing, s.cache, s.failed, name, s'.cache, s'.failed, r);
    case Expire(_) =>
    case Grow =>
      if !s.failed {
        GrowKeepsAgreement(s.cache, s.Stores(), s'.Stores());
      }
  }

  predicate NeverLost(events: seq<Event>) {
    forall i :: 0 <= i < |events| ==> !events[i].Removed? && !events[i].Renamed?
  }

  /** While no store is deleted or renamed, as long as no load failed, the cache agrees with the
      current listing; a failure is never forgotten. */
  lemma {:induction false} RunKeepsAgreement(states: seq<State>, events: seq<Event>, i: nat, j: nat)
    requires Run(states, events) && states[0].cache == map[] && NeverLost(events)
    requires i <= j < |states|
    ensures !states[j].failed ==> Agrees(states[j].cache, states[j].Stores())
    ensures states[i].failed ==> states[j].failed
  {
    if j > i {
      RunKeepsAgreement(states, events, i, j - 1);
    } else if j > 0 {
      RunKeepsAgreement(states, events, j - 1, j - 1);
    }
    if j > 0 {
      StepKeepsAgreement(states[j - 1], events[j - 1], states[j]);
    }
  }

  /** Cache refinement: in every run without deletions and renamings, as long as no load has failed, a
      Get answers exactly as a full walk over the current listing would, whether from the cache or not;
      the answer is always a listed store of that name; and once a load has failed every later Get
      fails. */
  lemma GetRefinesListing(states: seq<State>, events: seq<Event>, i: nat)
    requires Run(states, events) && states[0].cache == map[] && NeverLost(events)
    requires i < |events| && events[i].Get?
    ensures var r, name, stores := events[i].result, events[i].name, states[i].Stores();
            && (!states[i + 1].failed ==> r == match FindLast(stores, name) case Some(id) => Ok(id) case None => Err)
            && (r.Ok? ==> StoreInfo(name, r.value) in stores)
            && (states[i + 1].failed ==> r.Err?)
            && (states[i].failed ==> r.Err? && states[i + 1].failed)
  {
    RunKeepsAgreement(states, events, i, i);
    assert Step(states[i], events[i], states[i + 1]);
    FindLastIsListed(states[i].Stores(), events[i].name);
  }

  /** Whether a store is lost after an event: deleted or given another name by it, or lost before and not
      given its name back. */
  predicate LostAfter(e: Event, id: string, name: string, lost: bool) {
    match e
    case Removed(other) => other == id || lost
    case Renamed(other, newName) => if other == id then newName != name else lost
    case _ => lost
  }

  /** Whether the last of the events from i up to j that concern a store of this ID deleted it or gave
      it another name. */
  predicate Lost(events: seq<Event>, i: nat, j: nat, id: string, name: string)
    requires i <= j <= |events|
  {
    i < j && LostAfter(events[j - 1], id, name, Lost(events, i, j - 1, id, name))
  }

  predicate IdsUsed(s: State) {
    forall i :: i in s.Stores() ==> i.id in s.used
  }

  lemma StepKeepsIdsUsed(s: State, e: Event, s': State)
    requires Step(s, e, s') && IdsUsed(s)
    ensures IdsUsed(s') && s.used <= s'.used
  {
    match e
    case Removed(id) => WithoutMembers(s.Stores(), id);
    case Renamed(id, newName) =>
      forall i | i in s'.Stores()
        ensures i.id in s'.used
      {
        var k :| 0 <= k < |s'.Stores()| && s'.Stores()[k] == i;
        assert s.Stores()[k] in s.Stores();
      }
    case _ =>
  }

  /** What one event does to a store that was once listed. */
  lemma StepOnStore(s: State, e: Event, s': State, name: string, id: string, lost: bool)
    requires Step(s, e, s') && IdsUsed(s) && id in s.used
    requires StoreInfo(name, id) in s.Stores() <==> !lost
    ensures StoreInfo(name, id) in s'.Stores() <==> !LostAfter(e, id, name, lost)
  {
    match e
    case Removed(other) => WithoutMembers(s.Stores(), other);
    case Renamed(other, newName) => RenamedMembers(s.Stores(), other, newName, name, id);
    case Grow =>
      var before, after := s.Stores(), s'.Stores();
      assert after == before + after[|before|..];
      assert forall i :: i in after[|before|..] ==> i.id !in s.used;
    case _ =>
  }

  lemma RenamedMembers(stores: StoreList, other: string, newName: string, name: string, id: string)
    requires NameOf(stores, other).Some?
    ensures StoreInfo(name, id) in Rename(stores, other, newName) <==>
            if other == id then newName == name else StoreInfo(name, id) in stores
  {
    NameOfListed(stores, other);
    var renamed := Rename(stores, other, newName);
    assert forall k :: 0 <= k < |stores| ==> renamed[k] in renamed;
    assert forall k :: 0 <= k < |stores| ==> stores[k] in stores;
    var k :| 0 <= k < |stores| && stores[k] == StoreInfo(NameOf(stores, other).value, other);
    assert renamed[k] == StoreInfo(newName, other);
  }

  lemma {:induction false} RunKeepsIdsUsed(states: seq<State>, events: seq<Event>, i: nat, j: nat)
    requires Run(states, events) && IdsUsed(states[0]) && i <= j < |states|
    ensures IdsUsed(states[j]) && states[i].used <= states[j].used
  {
    if j > 0 {
      RunKeepsIdsUsed(states, events, if i < j then i else i - 1, j - 1);
      StepKeepsIdsUsed(states[j - 1], events[j - 1], states[j]);
    }
  }

  lemma UsedSince(states: seq<State>, events: seq<Event>, i: nat, j: nat, name: string, id: string)
    requires Run(states, events) && IdsUsed(states[0]) && i <= j < |states|
    requires StoreInfo(name, id) in states[i].Stores()
    ensures IdsUsed(states[j]) && id in states[j].used
  {
    RunKeepsIdsUsed(states, events, i, i);
    RunKeepsIdsUsed(states, events, i, j);
  }

  /** What follows every event is lost exactly as the events say. */
  lemma {:induction false} LostFollows(
    events: seq<Event>, i: nat, j: nat, id: string, name: string, listed: nat -> bool)
    requires i <= j <= |events| && listed(i)
    requires forall k :: i <= k < j ==> (listed(k + 1) <==> !LostAfter(events[k], id, name, !listed(k)))
    ensures listed(j) <==> !Lost(events, i, j, id, name)
  {
    if j > i {
      LostFollows(events, i, j - 1, id, name, listed);
      assert listed(j - 1 + 1) <==> !LostAfter(events[j - 1], id, name, !listed(j - 1));
    }
  }

  /** A store once listed under a name is listed under it later exactly if it was not lost since. */
  lemma ListedIff(states: seq<State>, events: seq<Event>, i: nat, j: nat, name: string, id: string)
    requires Run(states, events) && IdsUsed(states[0]) && i <= j < |states|
    requires StoreInfo(name, id) in states[i].Stores()
    ensures StoreInfo(name, id) in states[j].Stores() <==> !Lost(events, i, j, id, name)
  {
    var listed := (k: nat) => k < |states| && StoreInfo(name, id) in states[k].Stores();
    forall k | i <= k < j
      ensures listed(k + 1) <==> !LostAfter(events[k], id, name, !listed(k))
    {
      UsedSince(states, events, i, k, name, id);
      StepOnStore(states[k], events[k], states[k + 1], name, id, !listed(k));
    }
    LostFollows(events, i, j, id, name, listed);
  }

  /** Whether a Get walks over the listing instead of answering from the cache. */
  predicate Walks(s: State, e: Event) {
    e.Get? && e.name !in s.cache
  }

  /** Every cached entry was entered by some walk that saw the store under that name. */
  lemma {:induction false} EntryWasListed(states: seq<State>, events: seq<Event>, j: nat, name: string)
    returns (k: nat)
    requires Run(states, events) && states[0].cache == map[]
    requires j < |states| && name in states[j].cache
    ensures k < j && Walks(states[k], events[k])
    ensures StoreInfo(name, states[j].cache[name]) in states[k].Stores()
  {
    var s, e, s' := states[j - 1], events[j - 1], states[j];
    assert Step(s, e, s');
    if name in s.cache && s.cache[name] == s'.cache[name] {
      k := EntryWasListed(states, events, j - 1, name);
    } else {
      k := j - 1;
      WalkEnters(s, e, s', name);
    }
  }

  lemma WalkEnters(s: State, e: Event, s': State, name: string)
    requires Step(s, e, s')
    requires name in s'.cache && (name in s.cache ==> s'.cache[name] != s.cache[name])
    ensures Walks(s, e) && StoreInfo(name, s'.cache[name]) in s.Stores()
  {
    var pages := s.listing.pages;
    assert pages[..|pages|] == pages;
    if s'.cache == SetAll(s.cache, s.Stores()) {
      WalkSaw(s.listing, |pages|, s.cache, name);
    } else {
      var k :| 0 <= k < |pages| && s'.cache == SetAll(s.cache, Flatten(pages[..k]));
      WalkSaw(s.listing, k, s.cache, name);
    }
  }

  lemma WalkSaw(listing: Listing<StoreInfo>, k: nat, cache: Cache, name: string)
    requires k <= |listing.pages|
    requires var entered := SetAll(cache, Flatten(listing.pages[..k]));
             name in entered && (name in cache ==> entered[name] != cache[name])
    ensures StoreInfo(name, SetAll(cache, Flatten(listing.pages[..k]))[name]) in Flatten(listing.pages)
  {
    var seen := Flatten(listing.pages[..k]);
    SetAllLookup(cache, seen, name);
    FindLastIsListed(seen, name);
    PrefixIsListed(listing.pages, k);
  }

  lemma {:induction false} PrefixIsListed(pages: seq<StoreList>, k: nat)
    requires k <= |pages|
    ensures forall i :: i in Flatten(pages[..k]) ==> i in Flatten(pages)
    decreases |pages| - k
  {
    if k == |pages| {
      assert pages[..k] == pages;
    } else {
      PrefixIsListed(pages, k + 1);
      FlattenSnoc(pages, k);
    }
  }

  /** Staleness: in every run, deletions, renamings and failed loads included, an answer was seen by
      some walk k, and on a listing with unique names it is what a full walk would now find if and
      only if its store was not lost since: the last event on it, if any, gave it that name. */
  lemma StaleIff(states: seq<State>, events: seq<Event>, i: nat) returns (k: nat)
    requires Run(states, events) && states[0].cache == map[] && IdsUsed(states[0])
    requires i < |events| && events[i].Get? && events[i].result.Ok?
    requires UniqueNames(states[i].Stores())
    ensures k <= i && Walks(states[k], events[k])
    ensures StoreInfo(events[i].name, events[i].result.value) in states[k].Stores()
    ensures FindLast(states[i].Stores(), events[i].name) == Some(events[i].result.value) <==>
            !Lost(events, k, i, events[i].result.value, events[i].name)
  {
    var name, id := events[i].name, events[i].result.value;
    assert Step(states[i], events[i], states[i + 1]);
    FindLastIsListed(states[i].Stores(), name);
    if name in states[i].cache {
      k := EntryWasListed(states, events, i, name);
    } else {
      k := i;
    }
    ListedIff(states, events, k, i, name, id);
    if StoreInfo(name, id) in states[i].Stores() {
      UniqueLookup(states[i].Stores(), name, id);
    }
  }

  /** A stale answer: a store is deleted between two Gets of its name, and the second still answers
      with it. */
  lemma DeletedStoreIsAnswered(name: string, id: string) returns (states: seq<State>, events: seq<Event>)
    ensures Run(states, events) && events == [Get(name, Ok(id)), Removed(id), Get(name, Ok(id))]
    ensures states[0] == State(Listing([[StoreInfo(name, id)]], [""]), {id}, map[], false)
    ensures FindLast(states[2].Stores(), name) == None
  {
    var one, none := Listing([[StoreInfo(name, id)]], [""]), Listing([[]], [""]);
    var s0, s1 := State(one, {id}, map[], false), State(one, {id}, map[name := id], false);
    var s2 := State(none, {id}, map[name := id], false);
    FlattenOne([StoreInfo(name, id)]);
    FlattenOne<StoreInfo>([]);
    assert Step(s0, Get(name, Ok(id)), s1) by { WalkOverOne(name, id); }
    assert Step(s1, Removed(id), s2) by { assert Without([StoreInfo(name, id)], id) == []; }
    assert Step(s2, Get(name, Ok(id)), s2);
    events := [Get(name, Ok(id)), Removed(id), Get(name, Ok(id))];
    states := [s0, s1, s2, s2];
  }

  lemma FlattenOne<E>(page: seq<E>)
    ensures Flatten([page]) == page
  {
    assert [page][..0] == [];
  }

  lemma WalkOverOne(name: string, id: string)
    ensures SetAll(map[], [StoreInfo(name, id)]) == map[name := id]
    ensures FindLast([StoreInfo(name, id)], name) == Some(id)
  {
    assert [StoreInfo(name, id)][..0] == [];
  }
}
