/** The store subroutine: a Store resource without a store ID adopts the OpenFGA store of its name
    or creates one; with an ID it keeps the name up to date. Only the first page of the store list
    is looked at. */
module StoreReconciler {
  import opened Paging
  import opened StoreServer
  import opened StoreIds
  import opened TupleReconciler
  import opened Wrappers

  /** What a successful Process does to the listed stores and to the resource's store ID. */
  ghost predicate ProcessedStore(
    stores: StoreList, used: set<string>, firstPage: StoreList, name: string, id: string,
    stores': StoreList, used': set<string>, id': string)
  {
    if id == "" then
      match FindFirst(firstPage, name)
      case Some(found) => stores' == stores && used' == used && id' == found
      case None =>
        && id' !in used && id' != ""
        && used' == used + {id'}
        && stores' == stores + [StoreInfo(name, id')]
    else
      && id' == id && used' == used
      && NameOf(stores, id).Some?
      && stores' == (if NameOf(stores, id).value == name then stores else Rename(stores, id, name))
  }

  lemma {:induction false} FirstPageIsListed(pages: seq<StoreList>)
    requires pages != []
    ensures forall i :: i in pages[0] ==> i in Flatten(pages)
  {
    var front := pages[..|pages| - 1];
    if front == [] {
      assert Flatten(pages) == Flatten([]) + pages[0];
    } else {
      FirstPageIsListed(front);
    }
  }

  /** Renaming leaves the store under its new name and the others as they are. */
  lemma RenamedListing(stores: StoreList, id: string, name: string)
    requires NameOf(stores, id).Some?
    ensures StoreInfo(name, id) in Rename(stores, id, name)
    ensures forall i: StoreInfo :: i.id != id ==> (i in Rename(stores, id, name) <==> i in stores)
  {
    RenamedMembers(stores, id, name, name, id);
    forall i: StoreInfo | i.id != id
      ensures i in Rename(stores, id, name) <==> i in stores
    {
      RenamedMembers(stores, id, name, i.name, i.id);
    }
  }

  class StoreSubroutine {
    const fga: StoreServer

    constructor (fga: StoreServer)
      ensures this.fga == fga
    {
      this.fga := fga;
    }

    method Process(store: StoreResource) returns (ok: bool)
      requires fga.Complete()
      modifies fga, store`storeId
      ensures ok ==> ProcessedStore(
                       old(fga.stores), old(fga.usedIds), fga.paging(old(fga.stores)).pages[0], store.name,
                         old(store.storeId),
                       fga.stores, fga.usedIds, store.storeId)
      ensures !ok ==>
              fga.stores == old(fga.stores) && fga.usedIds == old(fga.usedIds) && store.storeId == old(store.storeId)
      ensures ok ==> StoreInfo(store.name, store.storeId) in fga.stores
      ensures ok ==> forall i: StoreInfo :: i.id != store.storeId ==> (i in fga.stores <==> i in old(fga.stores))
      ensures ok && old(store.storeId) != "" ==> store.storeId == old(store.storeId)
      ensures fga.reliable ==> (ok <==> old(store.storeId) == "" || NameOf(old(fga.stores), old(store.storeId)).Some?)
    {
      if store.storeId == "" {
        var list := fga.ListStores("");
        if list.Err? {
          return false;
        }
        assert list.value == fga.paging(fga.stores).Reply(0);
        FirstPageIsListed(fga.paging(fga.stores).pages);
        FindFirstIsListed(list.value.entries, store.name);
        var found := FindFirst(list.value.entries, store.name);
        if found.Some? {
          store.storeId := found.value;
          return true;
        }
        var res := fga.CreateStore(store.name);
        if res.Err? {
          return false;
        }
        store.storeId := res.value;
        return true;
      }

      var name := fga.GetStore(store.storeId);
      if name.Err? {
        return false;
      }
      NameOfListed(fga.stores, store.storeId);
      if name.value == store.name {
        return true;
      }
      RenamedListing(fga.stores, store.storeId, store.name);
      ok := fga.UpdateStore(store.storeId, store.name);
    }

    /** The store is deleted once no authorization model refers to it; one that is gone already
        counts as deleted. */
    method Finalize(store: StoreResource, storeCluster: string, models: Option<seq<ModelResource>>) returns (ok: bool)
      modifies fga`stores
      ensures !ok ==> fga.stores == old(fga.stores)
      ensures ok && store.storeId == "" ==> fga.stores == old(fga.stores)
      ensures ok && store.storeId != "" ==>
                && models.Some?
                && (forall m :: m in models.value ==> m.storeRef != StoreRef(store.name, storeCluster))
                && fga.stores == Without(old(fga.stores), store.storeId)
      ensures fga.reliable ==>
                (ok <==>
                  || store.storeId == ""
                  || (models.Some? &&
                      forall m :: m in models.value ==> m.storeRef != StoreRef(store.name, storeCluster)))
    {
      if store.storeId == "" {
        return true;
      }
      if models.None? {
        return false;
      }
      var related := 0;
      for i := 0 to |models.value|
        invariant related >= 0
        invariant related == 0 <==>
                  forall k :: 0 <= k < i ==> models.value[k].storeRef != StoreRef(store.name, storeCluster)
      {
        if models.value[i].storeRef.name == store.name && models.value[i].storeRef.cluster == storeCluster {
          related := related + 1;
        }
      }
      if related != 0 {
        return false;
      }
      var deleted := fga.DeleteStore(store.storeId);
      ok := deleted.Ok?;
    }
  }

  /** The listed stores, the Store resources, by name, with their saved store ID, and the listed
      AuthorizationModels with the name of the Store each refers to. */
  datatype State = State(stores: StoreList, used: set<string>, ids: map<string, string>, models: map<string, string>) {
    predicate Referred(name: string) {
      exists m :: m in models && models[m] == name
    }
  }

  datatype Event =
    | NewResource(name: string)
    | Saved(name: string)
    | Unsaved(name: string, lostId: string)
    | Released(name: string)
    | NewModel(model: string, name: string)
    | ModelGone(model: string)

  /** A resource appears without a store ID; a successful Process saves its status, or the operator
      stops before it is saved; a finalized resource goes away together with its store; models come
      and go. */
  ghost predicate Step(paging: StoreList -> Listing<StoreInfo>, s: State, e: Event, s': State) {
    match e
    case NewResource(name) => name !in s.ids && s' == s.(ids := s.ids[name := ""])
    case Saved(name) =>
      && name in s.ids && name in s'.ids
      && FirstPage(paging, s).Some?
      && ProcessedStore(s.stores, s.used, FirstPage(paging, s).value, name, s.ids[name], s'.stores, s'.used,
           s'.ids[name])
      && s'.ids == s.ids[name := s'.ids[name]] && s'.models == s.models
    case Unsaved(name, lostId) =>
      && name in s.ids
      && FirstPage(paging, s).Some?
      && ProcessedStore(s.stores, s.used, FirstPage(paging, s).value, name, s.ids[name], s'.stores, s'.used, lostId)
      && s'.ids == s.ids && s'.models == s.models
    case Released(name) =>
      && name in s.ids
      && (s.ids[name] != "" ==> !s.Referred(name))
      && s'.stores == (if s.ids[name] == "" then s.stores else Without(s.stores, s.ids[name]))
      && s' == s.(stores := s'.stores, ids := s.ids - {name})
    case NewModel(model, name) => model !in s.models && s' == s.(models := s.models[model := name])
    case ModelGone(model) => s' == s.(models := s.models - {model})
  }

  function FirstPage(paging: StoreList -> Listing<StoreInfo>, s: State): Option<StoreList> {
    if |paging(s.stores).pages| > 0 then Some(paging(s.stores).pages[0]) else None
  }

  ghost predicate Run(paging: StoreList -> Listing<StoreInfo>, states: seq<State>, events: seq<Event>) {
    && |states| == |events| + 1
    && forall i :: 0 <= i < |events| ==> Step(paging, states[i], events[i], states[i + 1])
  }

  /** The first page is a first part of the listing. */
  ghost predicate FirstPageIsPrefix(paging: StoreList -> Listing<StoreInfo>, s: State) {
    FirstPage(paging, s).Some? ==> FirstPage(paging, s).value <= s.stores
  }

  /** If the event looks a store up by name and there is one, it is on the first page. */
  predicate Found(paging: StoreList -> Listing<StoreInfo>, s: State, e: Event) {
    (e.Saved? || e.Unsaved?) && e.name in s.ids && s.ids[e.name] == "" && FirstPage(paging, s).Some?
      && Named(s.stores, e.name) ==>
      Named(FirstPage(paging, s).value, e.name)
  }

  /** IDs are unique, and a saved store ID is the ID of a store of that name. */
  ghost predicate Sound(s: State) {
    && UniqueIds(s.stores)
    && (forall i :: i in s.stores ==> i.id in s.used && i.id != "")
    && (forall name :: name in s.ids && s.ids[name] != "" ==> StoreInfo(name, s.ids[name]) in s.stores)
  }

  ghost predicate Invariant(s: State) {
    UniqueNames(s.stores) && Sound(s)
  }

  lemma ProcessKeepsSound(s: State, firstPage: StoreList, name: string, s': State, id': string)
    requires Sound(s) && name in s.ids && firstPage <= s.stores
    requires ProcessedStore(s.stores, s.used, firstPage, name, s.ids[name], s'.stores, s'.used, id')
    requires s'.ids == s.ids || s'.ids == s.ids[name := id']
    ensures Sound(s') && forall i :: i in s.stores ==> i in s'.stores
    ensures s.ids[name] != "" ==> id' == s.ids[name] && s'.stores == s.stores
    ensures s.ids[name] == "" && FindFirst(firstPage, name).Some? ==> s'.stores == s.stores
  {
    FindFirstIsListed(firstPage, name);
    if s.ids[name] == "" {
      if FindFirst(firstPage, name).None? {
        assert forall i :: 0 <= i < |s.stores| ==> s.stores[i] in s.stores;
        assert forall i :: i in s'.stores <==> i in s.stores || i == StoreInfo(name, id');
      }
    } else {
      NameIsUnique(s, name);
    }
  }

  lemma NameIsUnique(s: State, name: string)
    requires Sound(s) && name in s.ids && s.ids[name] != ""
    ensures NameOf(s.stores, s.ids[name]) == Some(name)
  {
    NameOfListed(s.stores, s.ids[name]);
  }

  lemma ProcessKeepsInvariant(s: State, firstPage: StoreList, name: string, s': State, id': string)
    requires Invariant(s) && name in s.ids && firstPage <= s.stores
    requires s.ids[name] == "" && Named(s.stores, name) ==> Named(firstPage, name)
    requires ProcessedStore(s.stores, s.used, firstPage, name, s.ids[name], s'.stores, s'.used, id')
    requires s'.ids == s.ids || s'.ids == s.ids[name := id']
    ensures Invariant(s')
  {
    ProcessKeepsSound(s, firstPage, name, s', id');
    FindFirstIsListed(firstPage, name);
    if s.ids[name] == "" && FindFirst(firstPage, name).None? {
      assert !Named(s.stores, name);
    }
  }

  lemma ReleaseKeepsSound(s: State, name: string, s': State)
    requires Sound(s) && name in s.ids && s.ids[name] != ""
    requires s'.stores == Without(s.stores, s.ids[name]) && s'.used == s.used && s'.ids == s.ids - {name}
    ensures Sound(s') && (UniqueNames(s.stores) ==> UniqueNames(s'.stores))
  {
    WithoutKeeps(s.stores, s.ids[name]);
    WithoutMembers(s.stores, s.ids[name]);
    ReleasedOnlyOwn(s, name);
  }

  lemma StepKeepsInvariant(paging: StoreList -> Listing<StoreInfo>, s: State, e: Event, s': State)
    requires Invariant(s) && FirstPageIsPrefix(paging, s) && Found(paging, s, e) && Step(paging, s, e, s')
    ensures Invariant(s')
  {
    match e
    case NewResource(name) =>
    case Saved(name) => ProcessKeepsInvariant(s, FirstPage(paging, s).value, name, s', s'.ids[name]);
    case Unsaved(name, lostId) => ProcessKeepsInvariant(s, FirstPage(paging, s).value, name, s', lostId);
    case Released(name) =>
      if s.ids[name] != "" {
        ReleaseKeepsSound(s, name, s');
      }
    case _ =>
  }

  lemma ReleasedOnlyOwn(s: State, name: string)
    requires Sound(s) && name in s.ids && s.ids[name] != ""
    ensures forall other :: other in s.ids && other != name && s.ids[other] != "" ==> s.ids[other] != s.ids[name]
  {
  }

  /** In the first j steps, every store looked up by name is on the first page if there is one. */
  ghost predicate AllFound(paging: StoreList -> Listing<StoreInfo>, states: seq<State>, events: seq<Event>, j: nat)
    requires |states| == |events| + 1 && j <= |events|
  {
    forall k :: 0 <= k < j ==> Found(paging, states[k], events[k])
  }

  lemma {:induction false} RunKeepsInvariant(
    paging: StoreList -> Listing<StoreInfo>, states: seq<State>, events: seq<Event>, j: nat)
    requires Run(paging, states, events) && Invariant(states[0])
    requires forall k :: 0 <= k < |states| ==> FirstPageIsPrefix(paging, states[k])
    requires j < |states| && AllFound(paging, states, events, j)
    ensures Invariant(states[j])
  {
    if j > 0 {
      RunKeepsInvariant(paging, states, events, j - 1);
      StepKeepsInvariant(paging, states[j - 1], events[j - 1], states[j]);
    }
  }

  /** At most one store per name: in every run, including stops between creating a store and saving
      its ID, in which stores looked up by name are on the first page if they exist, store names stay
      unique, a saved store ID is never replaced, and it is what the caching getter's walk over all
      pages finds for the name. */
  lemma AtMostOneStorePerName(
    paging: StoreList -> Listing<StoreInfo>, states: seq<State>, events: seq<Event>, i: nat, j: nat, name: string)
    requires Run(paging, states, events) && Invariant(states[0])
    requires forall k :: 0 <= k < |states| ==> FirstPageIsPrefix(paging, states[k])
    requires i <= j < |states| && AllFound(paging, states, events, j)
    ensures Invariant(states[j])
    ensures name in states[j].ids && states[j].ids[name] != "" ==>
              FindLast(states[j].stores, name) == Some(states[j].ids[name])
    ensures Released(name) !in events[i..j] && name in states[i].ids && states[i].ids[name] != "" ==>
              name in states[j].ids && states[j].ids[name] == states[i].ids[name]
  {
    RunKeepsInvariant(paging, states, events, j);
    if Released(name) !in events[i..j] && name in states[i].ids && states[i].ids[name] != "" {
      assert forall k :: i <= k < j ==> events[i..j][k - i] == events[k];
      SavedIdStays(paging, states, events, i, j, name);
    }
    if name in states[j].ids && states[j].ids[name] != "" {
      UniqueLookup(states[j].stores, name, states[j].ids[name]);
    }
  }

  /** A saved store ID is never replaced, whatever the server lists. */
  lemma {:induction false} SavedIdStays(
    paging: StoreList -> Listing<StoreInfo>, states: seq<State>, events: seq<Event>, i: nat, j: nat, name: string)
    requires Run(paging, states, events) && i <= j < |states|
    requires forall k :: i <= k < j ==> events[k] != Released(name)
    requires name in states[i].ids && states[i].ids[name] != ""
    ensures name in states[j].ids && states[j].ids[name] == states[i].ids[name]
  {
    if j > i {
      SavedIdStays(paging, states, events, i, j - 1, name);
      StepKeepsId(paging, states[j - 1], events[j - 1], states[j], name);
    }
  }

  lemma StepKeepsId(paging: StoreList -> Listing<StoreInfo>, s: State, e: Event, s': State, name: string)
    requires Step(paging, s, e, s')
    requires name in s.ids && s.ids[name] != "" && e != Released(name)
    ensures name in s'.ids && s'.ids[name] == s.ids[name]
  {
  }

  /** Whatever the first pages hold, a step keeps saved IDs sound, and only a release takes a store
      away. */
  lemma StepKeepsSound(paging: StoreList -> Listing<StoreInfo>, s: State, e: Event, s': State)
    requires Sound(s) && FirstPageIsPrefix(paging, s) && Step(paging, s, e, s')
    ensures Sound(s')
    ensures forall i :: i in s.stores && i !in s'.stores ==>
                          e.Released? && e.name in s.ids && s.ids[e.name] == i.id && !s.Referred(e.name)
  {
    match e
    case Saved(name) => ProcessKeepsSound(s, FirstPage(paging, s).value, name, s', s'.ids[name]);
    case Unsaved(name, lostId) => ProcessKeepsSound(s, FirstPage(paging, s).value, name, s', lostId);
    case Released(name) =>
      if s.ids[name] != "" {
        ReleaseKeepsSound(s, name, s');
        WithoutMembers(s.stores, s.ids[name]);
      }
    case _ =>
  }

  lemma {:induction false} RunKeepsSound(
    paging: StoreList -> Listing<StoreInfo>, states: seq<State>, events: seq<Event>, j: nat)
    requires Run(paging, states, events) && Sound(states[0])
    requires forall k :: 0 <= k < |states| ==> FirstPageIsPrefix(paging, states[k])
    requires j < |states|
    ensures Sound(states[j])
  {
    if j > 0 {
      RunKeepsSound(paging, states, events, j - 1);
      StepKeepsSound(paging, states[j - 1], events[j - 1], states[j]);
    }
  }

  /** Models hold their store: in every run, whatever the first pages hold, from the time a Store's ID
      is saved and for as long as some model refers to it, the Store resource stays with its ID and
      the OpenFGA store of that ID stays listed under its name, so the model's tuples can be removed
      from it. */
  lemma {:induction false} ReferredStoreStays(
    paging: StoreList -> Listing<StoreInfo>, states: seq<State>, events: seq<Event>, i: nat, j: nat, name: string)
    requires Run(paging, states, events) && Sound(states[0])
    requires forall k :: 0 <= k < |states| ==> FirstPageIsPrefix(paging, states[k])
    requires i <= j < |states| && name in states[i].ids && states[i].ids[name] != ""
    requires forall k :: i <= k < j ==> states[k].Referred(name)
    ensures name in states[j].ids && states[j].ids[name] == states[i].ids[name]
    ensures StoreInfo(name, states[i].ids[name]) in states[j].stores
  {
    RunKeepsSound(paging, states, events, j);
    if j > i {
      ReferredStoreStays(paging, states, events, i, j - 1, name);
      assert Step(paging, states[j - 1], events[j - 1], states[j]) && states[j - 1].Referred(name);
      StepKeepsId(paging, states[j - 1], events[j - 1], states[j], name);
    }
  }

  /** A reference is left dangling by a step exactly if the step releases the Store before any ID was
      saved: then Finalize asks for no models. */
  lemma DanglesIff(paging: StoreList -> Listing<StoreInfo>, s: State, e: Event, s': State, model: string)
    requires Step(paging, s, e, s') && model in s.models && s.models[model] in s.ids
    ensures model in s'.models && s'.models[model] !in s'.ids <==>
            e == Released(s.models[model]) && s.ids[s.models[model]] == ""
  {
    if e == Released(s.models[model]) {
      assert s.Referred(e.name);
    }
  }

  /** The first page matters: processing a resource without a store ID makes a second store of its
      name if and only if one is listed but not on the first page. */
  lemma SecondStoreIff(
    stores: StoreList, used: set<string>, firstPage: StoreList, name: string, stores': StoreList, used': set<string>,
    id': string)
    requires UniqueNames(stores) && firstPage <= stores
    requires ProcessedStore(stores, used, firstPage, name, "", stores', used', id')
    ensures !UniqueNames(stores') <==> Named(stores, name) && !Named(firstPage, name)
  {
    FindFirstIsListed(firstPage, name);
    if FindFirst(firstPage, name).None? {
      assert forall i :: 0 <= i < |firstPage| ==> firstPage[i] in firstPage;
      if i :| 0 <= i < |stores| && stores[i].name == name {
        assert stores'[i].name == stores'[|stores|].name;
      }
    } else {
      assert StoreInfo(name, id') in firstPage;
      var k :| 0 <= k < |firstPage| && firstPage[k] == StoreInfo(name, id');
    }
  }

  /** Names stay unique throughout a run if and only if every store looked up by name was on the first
      page if it existed. */
  lemma UniqueThroughoutIff(paging: StoreList -> Listing<StoreInfo>, states: seq<State>, events: seq<Event>)
    requires Run(paging, states, events) && Invariant(states[0])
    requires forall k :: 0 <= k < |states| ==> FirstPageIsPrefix(paging, states[k])
    ensures (forall j :: 0 <= j < |states| ==> UniqueNames(states[j].stores)) <==>
            AllFound(paging, states, events, |events|)
  {
    if AllFound(paging, states, events, |events|) {
      forall j | 0 <= j < |states|
        ensures UniqueNames(states[j].stores)
      {
        RunKeepsInvariant(paging, states, events, j);
      }
    }
    if forall j :: 0 <= j < |states| ==> UniqueNames(states[j].stores) {
      forall k | 0 <= k < |events|
        ensures Found(paging, states[k], events[k])
      {
        assert UniqueNames(states[k].stores) && UniqueNames(states[k + 1].stores);
        UniqueAfterIsFound(paging, states[k], events[k], states[k + 1]);
      }
    }
  }

  lemma UniqueAfterIsFound(paging: StoreList -> Listing<StoreInfo>, s: State, e: Event, s': State)
    requires Step(paging, s, e, s') && FirstPageIsPrefix(paging, s)
    requires UniqueNames(s.stores) && UniqueNames(s'.stores)
    ensures Found(paging, s, e)
  {
    if (e.Saved? || e.Unsaved?) && e.name in s.ids && s.ids[e.name] == "" {
      var id' := if e.Saved? then s'.ids[e.name] else e.lostId;
      SecondStoreIff(s.stores, s.used, FirstPage(paging, s).value, e.name, s'.stores, s'.used, id');
    }
  }

  /** A server that puts one store on the first page and the rest on the second. */
  const ONE_THEN_REST: StoreList -> Listing<StoreInfo> :=
    stores => if |stores| < 2 then Listing([stores], [""]) else Listing([stores[..1], stores[1..]], ["", "rest"])

  /** A run that ends with two stores of one name: the first page ends before the store of the name,
      and a new resource is processed and makes another one. */
  lemma SecondStoreIsMade(name: string, other: string) returns (states: seq<State>, events: seq<Event>)
    requires name != other
    ensures Run(ONE_THEN_REST, states, events) && events == [NewResource(name), Saved(name)]
    ensures states[0] == State.State([StoreInfo(other, "a"), StoreInfo(name, "b")], {"a", "b"}, map[], map[])
    ensures Invariant(states[0]) && states[2].stores == states[0].stores + [StoreInfo(name, "c")]
  {
    var stores := [StoreInfo(other, "a"), StoreInfo(name, "b")];
    var more := stores + [StoreInfo(name, "c")];
    events := [NewResource(name), Saved(name)];
    states := [
      State.State(stores, {"a", "b"}, map[], map[]), State.State(stores, {"a", "b"}, map[name := ""], map[]),
      State.State(more, {"a", "b", "c"}, map[name := "c"], map[])
    ];
    assert ONE_THEN_REST(stores).pages[0] == [StoreInfo(other, "a")];
    assert FindFirst([StoreInfo(other, "a")], name).None?;
    assert Step(ONE_THEN_REST, states[0], events[0], states[1]);
    assert Step(ONE_THEN_REST, states[1], events[1], states[2]);
  }
}
