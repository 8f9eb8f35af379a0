/** The tuple subroutine: it makes the tuples of a Store or AuthorizationModel resource present in
    an OpenFGA store and removes the ones it managed before. New tuples are applied first, so a
    tuple that stays is never missing. */
module TupleReconciler {
  import opened Tuples
  import opened TupleManager
  import opened Wrappers

  datatype StoreRef = StoreRef(name: string, cluster: string)

  /** What one resource wants and what its status says it has. */
  datatype Owner = Owner(spec: seq<Tuple>, managed: seq<Tuple>)

  function Stale(o: Owner): set<Tuple> {
    AsSet(o.managed) - AsSet(o.spec)
  }

  /** A successful Process on store contents s. */
  predicate Processed(s: set<Tuple>, o: Owner, s': set<Tuple>, o': Owner) {
    s' == s + AsSet(o.spec) - Stale(o) && o' == Owner(o.spec, o.spec)
  }

  /** A failed Process leaves the status alone and has at most applied the specified tuples. */
  predicate ProcessFailed(s: set<Tuple>, o: Owner, s': set<Tuple>, o': Owner) {
    && o' == o
    && (s' == s || (s' == s + AsSet(o.spec) && Stale(o) != {}))
  }

  predicate Finalized(s: set<Tuple>, o: Owner, s': set<Tuple>, o': Owner) {
    s' == s - AsSet(o.managed) && o' == o.(managed := [])
  }

  predicate FinalizeFailed(s: set<Tuple>, o: Owner, s': set<Tuple>, o': Owner) {
    s' == s && o' == o
  }

  function Contents(stores: map<string, set<Tuple>>, storeId: string): set<Tuple> {
    if storeId in stores then stores[storeId] else {}
  }

  /** Nothing but the contents of one store differs. */
  predicate OnlyStoreChanged(stores: map<string, set<Tuple>>, stores': map<string, set<Tuple>>, storeId: string) {
    && stores.Keys == stores'.Keys
    && forall id :: id in stores && id != storeId ==> stores'[id] == stores[id]
  }

  class StoreResource {
    const name: string
    var coreModule: string
    var specTuples: seq<Tuple>
    var storeId: string
    var managedTuples: seq<Tuple>

    constructor (name: string, coreModule: string, specTuples: seq<Tuple>)
      ensures this.name == name && this.coreModule == coreModule && this.specTuples == specTuples
      ensures storeId == "" && managedTuples == []
    {
      this.name, this.coreModule, this.specTuples := name, coreModule, specTuples;
      storeId, managedTuples := "", [];
    }
  }

  class ModelResource {
    const storeRef: StoreRef
    var specTuples: seq<Tuple>
    var managedTuples: seq<Tuple>

    constructor (storeRef: StoreRef)
      ensures this.storeRef == storeRef && specTuples == managedTuples == []
    {
      this.storeRef := storeRef;
      specTuples, managedTuples := [], [];
    }
  }

  /** The subroutine reconciles both kinds of resources. */
  datatype Resource = OfStore(store: StoreResource) | OfModel(model: ModelResource) {
    function Handle(): object {
      if OfStore? then store else model
    }

    function GetOwner(): Owner
      reads Handle()
    {
      match this
      case OfStore(s) => Owner(s.specTuples, s.managedTuples)
      case OfModel(m) => Owner(m.specTuples, m.managedTuples)
    }
  }

  class TupleSubroutine {
    const fga: FgaServer

    /** The Store resources that can be reached through a reference. */
    const directory: map<StoreRef, StoreResource>

    constructor (fga: FgaServer, directory: map<StoreRef, StoreResource>)
      ensures this.fga == fga && this.directory == directory
    {
      this.fga := fga;
      this.directory := directory;
    }

    /** The OpenFGA store a resource writes to; a dangling reference has none. */
    function TargetStore(obj: Resource): Option<string>
      reads obj.Handle(), directory.Values
    {
      match obj
      case OfStore(s) => Some(s.storeId)
      case OfModel(m) => if m.storeRef in directory then Some(directory[m.storeRef].storeId) else None
    }

    /** Reading the referenced Store can fail on the way. */
    method ResolveStore(obj: Resource) returns (storeId: Option<string>)
      ensures storeId.Some? ==> storeId == TargetStore(obj)
      ensures fga.reliable ==> storeId == TargetStore(obj)
    {
      match obj
      case OfStore(s) => storeId := Some(s.storeId);
      case OfModel(m) =>
        var reachable: bool := *;
        if !(fga.reliable || reachable) || m.storeRef !in directory {
          return None;
        }
        storeId := Some(directory[m.storeRef].storeId);
    }

    method SetManaged(obj: Resource, managed: seq<Tuple>)
      modifies obj.Handle()
      ensures obj.GetOwner() == old(obj.GetOwner()).(managed := managed)
      ensures obj.OfStore? ==> obj.store.storeId == old(obj.store.storeId)
    {
      match obj
      case OfStore(s) => s.managedTuples := managed;
      case OfModel(m) => m.managedTuples := managed;
    }

    method Process(obj: Resource) returns (ok: bool)
      modifies fga`stores, obj.Handle()
      ensures TargetStore(obj) == old(TargetStore(obj))
      ensures obj.OfStore? ==> TargetStore(obj) == Some(obj.store.storeId)
      ensures obj.OfModel? && obj.model.storeRef in directory ==>
                TargetStore(obj) == Some(directory[obj.model.storeRef].storeId)
      ensures TargetStore(obj).None? ==> !ok && fga.stores == old(fga.stores) && obj.GetOwner() == old(obj.GetOwner())
      ensures TargetStore(obj).Some? ==>
                var id := TargetStore(obj).value;
                && OnlyStoreChanged(old(fga.stores), fga.stores, id)
                && (ok ==>
                      Processed(old(Contents(fga.stores, id)), old(obj.GetOwner()), Contents(fga.stores, id),
                        obj.GetOwner()))
                && (!ok ==>
                      ProcessFailed(old(Contents(fga.stores, id)), old(obj.GetOwner()), Contents(fga.stores, id),
                        obj.GetOwner()))
      ensures fga.reliable && TargetStore(obj).Some? && TargetStore(obj).value in old(fga.stores) ==> ok
    {
      var resolved := ResolveStore(obj);
      if resolved.None? {
        return false;
      }
      var owner := obj.GetOwner();
      var specTuples, managedTuples := owner.spec, owner.managed;
      var tm := new TupleManager(fga, resolved.value);
      ok := tm.Apply(specTuples);
      if !ok {
        return;
      }

      var tuplesToDelete := [];
      for i := 0 to |managedTuples|
        invariant forall t :: t in tuplesToDelete <==> t in managedTuples[..i] && t !in specTuples
      {
        if managedTuples[i] !in specTuples {
          tuplesToDelete := tuplesToDelete + [managedTuples[i]];
        }
      }
      assert managedTuples[..|managedTuples|] == managedTuples;
      assert AsSet(tuplesToDelete) == Stale(owner);
      NothingToDelete(tuplesToDelete);
      ok := tm.Delete(tuplesToDelete);
      if !ok {
        return;
      }
      SetManaged(obj, specTuples);
    }

    method Finalize(obj: Resource) returns (ok: bool)
      modifies fga`stores, obj.Handle()
      ensures TargetStore(obj) == old(TargetStore(obj))
      ensures obj.OfStore? ==> TargetStore(obj) == Some(obj.store.storeId)
      ensures obj.OfModel? && obj.model.storeRef in directory ==>
                TargetStore(obj) == Some(directory[obj.model.storeRef].storeId)
      ensures TargetStore(obj).None? ==> !ok && fga.stores == old(fga.stores) && obj.GetOwner() == old(obj.GetOwner())
      ensures TargetStore(obj).Some? ==>
                var id := TargetStore(obj).value;
                && OnlyStoreChanged(old(fga.stores), fga.stores, id)
                && (ok ==>
                      Finalized(old(Contents(fga.stores, id)), old(obj.GetOwner()), Contents(fga.stores, id),
                        obj.GetOwner()))
                && (!ok ==>
                      FinalizeFailed(old(Contents(fga.stores, id)), old(obj.GetOwner()), Contents(fga.stores, id),
                        obj.GetOwner()))
      ensures fga.reliable && TargetStore(obj).Some? && TargetStore(obj).value in old(fga.stores) ==> ok
    {
      var resolved := ResolveStore(obj);
      if resolved.None? {
        return false;
      }
      var managedTuples := obj.GetOwner().managed;
      var tm := new TupleManager(fga, resolved.value);
      ok := tm.Delete(managedTuples);
      if !ok {
        return;
      }
      SetManaged(obj, []);
    }
  }

  lemma NothingToDelete(ts: seq<Tuple>)
    ensures AsSet(ts) == {} <==> ts == []
  {
    if ts != [] {
      assert ts[0] in AsSet(ts);
    }
  }
}
