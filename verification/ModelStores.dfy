/** A generated model finds the OpenFGA store of its organization through the Store resource the workspace
    initializer made for it. */
module ModelStores {
  import opened Strings
  import opened AccountPath
  import opened ModelGeneration
  import opened ModelRuns
  import opened TupleReconciler
  import opened Wrappers

  /** The initializer names the Store of a workspace after the last part of its path. */
  lemma StoreOfOrganization(name: string)
    requires ':' !in name
    ensures GenerateStoreName(Some("root:orgs:" + name)) == name
  {
    var path := "root:orgs:" + name;
    assert path == "root:orgs" + [':'] + name;
    LastSeparator("root:orgs", name, ':');
    BaseAndParentOfSplit(path, ':', Split(path, ':'));
  }

  /** The Stores the initializer makes are there: for every organization one in the cluster its account
      comes from, named as the initializer names it. */
  ghost predicate StoresMade(orgs: set<Organization>, tuples: TupleSubroutine) {
    forall org :: org in orgs ==>
      && ':' !in org.name
      && StoreRef(GenerateStoreName(Some("root:orgs:" + org.name)), org.originClusterId) in tuples.directory
  }

  /** In every state of every run, each model of a processed binding that is not deleted resolves to the
      Store of the binding's organization, so its tuples go to that organization's OpenFGA store. */
  lemma RunModelsFindStores(
    w: World, states: seq<State>, events: seq<Event>, i: nat, b: Binding, key: ModelKey, tuples: TupleSubroutine,
    model: ModelResource)
    requires KeysIdentify(w)
    requires Run(w, states, events) && Invariant(w, states[0]) && forall e :: e in events ==> RegularEvent(w, e)
    requires StoresMade(w.orgs, tuples)
    requires i < |states| && b in states[i].bindings && Kept(b) && !b.deleting
    requires b.workspace in states[i].infos && key in Keys(w, b.export_, states[i].infos[b.workspace].org)
    requires key in states[i].models ==> model.storeRef == states[i].models[key]
    ensures var org := states[i].infos[b.workspace].org;
            && key in states[i].models
            && StoreRef(GenerateStoreName(Some("root:orgs:" + org.name)), org.originClusterId) in tuples.directory
            && var store :=
                 tuples.directory[StoreRef(GenerateStoreName(Some("root:orgs:" + org.name)), org.originClusterId)];
               tuples.TargetStore(OfModel(model)) == Some(store.storeId)
  {
    RunKeepsInvariant(w, states, events, i);
    StoreOfOrganization(states[i].infos[b.workspace].org.name);
  }
}
