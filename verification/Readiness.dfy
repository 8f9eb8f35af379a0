/** The workspace initializer asks for an organization's Store resource and reports the workspace
    ready only once the store exists and holds the tuples asked for. */
module Readiness {
  import opened AccountPath
  import opened Strings
  import opened Tuples
  import opened TupleManager
  import opened TupleReconciler
  import opened Paging
  import opened StoreServer
  import opened StoreIds
  import StoreReconciler
  import opened Wrappers

  datatype Config = Config(objectType: string, creatorRelation: string, coreModule: string, allowMemberTuples: bool)

  datatype AccountInfo = AccountInfo(originClusterId: string, name: string)

  datatype LogicalCluster = LogicalCluster(path: Option<string>, ownerCluster: string, ownerName: string)

  datatype Outcome = Ready | Requeue | Failed

  const MEMBER_ACCOUNT_TYPE := "core_platform-mesh_io_account"

  function MemberTuples(lc: LogicalCluster): seq<Tuple> {
    [
      Tuple("role:authenticated", "assignee", "user:*"),
      Tuple(RenderAccountEntity(Account(MEMBER_ACCOUNT_TYPE, lc.ownerCluster, lc.ownerName)), "member",
        "role:authenticated#assignee")
    ]
  }

  /** The tuples an organization's store must hold. */
  function DesiredTuples(
    config: Config, lc: LogicalCluster, ai: AccountInfo, creator: Option<string>): Result<seq<Tuple>> {
    if creator.None? then Err
    else
      var base := TuplesForOrganization(creator.value, config.creatorRelation,
        Account(config.objectType, ai.originClusterId, ai.name));
      if base.Err? then Err
      else Ok(base.value + (if config.allowMemberTuples then MemberTuples(lc) else []))
  }

  /** The tuples asked for: the creator's, and exactly if the feature is on the two that make every
      authenticated user a member. */
  lemma DesiredTexts(config: Config, lc: LogicalCluster, ai: AccountInfo, creator: Option<string>)
    ensures DesiredTuples(config, lc, ai, creator).Ok? <==> creator !in {None, Some("")}
    ensures DesiredTuples(config, lc, ai, creator).Ok? ==>
              var entity := config.objectType + ":" + ai.originClusterId + "/" + ai.name;
              var ownerRole := "role:" + config.objectType + "/" + ai.originClusterId + "/" + ai.name + "/owner";
              forall t :: t in DesiredTuples(config, lc, ai, creator).value <==>
                || t == Tuple(ownerRole, "assignee", "user:" + ReplaceAll(creator.value, ':', '.'))
                || t == Tuple(entity, config.creatorRelation, ownerRole + "#assignee")
                || (config.allowMemberTuples &&
                     (|| t == Tuple("role:authenticated", "assignee", "user:*")
                      || t == Tuple("core_platform-mesh_io_account:" + lc.ownerCluster + "/" + lc.ownerName, "member",
                                "role:authenticated#assignee")))
  {
    OwnerTexts(Account(config.objectType, ai.originClusterId, ai.name));
    var texts := "role:" + config.objectType + "/" + ai.originClusterId + "/" + ai.name;
    assert texts + "/owner" + "#assignee" == texts + "/owner#assignee";
    if creator !in {None, Some("")} {
      var base := TuplesForOrganization(creator.value, config.creatorRelation,
        Account(config.objectType, ai.originClusterId, ai.name)).value;
      assert base == [
               Tuple(texts + "/owner", "assignee", "user:" + ReplaceAll(creator.value, ':', '.')),
               Tuple(config.objectType + ":" + ai.originClusterId + "/" + ai.name, config.creatorRelation,
                 texts + "/owner" + "#assignee")
             ];
      assert MemberTuples(lc)[1].object_ == "core_platform-mesh_io_account:" + lc.ownerCluster + "/" + lc.ownerName;
      forall t
        ensures t in DesiredTuples(config, lc, ai, creator).value <==>
                t in base || (config.allowMemberTuples && t in MemberTuples(lc))
      {
      }
    }
  }

  class WorkspaceInitializer {
    const config: Config

    /** No remote call fails for reasons of its own. */
    const reliable: bool

    /** The Store resources of the organizations workspace, by name. */
    var stores: map<string, StoreResource>

    constructor (config: Config, stores: map<string, StoreResource>, reliable: bool)
      ensures this.config == config && this.stores == stores && this.reliable == reliable
    {
      this.config, this.stores, this.reliable := config, stores, reliable;
    }

    /** Creates the Store resource, or overwrites its spec if that differs. */
    method CreateOrUpdate(name: string, tuples: seq<Tuple>) returns (changed: Option<bool>)
      modifies this, stores.Values
      ensures reliable ==> changed.Some?
      ensures changed.None? ==> stores == old(stores)
      ensures changed.None? ==> forall s :: s in stores.Values ==> unchanged(s)
      ensures changed.Some? ==>
                && name in stores
                && stores == old(stores)[name := stores[name]]
                && stores[name].specTuples == tuples && stores[name].coreModule == config.coreModule
      ensures changed == Some(false) ==> stores == old(stores) && forall s :: s in stores.Values ==> unchanged(s)
      ensures changed.Some? ==>
                (changed.value <==>
                  name !in old(stores) || old(stores[name].specTuples) != tuples
                    || old(stores[name].coreModule) != config.coreModule)
      ensures changed.Some? ==> forall s :: s in old(stores.Values) && s != stores[name] ==> unchanged(s)
      ensures changed.Some? && name in old(stores) ==>
                && stores == old(stores)
                && stores[name].storeId == old(stores[name].storeId)
                && stores[name].managedTuples == old(stores[name].managedTuples)
      ensures changed.Some? && name !in old(stores) ==>
                fresh(stores[name]) && stores[name].storeId == "" && stores[name].managedTuples == []
    {
      var ok: bool := *;
      if !(reliable || ok) {
        return None;
      }
      if name !in stores {
        var created := new StoreResource(name, config.coreModule, tuples);
        stores := stores[name := created];
        return Some(true);
      }
      var store := stores[name];
      assert store in stores.Values;
      if store.specTuples == tuples && store.coreModule == config.coreModule {
        return Some(false);
      }
      store.specTuples, store.coreModule := tuples, config.coreModule;
      assert stores[name := store] == stores;
      changed := Some(true);
    }

    /** Ready means: the Store resource already asked for exactly the desired tuples, its status lists
        all of them, and it has a store ID. Everything else is asked for again later. */
    method Reconcile(lc: LogicalCluster, ai: Result<Option<AccountInfo>>, creator: Result<Option<string>>)
      returns (r: Outcome)
      modifies this, stores.Values
      ensures r.Ready? ==>
                && ai.Ok? && ai.value.Some? && creator.Ok?
                && var desired := DesiredTuples(config, lc, ai.value.value, creator.value);
                && desired.Ok?
                && var name := GenerateStoreName(lc.path);
                && name in stores && stores == old(stores)
                && stores[name].specTuples == desired.value
                && stores[name].storeId != "" && stores[name].storeId == old(stores[name].storeId)
                && (forall t :: t in desired.value ==> t in stores[name].managedTuples)
                && stores[name].managedTuples == old(stores[name].managedTuples)
      ensures ai == Ok(None) ==> r.Requeue?
      ensures r.Failed? || ai == Ok(None) ==> stores == old(stores) && forall s :: s in stores.Values ==> unchanged(s)
      ensures r.Requeue? && ai != Ok(None) ==>
                && ai.Ok? && creator.Ok?
                && var desired := DesiredTuples(config, lc, ai.value.value, creator.value);
                && desired.Ok?
                && var name := GenerateStoreName(lc.path);
                && name in stores && stores == old(stores)[name := stores[name]]
                && stores[name].specTuples == desired.value && stores[name].coreModule == config.coreModule
                && (forall s :: s in old(stores.Values) && s != stores[name] ==> unchanged(s))
                && (name in old(stores) ==>
                      && stores == old(stores)
                      && stores[name].storeId == old(stores[name].storeId)
                      && stores[name].managedTuples == old(stores[name].managedTuples)
                      && !(&& old(stores[name].specTuples) == desired.value
                           && old(stores[name].coreModule) == config.coreModule
                           && (forall t :: t in desired.value ==> t in stores[name].managedTuples)
                           && stores[name].storeId != ""))
      ensures !r.Failed? && ai != Ok(None) ==>
                && ai.Ok? && creator.Ok? && creator.value.Some?
                && var name := if lc.path.None? then "" else Split(lc.path.value, ':')[|Split(lc.path.value, ':')| - 1];
                && name in stores && stores[name].coreModule == config.coreModule
                && var info := ai.value.value;
                   var entity := config.objectType + ":" + info.originClusterId + "/" + info.name;
                   var ownerRole :=
                     "role:" + config.objectType + "/" + info.originClusterId + "/" + info.name + "/owner";
                   forall t :: t in stores[name].specTuples <==>
                     || t == Tuple(ownerRole, "assignee", "user:" + ReplaceAll(creator.value.value, ':', '.'))
                     || t == Tuple(entity, config.creatorRelation, ownerRole + "#assignee")
                     || (config.allowMemberTuples &&
                          (|| t == Tuple("role:authenticated", "assignee", "user:*")
                           || t == Tuple("core_platform-mesh_io_account:" + lc.ownerCluster + "/" + lc.ownerName,
                                     "member", "role:authenticated#assignee")))
      ensures reliable ==>
                (r.Failed? <==>
                  ai.Err? || (ai.value.Some? && (creator.Err? || creator.value in {None, Some("")})))
    {
      if ai.Err? {
        return Failed;
      }
      if ai.value.None? {
        return Requeue;
      }
      if creator.Err? {
        return Failed;
      }
      var name := GenerateStoreName(lc.path);
      var desired := DesiredTuples(config, lc, ai.value.value, creator.value);
      DesiredTexts(config, lc, ai.value.value, creator.value);
      if desired.Err? {
        return Failed;
      }
      var tuples := desired.value;
      var changed := CreateOrUpdate(name, tuples);
      if changed.None? {
        return Failed;
      }
      if changed.value {
        return Requeue;
      }
      var store := stores[name];
      for i := 0 to |tuples|
        invariant forall k :: 0 <= k < i ==> tuples[k] in store.managedTuples
      {
        if tuples[i] !in store.managedTuples {
          return Requeue;
        }
      }
      if store.storeId == "" {
        return Requeue;
      }
      r := Ready;
    }
  }

  /** One Store resource with the contents of the OpenFGA stores it may write to. */
  datatype State = State(
    contents: map<string, set<Tuple>>, stores: StoreList, used: set<string>,
    storeId: string, owner: Owner)

  /** What happens to an organization's Store: the initializer overwrites its spec or reports ready,
      the Store controller runs its subroutines in order and stops at the first failure, possibly
      before a store ID it found or created or the status of a success is saved, and others write to
      the same OpenFGA stores. */
  datatype Event =
    | Initialized(desired: seq<Tuple>, ready: bool)
    | StoreFailed
    | StoreOnly(tuplesTried: bool)
    | StoreReconciled
    | StoreLost(lostId: string)
    | StatusLost
    | Foreign

  ghost predicate Gate(s: State, desired: seq<Tuple>) {
    && s.owner.spec == desired
    && (forall t :: t in desired ==> t in s.owner.managed)
    && s.storeId != ""
  }

  ghost predicate Step(
    paging: StoreList -> Listing<StoreInfo>, name: string, universe: set<Tuple>, s: State, e: Event, s': State) {
    match e
    case Initialized(desired, ready) =>
      if ready then s' == s && Gate(s, desired)
      else s' == s.(owner := s'.owner) && s'.owner.managed == s.owner.managed && AsSet(s'.owner.spec) <= universe
    case StoreFailed => s' == s
    case StoreOnly(tuplesTried) =>
      && StoreStep(paging, name, s, s')
      && TheStoreOnly(s, s')
      && ProcessFailed(Contents(s.contents, s'.storeId), s.owner, Contents(s'.contents, s'.storeId), s'.owner)
      && (!tuplesTried ==> s'.contents == s.contents)
    case StoreReconciled =>
      && StoreStep(paging, name, s, s')
      && TheStoreOnly(s, s')
      && Processed(Contents(s.contents, s'.storeId), s.owner, Contents(s'.contents, s'.storeId), s'.owner)
    case StoreLost(lostId) =>
      && |paging(s.stores).pages| > 0
      && StoreReconciler.ProcessedStore(
        s.stores, s.used, paging(s.stores).pages[0], name, s.storeId, s'.stores, s'.used, lostId)
      && (forall id :: id != lostId ==> Contents(s'.contents, id) == Contents(s.contents, id))
      && ProcessFailed(Contents(s.contents, lostId), s.owner, Contents(s'.contents, lostId), s'.owner)
      && s'.storeId == s.storeId
    case StatusLost => WrittenNotSaved(s, s')
    case Foreign =>
      && s' == s.(contents := s'.contents)
      && forall id :: Contents(s'.contents, id) * universe == Contents(s.contents, id) * universe
  }

  ghost predicate StoreStep(paging: StoreList -> Listing<StoreInfo>, name: string, s: State, s': State) {
    && |paging(s.stores).pages| > 0
    && StoreReconciler.ProcessedStore(
      s.stores, s.used, paging(s.stores).pages[0], name, s.storeId, s'.stores, s'.used, s'.storeId)
  }

  ghost predicate TheStoreOnly(s: State, s': State) {
    forall id :: id != s'.storeId ==> Contents(s'.contents, id) == Contents(s.contents, id)
  }

  /** A Process whose tuples are all written but whose status is not saved. */
  ghost predicate WrittenNotSaved(s: State, s': State) {
    && TheStoreOnly(s, s') && s.storeId != ""
    && (exists o' :: Processed(Contents(s.contents, s.storeId), s.owner, Contents(s'.contents, s'.storeId), o'))
    && s' == s.(contents := s'.contents)
  }

  ghost predicate Run(
    paging: StoreList -> Listing<StoreInfo>, name: string, universe: set<Tuple>, states: seq<State>, events: seq<Event>)
  {
    && |states| == |events| + 1
    && forall i :: 0 <= i < |events| ==> Step(paging, name, universe, states[i], events[i], states[i + 1])
  }

  /** What the status claims is true: without a store ID nothing is managed, and managed tuples are
      in the store of the ID. */
  predicate StatusIsTrue(universe: set<Tuple>, s: State) {
    && AsSet(s.owner.spec) <= universe
    && AsSet(s.owner.managed) <= universe
    && (s.storeId == "" ==> s.owner.managed == [])
    && AsSet(s.owner.managed) <= Contents(s.contents, s.storeId)
  }

  /** The status of a success was lost and there was no other success since. */
  predicate LossPending(events: seq<Event>) {
    if events == [] then false
    else
      var last := events[|events| - 1];
      last.StatusLost? || (!last.StoreReconciled? && LossPending(events[..|events| - 1]))
  }

  /** What the status claims of tuples of the spec is true, and of all tuples while no loss is
      pending. */
  predicate StatusHolds(universe: set<Tuple>, s: State, lossPending: bool) {
    && AsSet(s.owner.spec) <= universe
    && AsSet(s.owner.managed) <= universe
    && (s.storeId == "" ==> s.owner.managed == [])
    && AsSet(s.owner.managed) * AsSet(s.owner.spec) <= Contents(s.contents, s.storeId)
    && (!lossPending ==> AsSet(s.owner.managed) <= Contents(s.contents, s.storeId))
  }

  lemma StepKeepsStatus(
    paging: StoreList -> Listing<StoreInfo>, name: string, universe: set<Tuple>, s: State, e: Event, s': State,
    lossPending: bool)
    requires StatusHolds(universe, s, lossPending) && Step(paging, name, universe, s, e, s')
    requires SoundServer(paging, s) && (lossPending && e.Initialized? ==> s'.owner.spec == s.owner.spec)
    ensures StatusHolds(universe, s', e.StatusLost? || (lossPending && !e.StoreReconciled?))
  {
    if e.Foreign? {
      assert forall t :: t in universe ==>
                           (t in Contents(s.contents, s.storeId) * universe <==> t in Contents(s.contents, s.storeId));
      assert Contents(s'.contents, s.storeId) * universe == Contents(s.contents, s.storeId) * universe;
    } else if e.StoreOnly? || e.StoreReconciled? {
      FindFirstIsListed(paging(s.stores).pages[0], name);
      if s.storeId == "" {
        assert AsSet(s.owner.managed) == {};
      }
    }
  }

  /** Stores never have the empty ID, and a first page holds listed stores. */
  ghost predicate SoundServer(paging: StoreList -> Listing<StoreInfo>, s: State) {
    && (forall i :: i in s.stores ==> i.id != "")
    && (forall i :: |paging(s.stores).pages| > 0 && i in paging(s.stores).pages[0] ==> i in s.stores)
  }

  /** A lost success is retried before the spec changes again. */
  ghost predicate RetriedBeforeChange(states: seq<State>, events: seq<Event>)
    requires |states| == |events| + 1
  {
    forall i :: 0 <= i < |events| && LossPending(events[..i]) && events[i].Initialized? ==>
                  states[i + 1].owner.spec == states[i].owner.spec
  }

  lemma {:induction false} RunKeepsStatusTrue(
    paging: StoreList -> Listing<StoreInfo>, name: string, universe: set<Tuple>, states: seq<State>,
    events: seq<Event>, i: nat)
    requires Run(paging, name, universe, states, events) && StatusIsTrue(universe, states[0])
    requires RetriedBeforeChange(states, events)
    requires forall k :: 0 <= k < |states| ==> SoundServer(paging, states[k])
    requires i < |states|
    ensures StatusHolds(universe, states[i], LossPending(events[..i]))
    ensures !LossPending(events[..i]) ==> StatusIsTrue(universe, states[i])
  {
    if i > 0 {
      RunKeepsStatusTrue(paging, name, universe, states, events, i - 1);
      assert SoundServer(paging, states[i - 1]);
      assert events[..i][..i - 1] == events[..i - 1];
      StepKeepsStatus(paging, name, universe, states[i - 1], events[i - 1], states[i], LossPending(events[..i - 1]));
    }
  }

  /** End-to-end readiness: in every run of the initializer, the Store controller and other writers in
      which a success whose status was lost is retried before the spec changes again, whenever the
      initializer reports ready, the store has an ID, every desired tuple is in the OpenFGA store of
      that ID, and the ID is the one of every later state. */
  lemma {:induction false} ReadyMeansTuplesInStore(
    paging: StoreList -> Listing<StoreInfo>, name: string, universe: set<Tuple>, states: seq<State>,
    events: seq<Event>, i: nat, j: nat)
    requires Run(paging, name, universe, states, events) && StatusIsTrue(universe, states[0])
    requires RetriedBeforeChange(states, events)
    requires forall k :: 0 <= k < |states| ==> SoundServer(paging, states[k])
    requires i < |events| && events[i].Initialized? && events[i].ready
    requires i <= j < |states|
    ensures states[i].storeId != ""
    ensures forall t :: t in events[i].desired ==> t in Contents(states[i].contents, states[i].storeId)
    ensures states[j].storeId == states[i].storeId
  {
    RunKeepsStatusTrue(paging, name, universe, states, events, i);
    ReadyStep(paging, name, universe, states[i], events[i], states[i + 1], LossPending(events[..i]));
    SavedIdStays(paging, name, universe, states, events, i, j);
  }

  lemma ReadyStep(
    paging: StoreList -> Listing<StoreInfo>, name: string, universe: set<Tuple>, s: State, e: Event, s': State,
    lossPending: bool)
    requires Step(paging, name, universe, s, e, s') && e.Initialized? && e.ready
    requires StatusHolds(universe, s, lossPending)
    ensures s.storeId != "" && forall t :: t in e.desired ==> t in Contents(s.contents, s.storeId)
  {
    OpenGateIsSound(universe, s, lossPending, e.desired);
  }

  /** A saved store ID is never replaced. */
  lemma {:induction false} SavedIdStays(
    paging: StoreList -> Listing<StoreInfo>, name: string, universe: set<Tuple>, states: seq<State>,
    events: seq<Event>, i: nat, j: nat)
    requires Run(paging, name, universe, states, events)
    requires i <= j < |states| && states[i].storeId != ""
    ensures states[j].storeId == states[i].storeId
  {
    if j > i {
      SavedIdStays(paging, name, universe, states, events, i, j - 1);
      StepKeepsId(paging, name, universe, states[j - 1], events[j - 1], states[j]);
    }
  }

  lemma StepKeepsId(
    paging: StoreList -> Listing<StoreInfo>, name: string, universe: set<Tuple>, s: State, e: Event, s': State)
    requires Step(paging, name, universe, s, e, s') && s.storeId != ""
    ensures s'.storeId == s.storeId
  {
  }

  lemma OpenGateIsSound(universe: set<Tuple>, s: State, lossPending: bool, desired: seq<Tuple>)
    requires StatusHolds(universe, s, lossPending) && Gate(s, desired)
    ensures forall t :: t in desired ==> t in Contents(s.contents, s.storeId)
  {
    forall t | t in desired
      ensures t in Contents(s.contents, s.storeId)
    {
      assert t in AsSet(s.owner.managed) * AsSet(s.owner.spec);
    }
  }

  /** Once the status of a success was lost and the spec then changed, an open gate is sound if and only
      if the changed spec holds nothing that the lost success did not ask for. */
  lemma LostStatusIff(universe: set<Tuple>, s: State, s1: State, desired: seq<Tuple>)
    requires StatusIsTrue(universe, s) && WrittenNotSaved(s, s1)
    requires Gate(s1.(owner := s1.owner.(spec := desired)), desired)
    ensures (forall t :: t in desired ==> t in Contents(s1.contents, s1.storeId)) <==>
            (forall t :: t in desired ==> t in s.owner.spec)
  {
    forall t | t in desired
      ensures t in Contents(s1.contents, s1.storeId) <==> t in s.owner.spec
    {
      assert t in AsSet(s.owner.managed) && (t in AsSet(s.owner.spec) <==> t in s.owner.spec);
    }
  }

  const ONE_PAGE: StoreList -> Listing<StoreInfo> := stores => Listing([stores], [""])

  function Holding(contents: set<Tuple>, spec: seq<Tuple>, managed: seq<Tuple>): State {
    State.State(map["s" := contents], [StoreInfo("org", "s")], {"s"}, "s", Owner(spec, managed))
  }

  /** A run in which the gate opens without b: the Store has a and b, the initializer asks for a only,
      the status of the success that removes b is lost, and the initializer asks for b again before a
      retry. */
  lemma LostStatusOpensGate(a: Tuple, b: Tuple) returns (states: seq<State>, events: seq<Event>)
    requires a != b
    ensures events == [Initialized([a, b], false), StoreReconciled, Initialized([a], false), StatusLost,
                       Initialized([a, b], false), Initialized([a, b], true)]
    ensures Run(ONE_PAGE, "org", {a, b}, states, events) && StatusIsTrue({a, b}, states[0])
    ensures states[0] == Holding({}, [], [])
    ensures b in events[5].desired && b !in Contents(states[5].contents, states[5].storeId)
  {
    events := [Initialized([a, b], false), StoreReconciled, Initialized([a], false), StatusLost,
      Initialized([a, b], false), Initialized([a, b], true)];
    states := [
      Holding({}, [], []), Holding({}, [a, b], []), Holding({a, b}, [a, b], [a, b]), Holding({a, b}, [a], [a, b]),
      Holding({a}, [a], [a, b]), Holding({a}, [a, b], [a, b]), Holding({a}, [a, b], [a, b])
    ];
    assert AsSet([a, b]) == {a, b} && AsSet([a]) == {a} && AsSet([]) == {};
    StoreSucceeds(a, b);
    StatusIsLost(a, b);
    SixSteps({a, b}, states, events);
  }

  lemma StoreSucceeds(a: Tuple, b: Tuple)
    ensures Step(ONE_PAGE, "org", {a, b}, Holding({}, [a, b], []), StoreReconciled, Holding({a, b}, [a, b], [a, b]))
  {
    assert AsSet([a, b]) == {a, b} && AsSet([]) == {} && Stale(Owner([a, b], [])) == {};
    assert NameOf([StoreInfo("org", "s")], "s") == Some("org");
  }

  lemma StatusIsLost(a: Tuple, b: Tuple)
    requires a != b
    ensures Step(ONE_PAGE, "org", {a, b}, Holding({a, b}, [a], [a, b]), StatusLost, Holding({a}, [a], [a, b]))
  {
    var s, s' := Holding({a, b}, [a], [a, b]), Holding({a}, [a], [a, b]);
    assert AsSet([a, b]) == {a, b} && AsSet([a]) == {a} && Stale(s.owner) == {b};
    assert Processed(Contents(s.contents, s.storeId), s.owner, Contents(s'.contents, s'.storeId), Owner([a], [a]));
  }

  lemma SixSteps(universe: set<Tuple>, states: seq<State>, events: seq<Event>)
    requires |states| == 7 && |events| == 6
    requires Step(ONE_PAGE, "org", universe, states[0], events[0], states[1])
    requires Step(ONE_PAGE, "org", universe, states[1], events[1], states[2])
    requires Step(ONE_PAGE, "org", universe, states[2], events[2], states[3])
    requires Step(ONE_PAGE, "org", universe, states[3], events[3], states[4])
    requires Step(ONE_PAGE, "org", universe, states[4], events[4], states[5])
    requires Step(ONE_PAGE, "org", universe, states[5], events[5], states[6])
    ensures Run(ONE_PAGE, "org", universe, states, events)
  {
    forall i | 0 <= i < 6
      ensures Step(ONE_PAGE, "org", universe, states[i], events[i], states[i + 1])
    {
      assert i == 0 || i == 1 || i == 2 || i == 3 || i == 4 || i == 5;
    }
  }
}
