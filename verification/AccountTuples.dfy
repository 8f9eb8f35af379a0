/** The account tuples subroutine: an account's tuples are applied when its cluster is reconciled
    and collected through its roles and deleted when it terminates. */
module AccountTuples {
  import opened Strings
  import opened AccountPath
  import opened Tuples
  import opened TupleManager
  import opened Wrappers

  /** The resources the subroutine looks up, by workspace path; an account's creator is optional. */
  datatype Kcp = Kcp(
    clusterIds: map<string, string>,
    ownerClusters: map<string, string>,
    creators: map<(string, string), Option<string>>,
    storeIds: map<string, string>)

  datatype Config = Config(objectType: string, parentRelation: string, creatorRelation: string)

  /** Where an account's tuples live and how it is rendered. */
  datatype Location = Location(storeId: string, account: Account)

  /** The annotation is a path below root:orgs whose parts are all accepted. */
  predicate BelowOrgs(annotation: Option<string>, accepts: SegmentRule) {
    && annotation.Some?
    && var parts := Split(annotation.value, ':');
       |parts| > 2 && parts[0] == "root" && parts[1] == "orgs" && forall p :: p in parts ==> accepts(p)
  }

  /** An account's tuples live in the store named after the third part of its path, and it is known by the
      cluster of the path without its last part and by that last part. */
  function Locate(kcp: Kcp, config: Config, annotation: Option<string>, accepts: SegmentRule): Option<Location> {
    if !BelowOrgs(annotation, accepts) then None
    else
      var parts := Split(annotation.value, ':');
      LocateIn(kcp, config, parts[2], Join(parts[..|parts| - 1], ':'), parts[|parts| - 1])
  }

  function LocateIn(kcp: Kcp, config: Config, store: string, parent: string, name: string): Option<Location> {
    if store in kcp.storeIds && parent in kcp.clusterIds && kcp.clusterIds[parent] != "" then
      Some(Location(kcp.storeIds[store], Account(config.objectType, kcp.clusterIds[parent], name)))
    else None
  }

  /** The tuples a reconcile wants for an account, if everything it looks up is there. */
  function Wanted(kcp: Kcp, config: Config, annotation: Option<string>, accepts: SegmentRule): Result<seq<Tuple>> {
    var location := Locate(kcp, config, annotation, accepts);
    if location.None? then Err
    else
      var parts := Split(annotation.value, ':');
      WantedIn(kcp, config, location.value.account, Join(parts[..|parts| - 1], ':'), parts[|parts| - 2])
  }

  function WantedIn(
    kcp: Kcp, config: Config, account: Account, parent: string, parentName: string): Result<seq<Tuple>> {
    var key := (parent, account.name);
    if parent !in kcp.ownerClusters || key !in kcp.creators || kcp.creators[key].None? then Err
    else
      InitialTuplesForAccount(
        kcp.creators[key].value, config.creatorRelation, account,
        Account(config.objectType, kcp.ownerClusters[parent], parentName), config.parentRelation)
  }

  function RoleOf(user: string): string {
    TrimSuffix(user, ASSIGNEE)
  }

  /** The tuple on the account names one of the account's roles. */
  predicate NamesRole(a: Account, t: Tuple) {
    t.object_ == RenderAccountEntity(a) && HasPrefix(t.user, RenderRolePrefix(a))
  }

  /** What Terminate deletes: tuples on the account, and tuples on roles those name. */
  predicate Collected(s: set<Tuple>, a: Account, t: Tuple) {
    || t.object_ == RenderAccountEntity(a)
    || exists ref :: ref in s && NamesRole(a, ref) && t.object_ == RoleOf(ref.user)
  }

  function CollectedTuples(s: set<Tuple>, a: Account): set<Tuple> {
    set t | t in s && Collected(s, a, t)
  }

  lemma PathIff(annotation: Option<string>, accepts: SegmentRule)
    ensures NewAccountPathFromLogicalCluster(annotation, accepts).Ok? <==> BelowOrgs(annotation, accepts)
    ensures BelowOrgs(annotation, accepts) ==>
              NewAccountPathFromLogicalCluster(annotation, accepts) == Ok(annotation.value)
  {
  }

  lemma PathParts(path: string)
    requires |Split(path, ':')| > 2
    ensures var parts := Split(path, ':');
            && Base(Org(path), ':') == parts[2]
            && Parent(path, ':') == Join(parts[..|parts| - 1], ':')
            && Base(path, ':') == parts[|parts| - 1]
            && Base(Parent(path, ':'), ':') == parts[|parts| - 2]
  {
    var parts := Split(path, ':');
    OrgBase(path);
    BaseAndParentOfSplit(path, ':', parts);
    JoinSplit(Parent(path, ':'), ':');
    BaseAndParentOfSplit(Parent(path, ':'), ':', parts[..|parts| - 1]);
  }

  /** The account's path, and the stores that exist: whether all a reconcile looks up is there. */
  predicate CanReconcile(kcp: Kcp, annotation: Option<string>, accepts: SegmentRule, existing: set<string>) {
    && BelowOrgs(annotation, accepts)
    && var parts := Split(annotation.value, ':');
    && var name, parent := parts[|parts| - 1], Join(parts[..|parts| - 1], ':');
    && parts[2] in kcp.storeIds && kcp.storeIds[parts[2]] in existing
    && parent in kcp.clusterIds && kcp.clusterIds[parent] != "" && parent in kcp.ownerClusters
    && (parent, name) in kcp.creators && kcp.creators[(parent, name)] !in {None, Some("")}
  }

  predicate CanTerminate(kcp: Kcp, annotation: Option<string>, accepts: SegmentRule, existing: set<string>) {
    && BelowOrgs(annotation, accepts)
    && var parts := Split(annotation.value, ':');
    && var parent := Join(parts[..|parts| - 1], ':');
    && parts[2] in kcp.storeIds && kcp.storeIds[parts[2]] in existing
    && parent in kcp.clusterIds && kcp.clusterIds[parent] != ""
  }

  lemma CanTerminateIff(
    kcp: Kcp, config: Config, annotation: Option<string>, accepts: SegmentRule, existing: set<string>)
    ensures CanTerminate(kcp, annotation, accepts, existing) <==>
            && Locate(kcp, config, annotation, accepts).Some?
            && Locate(kcp, config, annotation, accepts).value.storeId in existing
  {
  }

  lemma LocatedTexts(kcp: Kcp, config: Config, annotation: Option<string>, accepts: SegmentRule)
    requires Locate(kcp, config, annotation, accepts).Some?
    ensures annotation.Some?
    ensures var parts := Split(annotation.value, ':');
            && |parts| > 2 && parts[0] == "root" && parts[1] == "orgs"
            && var name, parent := parts[|parts| - 1], Join(parts[..|parts| - 1], ':');
               && parts[2] in kcp.storeIds && parent in kcp.clusterIds
               && Locate(kcp, config, annotation, accepts).value ==
                  Location(kcp.storeIds[parts[2]], Account(config.objectType, kcp.clusterIds[parent], name))
  {
  }

  lemma CollectedTexts(s: set<Tuple>, a: Account)
    ensures var entity := a.objectType + ":" + a.originClusterId + "/" + a.name;
            var roles := "role:" + a.objectType + "/" + a.originClusterId + "/" + a.name + "/";
            forall t :: t in s - CollectedTuples(s, a) <==>
              && t in s && t.object_ != entity
              && !exists ref :: ref in s && ref.object_ == entity && HasPrefix(ref.user, roles)
                                && t.object_ == TrimSuffix(ref.user, "#assignee")
  {
    assert forall ref: Tuple :: NamesRole(a, ref) <==>
      ref.object_ == RenderAccountEntity(a) && HasPrefix(ref.user, RenderRolePrefix(a));
  }

  lemma WantedInTexts(kcp: Kcp, config: Config, a: Account, parent: string, parentName: string)
    ensures var wanted := WantedIn(kcp, config, a, parent, parentName);
            var key := (parent, a.name);
            && (wanted.Ok? <==>
                 parent in kcp.ownerClusters && key in kcp.creators && kcp.creators[key] !in {None, Some("")})
            && (wanted.Ok? ==>
                  var entity := a.objectType + ":" + a.originClusterId + "/" + a.name;
                  var ownerRole := "role:" + a.objectType + "/" + a.originClusterId + "/" + a.name + "/owner";
                  var above := config.objectType + ":" + kcp.ownerClusters[parent] + "/" + parentName;
                  AsSet(wanted.value) == {
                    Tuple(ownerRole, "assignee", "user:" + ReplaceAll(kcp.creators[key].value, ':', '.')),
                    Tuple(entity, config.creatorRelation, ownerRole + "#assignee"),
                    Tuple(entity, config.parentRelation, above)
                  })
  {
    OwnerTexts(a);
    var texts := "role:" + a.objectType + "/" + a.originClusterId + "/" + a.name;
    assert texts + "/owner" + "#assignee" == texts + "/owner#assignee";
  }

  lemma WantedTexts(kcp: Kcp, config: Config, annotation: Option<string>, accepts: SegmentRule)
    requires Wanted(kcp, config, annotation, accepts).Ok?
    ensures Locate(kcp, config, annotation, accepts).Some? && annotation.Some?
    ensures var parts := Split(annotation.value, ':');
            && |parts| > 2 && parts[0] == "root" && parts[1] == "orgs"
            && var name, parent := parts[|parts| - 1], Join(parts[..|parts| - 1], ':');
            && parts[2] in kcp.storeIds && parent in kcp.clusterIds && parent in kcp.ownerClusters
            && (parent, name) in kcp.creators && kcp.creators[(parent, name)].Some?
            && Locate(kcp, config, annotation, accepts).value.storeId == kcp.storeIds[parts[2]]
            && var entity := config.objectType + ":" + kcp.clusterIds[parent] + "/" + name;
               var ownerRole := "role:" + config.objectType + "/" + kcp.clusterIds[parent] + "/" + name + "/owner";
               var above := config.objectType + ":" + kcp.ownerClusters[parent] + "/" + parts[|parts| - 2];
               AsSet(Wanted(kcp, config, annotation, accepts).value) == {
                 Tuple(ownerRole, "assignee", "user:" + ReplaceAll(kcp.creators[(parent, name)].value, ':', '.')),
                 Tuple(entity, config.creatorRelation, ownerRole + "#assignee"),
                 Tuple(entity, config.parentRelation, above)
               }
  {
    var parts := Split(annotation.value, ':');
    WantedInTexts(kcp, config, Locate(kcp, config, annotation, accepts).value.account,
      Join(parts[..|parts| - 1], ':'), parts[|parts| - 2]);
  }

  lemma CanReconcileIff(
    kcp: Kcp, config: Config, annotation: Option<string>, accepts: SegmentRule, existing: set<string>)
    ensures CanReconcile(kcp, annotation, accepts, existing) <==>
            && Wanted(kcp, config, annotation, accepts).Ok?
            && Locate(kcp, config, annotation, accepts).Some?
            && Locate(kcp, config, annotation, accepts).value.storeId in existing
  {
    var located := Locate(kcp, config, annotation, accepts);
    if located.Some? {
      var parts := Split(annotation.value, ':');
      WantedInTexts(kcp, config, located.value.account, Join(parts[..|parts| - 1], ':'), parts[|parts| - 2]);
    }
  }

  /** Accounts share a store if they are of one organization, and only then if organizations have stores
      of their own. */
  lemma SameStoreIff(kcp: Kcp, config: Config, one: string, other: string, accepts: SegmentRule)
    requires Locate(kcp, config, Some(one), accepts).Some? && Locate(kcp, config, Some(other), accepts).Some?
    requires forall m, n :: m in kcp.storeIds && n in kcp.storeIds && kcp.storeIds[m] == kcp.storeIds[n] ==> m == n
    ensures Locate(kcp, config, Some(one), accepts).value.storeId
            == Locate(kcp, config, Some(other), accepts).value.storeId
            <==> Split(one, ':')[..3] == Split(other, ':')[..3]
  {
    var p, q := Split(one, ':'), Split(other, ':');
    assert p[..3] == ["root", "orgs", p[2]] && q[..3] == ["root", "orgs", q[2]];
  }

  class AccountTuplesSubroutine {
    const fga: FgaServer
    const kcp: Kcp
    const config: Config
    const accepts: SegmentRule

    constructor (fga: FgaServer, kcp: Kcp, config: Config, accepts: SegmentRule)
      ensures this.fga == fga && this.kcp == kcp && this.config == config && this.accepts == accepts
    {
      this.fga, this.kcp, this.config, this.accepts := fga, kcp, config, accepts;
    }

    method Reconcile(annotation: Option<string>) returns (ok: bool)
      modifies fga`stores
      ensures !ok ==> fga.stores == old(fga.stores)
      ensures ok ==>
                && Wanted(kcp, config, annotation, accepts).Ok?
                && var storeId := Locate(kcp, config, annotation, accepts).value.storeId;
                && storeId in old(fga.stores)
                && fga.stores == old(fga.stores)[
                     storeId := old(fga.stores)[storeId] + AsSet(Wanted(kcp, config, annotation, accepts).value)]
      ensures ok ==>
                && annotation.Some?
                && var parts := Split(annotation.value, ':');
                && |parts| > 2 && parts[0] == "root" && parts[1] == "orgs"
                && var name, parent := parts[|parts| - 1], Join(parts[..|parts| - 1], ':');
                && parts[2] in kcp.storeIds && parent in kcp.clusterIds && parent in kcp.ownerClusters
                && (parent, name) in kcp.creators && kcp.creators[(parent, name)].Some?
                && var id := kcp.storeIds[parts[2]];
                && id in old(fga.stores)
                && var entity := config.objectType + ":" + kcp.clusterIds[parent] + "/" + name;
                   var ownerRole := "role:" + config.objectType + "/" + kcp.clusterIds[parent] + "/" + name + "/owner";
                   var above := config.objectType + ":" + kcp.ownerClusters[parent] + "/" + parts[|parts| - 2];
                   fga.stores == old(fga.stores)[id := old(fga.stores)[id] + {
                     Tuple(ownerRole, "assignee", "user:" + ReplaceAll(kcp.creators[(parent, name)].value, ':', '.')),
                     Tuple(entity, config.creatorRelation, ownerRole + "#assignee"),
                     Tuple(entity, config.parentRelation, above)
                   }]
      ensures fga.reliable ==> (ok <==> CanReconcile(kcp, annotation, accepts, old(fga.stores).Keys))
    {
      CanReconcileIff(kcp, config, annotation, accepts, fga.stores.Keys);
      var storeID, tuples := BuildTuples(annotation);
      if tuples.Err? {
        return false;
      }
      var tm := new TupleManager(fga, storeID);
      ok := tm.Apply(tuples.value);
      if ok {
        WantedTexts(kcp, config, annotation, accepts);
      }
    }

    /** Looks up all that the account's tuples are built from, in which any call may fail. */
    method BuildTuples(annotation: Option<string>) returns (storeId: string, tuples: Result<seq<Tuple>>)
      ensures tuples.Ok? ==>
                && Wanted(kcp, config, annotation, accepts) == tuples
                && Locate(kcp, config, annotation, accepts).Some?
                && Locate(kcp, config, annotation, accepts).value.storeId == storeId
      ensures tuples.Ok? ==>
                && annotation.Some? && |Split(annotation.value, ':')| > 2
                && Split(annotation.value, ':')[2] in kcp.storeIds
                && storeId == kcp.storeIds[Split(annotation.value, ':')[2]]
      ensures fga.reliable ==> (tuples.Ok? <==> Wanted(kcp, config, annotation, accepts).Ok?)
    {
      storeId, tuples := "", Err;
      PathIff(annotation, accepts);
      var path := NewAccountPathFromLogicalCluster(annotation, accepts);
      if path.Err? {
        return;
      }
      PathParts(path.value);
      var storeID := Lookup(kcp.storeIds, Base(Org(path.value), SEPARATOR), fga.reliable);
      if storeID.None? {
        return;
      }
      var parentPath := Parent(path.value, SEPARATOR);
      var clusterID := Lookup(kcp.clusterIds, parentPath, fga.reliable);
      var grandParentClusterID := Lookup(kcp.ownerClusters, parentPath, fga.reliable);
      if clusterID.None? || clusterID.value == "" || grandParentClusterID.None? {
        return;
      }
      var name := Base(path.value, SEPARATOR);
      var creator := Lookup(kcp.creators, (parentPath, name), fga.reliable);
      if creator.None? || creator.value.None? || creator.value.value == "" {
        return;
      }
      var account := Account(config.objectType, clusterID.value, name);
      storeId := storeID.value;
      tuples := InitialTuplesForAccount(
        creator.value.value, config.creatorRelation, account,
        Account(config.objectType, grandParentClusterID.value, Base(parentPath, SEPARATOR)), config.parentRelation);
      assert Locate(kcp, config, annotation, accepts) == Some(Location(storeId, account));
      assert WantedIn(kcp, config, account, parentPath, Base(parentPath, SEPARATOR)) == tuples;
    }

    method Terminate(annotation: Option<string>) returns (ok: bool)
      requires fga.Complete()
      modifies fga`stores
      ensures !ok ==> fga.stores == old(fga.stores)
      ensures ok ==>
                && Locate(kcp, config, annotation, accepts).Some?
                && var Location(storeId, account) := Locate(kcp, config, annotation, accepts).value;
                && storeId in old(fga.stores)
                && fga.stores == old(fga.stores)[
                     storeId := old(fga.stores)[storeId] - CollectedTuples(old(fga.stores)[storeId], account)]
      ensures ok ==>
                && annotation.Some?
                && var parts := Split(annotation.value, ':');
                && |parts| > 2 && parts[0] == "root" && parts[1] == "orgs"
                && var name, parent := parts[|parts| - 1], Join(parts[..|parts| - 1], ':');
                && parts[2] in kcp.storeIds && parent in kcp.clusterIds
                && var id := kcp.storeIds[parts[2]];
                && id in old(fga.stores) && id in fga.stores && fga.stores == old(fga.stores)[id := fga.stores[id]]
                && var entity := config.objectType + ":" + kcp.clusterIds[parent] + "/" + name;
                   var roles := "role:" + config.objectType + "/" + kcp.clusterIds[parent] + "/" + name + "/";
                   forall t :: t in fga.stores[id] <==>
                     && t in old(fga.stores)[id] && t.object_ != entity
                     && !exists ref ::
                       && ref in old(fga.stores)[id] && ref.object_ == entity && HasPrefix(ref.user, roles)
                       && t.object_ == TrimSuffix(ref.user, "#assignee")
      ensures fga.reliable ==> (ok <==> CanTerminate(kcp, annotation, accepts, old(fga.stores).Keys))
    {
      ok := false;
      CanTerminateIff(kcp, config, annotation, accepts, fga.stores.Keys);
      PathIff(annotation, accepts);
      var path := NewAccountPathFromLogicalCluster(annotation, accepts);
      if path.Err? {
        return;
      }
      PathParts(path.value);
      var parentClusterID := Lookup(kcp.clusterIds, Parent(path.value, SEPARATOR), fga.reliable);
      if parentClusterID.None? || parentClusterID.value == "" {
        return;
      }
      var storeID := Lookup(kcp.storeIds, Base(Org(path.value), SEPARATOR), fga.reliable);
      if storeID.None? {
        return;
      }
      var account := Account(config.objectType, parentClusterID.value, Base(path.value, SEPARATOR));
      assert Locate(kcp, config, annotation, accepts) == Some(Location(storeID.value, account));

      var tm := new TupleManager(fga, storeID.value);
      ok := DeleteTuples(tm, account);
      if ok {
        LocatedTexts(kcp, config, annotation, accepts);
        CollectedTexts(old(fga.stores)[storeID.value], account);
      }
    }

    method DeleteTuples(tm: TupleManager, account: Account) returns (ok: bool)
      requires tm.client.Complete()
      modifies tm.client`stores
      ensures !ok ==> tm.client.stores == old(tm.client.stores)
      ensures ok ==>
                && tm.storeId in old(tm.client.stores)
                && var before := old(tm.client.stores)[tm.storeId];
                   tm.client.stores == old(tm.client.stores)[tm.storeId := before - CollectedTuples(before, account)]
      ensures tm.client.reliable && tm.storeId in old(tm.client.stores) ==> ok
    {
      var accountTuples := CollectTuples(tm, account);
      if accountTuples.Err? {
        return false;
      }
      ghost var s := tm.client.stores[tm.storeId];
      ok := tm.Delete(accountTuples.value);
      if accountTuples.value == [] {
        assert s - AsSet([]) == s;
      }
    }

    /** Lists the tuples on the account, and the tuples on every role they name. */
    method CollectTuples(tm: TupleManager, account: Account) returns (r: Result<seq<Tuple>>)
      requires tm.client.Complete()
      ensures r.Ok? ==> tm.storeId in tm.client.stores
      ensures r.Ok? ==> AsSet(r.value) == CollectedTuples(tm.client.stores[tm.storeId], account)
      ensures tm.client.reliable && tm.storeId in tm.client.stores ==> r.Ok?
    {
      var listed := tm.ListWithKey(ReadKey(RenderAccountEntity(account)));
      if listed.Err? {
        return Err;
      }
      var refs := listed.value;
      ghost var s := tm.client.stores[tm.storeId];
      InListing(s, refs, RenderAccountEntity(account));
      var accountTuples := refs;
      var rolePrefix := RenderRolePrefix(account);
      for i := 0 to |refs|
        invariant forall t :: t in accountTuples <==> t in s && CollectedUpTo(refs, i, account, t)
      {
        if HasPrefix(refs[i].user, rolePrefix) {
          var role := TrimSuffix(refs[i].user, ASSIGNEE);
          var roleReferences := tm.ListWithKey(ReadKey(role));
          if roleReferences.Err? {
            return Err;
          }
          InListing(s, roleReferences.value, role);
          accountTuples := accountTuples + roleReferences.value;
        }
        CollectedStep(refs, i, account);
      }
      CollectedAll(s, refs, account);
      r := Ok(accountTuples);
    }
  }

  /** The loop's progress: the tuples on the account and on the roles its first i tuples name. */
  predicate CollectedUpTo(refs: seq<Tuple>, i: nat, a: Account, t: Tuple)
    requires i <= |refs|
  {
    || t.object_ == RenderAccountEntity(a)
    || exists k :: 0 <= k < i && NamesRole(a, refs[k]) && t.object_ == RoleOf(refs[k].user)
  }

  lemma CollectedStep(refs: seq<Tuple>, i: nat, a: Account)
    requires i < |refs|
    ensures forall t :: CollectedUpTo(refs, i + 1, a, t) <==>
                        CollectedUpTo(refs, i, a, t) || (NamesRole(a, refs[i]) && t.object_ == RoleOf(refs[i].user))
  {
    forall t
      ensures CollectedUpTo(refs, i + 1, a, t) <==>
              CollectedUpTo(refs, i, a, t) || (NamesRole(a, refs[i]) && t.object_ == RoleOf(refs[i].user))
    {
    }
  }

  lemma InListing(s: set<Tuple>, listed: seq<Tuple>, object_: string)
    requires AsSet(listed) == Matching(s, Some(ReadKey(object_)))
    ensures forall t :: t in listed <==> t in s && t.object_ == object_
  {
    assert forall t :: t in listed <==> t in AsSet(listed);
  }

  lemma CollectedAll(s: set<Tuple>, refs: seq<Tuple>, a: Account)
    requires forall t :: t in refs <==> t in s && t.object_ == RenderAccountEntity(a)
    ensures forall t :: CollectedUpTo(refs, |refs|, a, t) <==> Collected(s, a, t)
  {
    forall t
      ensures CollectedUpTo(refs, |refs|, a, t) <==> Collected(s, a, t)
    {
      if ref :| ref in s && NamesRole(a, ref) && t.object_ == RoleOf(ref.user) {
        var k :| 0 <= k < |refs| && refs[k] == ref;
      }
    }
  }
}
