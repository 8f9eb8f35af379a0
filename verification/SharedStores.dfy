/** Accounts, policies and the Store and AuthorizationModel resources write to the same stores: each
    is one of the other writers in the runs of the others. */
module SharedStores {
  import opened Strings
  import opened Tuples
  import opened Expressions
  import opened Plans
  import opened AccountTuples
  import Accounts = AccountRuns
  import Resources = TupleRuns
  import TupleManager
  import Readiness
  import opened PolicyPlans
  import opened PolicyTheorems
  import Policies = PolicyRuns
  import opened Wrappers

  const EXPORT_TYPE := "apis_kcp_io_apiexport"

  /** A grant is on an account itself, for a user that is no role and for which nothing is ever
      reconciled. */
  lemma GrantIsAdditional(a: Account, ai: AccountInfo, relation: string, clusterId: string, exportName: string)
    requires SeparatorFree(a) && a.objectType != EXPORT_TYPE
    requires Accounts.OfAccount(a, BindTuple(ai, relation, ExportUser(clusterId, exportName)))
    ensures var t := BindTuple(ai, relation, ExportUser(clusterId, exportName));
            Accounts.Additional(a, t) && !Accounts.Requested(a, t)
  {
    var t := BindTuple(ai, relation, ExportUser(clusterId, exportName));
    assert t.object_[0] == 'c' && t.user[0] == 'a' && RenderRolePrefix(a)[0] == 'r';
    if r: Accounts.Request :| r.Valid() && r.account == a && t in r.Tuples() {
      Accounts.RequestTuples(r);
      assert RenderCreatorUser(r.creator)[0] == 'u' && RenderOwnerRoleAssigneeGroup(a)[0] == 'r';
      EntityIsNoExport(r.parent, clusterId, exportName);
    }
  }

  lemma EntityIsNoExport(a: Account, clusterId: string, exportName: string)
    requires SeparatorFree(a) && a.objectType != EXPORT_TYPE
    ensures RenderAccountEntity(a) != ExportUser(clusterId, exportName)
  {
    if RenderAccountEntity(a) == ExportUser(clusterId, exportName) {
      var x, y := a.originClusterId + "/" + a.name, clusterId + "/" + exportName;
      assert RenderAccountEntity(a) == a.objectType + [':'] + x;
      assert ExportUser(clusterId, exportName) == EXPORT_TYPE + [':'] + y;
      SeparatorSplitsUniquely(a.objectType, EXPORT_TYPE, ':', x, y);
    }
  }

  /** To the accounts of a store, every attempt of a policy, cut off or not, is a step of another
      writer. */
  lemma PolicyAttemptIsForeign(
    w: World, spec: PolicySpec, managed: seq<string>, before: Stores, done: seq<Op>, after: Stores, ok: bool,
    id: string, accounts: set<Account>, s: Accounts.State)
    requires Carried(before, ProcessPlan(w, spec, managed), done, after, ok)
             || Carried(before, FinalizePlan(w, spec), done, after, ok)
    requires id in before && s.store == before[id]
    requires forall a :: a in accounts ==> SeparatorFree(a) && Accounts.AccountInvariant(s, a)
    ensures Accounts.Step(accounts, s, Accounts.Foreign, s.(store := after[id]))
  {
    forall a, t | a in accounts && Accounts.OfAccount(a, t) && !(t in after[id] <==> t in before[id])
      ensures Accounts.Additional(a, t) && t !in Accounts.Live(s, a)
    {
      AttemptFrame(w, spec, managed, before, done, after, ok, id, t);
      var ai: AccountInfo, relation :| t == BindTuple(ai, relation, UserOf(w, spec));
      if a.objectType != EXPORT_TYPE {
        GrantIsAdditional(a, ai, relation, w.clusterIds[spec.clusterPath], spec.exportName);
      } else {
        GrantIsOnNoExport(a, ai, relation, UserOf(w, spec));
      }
    }
  }

  lemma GrantIsOnNoExport(a: Account, ai: AccountInfo, relation: string, user: string)
    requires SeparatorFree(a) && a.objectType == EXPORT_TYPE
    ensures !Accounts.OfAccount(a, BindTuple(ai, relation, user))
  {
    assert BindTuple(ai, relation, user).object_[0] == 'c' && RenderAccountEntity(a)[0] == 'a'
           && RenderRolePrefix(a)[0] == 'r';
  }

  /** To a policy, reconciling an account is a step of another writer. */
  lemma ReconcileIsForeign(w: World, ref: PolicySpec, s: Policies.State, id: string, r: Accounts.Request)
    requires id in s.stores && r.Valid() && r.account.objectType != EXPORT_TYPE
    ensures Policies.Step(w, ref, s, Policies.Foreign, s.(stores := s.stores[id := s.stores[id] + r.Tuples()]))
  {
    if ref.clusterPath in w.clusterIds {
      var clusterId := w.clusterIds[ref.clusterPath];
      Accounts.RequestTuples(r);
      EntityIsNoExport(r.parent, clusterId, ref.exportName);
      assert RenderCreatorUser(r.creator)[0] == 'u' && RenderOwnerRoleAssigneeGroup(r.account)[0] == 'r';
      assert UserOf(w, ref)[0] == 'a';
      assert forall t :: t in r.Tuples() ==> t.user != UserOf(w, ref);
    }
  }

  /** Terminating an account takes exactly the grants on that account along, whichever policy still
      lists them in its status. */
  lemma TerminateTakesGrantsOnAccount(s: set<Tuple>, a: Account, ai: AccountInfo, relation: string, user: string)
    ensures var t := BindTuple(ai, relation, user);
            t in s - CollectedTuples(s, a) <==> t in s && t.object_ != RenderAccountEntity(a)
  {
    var t := BindTuple(ai, relation, user);
    if Collected(s, a, t) {
      Accounts.CollectedAreOfAccount(s, a, t);
      assert t.object_[0] == 'c' && RenderRolePrefix(a)[0] == 'r';
    }
  }

  /** To a policy, terminating an account is another writer that takes tuples of its export away. */
  lemma TerminateRevokes(w: World, ref: PolicySpec, s: Policies.State, id: string, a: Account)
    requires id in s.stores
    ensures Policies.Step(w, ref, s, Policies.Revoked,
            s.(stores := s.stores[id := s.stores[id] - CollectedTuples(s.stores[id], a)]))
  {
  }

  /** To a policy, finalizing any other policy, of its export or not, is too. */
  lemma OtherPolicyRevokes(w: World, ref: PolicySpec, other: PolicySpec, s: Policies.State, after: Stores)
    requires FinalizedPolicy(w, other, s.stores, after)
    ensures Policies.Step(w, ref, s, Policies.Revoked, s.(stores := after))
  {
    forall id, t | Policies.Holds(after, id, t)
      ensures Policies.Holds(s.stores, id, t)
    {
      assert id in s.stores;
      FinalizeIsExact(w, other, s.stores, after, id, t);
    }
  }

  /** What the resource may name is on none of the accounts but for additional tuples that nobody
      reconciles for them. */
  ghost predicate Spares(universe: set<Tuple>, accounts: set<Account>, s: Accounts.State) {
    forall a, t :: a in accounts && t in universe && Accounts.OfAccount(a, t) ==>
                     Accounts.Additional(a, t) && t !in Accounts.Live(s, a)
  }

  /** To the accounts of a store, every step of a Store or AuthorizationModel resource that spares them
      is a step of another writer. */
  lemma ResourceStepIsForeign(
    u: Resources.Universe, r: Resources.System, e: Resources.Event, r': Resources.System,
    accounts: set<Account>, s: Accounts.State)
    requires Resources.Invariant(u, r) && Resources.Step(u, r, e, r') && !e.Foreign?
    requires s.store == r.store && Spares(u[e.id], accounts, s)
    ensures Accounts.Step(accounts, s, Accounts.Foreign, s.(store := r'.store))
  {
    Resources.StepFrame(u, r, e, r');
    assert forall t :: t !in u[e.id] ==> (t in r'.store <==> t in r'.store - u[e.id]);
    assert forall t :: t !in u[e.id] ==> (t in r.store <==> t in r.store - u[e.id]);
  }

  /** The tuples the workspace initializer asks for spare every account but the organization's own. */
  lemma DesiredTuplesSpare(
    config: Readiness.Config, lc: Readiness.LogicalCluster, ai: Readiness.AccountInfo, creator: Option<string>,
    a: Account, t: Tuple)
    requires Readiness.DesiredTuples(config, lc, ai, creator).Ok?
    requires t in Readiness.DesiredTuples(config, lc, ai, creator).value
    requires SeparatorFree(Account(config.objectType, ai.originClusterId, ai.name)) && SeparatorFree(a)
    requires a != Account(config.objectType, ai.originClusterId, ai.name) && Accounts.OfAccount(a, t)
    ensures Accounts.Additional(a, t) && !Accounts.Requested(a, t)
  {
    var org := Account(config.objectType, ai.originClusterId, ai.name);
    if t in BaseTuples(creator.value, config.creatorRelation, org).value {
      BaseIsOfAccount(creator.value, config.creatorRelation, org, t);
      Accounts.AccountsDisjoint(a, org, t);
    } else {
      assert t in Readiness.MemberTuples(lc);
      MemberTuplesSpare(lc, a, t);
    }
  }

  lemma BaseIsOfAccount(creator: string, relation: string, a: Account, t: Tuple)
    requires BaseTuples(creator, relation, a).Ok? && t in BaseTuples(creator, relation, a).value
    ensures Accounts.OfAccount(a, t)
  {
    OwnerGroupNamesOwnerRole(a);
  }

  lemma MemberTuplesSpare(lc: Readiness.LogicalCluster, a: Account, t: Tuple)
    requires t in Readiness.MemberTuples(lc) && SeparatorFree(a) && Accounts.OfAccount(a, t)
    ensures Accounts.Additional(a, t) && !Accounts.Requested(a, t)
  {
    NoRoleOfAccount(a, "role:authenticated");
    EntityHasSlash(a);
    assert t == Readiness.MemberTuples(lc)[1];
    assert t.object_[0] == 'c' && RenderRolePrefix(a)[0] == 'r';
    AuthenticatedIsAdditional(a, t);
  }

  lemma AuthenticatedIsAdditional(a: Account, t: Tuple)
    requires t.user == "role:authenticated#assignee" && t.object_ == RenderAccountEntity(a)
    ensures Accounts.Additional(a, t) && !Accounts.Requested(a, t)
  {
    NoRoleOfAccount(a, t.user);
    forall r: Accounts.Request
      ensures !(r.Valid() && t in r.Tuples())
    {
      RequestedUsers(r, t);
    }
  }

  lemma RequestedUsers(r: Accounts.Request, t: Tuple)
    ensures r.Valid() && t in r.Tuples() ==> '/' in t.user || t.user[0] == 'u'
  {
    if r.Valid() {
      Accounts.RequestTuples(r);
      EntityHasSlash(r.parent);
      assert RenderRolePrefix(r.account)[|RenderRolePrefix(r.account)| - 1] == '/';
      assert '/' in RenderRolePrefix(r.account) && RenderCreatorUser(r.creator)[0] == 'u';
    }
  }

  lemma NoRoleOfAccount(a: Account, s: string)
    requires '/' !in s
    ensures !HasPrefix(s, RenderRolePrefix(a))
  {
    var p := RenderRolePrefix(a);
    assert p[|p| - 1] == '/';
    PrefixContents(s, p, '/');
  }

  lemma PrefixContents(s: string, p: string, c: char)
    ensures HasPrefix(s, p) && c in p ==> c in s
  {
  }

  lemma EntityHasSlash(a: Account)
    ensures '/' in RenderAccountEntity(a)
  {
    var n := |a.objectType| + 1 + |a.originClusterId|;
    assert RenderAccountEntity(a)[n] == '/';
  }

  /** To Store and AuthorizationModel resources, a step of an account whose tuples they do not name is a
      step of another writer. */
  lemma AccountStepIsForeign(
    u: Resources.Universe, owners: map<nat, Resources.Tracked>, accounts: set<Account>,
    s: Accounts.State, e: Accounts.Event, s': Accounts.State)
    requires Accounts.Step(accounts, s, e, s') && !e.Foreign?
    requires forall id, t :: id in u && t in u[id] ==>
                               !Accounts.OfAccount(if e.Reconciled? then e.request.account else e.account, t)
    ensures Resources.Step(u, Resources.System(s.store, owners), Resources.Foreign, Resources.System(s'.store, owners))
  {
    var a := if e.Reconciled? then e.request.account else e.account;
    forall t | !(t in s'.store <==> t in s.store)
      ensures Accounts.OfAccount(a, t)
    {
      if e.Reconciled? {
        Accounts.RequestTuples(e.request);
      } else {
        Accounts.CollectedAreOfAccount(s.store, a, t);
      }
    }
    UntouchedShares(u, s.store, s'.store);
  }

  lemma UntouchedShares(u: Resources.Universe, before: set<Tuple>, after: set<Tuple>)
    requires forall id, t :: id in u && t in u[id] ==> (t in after <==> t in before)
    ensures forall id :: id in u ==> after * u[id] == before * u[id]
  {
    forall id | id in u
      ensures after * u[id] == before * u[id]
    {
      assert forall t :: t in u[id] ==> (t in after <==> t in before);
    }
  }

  /** To Store and AuthorizationModel resources, an attempt of a policy whose export's tuples they do
      not name is a step of another writer. */
  lemma PolicyAttemptIsForeignToResources(
    w: World, spec: PolicySpec, managed: seq<string>, before: Stores, done: seq<Op>, after: Stores, ok: bool,
    id: string, u: Resources.Universe, owners: map<nat, Resources.Tracked>)
    requires Carried(before, ProcessPlan(w, spec, managed), done, after, ok)
             || Carried(before, FinalizePlan(w, spec), done, after, ok)
    requires id in before && spec.clusterPath in w.clusterIds
    requires forall n, t :: n in u && t in u[n] ==> t.user != UserOf(w, spec)
    ensures Resources.Step(u, Resources.System(before[id], owners), Resources.Foreign,
            Resources.System(after[id], owners))
  {
    forall t | !(t in after[id] <==> t in before[id])
      ensures t.user == UserOf(w, spec)
    {
      AttemptFrame(w, spec, managed, before, done, after, ok, id, t);
    }
    UntouchedShares(u, before[id], after[id]);
  }
}
