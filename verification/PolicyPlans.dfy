/** What an APIExportPolicy asks for, as a sequence of writes: for every allowed path expression the
    export's binding relation on the accounts the expression names, in the stores of their
    organizations. Removed expressions are revoked first and all specified ones granted afterwards. */
module PolicyPlans {
  import opened Strings
  import opened Tuples
  import opened Expressions
  import opened Plans
  import opened Wrappers

  datatype AccountType = OrgAccount | OtherAccount

  datatype AccountInfo = AccountInfo(
    accountType: AccountType, organization: string, originClusterId: string, name: string)

  /** What the subroutine looks up: all account infos, the one of each workspace path, the store of
      each organization and the cluster ID of each path. */
  datatype World = World(
    accountInfos: seq<AccountInfo>,
    workspaces: map<string, AccountInfo>,
    storeIds: map<string, string>,
    clusterIds: map<string, string>)

  datatype PolicySpec = PolicySpec(clusterPath: string, exportName: string, allow: seq<string>)

  const ACCOUNT_TYPE := "core_platform-mesh_io_account"

  function ExportUser(clusterId: string, exportName: string): string {
    "apis_kcp_io_apiexport:" + clusterId + "/" + exportName
  }

  function BindTuple(ai: AccountInfo, relation: string, user: string): Tuple {
    Tuple(RenderAccountEntity(Account(ACCOUNT_TYPE, ai.originClusterId, ai.name)), relation, user)
  }

  /** The write for one account: it needs the store of the account's organization. */
  function OnAccount(w: World, ai: AccountInfo, relation: string, user: string, grant: bool): Plan {
    if ai.organization !in w.storeIds then STUCK
    else
      var s, t := w.storeIds[ai.organization], BindTuple(ai, relation, user);
      Plan([if grant then Grant(s, t) else Revoke(s, t)], true)
  }

  /** For all organizations a grant visits the accounts of type organization and a revocation visits
      every account info. */
  function OnAllOrgs(w: World, relation: string, user: string, grant: bool): seq<Plan> {
    seq(|w.accountInfos|, i requires 0 <= i < |w.accountInfos| =>
      if grant && !w.accountInfos[i].accountType.OrgAccount? then DONE
      else OnAccount(w, w.accountInfos[i], relation, user, grant))
  }

  function OnExpression(w: World, expression: string, user: string, grant: bool): Plan {
    var parsed := ParseAllowExpression(expression);
    if parsed.Err? then STUCK
    else
      var Target(path, relation) := parsed.value;
      if path == ORGS_WORKSPACE_PATH then Chain(OnAllOrgs(w, relation, user, grant))
      else if path !in w.workspaces then STUCK
      else OnAccount(w, w.workspaces[path], relation, user, grant)
  }

  function OnExpressions(w: World, expressions: seq<string>, user: string, grant: bool): seq<Plan> {
    seq(|expressions|, i requires 0 <= i < |expressions| => OnExpression(w, expressions[i], user, grant))
  }

  /** The managed expressions that left the spec; kept ones need no write, so they count as done. */
  function OnRemoved(w: World, managed: seq<string>, allow: seq<string>, user: string): seq<Plan> {
    seq(|managed|, i requires 0 <= i < |managed| =>
      if managed[i] in allow then DONE else OnExpression(w, managed[i], user, false))
  }

  function ProcessPlan(w: World, spec: PolicySpec, managed: seq<string>): Plan {
    if spec.clusterPath !in w.clusterIds then STUCK
    else
      var user := ExportUser(w.clusterIds[spec.clusterPath], spec.exportName);
      Then(Chain(OnRemoved(w, managed, spec.allow, user)), Chain(OnExpressions(w, spec.allow, user, true)))
  }

  function FinalizePlan(w: World, spec: PolicySpec): Plan {
    if spec.clusterPath !in w.clusterIds then STUCK
    else Chain(OnExpressions(w, spec.allow, ExportUser(w.clusterIds[spec.clusterPath], spec.exportName), false))
  }

  /** Any part of a plan may have been carried out; success means all of it. */
  ghost predicate Carried(before: Stores, plan: Plan, done: seq<Op>, after: Stores, ok: bool) {
    && done <= plan.ops
    && after == Exec(before, done)
    && (forall op :: op in done ==> op.store in before)
    && (ok ==> plan.complete && done == plan.ops)
  }

  /** Every lookup of the plan succeeds and all stores it writes to exist. */
  ghost predicate Runnable(before: Stores, plan: Plan) {
    plan.complete && forall op :: op in plan.ops ==> op.store in before
  }

  lemma RunnableStep(before: Stores, ps: seq<Plan>, i: nat)
    requires i < |ps| && Runnable(before, Chain(ps))
    ensures Runnable(before, ps[i])
  {
    forall op
      ensures op in ps[i].ops ==> op.store in before
      ensures ps[i].complete
    {
      ChainMembers(ps, op);
    }
  }

  lemma RunnableThen(before: Stores, p: Plan, q: Plan)
    ensures Runnable(before, Then(p, q)) <==> Runnable(before, p) && Runnable(before, q)
  {
    assert p.complete ==> forall op :: op in p.ops + q.ops <==> op in p.ops || op in q.ops;
  }

  /** A plan that cannot run blocks every sequence of plans it is part of. */
  lemma StuckAt(before: Stores, ps: seq<Plan>, i: nat, now: Stores, reliable: bool)
    requires i < |ps| && now.Keys == before.Keys
    requires reliable ==> !Runnable(now, ps[i])
    ensures reliable ==> !Runnable(before, Chain(ps))
  {
    if Runnable(before, Chain(ps)) {
      RunnableStep(before, ps, i);
    }
  }

  lemma CarryOn(s0: Stores, done: seq<Op>, s1: Stores, plan: Plan, next: seq<Op>, s2: Stores, ok: bool)
    requires s1 == Exec(s0, done) && (forall op :: op in done ==> op.store in s0)
    requires Carried(s1, plan, next, s2, ok)
    ensures Carried(s0, Then(Plan(done, true), plan), done + next, s2, ok)
  {
    ExecAppend(s0, done, next);
  }

  /** One round of a loop over plans: after a success the plans so far are done, after a failure a part
      of them all is, and if calls are reliable they could not all have been carried out. */
  lemma OneRound(
    start: Stores, plans: seq<Plan>, i: nat, done: seq<Op>, before: Stores, next: seq<Op>, now: Stores, ok: bool,
    reliable: bool)
    requires i < |plans| && Chain(plans[..i]) == Plan(done, true)
    requires Carried(start, Plan(done, true), done, before, true)
    requires Carried(before, plans[i], next, now, ok)
    requires reliable && Runnable(before, plans[i]) ==> ok
    ensures ok ==>
              && Chain(plans[..i + 1]) == Plan(done + next, true)
              && Carried(start, Plan(done + next, true), done + next, now, true)
    ensures !ok ==>
              && Carried(start, Chain(plans), done + next, now, false)
              && (reliable ==> !Runnable(start, Chain(plans)))
  {
    ChainStep(plans, i);
    ChainPrefix(plans, i + 1);
    CarryOn(start, done, before, plans[i], next, now, ok);
    if !ok {
      StuckAt(start, plans, i, before, reliable);
    }
  }

  /** A round in which nothing is to be done. */
  lemma IdleRound(start: Stores, plans: seq<Plan>, i: nat, done: seq<Op>, now: Stores)
    requires i < |plans| && plans[i] == DONE && Chain(plans[..i]) == Plan(done, true)
    ensures Chain(plans[..i + 1]) == Plan(done, true)
  {
    ChainStep(plans, i);
    assert done + [] == done;
  }
}
