/** What a policy grants, stated without reference to the order of writes, and what successful,
    interrupted and undone reconciliations of a policy leave in the stores. */
module PolicyTheorems {
  import opened Strings
  import opened Tuples
  import opened Expressions
  import opened Plans
  import opened PolicyPlans
  import opened Wrappers

  /** The accounts an expression names. Granting to all organizations names the accounts of type
      organization; revoking from all organizations names every account info. */
  ghost predicate Names(w: World, expression: string, ai: AccountInfo, grant: bool) {
    var parsed := ParseAllowExpression(expression);
    && parsed.Ok?
    && if parsed.value.path == ORGS_WORKSPACE_PATH
       then ai in w.accountInfos && (grant ==> ai.accountType.OrgAccount?)
       else parsed.value.path in w.workspaces && ai == w.workspaces[parsed.value.path]
  }

  /** The expression grants (or revokes) tuple t of store s to the user. */
  ghost predicate Concerns(w: World, expression: string, user: string, grant: bool, s: string, t: Tuple) {
    exists ai ::
      && Names(w, expression, ai, grant)
      && ai.organization in w.storeIds && w.storeIds[ai.organization] == s
      && t == BindTuple(ai, ParseAllowExpression(expression).value.relation, user)
  }

  ghost predicate AnyConcerns(w: World, expressions: seq<string>, user: string, grant: bool, s: string, t: Tuple) {
    exists e :: e in expressions && Concerns(w, e, user, grant, s, t)
  }

  function OpOf(grant: bool, s: string, t: Tuple): Op {
    if grant then Grant(s, t) else Revoke(s, t)
  }

  /** The managed expressions the spec no longer holds. */
  function Removed(managed: seq<string>, allow: seq<string>): seq<string> {
    if managed == [] then []
    else
      var last := managed[|managed| - 1];
      Removed(managed[..|managed| - 1], allow) + (if last in allow then [] else [last])
  }

  lemma {:induction false} RemovedMembers(managed: seq<string>, allow: seq<string>, e: string)
    ensures e in Removed(managed, allow) <==> e in managed && e !in allow
  {
    if managed != [] {
      RemovedMembers(managed[..|managed| - 1], allow, e);
      assert managed == managed[..|managed| - 1] + [managed[|managed| - 1]];
    }
  }

  /** A complete plan for one expression performs exactly the writes the expression calls for, an
      incomplete one only some of them. */
  lemma ExpressionOps(w: World, e: string, user: string, grant: bool, op: Op)
    ensures var plan := OnExpression(w, e, user, grant);
            && (op in plan.ops ==>
                  op == OpOf(grant, op.store, op.tuple) && Concerns(w, e, user, grant, op.store, op.tuple))
            && (plan.complete && op == OpOf(grant, op.store, op.tuple)
                  && Concerns(w, e, user, grant, op.store, op.tuple)
                ==> op in plan.ops)
  {
    var plan := OnExpression(w, e, user, grant);
    var parsed := ParseAllowExpression(e);
    if parsed.Ok? {
      var Target(path, relation) := parsed.value;
      if path == ORGS_WORKSPACE_PATH {
        AllOrgsOps(w, e, user, grant, op);
      } else if path in w.workspaces {
        var ai := w.workspaces[path];
        assert Names(w, e, ai, grant);
      }
    }
  }

  lemma AllOrgsOps(w: World, e: string, user: string, grant: bool, op: Op)
    requires IsAllOrgs(e)
    ensures var plan := OnExpression(w, e, user, grant);
            && (op in plan.ops ==>
                  op == OpOf(grant, op.store, op.tuple) && Concerns(w, e, user, grant, op.store, op.tuple))
            && (plan.complete && op == OpOf(grant, op.store, op.tuple)
                  && Concerns(w, e, user, grant, op.store, op.tuple)
                ==> op in plan.ops)
  {
    var relation := ParseAllowExpression(e).value.relation;
    var plans := OnAllOrgs(w, relation, user, grant);
    ChainMembers(plans, op);
    if op in Chain(plans).ops {
      var p :| p in plans && op in p.ops;
      var i :| 0 <= i < |plans| && plans[i] == p;
      assert Names(w, e, w.accountInfos[i], grant);
    }
    if Chain(plans).complete && op == OpOf(grant, op.store, op.tuple)
      && Concerns(w, e, user, grant, op.store, op.tuple) {
      var ai :| Names(w, e, ai, grant) && ai.organization in w.storeIds && w.storeIds[ai.organization] == op.store
        && op.tuple == BindTuple(ai, relation, user);
      var i :| 0 <= i < |w.accountInfos| && w.accountInfos[i] == ai;
      assert op in plans[i].ops && plans[i] in plans;
    }
  }

  /** The same for a list of expressions. */
  lemma ExpressionsOps(w: World, es: seq<string>, user: string, grant: bool, op: Op)
    ensures var plan := Chain(OnExpressions(w, es, user, grant));
            && (op in plan.ops ==>
                  op == OpOf(grant, op.store, op.tuple) && AnyConcerns(w, es, user, grant, op.store, op.tuple))
            && (plan.complete && op == OpOf(grant, op.store, op.tuple)
                  && AnyConcerns(w, es, user, grant, op.store, op.tuple)
                ==> op in plan.ops)
  {
    var plans := OnExpressions(w, es, user, grant);
    ChainMembers(plans, op);
    if op in Chain(plans).ops {
      var p :| p in plans && op in p.ops;
      var i :| 0 <= i < |plans| && plans[i] == p;
      ExpressionOps(w, es[i], user, grant, op);
      assert es[i] in es;
    }
    if Chain(plans).complete && op == OpOf(grant, op.store, op.tuple)
      && AnyConcerns(w, es, user, grant, op.store, op.tuple) {
      var e :| e in es && Concerns(w, e, user, grant, op.store, op.tuple);
      var i :| 0 <= i < |es| && es[i] == e;
      assert plans[i] in plans;
      ExpressionOps(w, e, user, grant, op);
    }
  }

  /** Skipping kept expressions is the same as going through the removed ones. */
  lemma {:induction false} RemovedPlan(w: World, managed: seq<string>, allow: seq<string>, user: string)
    ensures Chain(OnRemoved(w, managed, allow, user)) == Chain(OnExpressions(w, Removed(managed, allow), user, false))
  {
    if managed != [] {
      var front, last := managed[..|managed| - 1], managed[|managed| - 1];
      RemovedPlan(w, front, allow, user);
      var plans := OnRemoved(w, managed, allow, user);
      var n := |plans| - 1;
      assert plans[..n] == OnRemoved(w, front, allow, user);
      assert Chain(plans) == Then(Chain(plans[..n]), plans[n]);
      if last in allow {
        var p := Chain(plans[..n]);
        assert p.ops + [] == p.ops;
        assert Then(p, DONE) == p;
        assert Removed(managed, allow) == Removed(front, allow) + [] == Removed(front, allow);
      } else {
        var removed := OnExpressions(w, Removed(managed, allow), user, false);
        assert removed[..|removed| - 1] == OnExpressions(w, Removed(front, allow), user, false);
      }
    }
  }

  function UserOf(w: World, spec: PolicySpec): string
    requires spec.clusterPath in w.clusterIds
  {
    ExportUser(w.clusterIds[spec.clusterPath], spec.exportName)
  }

  /** A reconciliation that carried out all of its plan. */
  ghost predicate ProcessedPolicy(w: World, spec: PolicySpec, managed: seq<string>, before: Stores, after: Stores) {
    Carried(before, ProcessPlan(w, spec, managed), ProcessPlan(w, spec, managed).ops, after, true)
  }

  ghost predicate FinalizedPolicy(w: World, spec: PolicySpec, before: Stores, after: Stores) {
    Carried(before, FinalizePlan(w, spec), FinalizePlan(w, spec).ops, after, true)
  }

  /** Delete-then-apply exactness: after a success a tuple is in a store exactly if a specified
      expression grants it, or it was there and no removed expression revokes it. So the grants of
      the spec survive even where a removed expression aliases or overlaps a specified one. */
  lemma ProcessIsExact(
    w: World, spec: PolicySpec, managed: seq<string>, before: Stores, after: Stores, s: string, t: Tuple)
    requires ProcessedPolicy(w, spec, managed, before, after)
    requires s in before
    ensures spec.clusterPath in w.clusterIds && after.Keys == before.Keys
    ensures var user := UserOf(w, spec);
            t in after[s] <==>
            || AnyConcerns(w, spec.allow, user, true, s, t)
            || (t in before[s] && !AnyConcerns(w, Removed(managed, spec.allow), user, false, s, t))
  {
    var user := UserOf(w, spec);
    var removed := Removed(managed, spec.allow);
    RemovedPlan(w, managed, spec.allow, user);
    var revokes := Chain(OnExpressions(w, removed, user, false));
    var grants := Chain(OnExpressions(w, spec.allow, user, true));
    assert ProcessPlan(w, spec, managed) == Plan(revokes.ops + grants.ops, true);
    forall op
      ensures op in revokes.ops ==> op.Revoke?
      ensures op in grants.ops ==> op.Grant?
    {
      ExpressionsOps(w, removed, user, false, op);
      ExpressionsOps(w, spec.allow, user, true, op);
    }
    RevokeThenGrant(before, revokes.ops, grants.ops, s, t);
    ExpressionsOps(w, removed, user, false, Revoke(s, t));
    ExpressionsOps(w, spec.allow, user, true, Grant(s, t));
  }

  lemma FinalizeIsExact(w: World, spec: PolicySpec, before: Stores, after: Stores, s: string, t: Tuple)
    requires FinalizedPolicy(w, spec, before, after)
    requires s in before
    ensures spec.clusterPath in w.clusterIds && after.Keys == before.Keys
    ensures t in after[s] <==> t in before[s] && !AnyConcerns(w, spec.allow, UserOf(w, spec), false, s, t)
  {
    var user := UserOf(w, spec);
    var revokes := Chain(OnExpressions(w, spec.allow, user, false));
    forall op
      ensures op in revokes.ops ==> op.Revoke?
    {
      ExpressionsOps(w, spec.allow, user, false, op);
    }
    assert revokes.ops + [] == revokes.ops;
    RevokeThenGrant(before, revokes.ops, [], s, t);
    ExpressionsOps(w, spec.allow, user, false, Revoke(s, t));
  }

  /** What the spec grants, its revocation reaches: the account infos visited on revocation include
      those visited on granting. */
  lemma RevocationCoversGrants(w: World, es: seq<string>, user: string, s: string, t: Tuple)
    requires AnyConcerns(w, es, user, true, s, t)
    ensures AnyConcerns(w, es, user, false, s, t)
  {
    var e :| e in es && Concerns(w, e, user, true, s, t);
    var ai :| Names(w, e, ai, true) && ai.organization in w.storeIds && w.storeIds[ai.organization] == s
      && t == BindTuple(ai, ParseAllowExpression(e).value.relation, user);
    assert Names(w, e, ai, false);
    assert Concerns(w, e, user, false, s, t);
  }

  /** Retry convergence: attempts cut off at any point followed by a success end in the same stores
      as one uninterrupted success. */
  lemma RetriesConverge(w: World, spec: PolicySpec, managed: seq<string>, before: Stores, cuts: seq<nat>, after: Stores)
    requires forall i :: 0 <= i < |cuts| ==> cuts[i] <= |ProcessPlan(w, spec, managed).ops|
    requires ProcessedPolicy(w, spec, managed, ExecAttempts(before, ProcessPlan(w, spec, managed).ops, cuts), after)
    ensures after == Exec(before, ProcessPlan(w, spec, managed).ops)
  {
    AttemptsConverge(before, ProcessPlan(w, spec, managed).ops, cuts);
  }

  /** The tuple binds the export's user to some account. */
  ghost predicate IsGrant(user: string, t: Tuple) {
    exists ai: AccountInfo, relation :: t == BindTuple(ai, relation, user)
  }

  lemma ConcernedIsGrant(w: World, es: seq<string>, user: string, grant: bool, s: string, t: Tuple)
    requires AnyConcerns(w, es, user, grant, s, t)
    ensures IsGrant(user, t)
  {
  }

  /** Everything a policy ever writes or deletes binds its export's user to some account. */
  lemma WritesAreGrants(w: World, spec: PolicySpec, managed: seq<string>, op: Op)
    requires op in ProcessPlan(w, spec, managed).ops || op in FinalizePlan(w, spec).ops
    ensures spec.clusterPath in w.clusterIds && IsGrant(UserOf(w, spec), op.tuple)
  {
    var user, removed := UserOf(w, spec), Removed(managed, spec.allow);
    RemovedPlan(w, managed, spec.allow, user);
    ExpressionsOps(w, removed, user, false, op);
    ExpressionsOps(w, spec.allow, user, true, op);
    ExpressionsOps(w, spec.allow, user, false, op);
    var es, grant :| AnyConcerns(w, es, user, grant, op.store, op.tuple);
    ConcernedIsGrant(w, es, user, grant, op.store, op.tuple);
  }

  /** What an attempt, complete or not, changes binds its export's user to some account; so tuples of
      other exports stay. */
  lemma AttemptFrame(
    w: World, spec: PolicySpec, managed: seq<string>, before: Stores, done: seq<Op>, after: Stores, ok: bool,
    s: string, t: Tuple)
    requires || Carried(before, ProcessPlan(w, spec, managed), done, after, ok)
             || Carried(before, FinalizePlan(w, spec), done, after, ok)
    requires s in before && !(t in after[s] <==> t in before[s])
    ensures spec.clusterPath in w.clusterIds && IsGrant(UserOf(w, spec), t) && t.user == UserOf(w, spec)
  {
    ExecByLastEffect(before, done, s, t);
    LastEffectMembers(done, s, t);
    var op := if Grant(s, t) in done then Grant(s, t) else Revoke(s, t);
    assert op in done;
    WritesAreGrants(w, spec, managed, op);
  }

  /** Exports of different clusters or names never share a user string. */
  lemma ExportUserInjective(c1: string, n1: string, c2: string, n2: string)
    requires '/' !in c1 && '/' !in c2
    ensures ExportUser(c1, n1) == ExportUser(c2, n2) <==> c1 == c2 && n1 == n2
  {
    if ExportUser(c1, n1) == ExportUser(c2, n2) {
      var p := "apis_kcp_io_apiexport:";
      assert ExportUser(c1, n1) == p + (c1 + ['/'] + n1);
      assert ExportUser(c2, n2) == p + (c2 + ['/'] + n2);
      assert ExportUser(c1, n1)[|p|..] == c1 + ['/'] + n1;
      assert ExportUser(c2, n2)[|p|..] == c2 + ['/'] + n2;
      SeparatorSplitsUniquely(c1, c2, '/', n1, n2);
    }
  }

  /** Finalize undoes Process: a success followed by a successful Finalize of the same policy
      restores every store exactly, if and only if no tuple of the starting stores was one that a
      removed or a specified expression revokes. Stores without any tuple of the export qualify. */
  lemma FinalizeUndoesProcessIff(
    w: World, spec: PolicySpec, managed: seq<string>, before: Stores, between: Stores, after: Stores)
    requires ProcessedPolicy(w, spec, managed, before, between)
    requires FinalizedPolicy(w, spec, between, after)
    ensures spec.clusterPath in w.clusterIds
    ensures after == before <==>
            forall s, t :: s in before && t in before[s] ==>
                             !AnyConcerns(w, Removed(managed, spec.allow) + spec.allow, UserOf(w, spec), false, s, t)
    ensures (forall s, t :: s in before && t in before[s] ==> t.user != UserOf(w, spec)) ==> after == before
  {
    var user, removed := UserOf(w, spec), Removed(managed, spec.allow);
    forall s, t | s in before
      ensures t in after[s] <==> t in before[s] && !AnyConcerns(w, removed + spec.allow, user, false, s, t)
    {
      ProcessIsExact(w, spec, managed, before, between, s, t);
      FinalizeIsExact(w, spec, between, after, s, t);
      if AnyConcerns(w, spec.allow, user, true, s, t) {
        RevocationCoversGrants(w, spec.allow, user, s, t);
      }
      AnyOfBoth(w, removed, spec.allow, user, s, t);
    }
    if forall s, t :: s in before && t in before[s] ==> !AnyConcerns(w, removed + spec.allow, user, false, s, t) {
      SameStores(after, before);
    }
  }

  lemma AnyOfBoth(w: World, a: seq<string>, b: seq<string>, user: string, s: string, t: Tuple)
    ensures AnyConcerns(w, a + b, user, false, s, t) <==>
            AnyConcerns(w, a, user, false, s, t) || AnyConcerns(w, b, user, false, s, t)
  {
    if e :| e in a && Concerns(w, e, user, false, s, t) {
      assert e in a + b;
    }
    if e :| e in b && Concerns(w, e, user, false, s, t) {
      assert e in a + b;
    }
  }

  /** Finalize walks the spec, not the status: it leaves no tuple of the export if and only if every
      such tuple is one a specified expression revokes. */
  lemma FinalizeIsCompleteIff(w: World, spec: PolicySpec, before: Stores, after: Stores)
    requires FinalizedPolicy(w, spec, before, after)
    ensures spec.clusterPath in w.clusterIds
    ensures (forall s, t :: s in after && t in after[s] ==> t.user != UserOf(w, spec)) <==>
            (forall s, t :: s in before && t in before[s] && t.user == UserOf(w, spec)
                            ==> AnyConcerns(w, spec.allow, UserOf(w, spec), false, s, t))
  {
    forall s, t | s in before
      ensures t in after[s] <==> t in before[s] && !AnyConcerns(w, spec.allow, UserOf(w, spec), false, s, t)
    {
      FinalizeIsExact(w, spec, before, after, s, t);
    }
  }
}
