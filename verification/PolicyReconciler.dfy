/** The APIExportPolicy subroutine, which carries out the writes a policy asks for one by one. */
module PolicyReconciler {
  import opened Strings
  import opened Tuples
  import opened TupleManager
  import opened Expressions
  import opened Plans
  import opened PolicyPlans
  import opened PolicyTheorems
  import opened PolicyMeaning
  import opened Wrappers

  class APIExportPolicy {
    var spec: PolicySpec
    var managedAllowExpressions: seq<string>

    constructor (spec: PolicySpec)
      ensures this.spec == spec && managedAllowExpressions == []
    {
      this.spec := spec;
      managedAllowExpressions := [];
    }
  }

  class APIExportPolicySubroutine {
    const fga: FgaServer
    const world: World

    constructor (fga: FgaServer, world: World)
      ensures this.fga == fga && this.world == world
    {
      this.fga := fga;
      this.world := world;
    }

    method WriteForAccount(ai: AccountInfo, relation: string, user: string, grant: bool)
      returns (ok: bool, ghost done: seq<Op>)
      modifies fga`stores
      ensures Carried(old(fga.stores), OnAccount(world, ai, relation, user, grant), done, fga.stores, ok)
      ensures fga.reliable && Runnable(old(fga.stores), OnAccount(world, ai, relation, user, grant)) ==> ok
    {
      done := [];
      var storeID := Lookup(world.storeIds, ai.organization, fga.reliable);
      if storeID.None? {
        return false, done;
      }
      var tuple := BindTuple(ai, relation, user);
      var tm := new TupleManager(fga, storeID.value);
      assert AsSet([tuple]) == {tuple};
      assert OnAccount(world, ai, relation, user, grant).ops[0].store == storeID.value;
      if grant {
        ok := tm.Apply([tuple]);
      } else {
        ok := tm.Delete([tuple]);
      }
      if ok {
        done := OnAccount(world, ai, relation, user, grant).ops;
        assert done[..0] == [];
      }
    }

    method WriteForAllOrgs(relation: string, user: string, grant: bool) returns (ok: bool, ghost done: seq<Op>)
      modifies fga`stores
      ensures Carried(old(fga.stores), Chain(OnAllOrgs(world, relation, user, grant)), done, fga.stores, ok)
      ensures fga.reliable && Runnable(old(fga.stores), Chain(OnAllOrgs(world, relation, user, grant))) ==> ok
    {
      ghost var plans := OnAllOrgs(world, relation, user, grant);
      done := [];
      var listed: bool := *;
      if !(fga.reliable || listed) {
        return false, done;
      }
      for i := 0 to |world.accountInfos|
        invariant Chain(plans[..i]) == Plan(done, true)
        invariant Carried(old(fga.stores), Plan(done, true), done, fga.stores, true)
      {
        var ai := world.accountInfos[i];
        if !grant || ai.accountType.OrgAccount? {
          ghost var before := fga.stores;
          ghost var next;
          assert plans[i] == OnAccount(world, ai, relation, user, grant);
          ok, next := WriteForAccount(ai, relation, user, grant);
          OneRound(old(fga.stores), plans, i, done, before, next, fga.stores, ok, fga.reliable);
          done := done + next;
          if !ok {
            return;
          }
        } else {
          IdleRound(old(fga.stores), plans, i, done, fga.stores);
        }
      }
      assert plans[..|plans|] == plans;
      ok := true;
    }

    /** Grants or revokes the tuples of one expression. */
    method WriteForExpression(expression: string, user: string, grant: bool) returns (ok: bool, ghost done: seq<Op>)
      modifies fga`stores
      ensures Carried(old(fga.stores), OnExpression(world, expression, user, grant), done, fga.stores, ok)
      ensures fga.reliable && Runnable(old(fga.stores), OnExpression(world, expression, user, grant)) ==> ok
    {
      var parsed := ParseAllowExpression(expression);
      if parsed.Err? {
        return false, [];
      }
      var Target(workspacePath, relation) := parsed.value;
      if workspacePath == ORGS_WORKSPACE_PATH {
        ok, done := WriteForAllOrgs(relation, user, grant);
        return;
      }
      var ai := Lookup(world.workspaces, workspacePath, fga.reliable);
      if ai.None? {
        return false, [];
      }
      ok, done := WriteForAccount(ai.value, relation, user, grant);
    }

    method DeleteRemovedExpressions(policy: APIExportPolicy) returns (ok: bool, ghost done: seq<Op>)
      modifies fga`stores
      ensures policy.spec.clusterPath !in world.clusterIds ==> !ok && done == [] && fga.stores == old(fga.stores)
      ensures policy.spec.clusterPath in world.clusterIds ==>
                var user := ExportUser(world.clusterIds[policy.spec.clusterPath], policy.spec.exportName);
                var plans := OnRemoved(world, policy.managedAllowExpressions, policy.spec.allow, user);
                && Carried(old(fga.stores), Chain(plans), done, fga.stores, ok)
                && (fga.reliable && Runnable(old(fga.stores), Chain(plans)) ==> ok)
    {
      done := [];
      var providerClusterID := Lookup(world.clusterIds, policy.spec.clusterPath, fga.reliable);
      if providerClusterID.None? {
        return false, done;
      }
      var user := ExportUser(providerClusterID.value, policy.spec.exportName);
      var managed, allow := policy.managedAllowExpressions, policy.spec.allow;
      ghost var plans := OnRemoved(world, managed, allow, user);
      for i := 0 to |managed|
        invariant Chain(plans[..i]) == Plan(done, true)
        invariant Carried(old(fga.stores), Plan(done, true), done, fga.stores, true)
      {
        if managed[i] !in allow {
          ghost var before := fga.stores;
          ghost var next;
          ok, next := WriteForExpression(managed[i], user, false);
          OneRound(old(fga.stores), plans, i, done, before, next, fga.stores, ok, fga.reliable);
          done := done + next;
          if !ok {
            return;
          }
        } else {
          IdleRound(old(fga.stores), plans, i, done, fga.stores);
        }
      }
      assert plans[..|plans|] == plans;
      ok := true;
    }

    method WriteForExpressions(expressions: seq<string>, user: string, grant: bool)
      returns (ok: bool, ghost done: seq<Op>)
      modifies fga`stores
      ensures Carried(old(fga.stores), Chain(OnExpressions(world, expressions, user, grant)), done, fga.stores, ok)
      ensures fga.reliable && Runnable(old(fga.stores), Chain(OnExpressions(world, expressions, user, grant))) ==> ok
    {
      ghost var plans := OnExpressions(world, expressions, user, grant);
      done := [];
      for i := 0 to |expressions|
        invariant Chain(plans[..i]) == Plan(done, true)
        invariant Carried(old(fga.stores), Plan(done, true), done, fga.stores, true)
      {
        ghost var before := fga.stores;
        ghost var next;
        ok, next := WriteForExpression(expressions[i], user, grant);
        OneRound(old(fga.stores), plans, i, done, before, next, fga.stores, ok, fga.reliable);
        done := done + next;
        if !ok {
          return;
        }
      }
      assert plans[..|plans|] == plans;
      ok := true;
    }

    method Process(policy: APIExportPolicy) returns (ok: bool, ghost done: seq<Op>)
      modifies fga`stores, policy`managedAllowExpressions
      ensures Carried(old(fga.stores), ProcessPlan(world, policy.spec, old(policy.managedAllowExpressions)), done,
              fga.stores, ok)
      ensures policy.managedAllowExpressions == if ok then policy.spec.allow else old(policy.managedAllowExpressions)
      ensures ok ==>
                Granted(world, policy.spec, old(policy.managedAllowExpressions), old(fga.stores), fga.stores)
      ensures fga.reliable ==>
                (ok <==> CanProcess(world, policy.spec, old(policy.managedAllowExpressions), old(fga.stores)))
    {
      done := [];
      var spec := policy.spec;
      ghost var managed, start := policy.managedAllowExpressions, fga.stores;
      ProcessRunnableIff(world, spec, managed, start);
      var providerClusterID := Lookup(world.clusterIds, spec.clusterPath, fga.reliable);
      if providerClusterID.None? {
        return false, done;
      }
      var user := ExportUser(providerClusterID.value, spec.exportName);
      ghost var removals := Chain(OnRemoved(world, policy.managedAllowExpressions, spec.allow, user));
      RunnableThen(fga.stores, removals, Chain(OnExpressions(world, spec.allow, user, true)));
      ok, done := DeleteRemovedExpressions(policy);
      if !ok {
        return;
      }
      ghost var removed, before := done, fga.stores;
      ghost var next;
      ok, next := WriteForExpressions(spec.allow, user, true);
      CarryOn(old(fga.stores), removed, before, Chain(OnExpressions(world, spec.allow, user, true)), next, fga.stores,
        ok);
      done := removed + next;
      if !ok {
        return;
      }
      var patched: bool := *;
      if !(fga.reliable || patched) {
        return false, done;
      }
      policy.managedAllowExpressions := spec.allow;
      ProcessMeans(world, spec, managed, start, fga.stores);
    }

    method Finalize(policy: APIExportPolicy) returns (ok: bool, ghost done: seq<Op>)
      modifies fga`stores
      ensures Carried(old(fga.stores), FinalizePlan(world, policy.spec), done, fga.stores, ok)
      ensures ok ==> Revoked(world, policy.spec, old(fga.stores), fga.stores)
      ensures fga.reliable ==> (ok <==> CanFinalize(world, policy.spec, old(fga.stores)))
    {
      done := [];
      var spec := policy.spec;
      FinalizeRunnableIff(world, spec, fga.stores);
      var providerClusterID := Lookup(world.clusterIds, spec.clusterPath, fga.reliable);
      if providerClusterID.None? {
        return false, done;
      }
      var user := ExportUser(providerClusterID.value, spec.exportName);
      ok, done := WriteForExpressions(spec.allow, user, false);
      if ok {
        FinalizeMeans(world, spec, old(fga.stores), fga.stores);
      }
    }
  }
}
