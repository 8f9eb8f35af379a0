/** What a policy's expressions mean, in so many words: which accounts, which relation, which tuples. */
module PolicyMeaning {
  import opened Strings
  import opened Tuples
  import opened Expressions
  import opened Plans
  import opened PolicyPlans
  import opened PolicyTheorems
  import opened Wrappers

  /** The expression is the path, up to one leading colon. */
  predicate Plain(e: string, p: string) {
    (e == p || e == ":" + p) && HasPrefix(p, "root:orgs:") && !HasSuffix(p, ":*")
  }

  /** The expression is the path followed by the wildcard, up to one leading colon. */
  predicate Wildcard(e: string, p: string) {
    (e == p + ":*" || e == ":" + p + ":*") && (p == "root:orgs" || HasPrefix(p, "root:orgs:"))
  }

  /** A path stands for the account of its workspace, with the relation bind, and with bind_inherited
      if followed by the wildcard. All organizations are the accounts of that type when granting, and
      every account info when revoking. */
  ghost predicate Allows(w: World, e: string, relation: string, ai: AccountInfo, granting: bool) {
    || (relation == "bind" && exists p :: Plain(e, p) && p in w.workspaces && w.workspaces[p] == ai)
    || (relation == "bind_inherited" && exists p ::
          Wildcard(e, p) && p != "root:orgs" && p in w.workspaces && w.workspaces[p] == ai)
    || (relation == "bind_inherited" && Wildcard(e, "root:orgs")
        && ai in w.accountInfos && (granting ==> ai.accountType.OrgAccount?))
  }

  lemma PlainParses(e: string, p: string)
    requires Plain(e, p)
    ensures ParseAllowExpression(e) == Ok(Target(p, "bind"))
  {
    assert p[0] == 'r';
    assert TrimPrefix(e, ":") == p by {
      if e != p {
        assert e[1..] == p;
      }
    }
  }

  lemma WildcardParses(e: string, p: string)
    requires Wildcard(e, p)
    ensures ParseAllowExpression(e) == Ok(Target(p, "bind_inherited"))
  {
    var expr := p + ":*";
    assert expr[0] == 'r';
    assert TrimPrefix(e, ":") == expr by {
      if e != expr {
        assert e == ":" + expr && e[1..] == expr;
      }
    }
    assert HasPrefix(expr, "root:orgs:") by {
      if p == "root:orgs" {
        assert expr[..10] == "root:orgs:";
      } else {
        assert expr[..10] == p[..10];
      }
    }
    assert expr[|expr| - 2..] == ":*" && expr[..|expr| - 2] == p;
  }

  lemma ParsedIsWritten(e: string)
    requires ParseAllowExpression(e).Ok?
    ensures var Target(p, relation) := ParseAllowExpression(e).value;
            (relation == "bind" && Plain(e, p)) || (relation == "bind_inherited" && Wildcard(e, p))
  {
    var expr := TrimPrefix(e, ":");
    var Target(p, relation) := ParseAllowExpression(e).value;
    assert e == expr || e == ":" + expr;
    if HasSuffix(expr, ":*") {
      assert expr == p + ":*";
      assert expr[|expr| - 1] == '*' && expr[..10] == "root:orgs:";
      if |p| >= 10 {
        assert p[..10] == expr[..10];
      } else {
        assert |p| + 2 > 10;
        assert p == expr[..9];
      }
    }
  }

  lemma AllowsIff(w: World, e: string, relation: string, ai: AccountInfo, granting: bool)
    ensures Allows(w, e, relation, ai, granting) <==>
            Names(w, e, ai, granting) && relation == ParseAllowExpression(e).value.relation
  {
    if Allows(w, e, relation, ai, granting) {
      if p :| Plain(e, p) && p in w.workspaces && w.workspaces[p] == ai && relation == "bind" {
        PlainParses(e, p);
        assert |p| > 9;
      } else if p :| Wildcard(e, p) && p != "root:orgs" && p in w.workspaces && w.workspaces[p] == ai {
        WildcardParses(e, p);
      } else {
        WildcardParses(e, "root:orgs");
      }
    }
    if Names(w, e, ai, granting) {
      ParsedIsWritten(e);
    }
  }

  function Listed(es: seq<string>): set<string> {
    set e | e in es
  }

  /** The expressions that left the spec. */
  function Gone(managed: seq<string>, allow: seq<string>): set<string> {
    set e | e in managed && e !in allow
  }

  /** Some of the expressions allows an account, whose tuple it is, in the store of its organization. */
  ghost predicate Written(
    w: World, es: set<string>, clusterId: string, exportName: string, granting: bool, s: string, t: Tuple) {
    exists e, relation, ai ::
      && e in es && Allows(w, e, relation, ai, granting)
      && ai.organization in w.storeIds && w.storeIds[ai.organization] == s
      && t == Tuple("core_platform-mesh_io_account:" + ai.originClusterId + "/" + ai.name, relation,
                "apis_kcp_io_apiexport:" + clusterId + "/" + exportName)
  }

  lemma IsWritten(
    w: World, es: set<string>, clusterId: string, exportName: string, granting: bool, e: string, relation: string,
    ai: AccountInfo)
    requires e in es && Allows(w, e, relation, ai, granting) && ai.organization in w.storeIds
    ensures Written(w, es, clusterId, exportName, granting, w.storeIds[ai.organization],
              Tuple("core_platform-mesh_io_account:" + ai.originClusterId + "/" + ai.name, relation,
                "apis_kcp_io_apiexport:" + clusterId + "/" + exportName))
  {
  }

  lemma BindText(ai: AccountInfo, relation: string, clusterId: string, exportName: string)
    ensures BindTuple(ai, relation, ExportUser(clusterId, exportName)) ==
            Tuple("core_platform-mesh_io_account:" + ai.originClusterId + "/" + ai.name, relation,
              "apis_kcp_io_apiexport:" + clusterId + "/" + exportName)
  {
  }

  lemma WrittenConcerns(
    w: World, es: seq<string>, clusterId: string, exportName: string, granting: bool, s: string, t: Tuple)
    requires Written(w, Listed(es), clusterId, exportName, granting, s, t)
    ensures AnyConcerns(w, es, ExportUser(clusterId, exportName), granting, s, t)
  {
    var e, relation, ai :| e in Listed(es) && Allows(w, e, relation, ai, granting)
      && ai.organization in w.storeIds && w.storeIds[ai.organization] == s
      && t == Tuple("core_platform-mesh_io_account:" + ai.originClusterId + "/" + ai.name, relation,
                "apis_kcp_io_apiexport:" + clusterId + "/" + exportName);
    AllowsIff(w, e, relation, ai, granting);
    BindText(ai, relation, clusterId, exportName);
    assert Concerns(w, e, ExportUser(clusterId, exportName), granting, s, t);
  }

  lemma WrittenIff(
    w: World, es: seq<string>, clusterId: string, exportName: string, granting: bool, s: string, t: Tuple)
    ensures Written(w, Listed(es), clusterId, exportName, granting, s, t) <==>
            AnyConcerns(w, es, ExportUser(clusterId, exportName), granting, s, t)
  {
    var user := ExportUser(clusterId, exportName);
    if Written(w, Listed(es), clusterId, exportName, granting, s, t) {
      WrittenConcerns(w, es, clusterId, exportName, granting, s, t);
    }
    if AnyConcerns(w, es, user, granting, s, t) {
      var e :| e in es && Concerns(w, e, user, granting, s, t);
      var ai :| Names(w, e, ai, granting) && ai.organization in w.storeIds && w.storeIds[ai.organization] == s
        && t == BindTuple(ai, ParseAllowExpression(e).value.relation, user);
      var relation := ParseAllowExpression(e).value.relation;
      AllowsIff(w, e, relation, ai, granting);
      BindText(ai, relation, clusterId, exportName);
      assert e in Listed(es);
    }
  }

  /** A tuple is in a store afterwards exactly if some expression of the spec allows it, or it was there
      and no expression that was managed and left the spec did. */
  ghost predicate Granted(w: World, spec: PolicySpec, managed: seq<string>, before: Stores, after: Stores) {
    && spec.clusterPath in w.clusterIds && after.Keys == before.Keys
    && var clusterId := w.clusterIds[spec.clusterPath];
       forall s, t :: s in before ==>
         (t in after[s] <==>
           || Written(w, Listed(spec.allow), clusterId, spec.exportName, true, s, t)
           || (t in before[s] && !Written(w, Gone(managed, spec.allow), clusterId, spec.exportName, false, s, t)))
  }

  /** Exactly the tuples that expressions of the spec name are gone. */
  ghost predicate Revoked(w: World, spec: PolicySpec, before: Stores, after: Stores) {
    && spec.clusterPath in w.clusterIds && after.Keys == before.Keys
    && var clusterId := w.clusterIds[spec.clusterPath];
       forall s, t :: s in before ==>
         (t in after[s] <==>
           t in before[s] && !Written(w, Listed(spec.allow), clusterId, spec.exportName, false, s, t))
  }

  lemma ProcessMeans(w: World, spec: PolicySpec, managed: seq<string>, before: Stores, after: Stores)
    requires ProcessedPolicy(w, spec, managed, before, after)
    ensures Granted(w, spec, managed, before, after)
  {
    assert after.Keys == before.Keys;
    var clusterId := w.clusterIds[spec.clusterPath];
    var removed := Removed(managed, spec.allow);
    forall e
      ensures e in removed <==> e in Gone(managed, spec.allow)
    {
      RemovedMembers(managed, spec.allow, e);
    }
    assert Listed(removed) == Gone(managed, spec.allow);
    forall s, t | s in before
      ensures t in after[s] <==>
              || Written(w, Listed(spec.allow), clusterId, spec.exportName, true, s, t)
              || (t in before[s] && !Written(w, Gone(managed, spec.allow), clusterId, spec.exportName, false, s, t))
    {
      ProcessIsExact(w, spec, managed, before, after, s, t);
      WrittenIff(w, spec.allow, clusterId, spec.exportName, true, s, t);
      WrittenIff(w, removed, clusterId, spec.exportName, false, s, t);
    }
  }

  lemma FinalizeMeans(w: World, spec: PolicySpec, before: Stores, after: Stores)
    requires FinalizedPolicy(w, spec, before, after)
    ensures Revoked(w, spec, before, after)
  {
    assert after.Keys == before.Keys;
    forall s, t | s in before
      ensures t in after[s] <==>
              t in before[s] && !Written(w, Listed(spec.allow), w.clusterIds[spec.clusterPath],
                                   spec.exportName, false, s, t)
    {
      FinalizeIsExact(w, spec, before, after, s, t);
      WrittenIff(w, spec.allow, w.clusterIds[spec.clusterPath], spec.exportName, false, s, t);
    }
  }

  /** Where the export had no tuple, a bind_inherited tuple appears only for a spec expression that ends
      in the wildcard. */
  lemma InheritedNeedsWildcard(
    w: World, spec: PolicySpec, managed: seq<string>, before: Stores, after: Stores, s: string, t: Tuple)
    requires ProcessedPolicy(w, spec, managed, before, after)
    requires s in before && t !in before[s] && s in after && t in after[s]
    ensures t.relation == "bind"
            || (t.relation == "bind_inherited" && exists e :: e in spec.allow && HasSuffix(e, ":*"))
  {
    ProcessMeans(w, spec, managed, before, after);
    var e, relation, ai :| e in spec.allow && Allows(w, e, relation, ai, true) && t.relation == relation;
    if relation != "bind" {
      if p :| Wildcard(e, p) {
        assert e[|e| - 2..] == ":*";
      }
    }
  }

  /** The expression is a path that has a workspace, with or without the wildcard, or all organizations;
      and every account it allows is in an organization whose store exists. */
  ghost predicate CanWrite(w: World, stores: Stores, e: string, granting: bool) {
    && (exists p :: (Plain(e, p) && p in w.workspaces) || (Wildcard(e, p) && (p == "root:orgs" || p in w.workspaces)))
    && (forall relation, ai :: Allows(w, e, relation, ai, granting) ==>
                                 ai.organization in w.storeIds && w.storeIds[ai.organization] in stores)
  }

  lemma {:induction false} ChainRunnableIff(before: Stores, ps: seq<Plan>)
    ensures Runnable(before, Chain(ps)) <==> forall i :: 0 <= i < |ps| ==> Runnable(before, ps[i])
  {
    if ps != [] {
      ChainRunnableIff(before, ps[..|ps| - 1]);
      RunnableThen(before, Chain(ps[..|ps| - 1]), ps[|ps| - 1]);
    }
  }

  lemma OnAccountRunnableIff(w: World, stores: Stores, ai: AccountInfo, relation: string, user: string, granting: bool)
    ensures Runnable(stores, OnAccount(w, ai, relation, user, granting)) <==>
            ai.organization in w.storeIds && w.storeIds[ai.organization] in stores
  {
    var plan := OnAccount(w, ai, relation, user, granting);
    if plan.complete {
      assert plan.ops[0].store == w.storeIds[ai.organization];
    }
  }

  lemma AllOrgsRunnableIff(w: World, stores: Stores, relation: string, user: string, granting: bool)
    ensures Runnable(stores, Chain(OnAllOrgs(w, relation, user, granting))) <==>
            forall ai :: ai in w.accountInfos && (granting ==> ai.accountType.OrgAccount?) ==>
              ai.organization in w.storeIds && w.storeIds[ai.organization] in stores
  {
    var plans := OnAllOrgs(w, relation, user, granting);
    ChainRunnableIff(stores, plans);
    forall i | 0 <= i < |plans|
      ensures Runnable(stores, plans[i]) <==>
              var ai := w.accountInfos[i];
              (granting ==> ai.accountType.OrgAccount?) ==>
                ai.organization in w.storeIds && w.storeIds[ai.organization] in stores
    {
      OnAccountRunnableIff(w, stores, w.accountInfos[i], relation, user, granting);
    }
  }

  lemma ExpressionRunnableIff(w: World, stores: Stores, e: string, user: string, granting: bool)
    ensures Runnable(stores, OnExpression(w, e, user, granting)) <==> CanWrite(w, stores, e, granting)
  {
    if ParseAllowExpression(e).Err? {
      forall p
        ensures !Plain(e, p) && !Wildcard(e, p)
      {
        if Plain(e, p) {
          PlainParses(e, p);
        } else if Wildcard(e, p) {
          WildcardParses(e, p);
        }
      }
    } else {
      ParsedRunnableIff(w, stores, e, user, granting);
    }
  }

  lemma ParsedRunnableIff(w: World, stores: Stores, e: string, user: string, granting: bool)
    requires ParseAllowExpression(e).Ok?
    ensures Runnable(stores, OnExpression(w, e, user, granting)) <==> CanWrite(w, stores, e, granting)
  {
    var Target(path, relation) := ParseAllowExpression(e).value;
    ParsedIsWritten(e);
    forall p
      ensures Plain(e, p) || Wildcard(e, p) ==> p == path
    {
      if Plain(e, p) {
        PlainParses(e, p);
      } else if Wildcard(e, p) {
        WildcardParses(e, p);
      }
    }
    forall r, ai
      ensures Allows(w, e, r, ai, granting) <==> Names(w, e, ai, granting) && r == relation
    {
      AllowsIff(w, e, r, ai, granting);
    }
    if path == ORGS_WORKSPACE_PATH {
      AllOrgsRunnableIff(w, stores, relation, user, granting);
      AllOrgsCanWriteIff(w, stores, e, relation, granting);
    } else if path in w.workspaces {
      OnAccountRunnableIff(w, stores, w.workspaces[path], relation, user, granting);
      assert Allows(w, e, relation, w.workspaces[path], granting);
    }
  }

  lemma AllOrgsCanWriteIff(w: World, stores: Stores, e: string, relation: string, granting: bool)
    requires ParseAllowExpression(e) == Ok(Target(ORGS_WORKSPACE_PATH, relation))
    ensures CanWrite(w, stores, e, granting) <==>
            forall ai :: ai in w.accountInfos && (granting ==> ai.accountType.OrgAccount?) ==>
              ai.organization in w.storeIds && w.storeIds[ai.organization] in stores
  {
    ParsedIsWritten(e);
    assert |ORGS_WORKSPACE_PATH| < |"root:orgs:"|;
    assert Wildcard(e, ORGS_WORKSPACE_PATH);
    forall r, ai
      ensures Allows(w, e, r, ai, granting) <==>
              r == relation && ai in w.accountInfos && (granting ==> ai.accountType.OrgAccount?)
    {
      AllowsIff(w, e, r, ai, granting);
    }
    if CanWrite(w, stores, e, granting) {
      forall ai | ai in w.accountInfos && (granting ==> ai.accountType.OrgAccount?)
        ensures ai.organization in w.storeIds && w.storeIds[ai.organization] in stores
      {
        assert Allows(w, e, relation, ai, granting);
      }
    }
  }

  /** What a reconciliation of a policy needs in order to succeed. */
  ghost predicate CanProcess(w: World, spec: PolicySpec, managed: seq<string>, stores: Stores) {
    && spec.clusterPath in w.clusterIds
    && (forall e :: e in Gone(managed, spec.allow) ==> CanWrite(w, stores, e, false))
    && (forall e :: e in spec.allow ==> CanWrite(w, stores, e, true))
  }

  ghost predicate CanFinalize(w: World, spec: PolicySpec, stores: Stores) {
    spec.clusterPath in w.clusterIds && forall e :: e in spec.allow ==> CanWrite(w, stores, e, false)
  }

  lemma ExpressionsRunnableIff(w: World, stores: Stores, es: seq<string>, user: string, granting: bool)
    ensures Runnable(stores, Chain(OnExpressions(w, es, user, granting))) <==>
            forall e :: e in es ==> CanWrite(w, stores, e, granting)
  {
    var plans := OnExpressions(w, es, user, granting);
    ChainRunnableIff(stores, plans);
    forall i | 0 <= i < |es|
      ensures Runnable(stores, plans[i]) <==> CanWrite(w, stores, es[i], granting)
    {
      ExpressionRunnableIff(w, stores, es[i], user, granting);
    }
    if forall i :: 0 <= i < |es| ==> Runnable(stores, plans[i]) {
      forall e | e in es
        ensures CanWrite(w, stores, e, granting)
      {
        var i :| 0 <= i < |es| && es[i] == e;
        assert Runnable(stores, plans[i]);
      }
    }
  }

  lemma ProcessRunnableIff(w: World, spec: PolicySpec, managed: seq<string>, stores: Stores)
    ensures Runnable(stores, ProcessPlan(w, spec, managed)) <==> CanProcess(w, spec, managed, stores)
  {
    if spec.clusterPath in w.clusterIds {
      var user := ExportUser(w.clusterIds[spec.clusterPath], spec.exportName);
      var removed := Removed(managed, spec.allow);
      RemovedPlan(w, managed, spec.allow, user);
      RunnableThen(stores, Chain(OnExpressions(w, removed, user, false)),
        Chain(OnExpressions(w, spec.allow, user, true)));
      ExpressionsRunnableIff(w, stores, removed, user, false);
      ExpressionsRunnableIff(w, stores, spec.allow, user, true);
      forall e
        ensures e in removed <==> e in Gone(managed, spec.allow)
      {
        RemovedMembers(managed, spec.allow, e);
      }
    }
  }

  lemma FinalizeRunnableIff(w: World, spec: PolicySpec, stores: Stores)
    ensures Runnable(stores, FinalizePlan(w, spec)) <==> CanFinalize(w, spec, stores)
  {
    if spec.clusterPath in w.clusterIds {
      ExpressionsRunnableIff(w, stores, spec.allow, ExportUser(w.clusterIds[spec.clusterPath], spec.exportName), false);
    }
  }

  /** Whatever an expression of the spec allows is granted, in a store that exists. */
  lemma AllowedIsGranted(
    w: World, spec: PolicySpec, managed: seq<string>, before: Stores, after: Stores, e: string, relation: string,
    ai: AccountInfo)
    requires ProcessedPolicy(w, spec, managed, before, after) && e in spec.allow && Allows(w, e, relation, ai, true)
    ensures spec.clusterPath in w.clusterIds
    ensures ai.organization in w.storeIds && w.storeIds[ai.organization] in after
    ensures Tuple("core_platform-mesh_io_account:" + ai.originClusterId + "/" + ai.name, relation,
              "apis_kcp_io_apiexport:" + w.clusterIds[spec.clusterPath] + "/" + spec.exportName)
            in after[w.storeIds[ai.organization]]
  {
    ProcessMeans(w, spec, managed, before, after);
    ProcessRunnableIff(w, spec, managed, before);
    assert CanWrite(w, before, e, true);
    IsWritten(w, Listed(spec.allow), w.clusterIds[spec.clusterPath], spec.exportName, true, e, relation, ai);
  }

  /** A success found the workspace of every path in the spec. */
  lemma PathIsKnown(
    w: World, spec: PolicySpec, managed: seq<string>, before: Stores, after: Stores, e: string, p: string)
    requires ProcessedPolicy(w, spec, managed, before, after) && e in spec.allow
    requires (Plain(e, p) || Wildcard(e, p)) && p != "root:orgs"
    ensures p in w.workspaces
  {
    ProcessRunnableIff(w, spec, managed, before);
    assert CanWrite(w, before, e, true);
    var q :| (Plain(e, q) && q in w.workspaces) || (Wildcard(e, q) && (q == "root:orgs" || q in w.workspaces));
    SamePath(e, p, q);
  }

  lemma SamePath(e: string, p: string, q: string)
    requires (Plain(e, p) || Wildcard(e, p)) && (Plain(e, q) || Wildcard(e, q))
    ensures p == q
  {
    if Plain(e, p) {
      PlainParses(e, p);
    } else {
      WildcardParses(e, p);
    }
    if Plain(e, q) {
      PlainParses(e, q);
    } else {
      WildcardParses(e, q);
    }
  }

  /** A path in the spec gives its account the relation bind. */
  lemma PathGrantsBind(
    w: World, spec: PolicySpec, managed: seq<string>, before: Stores, after: Stores, p: string)
    requires ProcessedPolicy(w, spec, managed, before, after)
    requires p in spec.allow && HasPrefix(p, "root:orgs:") && !HasSuffix(p, ":*")
    ensures spec.clusterPath in w.clusterIds && p in w.workspaces
    ensures var ai := w.workspaces[p];
            && ai.organization in w.storeIds && w.storeIds[ai.organization] in after
            && Tuple("core_platform-mesh_io_account:" + ai.originClusterId + "/" + ai.name, "bind",
                 "apis_kcp_io_apiexport:" + w.clusterIds[spec.clusterPath] + "/" + spec.exportName)
               in after[w.storeIds[ai.organization]]
  {
    assert |p| > |"root:orgs"|;
    PathIsKnown(w, spec, managed, before, after, p, p);
    AllowedIsGranted(w, spec, managed, before, after, p, "bind", w.workspaces[p]);
  }

  /** A path followed by the wildcard gives its account the relation bind_inherited. */
  lemma WildcardGrantsInherited(
    w: World, spec: PolicySpec, managed: seq<string>, before: Stores, after: Stores, p: string)
    requires ProcessedPolicy(w, spec, managed, before, after)
    requires p + ":*" in spec.allow && HasPrefix(p, "root:orgs:")
    ensures spec.clusterPath in w.clusterIds && p in w.workspaces
    ensures var ai := w.workspaces[p];
            && ai.organization in w.storeIds && w.storeIds[ai.organization] in after
            && Tuple("core_platform-mesh_io_account:" + ai.originClusterId + "/" + ai.name, "bind_inherited",
                 "apis_kcp_io_apiexport:" + w.clusterIds[spec.clusterPath] + "/" + spec.exportName)
               in after[w.storeIds[ai.organization]]
  {
    assert |p| > |"root:orgs"|;
    PathIsKnown(w, spec, managed, before, after, p + ":*", p);
    AllowedIsGranted(w, spec, managed, before, after, p + ":*", "bind_inherited", w.workspaces[p]);
  }

  lemma AllOrgsTexts(e: string)
    ensures e == "root:orgs:*" || e == ":root:orgs:*" <==> Wildcard(e, "root:orgs")
  {
    assert "root:orgs" + ":*" == "root:orgs:*" && ":" + "root:orgs" + ":*" == ":root:orgs:*";
  }

  /** All organizations means every account of type organization, with the relation bind_inherited. */
  lemma AllOrgsGrantsEveryOrg(
    w: World, spec: PolicySpec, managed: seq<string>, before: Stores, after: Stores, ai: AccountInfo)
    requires ProcessedPolicy(w, spec, managed, before, after)
    requires "root:orgs:*" in spec.allow || ":root:orgs:*" in spec.allow
    requires ai in w.accountInfos && ai.accountType.OrgAccount?
    ensures spec.clusterPath in w.clusterIds
    ensures ai.organization in w.storeIds && w.storeIds[ai.organization] in after
    ensures Tuple("core_platform-mesh_io_account:" + ai.originClusterId + "/" + ai.name, "bind_inherited",
              "apis_kcp_io_apiexport:" + w.clusterIds[spec.clusterPath] + "/" + spec.exportName)
            in after[w.storeIds[ai.organization]]
  {
    var e := if "root:orgs:*" in spec.allow then "root:orgs:*" else ":root:orgs:*";
    AllOrgsTexts(e);
    AllowedIsGranted(w, spec, managed, before, after, e, "bind_inherited", ai);
  }

  /** Whatever an expression of the spec names on revocation is gone after a successful Finalize. */
  lemma NamedIsRevoked(
    w: World, spec: PolicySpec, before: Stores, after: Stores, e: string, relation: string, ai: AccountInfo)
    requires FinalizedPolicy(w, spec, before, after) && e in spec.allow && Allows(w, e, relation, ai, false)
    ensures spec.clusterPath in w.clusterIds
    ensures ai.organization in w.storeIds && w.storeIds[ai.organization] in after
    ensures Tuple("core_platform-mesh_io_account:" + ai.originClusterId + "/" + ai.name, relation,
              "apis_kcp_io_apiexport:" + w.clusterIds[spec.clusterPath] + "/" + spec.exportName)
            !in after[w.storeIds[ai.organization]]
  {
    FinalizeMeans(w, spec, before, after);
    FinalizeRunnableIff(w, spec, before);
    assert CanWrite(w, before, e, false);
    IsWritten(w, Listed(spec.allow), w.clusterIds[spec.clusterPath], spec.exportName, false, e, relation, ai);
  }

  /** Finalizing all organizations takes bind_inherited from every account, of whatever type. */
  lemma AllOrgsRevokesEveryAccount(w: World, spec: PolicySpec, before: Stores, after: Stores, ai: AccountInfo)
    requires FinalizedPolicy(w, spec, before, after) && ai in w.accountInfos
    requires "root:orgs:*" in spec.allow || ":root:orgs:*" in spec.allow
    ensures spec.clusterPath in w.clusterIds
    ensures ai.organization in w.storeIds && w.storeIds[ai.organization] in after
    ensures Tuple("core_platform-mesh_io_account:" + ai.originClusterId + "/" + ai.name, "bind_inherited",
              "apis_kcp_io_apiexport:" + w.clusterIds[spec.clusterPath] + "/" + spec.exportName)
            !in after[w.storeIds[ai.organization]]
  {
    var e := if "root:orgs:*" in spec.allow then "root:orgs:*" else ":root:orgs:*";
    AllOrgsTexts(e);
    NamedIsRevoked(w, spec, before, after, e, "bind_inherited", ai);
  }
}
