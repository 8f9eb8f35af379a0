/** Allow expressions of an APIExportPolicy: which workspaces they name and with which relation. */
module Expressions {
  import opened Strings
  import opened Wrappers

  const ORGS_WORKSPACE_PATH := "root:orgs"
  const BIND := "bind"
  const BIND_INHERITED := "bind_inherited"
  const WILDCARD := ":*"

  datatype Target = Target(path: string, relation: string)

  function ParseAllowExpression(expression: string): Result<Target> {
    var expr := TrimPrefix(expression, ":");
    if !HasPrefix(expr, "root:orgs:") then Err
    else if HasSuffix(expr, WILDCARD) then Ok(Target(TrimSuffix(expr, WILDCARD), BIND_INHERITED))
    else Ok(Target(expr, BIND))
  }

  function Print(target: Target): string {
    target.path + (if target.relation == BIND_INHERITED then WILDCARD else "")
  }

  predicate IsAllOrgs(expression: string) {
    ParseAllowExpression(expression).Ok? && ParseAllowExpression(expression).value.path == ORGS_WORKSPACE_PATH
  }

  /** Printing a parsed expression and parsing it again changes nothing, and printing gives back the
      expression without its one optional leading colon. */
  lemma ParsePrintRoundTrip(expression: string)
    requires ParseAllowExpression(expression).Ok?
    ensures var target := ParseAllowExpression(expression).value;
            && Print(target) == TrimPrefix(expression, ":")
            && ParseAllowExpression(Print(target)) == Ok(target)
  {
    var expr := TrimPrefix(expression, ":");
    var target := ParseAllowExpression(expression).value;
    assert expr[0] == 'r';
    if HasSuffix(expr, WILDCARD) {
      assert expr == expr[..|expr| - 2] + expr[|expr| - 2..];
    }
    assert Print(target) == expr;
    assert TrimPrefix(expr, ":") == expr;
  }

  /** The other way round: every target below `root:orgs:` is what its printed form parses to, as
      long as a path for the plain relation does not itself end in the wildcard. */
  lemma PrintParseRoundTrip(target: Target)
    requires HasPrefix(target.path, "root:orgs:")
    requires target.relation == BIND_INHERITED || (target.relation == BIND && !HasSuffix(target.path, WILDCARD))
    ensures ParseAllowExpression(Print(target)) == Ok(target)
  {
    var printed := Print(target);
    assert printed[0] == target.path[0] == "root:orgs:"[0];
    assert TrimPrefix(printed, ":") == printed;
    if target.relation == BIND_INHERITED {
      assert printed == target.path + WILDCARD;
    } else {
      assert printed == target.path;
    }
  }

  /** Valid expressions mean the same exactly when they differ by at most one leading colon. */
  lemma SameTargetIff(e1: string, e2: string)
    requires ParseAllowExpression(e1).Ok? && ParseAllowExpression(e2).Ok?
    ensures ParseAllowExpression(e1) == ParseAllowExpression(e2) <==> TrimPrefix(e1, ":") == TrimPrefix(e2, ":")
  {
    ParsePrintRoundTrip(e1);
    ParsePrintRoundTrip(e2);
  }

  /** The all-organizations branch is taken for exactly one expression, up to the leading colon, and
      always with the inherited relation. */
  lemma AllOrgsIff(expression: string)
    ensures IsAllOrgs(expression) <==> TrimPrefix(expression, ":") == "root:orgs:*"
    ensures IsAllOrgs(expression) ==> ParseAllowExpression(expression).value.relation == BIND_INHERITED
  {
    var expr := TrimPrefix(expression, ":");
    if IsAllOrgs(expression) {
      ParsePrintRoundTrip(expression);
      assert Print(Target(ORGS_WORKSPACE_PATH, BIND)) == ORGS_WORKSPACE_PATH;
      assert |ORGS_WORKSPACE_PATH| < |"root:orgs:"|;
    }
    if expr == "root:orgs:*" {
      assert HasPrefix(expr, "root:orgs:");
      assert expr[9..] == WILDCARD;
      assert expr[..9] == ORGS_WORKSPACE_PATH;
    }
  }

  datatype PolicyRef = PolicyRef(cluster: string, name: string)

  datatype ListedPolicy = ListedPolicy(ref: PolicyRef, allowPathExpressions: seq<string>)

  predicate CoversNewOrgs(policy: ListedPolicy) {
    exists e :: e in policy.allowPathExpressions && IsAllOrgs(e)
  }

  function Enqueued(policies: seq<ListedPolicy>): seq<PolicyRef> {
    if policies == [] then []
    else
      var last := policies[|policies| - 1];
      Enqueued(policies[..|policies| - 1]) + (if CoversNewOrgs(last) then [last.ref] else [])
  }

  /** The policies enqueued when a new organization becomes ready are, in listing order and each
      once, those for which Process takes the all-organizations branch; if they cannot be listed,
      there are none. */
  method EnqueueAllAPIExportPolicies(listed: Option<seq<ListedPolicy>>) returns (requests: seq<PolicyRef>)
    ensures requests == if listed.Some? then Enqueued(listed.value) else []
  {
    requests := [];
    if listed.None? {
      return;
    }
    var policies := listed.value;
    for i := 0 to |policies|
      invariant requests == Enqueued(policies[..i])
    {
      assert policies[..i + 1][..i] == policies[..i];
      var expressions := policies[i].allowPathExpressions;
      var j := 0;
      while j < |expressions|
        invariant 0 <= j <= |expressions|
        invariant requests == Enqueued(policies[..i])
        invariant forall k :: 0 <= k < j ==> !IsAllOrgs(expressions[k])
      {
        AllOrgsIff(expressions[j]);
        if TrimPrefix(expressions[j], ":") == "root:orgs:*" {
          requests := requests + [policies[i].ref];
          break;
        }
        j := j + 1;
      }
      assert j < |expressions| ==> expressions[j] in expressions && CoversNewOrgs(policies[i]);
    }
    assert policies[..|policies|] == policies;
  }

  /** The enqueued policies are exactly those covering new organizations. */
  lemma {:induction false} EnqueuedExactly(policies: seq<ListedPolicy>, ref: PolicyRef)
    ensures ref in Enqueued(policies) <==> exists p :: p in policies && p.ref == ref && CoversNewOrgs(p)
  {
    if policies != [] {
      var front, last := policies[..|policies| - 1], policies[|policies| - 1];
      EnqueuedExactly(front, ref);
      assert policies == front + [last];
    }
  }

  /** A listing without duplicates enqueues no policy twice. */
  lemma {:induction false} EnqueuedOnce(policies: seq<ListedPolicy>)
    requires forall i, j :: 0 <= i < j < |policies| ==> policies[i].ref != policies[j].ref
    ensures forall i, j :: 0 <= i < j < |Enqueued(policies)| ==> Enqueued(policies)[i] != Enqueued(policies)[j]
  {
    if policies != [] {
      var front, last := policies[..|policies| - 1], policies[|policies| - 1];
      EnqueuedOnce(front);
      EnqueuedExactly(front, last.ref);
      assert last.ref !in Enqueued(front);
    }
  }
}
