/** Relationship tuples, the strings they are rendered from, and why different accounts never
    share a rendered entity or role. */
module Tuples {
  import opened Strings
  import opened Wrappers

  datatype Tuple = Tuple(object_: string, relation: string, user: string)

  const ASSIGNEE := "#assignee"

  datatype Account = Account(objectType: string, originClusterId: string, name: string)

  function RenderAccountEntity(a: Account): string {
    a.objectType + ":" + a.originClusterId + "/" + a.name
  }

  /** User strings cannot hold colons, so they are stored as dots. */
  function RenderCreatorUser(creator: string): string {
    "user:" + ReplaceAll(creator, ':', '.')
  }

  function RenderRolePrefix(a: Account): string {
    "role:" + a.objectType + "/" + a.originClusterId + "/" + a.name + "/"
  }

  function RenderOwnerRole(a: Account): string {
    RenderRolePrefix(a) + "owner"
  }

  function RenderOwnerRoleAssigneeGroup(a: Account): string {
    RenderRolePrefix(a) + "owner" + ASSIGNEE
  }

  lemma OwnerTexts(a: Account)
    ensures RenderOwnerRole(a) == "role:" + a.objectType + "/" + a.originClusterId + "/" + a.name + "/owner"
    ensures RenderOwnerRoleAssigneeGroup(a) ==
            "role:" + a.objectType + "/" + a.originClusterId + "/" + a.name + "/owner#assignee"
  {
    var prefix := "role:" + a.objectType + "/" + a.originClusterId + "/" + a.name;
    assert prefix + "/" + "owner" == prefix + "/owner";
    assert prefix + "/" + "owner" + "#assignee" == prefix + "/owner#assignee";
  }

  /** The creator is assigned the owner role, and the role's assignees own the account. */
  function BaseTuples(creator: string, creatorRelation: string, a: Account): Result<seq<Tuple>> {
    if creator == "" then Err
    else Ok([
              Tuple(RenderOwnerRole(a), "assignee", RenderCreatorUser(creator)),
              Tuple(RenderAccountEntity(a), creatorRelation, RenderOwnerRoleAssigneeGroup(a))
            ])
  }

  function TuplesForOrganization(creator: string, creatorRelation: string, a: Account): Result<seq<Tuple>> {
    BaseTuples(creator, creatorRelation, a)
  }

  function InitialTuplesForAccount(
    creator: string, creatorRelation: string, a: Account, parent: Account, parentRelation: string): Result<seq<Tuple>>
  {
    var base := BaseTuples(creator, creatorRelation, a);
    if base.Err? then Err
    else Ok(base.value + [Tuple(RenderAccountEntity(a), parentRelation, RenderAccountEntity(parent))])
  }

  /** Object types, cluster IDs and names that hold none of the separators, with a type other than
      the one reserved for roles. Kubernetes names and kcp cluster IDs satisfy this. */
  predicate SeparatorFree(a: Account) {
    && (forall c :: c in {':', '/', '#'} ==> c !in a.objectType && c !in a.originClusterId && c !in a.name)
    && a.objectType != "role"
  }

  lemma EntityInjective(a: Account, b: Account)
    requires SeparatorFree(a) && SeparatorFree(b)
    ensures RenderAccountEntity(a) == RenderAccountEntity(b) <==> a == b
  {
    if RenderAccountEntity(a) == RenderAccountEntity(b) {
      var restA, restB := a.originClusterId + ['/'] + a.name, b.originClusterId + ['/'] + b.name;
      assert RenderAccountEntity(a) == a.objectType + [':'] + restA;
      assert RenderAccountEntity(b) == b.objectType + [':'] + restB;
      SeparatorSplitsUniquely(a.objectType, b.objectType, ':', restA, restB);
      SeparatorSplitsUniquely(a.originClusterId, b.originClusterId, '/', a.name, b.name);
    }
  }

  /** An entity is never a role: its type comes first and is not `role`. */
  lemma EntityIsNotARole(a: Account, s: string)
    requires SeparatorFree(a)
    requires HasPrefix(s, "role:")
    ensures RenderAccountEntity(a) != s
  {
    if RenderAccountEntity(a) == s {
      var rest := a.originClusterId + "/" + a.name;
      assert RenderAccountEntity(a) == a.objectType + [':'] + rest;
      assert s == "role" + [':'] + s[5..];
      SeparatorSplitsUniquely(a.objectType, "role", ':', rest, s[5..]);
    }
  }

  /** The trailing slash makes the role prefix identify its account: no string starts with the
      prefixes of two accounts. */
  lemma RolePrefixInjective(a: Account, b: Account, s: string)
    requires SeparatorFree(a) && SeparatorFree(b)
    requires HasPrefix(s, RenderRolePrefix(a)) && HasPrefix(s, RenderRolePrefix(b))
    ensures a == b
  {
    var ta, tb := s[|RenderRolePrefix(a)|..], s[|RenderRolePrefix(b)|..];
    var a1, b1 := a.name + ['/'] + ta, b.name + ['/'] + tb;
    var a2, b2 := a.originClusterId + ['/'] + a1, b.originClusterId + ['/'] + b1;
    var a3, b3 := a.objectType + ['/'] + a2, b.objectType + ['/'] + b2;
    RolePrefixParts(a, s);
    RolePrefixParts(b, s);
    SeparatorSplitsUniquely(a.objectType, b.objectType, '/', a2, b2);
    SeparatorSplitsUniquely(a.originClusterId, b.originClusterId, '/', a1, b1);
    SeparatorSplitsUniquely(a.name, b.name, '/', ta, tb);
  }

  lemma RolePrefixParts(a: Account, s: string)
    requires HasPrefix(s, RenderRolePrefix(a))
    ensures var t := s[|RenderRolePrefix(a)|..];
            s[5..] == a.objectType + ['/'] + (a.originClusterId + ['/'] + (a.name + ['/'] + t))
  {
    var t := s[|RenderRolePrefix(a)|..];
    assert s == RenderRolePrefix(a) + t;
    var rest := a.objectType + ['/'] + (a.originClusterId + ['/'] + (a.name + ['/'] + t));
    assert s == "role:" + rest;
  }

  /** Stripping the group suffix from the owner group gives back the owner role. */
  lemma OwnerGroupNamesOwnerRole(a: Account)
    ensures TrimSuffix(RenderOwnerRoleAssigneeGroup(a), ASSIGNEE) == RenderOwnerRole(a)
    ensures HasPrefix(RenderOwnerRoleAssigneeGroup(a), RenderRolePrefix(a))
  {
    var g := RenderOwnerRoleAssigneeGroup(a);
    assert g == RenderOwnerRole(a) + ASSIGNEE;
  }

  /** Stripping the group suffix never eats into the role prefix. */
  lemma TrimKeepsRolePrefix(a: Account, user: string)
    requires HasPrefix(user, RenderRolePrefix(a))
    ensures HasPrefix(TrimSuffix(user, ASSIGNEE), RenderRolePrefix(a))
  {
    var slash := |RenderRolePrefix(a)| - 1;
    assert user[slash] == RenderRolePrefix(a)[slash] == '/';
    if HasSuffix(user, ASSIGNEE) {
      var cut := |user| - |ASSIGNEE|;
      assert forall k :: cut <= k < |user| ==> user[k] == user[cut..][k - cut];
      assert slash < cut;
      assert user[..cut][..slash + 1] == user[..slash + 1];
    }
  }
}
