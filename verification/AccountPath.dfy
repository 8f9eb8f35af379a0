/** Paths of accounts below `root:orgs` and the store name each of them stands for. */
module AccountPath {
  import opened Strings
  import opened Wrappers

  const ROOT_WORKSPACE := "root"
  const ORGS_WORKSPACE := "orgs"
  const SEPARATOR := ':'

  /** Which single path segments the path library accepts; its code is not part of this model. */
  type SegmentRule = string -> bool

  predicate ValidPath(value: string, accepts: SegmentRule) {
    forall part :: part in Split(value, SEPARATOR) ==> accepts(part)
  }

  predicate IsPlatformMeshAccountPath(value: string, accepts: SegmentRule) {
    var parts := Split(value, SEPARATOR);
    && ValidPath(value, accepts)
    && |parts| > 2
    && parts[0] == ROOT_WORKSPACE
    && parts[1] == ORGS_WORKSPACE
  }

  function NewAccountPath(value: string, accepts: SegmentRule): (r: Result<string>)
    ensures r.Ok? <==> IsPlatformMeshAccountPath(value, accepts)
    ensures r.Ok? ==> r.value == value
  {
    if IsPlatformMeshAccountPath(value, accepts) then Ok(value) else Err
  }

  /** The path annotation of a logical cluster may be missing. */
  function NewAccountPathFromLogicalCluster(annotation: Option<string>, accepts: SegmentRule): Result<string> {
    if annotation.None? then Err else NewAccountPath(annotation.value, accepts)
  }

  predicate IsOrg(path: string) {
    |Split(path, SEPARATOR)| == 3
  }

  /** The organization an account path belongs to. */
  function Org(path: string): string
    requires |Split(path, SEPARATOR)| >= 3
  {
    Join(Split(path, SEPARATOR)[..3], SEPARATOR)
  }

  /** The name the workspace initializer gives to the store of a logical cluster. */
  function GenerateStoreName(annotation: Option<string>): string {
    if annotation.None? then ""
    else
      var parts := Split(annotation.value, SEPARATOR);
      parts[|parts| - 1]
  }

  lemma OrgParts(path: string)
    requires |Split(path, SEPARATOR)| >= 3
    ensures Split(Org(path), SEPARATOR) == Split(path, SEPARATOR)[..3]
  {
    SplitJoin(Split(path, SEPARATOR)[..3], SEPARATOR);
  }

  /** The organization of a valid account path is itself a valid organization path, and taking the
      organization twice changes nothing. */
  lemma OrgIsAnOrgPath(path: string, accepts: SegmentRule)
    requires IsPlatformMeshAccountPath(path, accepts)
    ensures IsPlatformMeshAccountPath(Org(path), accepts)
    ensures IsOrg(Org(path))
    ensures Org(Org(path)) == Org(path)
    ensures IsOrg(path) <==> Org(path) == path
  {
    OrgParts(path);
    JoinSplit(path, SEPARATOR);
    var parts := Split(path, SEPARATOR);
    assert parts[..3][..3] == parts[..3];
    if |parts| == 3 {
      assert parts[..3] == parts;
    }
  }

  /** Below an organization, the parent of an account path is again an account path, of the same
      organization. */
  lemma ParentKeepsOrg(path: string, accepts: SegmentRule)
    requires IsPlatformMeshAccountPath(path, accepts)
    requires !IsOrg(path)
    ensures IsPlatformMeshAccountPath(Parent(path, SEPARATOR), accepts)
    ensures Org(Parent(path, SEPARATOR)) == Org(path)
  {
    var parts := Split(path, SEPARATOR);
    BaseAndParentOfSplit(path, SEPARATOR, parts);
    assert parts[..|parts| - 1][..3] == parts[..3];
  }

  /** The store name the account side looks up, `Org().Base()`, is the one the organization side
      creates for the organization's own cluster; and two account paths look up the same store
      exactly when they lie in the same organization. */
  lemma StoreNameAgreement(path: string, other: string, accepts: SegmentRule)
    requires IsPlatformMeshAccountPath(path, accepts)
    requires IsPlatformMeshAccountPath(other, accepts)
    ensures Base(Org(path), SEPARATOR) == GenerateStoreName(Some(Org(path)))
    ensures Base(Org(path), SEPARATOR) == Split(path, SEPARATOR)[2]
    ensures Base(Org(path), SEPARATOR) == Base(Org(other), SEPARATOR) <==> Org(path) == Org(other)
  {
    OrgBase(path);
    OrgBase(other);
    OrgOfThirdPart(path, accepts);
    OrgOfThirdPart(other, accepts);
  }

  /** The third part alone determines the organization path. */
  lemma OrgOfThirdPart(path: string, accepts: SegmentRule)
    requires IsPlatformMeshAccountPath(path, accepts)
    ensures Org(path) == Join([ROOT_WORKSPACE, ORGS_WORKSPACE, Split(path, SEPARATOR)[2]], SEPARATOR)
  {
    var parts := Split(path, SEPARATOR);
    assert parts[..3] == [ROOT_WORKSPACE, ORGS_WORKSPACE, parts[2]];
  }

  lemma OrgBase(path: string)
    requires |Split(path, SEPARATOR)| >= 3
    ensures Base(Org(path), SEPARATOR) == Split(path, SEPARATOR)[2]
    ensures GenerateStoreName(Some(Org(path))) == Split(path, SEPARATOR)[2]
  {
    OrgParts(path);
    BaseAndParentOfSplit(Org(path), SEPARATOR, Split(Org(path), SEPARATOR));
  }
}
