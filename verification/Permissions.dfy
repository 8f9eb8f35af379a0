/** What the generated authorization models allow, under OpenFGA's meaning of direct assignment, union
    and inheritance from a parent: the least relation closed under the definitions, over any set of
    tuples, cycles included. */
module Permissions {
  import opened Wrappers

  datatype Object = Object(kind: string, id: string)

  datatype Subject = User(id: string) | AnyUser | Userset(entity: Object, relation: string) | Entity(entity: Object)

  /** A relationship tuple with its names taken apart. */
  datatype Grant = Grant(entity: Object, relation: string, subject: Subject)

  datatype Restriction = Users | AnyUsers | Usersets(kind: string, relation: string) | Entities(kind: string)

  datatype Expr =
    | Direct(allowed: set<Restriction>)
    | Computed(relation: string)
    | From(relation: string, via: string)
    | Or(left: Expr, right: Expr)

  datatype Template = Ordinary | Privileged

  datatype Resource = Resource(name: string, group: string, singular: string, namespaced: bool)

  datatype Module = Module(template: Template, resource: Resource)

  /** A core module with any types of its own, and the rendered modules that extend it. */
  datatype Model = Model(core: map<string, map<string, Expr>>, modules: seq<Module>)

  const ACCOUNT := "core_platform-mesh_io_account"
  const NAMESPACE := "core_namespace"
  const ASSIGNEES := Direct({Usersets("role", "assignee")})

  function KindOf(r: Resource): string {
    r.group + "_" + r.singular
  }

  function ParentKind(r: Resource): string {
    if r.namespaced then NAMESPACE else ACCOUNT
  }

  /** The relations a template gives the resource's own type. */
  function OwnRelation(m: Module, relation: string): Option<Expr> {
    var forOwners := Computed(if m.template.Privileged? then "owner" else "member");
    if relation == "parent" then Some(Direct({Entities(ParentKind(m.resource))}))
    else if relation == "member" then Some(Or(Or(ASSIGNEES, Computed("owner")), From("member", "parent")))
    else if relation == "owner" then Some(Or(ASSIGNEES, From("owner", "parent")))
    else if relation in {"update", "delete", "patch"} then Some(forOwners)
    else if relation in {"bind", "escalate"} then if m.template.Privileged? then Some(Computed("owner")) else None
    else if relation in {"get", "watch", "get_iam_roles", "get_iam_users"} then Some(Computed("member"))
    else if relation == "manage_iam_roles" then Some(Computed("owner"))
    else None
  }

  /** The relations a template adds to the type of the parent. */
  function AddedRelation(r: Resource, relation: string): Option<Expr> {
    var suffix := r.group + "_" + r.name;
    if relation == "create_" + suffix then Some(Computed("owner"))
    else if relation in {"list_" + suffix, "watch_" + suffix} then Some(Computed("member"))
    else None
  }

  function Defines(m: Module, kind: string, relation: string): Option<Expr> {
    if kind == KindOf(m.resource) && OwnRelation(m, relation).Some? then OwnRelation(m, relation)
    else if kind == ParentKind(m.resource) then AddedRelation(m.resource, relation)
    else None
  }

  function Lookup(m: Model, kind: string, relation: string): Option<Expr>
    decreases |m.modules|
  {
    if m.modules == [] then
      if kind in m.core && relation in m.core[kind] then Some(m.core[kind][relation]) else None
    else
      var last := Defines(m.modules[|m.modules| - 1], kind, relation);
      if last.Some? then last else Lookup(m.(modules := m.modules[..|m.modules| - 1]), kind, relation)
  }

  function Front(m: Model): Model
    requires m.modules != []
  {
    m.(modules := m.modules[..|m.modules| - 1])
  }

  lemma LookupLast(m: Model, kind: string, r: string)
    requires m.modules != []
    ensures var last := Defines(m.modules[|m.modules| - 1], kind, r);
            Lookup(m, kind, r) == if last.Some? then last else Lookup(Front(m), kind, r)
  {
  }

  predicate Accepts(allowed: set<Restriction>, s: Subject) {
    match s
    case User(_) => Users in allowed
    case AnyUser => AnyUsers in allowed
    case Userset(o, r) => Usersets(o.kind, r) in allowed
    case Entity(o) => Entities(o.kind) in allowed
  }

  /** The parents are those the definition of the relation accepts. */
  predicate Leads(m: Model, o: Object, via: string, g: Grant) {
    && g.entity == o && g.relation == via && g.subject.Entity?
    && var e := Lookup(m, o.kind, via); e.Some? && e.value.Direct? && Accepts(e.value.allowed, g.subject)
  }

  /** The user has the relation by a derivation of at most the given depth. */
  ghost predicate Holds(m: Model, ts: set<Grant>, k: nat, u: string, o: Object, r: string)
    decreases k, 0
  {
    k > 0 && Lookup(m, o.kind, r).Some? && Evaluates(m, ts, k - 1, u, o, r, Lookup(m, o.kind, r).value)
  }

  ghost predicate Evaluates(m: Model, ts: set<Grant>, k: nat, u: string, o: Object, r: string, e: Expr)
    decreases k, 1, e
  {
    match e
    case Direct(allowed) =>
      exists g :: g in ts && g.entity == o && g.relation == r && Accepts(allowed, g.subject)
                  && (g.subject in {User(u), AnyUser}
                        || (g.subject.Userset? && Holds(m, ts, k, u, g.subject.entity, g.subject.relation)))
    case Computed(r') => Holds(m, ts, k, u, o, r')
    case From(r', via) => exists g :: g in ts && Leads(m, o, via, g) && Holds(m, ts, k, u, g.subject.entity, r')
    case Or(left, right) => Evaluates(m, ts, k, u, o, r, left) || Evaluates(m, ts, k, u, o, r, right)
  }

  ghost predicate Allowed(m: Model, ts: set<Grant>, u: string, o: Object, r: string) {
    exists k: nat :: Holds(m, ts, k, u, o, r)
  }

  /** What a definition says, given what the user has of other relations. */
  ghost predicate Says(
    m: Model, ts: set<Grant>, u: string, o: Object, r: string, e: Expr, has: (Object, string) -> bool) {
    match e
    case Direct(allowed) =>
      exists g :: g in ts && g.entity == o && g.relation == r && Accepts(allowed, g.subject)
                  && (g.subject in {User(u), AnyUser}
                        || (g.subject.Userset? && has(g.subject.entity, g.subject.relation)))
    case Computed(r') => has(o, r')
    case From(r', via) => exists g :: g in ts && Leads(m, o, via, g) && has(g.subject.entity, r')
    case Or(left, right) => Says(m, ts, u, o, r, left, has) || Says(m, ts, u, o, r, right, has)
  }

  ghost function AllowedTo(m: Model, ts: set<Grant>, u: string): (Object, string) -> bool {
    (o, r) => Allowed(m, ts, u, o, r)
  }

  ghost predicate Meaning(m: Model, ts: set<Grant>, u: string, o: Object, r: string, e: Expr) {
    Says(m, ts, u, o, r, e, AllowedTo(m, ts, u))
  }

  /** The relations are closed under the definitions. */
  ghost predicate Closed(m: Model, ts: set<Grant>, u: string, has: (Object, string) -> bool) {
    forall o: Object, r: string ::
      Lookup(m, o.kind, r).Some? && Says(m, ts, u, o, r, Lookup(m, o.kind, r).value, has) ==> has(o, r)
  }

  lemma {:induction false} EvaluatesSays(
    m: Model, ts: set<Grant>, k: nat, u: string, o: Object, r: string, e: Expr, has: (Object, string) -> bool)
    requires Closed(m, ts, u, has) && Evaluates(m, ts, k, u, o, r, e)
    ensures Says(m, ts, u, o, r, e, has)
    decreases k, 1, e
  {
    match e
    case Direct(allowed) =>
      var g :| g in ts && g.entity == o && g.relation == r && Accepts(allowed, g.subject)
               && (g.subject in {User(u), AnyUser}
                     || (g.subject.Userset? && Holds(m, ts, k, u, g.subject.entity, g.subject.relation)));
      if g.subject.Userset? {
        HoldsIn(m, ts, k, u, g.subject.entity, g.subject.relation, has);
      }
    case Computed(r') =>
      HoldsIn(m, ts, k, u, o, r', has);
    case From(r', via) =>
      var g :| g in ts && Leads(m, o, via, g) && Holds(m, ts, k, u, g.subject.entity, r');
      HoldsIn(m, ts, k, u, g.subject.entity, r', has);
    case Or(left, right) =>
      if Evaluates(m, ts, k, u, o, r, left) {
        EvaluatesSays(m, ts, k, u, o, r, left, has);
      } else {
        EvaluatesSays(m, ts, k, u, o, r, right, has);
      }
  }

  lemma {:induction false} HoldsIn(
    m: Model, ts: set<Grant>, k: nat, u: string, o: Object, r: string, has: (Object, string) -> bool)
    requires Closed(m, ts, u, has) && Holds(m, ts, k, u, o, r)
    ensures has(o, r)
    decreases k, 0
  {
    EvaluatesSays(m, ts, k - 1, u, o, r, Lookup(m, o.kind, r).value, has);
  }

  /** What is allowed is the least of the relations closed under the definitions. */
  lemma AllowedIsLeast(m: Model, ts: set<Grant>, u: string, has: (Object, string) -> bool)
    requires Closed(m, ts, u, has)
    ensures Closed(m, ts, u, AllowedTo(m, ts, u))
    ensures forall o, r :: Allowed(m, ts, u, o, r) ==> has(o, r)
  {
    forall o: Object, r: string
      ensures Lookup(m, o.kind, r).Some? && Meaning(m, ts, u, o, r, Lookup(m, o.kind, r).value) ==>
              Allowed(m, ts, u, o, r)
    {
      AllowedUnfolds(m, ts, u, o, r);
    }
    forall o, r | Allowed(m, ts, u, o, r)
      ensures has(o, r)
    {
      var k: nat :| Holds(m, ts, k, u, o, r);
      HoldsIn(m, ts, k, u, o, r, has);
    }
  }

  lemma {:induction false} EvaluatesMeans(m: Model, ts: set<Grant>, k: nat, u: string, o: Object, r: string, e: Expr)
    requires Evaluates(m, ts, k, u, o, r, e)
    ensures Meaning(m, ts, u, o, r, e)
  {
    if e.Or? {
      if Evaluates(m, ts, k, u, o, r, e.left) {
        EvaluatesMeans(m, ts, k, u, o, r, e.left);
      } else {
        EvaluatesMeans(m, ts, k, u, o, r, e.right);
      }
    }
  }

  lemma {:induction false} MeaningEvaluates(m: Model, ts: set<Grant>, u: string, o: Object, r: string, e: Expr)
    returns (k: nat)
    requires Meaning(m, ts, u, o, r, e)
    ensures Evaluates(m, ts, k, u, o, r, e)
  {
    match e
    case Direct(allowed) =>
      var g :| g in ts && g.entity == o && g.relation == r && Accepts(allowed, g.subject)
               && (g.subject in {User(u), AnyUser}
                     || (g.subject.Userset? && Allowed(m, ts, u, g.subject.entity, g.subject.relation)));
      if g.subject.Userset? {
        k :| Holds(m, ts, k, u, g.subject.entity, g.subject.relation);
      } else {
        k := 0;
      }
    case Computed(r') =>
      k :| Holds(m, ts, k, u, o, r');
    case From(r', via) =>
      var g :| g in ts && Leads(m, o, via, g) && Allowed(m, ts, u, g.subject.entity, r');
      k :| Holds(m, ts, k, u, g.subject.entity, r');
    case Or(left, right) =>
      if Meaning(m, ts, u, o, r, left) {
        k := MeaningEvaluates(m, ts, u, o, r, left);
      } else {
        k := MeaningEvaluates(m, ts, u, o, r, right);
      }
  }

  /** What is allowed is a fixpoint of the definitions. */
  lemma AllowedUnfolds(m: Model, ts: set<Grant>, u: string, o: Object, r: string)
    ensures Allowed(m, ts, u, o, r) <==>
            Lookup(m, o.kind, r).Some? && Meaning(m, ts, u, o, r, Lookup(m, o.kind, r).value)
  {
    var e := Lookup(m, o.kind, r);
    if Allowed(m, ts, u, o, r) {
      var k: nat :| Holds(m, ts, k, u, o, r);
      EvaluatesMeans(m, ts, k - 1, u, o, r, e.value);
    }
    if e.Some? && Meaning(m, ts, u, o, r, e.value) {
      var k := MeaningEvaluates(m, ts, u, o, r, e.value);
      assert Holds(m, ts, k + 1, u, o, r);
    }
  }

  /** The kind is one of those generated. */
  predicate Generates(m: Model, kind: string) {
    exists i :: 0 <= i < |m.modules| && KindOf(m.modules[i].resource) == kind
  }

  const WRITES := {"update", "delete", "patch", "bind", "escalate"}

  lemma AddedIsNoneOf(r: Resource, relation: string)
    requires relation in {"parent", "member", "owner"} + WRITES
    ensures AddedRelation(r, relation).None?
  {
    var suffix := r.group + "_" + r.name;
    assert ("create_" + suffix)[0] == 'c' && ("list_" + suffix)[0] == 'l' && ("watch_" + suffix)[0] == 'w';
    assert "parent"[0] == 'p' && "member"[0] == 'm' && "owner"[0] == 'o';
    assert "update"[0] == 'u' && "delete"[0] == 'd' && "patch"[0] == 'p' && "bind"[0] == 'b' && "escalate"[0] == 'e';
  }

  lemma FrontGenerates(m: Model, kind: string)
    requires Generates(m, kind) && KindOf(m.modules[|m.modules| - 1].resource) != kind
    ensures Generates(Front(m), kind)
  {
    var i :| 0 <= i < |m.modules| && KindOf(m.modules[i].resource) == kind;
    assert Front(m).modules[i] == m.modules[i];
  }

  lemma DefinesBase(m: Module, kind: string)
    ensures Defines(m, kind, "owner") ==
            if kind == KindOf(m.resource) then Some(Or(ASSIGNEES, From("owner", "parent"))) else None
    ensures Defines(m, kind, "member") ==
            if kind == KindOf(m.resource) then Some(Or(Or(ASSIGNEES, Computed("owner")), From("member", "parent")))
            else None
  {
    AddedIsNoneOf(m.resource, "owner");
    AddedIsNoneOf(m.resource, "member");
  }

  /** Every generated type has the templates' owner and member, whatever else extends it. */
  lemma {:induction false} GeneratedRelations(m: Model, kind: string)
    requires Generates(m, kind)
    ensures Lookup(m, kind, "owner") == Some(Or(ASSIGNEES, From("owner", "parent")))
    ensures Lookup(m, kind, "member") == Some(Or(Or(ASSIGNEES, Computed("owner")), From("member", "parent")))
    decreases |m.modules|
  {
    var last := m.modules[|m.modules| - 1];
    LookupLast(m, kind, "owner");
    LookupLast(m, kind, "member");
    DefinesBase(last, kind);
    if KindOf(last.resource) != kind {
      FrontGenerates(m, kind);
      GeneratedRelations(Front(m), kind);
    }
  }

  /** An owner of an object of a generated type is a member of it, whatever the account type says. */
  lemma OwnerIsMember(m: Model, ts: set<Grant>, u: string, o: Object)
    requires Generates(m, o.kind)
    requires Allowed(m, ts, u, o, "owner")
    ensures Allowed(m, ts, u, o, "member")
  {
    GeneratedRelations(m, o.kind);
    AllowedUnfolds(m, ts, u, o, "member");
    assert Meaning(m, ts, u, o, "member", Computed("owner"));
    assert Meaning(m, ts, u, o, "member", Or(ASSIGNEES, Computed("owner")));
  }

  const PRIVILEGED_ONLY := {"bind", "escalate"}

  predicate Mentions(e: Expr, relations: set<string>) {
    match e
    case Direct(allowed) => exists a :: a in allowed && a.Usersets? && a.relation in relations
    case Computed(r) => r in relations
    case From(r, via) => r in relations || via in relations
    case Or(left, right) => Mentions(left, relations) || Mentions(right, relations)
  }

  /** The same model but for the template of some modules, which is the privileged one only in the
      first; the core definitions mention neither bind nor escalate, which only the privileged template
      defines. */
  ghost predicate Tightens(m1: Model, m2: Model) {
    && m1.core == m2.core && |m1.modules| == |m2.modules|
    && (forall i :: 0 <= i < |m1.modules| ==>
                      && m1.modules[i].resource == m2.modules[i].resource
                      && (m1.modules[i].template == m2.modules[i].template || m1.modules[i].template.Privileged?))
    && (forall kind, r :: kind in m1.core && r in m1.core[kind] ==> !Mentions(m1.core[kind][r], PRIVILEGED_ONLY))
  }

  /** The definitions differ only where owners are asked for instead of members. */
  predicate Tightened(e1: Option<Expr>, e2: Option<Expr>) {
    && (e1.Some? ==> !Mentions(e1.value, PRIVILEGED_ONLY))
    && (e1 == e2 || (e1 == Some(Computed("owner")) && e2 == Some(Computed("member"))))
  }

  lemma TightensDefines(m1: Module, m2: Module, kind: string, r: string)
    requires m1.resource == m2.resource && (m1.template == m2.template || m1.template.Privileged?)
    requires r !in PRIVILEGED_ONLY
    ensures Tightened(Defines(m1, kind, r), Defines(m2, kind, r))
    ensures Defines(m1, kind, r) != Defines(m2, kind, r) ==> KindOf(m2.resource) == kind
  {
    OwnMentionsOnlyShared(m1, r);
    OwnMentionsOnlyShared(m2, r);
  }

  lemma OwnMentionsOnlyShared(m: Module, r: string)
    ensures OwnRelation(m, r).Some? ==> !Mentions(OwnRelation(m, r).value, PRIVILEGED_ONLY)
  {
    assert !Mentions(ASSIGNEES, PRIVILEGED_ONLY);
  }

  lemma GeneratesMore(m: Model, n: nat, kind: string)
    requires n <= |m.modules| && Generates(m.(modules := m.modules[..n]), kind)
    ensures Generates(m, kind)
  {
    var i :| 0 <= i < n && KindOf(m.modules[..n][i].resource) == kind;
    assert m.modules[i] == m.modules[..n][i];
  }

  lemma {:induction false} TightensLookup(m1: Model, m2: Model, kind: string, r: string)
    requires Tightens(m1, m2) && r !in PRIVILEGED_ONLY
    ensures Tightened(Lookup(m1, kind, r), Lookup(m2, kind, r))
    ensures Lookup(m1, kind, r) != Lookup(m2, kind, r) ==> Generates(m2, kind)
    decreases |m1.modules|
  {
    if m1.modules != [] {
      var n := |m1.modules| - 1;
      var f1, f2 := Front(m1), Front(m2);
      TightensLookup(f1, f2, kind, r);
      TightensDefines(m1.modules[n], m2.modules[n], kind, r);
      LookupLast(m1, kind, r);
      LookupLast(m2, kind, r);
      if Generates(f2, kind) {
        GeneratesMore(m2, n, kind);
      }
    } else {
      assert Lookup(m1, kind, r) == Lookup(m2, kind, r);
    }
  }

  lemma SameParents(m1: Model, m2: Model, o: Object, via: string, g: Grant)
    requires Tightens(m1, m2) && via !in PRIVILEGED_ONLY
    ensures Leads(m1, o, via, g) == Leads(m2, o, via, g)
  {
    TightensLookup(m1, m2, o.kind, via);
  }

  /** The privileged template allows no more than the ordinary one, for every relation they share and
      on every object, whatever the tuples, and whatever the core module as long as its definitions
      mention neither bind nor escalate. */
  lemma {:induction false} PrivilegedAllowsLess(
    m1: Model, m2: Model, ts: set<Grant>, k: nat, u: string, o: Object, r: string)
    requires Tightens(m1, m2) && r !in PRIVILEGED_ONLY
    requires Holds(m1, ts, k, u, o, r)
    ensures Allowed(m2, ts, u, o, r)
    decreases k, 0
  {
    TightensLookup(m1, m2, o.kind, r);
    var e1, e2 := Lookup(m1, o.kind, r).value, Lookup(m2, o.kind, r).value;
    AllowedUnfolds(m2, ts, u, o, r);
    if e1 == e2 {
      PrivilegedEvaluatesLess(m1, m2, ts, k - 1, u, o, r, e1);
    } else {
      PrivilegedAllowsLess(m1, m2, ts, k - 1, u, o, "owner");
      OwnerIsMember(m2, ts, u, o);
    }
  }

  lemma {:induction false} PrivilegedEvaluatesLess(
    m1: Model, m2: Model, ts: set<Grant>, k: nat, u: string, o: Object, r: string, e: Expr)
    requires Tightens(m1, m2) && !Mentions(e, PRIVILEGED_ONLY)
    requires Evaluates(m1, ts, k, u, o, r, e)
    ensures Meaning(m2, ts, u, o, r, e)
    decreases k, 1, e
  {
    match e
    case Direct(allowed) =>
      var g :| g in ts && g.entity == o && g.relation == r && Accepts(allowed, g.subject)
               && (g.subject in {User(u), AnyUser}
                     || (g.subject.Userset? && Holds(m1, ts, k, u, g.subject.entity, g.subject.relation)));
      if g.subject.Userset? {
        PrivilegedAllowsLess(m1, m2, ts, k, u, g.subject.entity, g.subject.relation);
      }
    case Computed(r') =>
      PrivilegedAllowsLess(m1, m2, ts, k, u, o, r');
    case From(r', via) =>
      var g :| g in ts && Leads(m1, o, via, g) && Holds(m1, ts, k, u, g.subject.entity, r');
      SameParents(m1, m2, o, via, g);
      PrivilegedAllowsLess(m1, m2, ts, k, u, g.subject.entity, r');
    case Or(left, right) =>
      if Evaluates(m1, ts, k, u, o, r, left) {
        PrivilegedEvaluatesLess(m1, m2, ts, k, u, o, r, left);
      } else {
        PrivilegedEvaluatesLess(m1, m2, ts, k, u, o, r, right);
      }
  }

  /** The type is rendered with the given template only. */
  ghost predicate RenderedAs(m: Model, kind: string, template: Template) {
    Generates(m, kind) && forall i :: 0 <= i < |m.modules| && KindOf(m.modules[i].resource) == kind ==>
      m.modules[i].template == template
  }

  lemma DefinesWrite(m: Module, kind: string, verb: string)
    requires verb in WRITES
    requires kind == KindOf(m.resource) && verb in PRIVILEGED_ONLY ==> m.template.Privileged?
    ensures Defines(m, kind, verb) ==
            if kind == KindOf(m.resource) then Some(Computed(if m.template.Privileged? then "owner" else "member"))
            else None
  {
    AddedIsNoneOf(m.resource, verb);
  }

  lemma {:induction false} WriteLookup(m: Model, kind: string, template: Template, verb: string)
    requires RenderedAs(m, kind, template) && verb in WRITES
    requires verb in PRIVILEGED_ONLY ==> template.Privileged?
    ensures Lookup(m, kind, verb) == Some(Computed(if template.Privileged? then "owner" else "member"))
    decreases |m.modules|
  {
    var last := m.modules[|m.modules| - 1];
    LookupLast(m, kind, verb);
    DefinesWrite(last, kind, verb);
    if KindOf(last.resource) != kind {
      FrontGenerates(m, kind);
      WriteLookup(Front(m), kind, template, verb);
    }
  }

  /** Changing an object takes its owner on privileged types and a member on the others. */
  lemma WriteIff(m: Model, ts: set<Grant>, template: Template, u: string, o: Object, verb: string)
    requires RenderedAs(m, o.kind, template) && verb in WRITES
    requires verb in PRIVILEGED_ONLY ==> template.Privileged?
    ensures Allowed(m, ts, u, o, verb) <==> Allowed(m, ts, u, o, if template.Privileged? then "owner" else "member")
  {
    WriteLookup(m, o.kind, template, verb);
    AllowedUnfolds(m, ts, u, o, verb);
  }

  /** One object leads to the next as its parent, all the way. */
  ghost predicate Chain(m: Model, ts: set<Grant>, via: string, chain: seq<Object>) {
    && chain != []
    && forall i :: 0 <= i < |chain| - 1 ==> Leads'(m, ts, chain[i], via, chain[i + 1])
  }

  ghost predicate Leads'(m: Model, ts: set<Grant>, o: Object, via: string, parent: Object) {
    exists g :: g in ts && Leads(m, o, via, g) && g.subject.entity == parent
  }

  /** The definition is the same on every type reached: the base relation or the relation from the
      parent, as the core module has it for most verbs of an account. */
  ghost predicate Inherits(m: Model, ts: set<Grant>, via: string, base: string, r: string, kinds: set<string>) {
    && (forall kind :: kind in kinds ==> Lookup(m, kind, r) == Some(Or(Computed(base), From(r, via))))
    && (forall o: Object, g :: o.kind in kinds && g in ts && Leads(m, o, via, g) ==> g.subject.entity.kind in kinds)
  }

  /** A user has an inherited relation exactly if some object up the chain of parents gives the base
      relation, even if the parents form a cycle. */
  lemma InheritedIff(
    m: Model, ts: set<Grant>, via: string, base: string, r: string, kinds: set<string>, u: string, o: Object)
    requires Inherits(m, ts, via, base, r, kinds) && o.kind in kinds
    ensures Allowed(m, ts, u, o, r) <==>
            exists chain :: Chain(m, ts, via, chain) && chain[0] == o && Allowed(m, ts, u, chain[|chain| - 1], base)
  {
    if Allowed(m, ts, u, o, r) {
      var k: nat :| Holds(m, ts, k, u, o, r);
      var chain := InheritedFrom(m, ts, via, base, r, kinds, k, u, o);
    }
    if chain :| Chain(m, ts, via, chain) && chain[0] == o && Allowed(m, ts, u, chain[|chain| - 1], base) {
      InheritedAlong(m, ts, via, base, r, kinds, u, chain);
    }
  }

  lemma {:induction false} InheritedFrom(
    m: Model, ts: set<Grant>, via: string, base: string, r: string, kinds: set<string>, k: nat, u: string, o: Object)
    returns (chain: seq<Object>)
    requires Inherits(m, ts, via, base, r, kinds) && o.kind in kinds
    requires Holds(m, ts, k, u, o, r)
    ensures Chain(m, ts, via, chain) && chain[0] == o && Allowed(m, ts, u, chain[|chain| - 1], base)
    decreases k
  {
    if Holds(m, ts, k - 1, u, o, base) {
      chain := [o];
    } else {
      assert Lookup(m, o.kind, r).value == Or(Computed(base), From(r, via));
      assert !Evaluates(m, ts, k - 1, u, o, r, Computed(base));
      assert Evaluates(m, ts, k - 1, u, o, r, From(r, via));
      var g :| g in ts && Leads(m, o, via, g) && Holds(m, ts, k - 1, u, g.subject.entity, r);
      var rest := InheritedFrom(m, ts, via, base, r, kinds, k - 1, u, g.subject.entity);
      chain := [o] + rest;
      forall i | 0 <= i < |chain| - 1
        ensures Leads'(m, ts, chain[i], via, chain[i + 1])
      {
        if i > 0 {
          assert chain[i] == rest[i - 1] && chain[i + 1] == rest[i];
        }
      }
    }
  }

  lemma {:induction false} InheritedAlong(
    m: Model, ts: set<Grant>, via: string, base: string, r: string, kinds: set<string>, u: string, chain: seq<Object>)
    requires Inherits(m, ts, via, base, r, kinds)
    requires Chain(m, ts, via, chain) && chain[0].kind in kinds && Allowed(m, ts, u, chain[|chain| - 1], base)
    ensures Allowed(m, ts, u, chain[0], r)
  {
    AllowedUnfolds(m, ts, u, chain[0], r);
    if |chain| == 1 {
      assert Meaning(m, ts, u, chain[0], r, Computed(base));
    } else {
      assert Leads'(m, ts, chain[0], via, chain[0 + 1]);
      InheritedAlong(m, ts, via, base, r, kinds, u, chain[1..]);
      assert Meaning(m, ts, u, chain[0], r, From(r, via));
    }
  }

  /** A verb of an account in the operator's own core module, with the relation it starts from. */
  function FromMember(verb: string): Expr {
    Or(Computed(if verb == "delete" then "owner" else "member"), From(verb, "parent"))
  }

  const CORE: map<string, map<string, Expr>> := map[
    "role" := map["assignee" := Direct({Users, AnyUsers})],
    "account" := map[
      "parent" := Direct({Entities("account")}),
      "owner" := ASSIGNEES,
      "member" := Or(ASSIGNEES, Computed("owner")),
      "get" := FromMember("get"), "update" := FromMember("update"), "delete" := FromMember("delete"),
      "create_core_platform-mesh_io_accounts" := Computed("member"),
      "list_core_platform-mesh_io_accounts" := Computed("member"),
      "watch_core_platform-mesh_io_accounts" := Computed("member"),
      "watch" := FromMember("watch"), "create" := FromMember("create"), "list" := FromMember("list")
    ]
  ]

  lemma DefinesNoAccount(m: Module, relation: string)
    ensures Defines(m, "account", relation).None?
  {
    var r := m.resource;
    assert KindOf(r)[|r.group|] == '_' && '_' in KindOf(r) && '_' !in "account";
    assert ACCOUNT[4] == '_' && NAMESPACE[4] == '_';
  }

  /** No generated module touches the core module's account type. */
  lemma {:induction false} AccountIsNotGenerated(m: Model, relation: string)
    ensures Lookup(m, "account", relation) == Lookup(m.(modules := []), "account", relation)
    decreases |m.modules|
  {
    if m.modules != [] {
      LookupLast(m, "account", relation);
      DefinesNoAccount(m.modules[|m.modules| - 1], relation);
      AccountIsNotGenerated(Front(m), relation);
    }
  }

  lemma CoreAccount(verb: string)
    requires verb in {"get", "update", "delete", "watch", "create", "list"}
    ensures Lookup(Model(CORE, []), "account", verb) == Some(FromMember(verb))
    ensures Lookup(Model(CORE, []), "account", "parent") == Some(Direct({Entities("account")}))
  {
  }

  /** With the operator's core module and any generated modules, a verb on an account is allowed
      exactly to the members, for deleting the owners, of the account or of an account above it. */
  lemma AccountVerbIff(modules: seq<Module>, ts: set<Grant>, u: string, o: Object, verb: string)
    requires o.kind == "account" && verb in {"get", "update", "delete", "watch", "create", "list"}
    ensures var m := Model(CORE, modules);
            Allowed(m, ts, u, o, verb) <==>
            exists chain ::
              Chain(m, ts, "parent", chain) && chain[0] == o
                && Allowed(m, ts, u, chain[|chain| - 1], if verb == "delete" then "owner" else "member")
  {
    var m := Model(CORE, modules);
    AccountIsNotGenerated(m, verb);
    AccountIsNotGenerated(m, "parent");
    CoreAccount(verb);
    InheritedIff(m, ts, "parent", if verb == "delete" then "owner" else "member", verb, {"account"}, u, o);
  }
}
