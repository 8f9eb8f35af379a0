/** Verb by verb, who is allowed what on the generated types, on the types they extend and on the core
    module's own. */
module PermissionVerbs {
  import opened Wrappers
  import opened Permissions

  const READS := {"get", "watch", "get_iam_roles", "get_iam_users"}

  lemma AddedIsNoVerb(r: Resource, verb: string)
    requires verb in READS + {"manage_iam_roles", "parent"}
    ensures AddedRelation(r, verb).None?
  {
    var suffix := r.group + "_" + r.name;
    assert ("create_" + suffix)[0] == 'c' && ("list_" + suffix)[0] == 'l' && ("watch_" + suffix)[0] == 'w';
    assert |"watch_" + suffix| > |"watch"|;
    assert "get"[0] == "get_iam_roles"[0] == "get_iam_users"[0] == 'g';
    assert "manage_iam_roles"[0] == 'm' && "parent"[0] == 'p';
  }

  lemma OwnVerb(m: Module, verb: string)
    requires verb in READS + {"manage_iam_roles"}
    ensures OwnRelation(m, verb) == Some(Computed(if verb == "manage_iam_roles" then "owner" else "member"))
  {
  }

  lemma {:induction false} VerbLookup(m: Model, kind: string, verb: string)
    requires Generates(m, kind) && verb in READS + {"manage_iam_roles"}
    ensures Permissions.Lookup(m, kind, verb) ==
            Some(Computed(if verb == "manage_iam_roles" then "owner" else "member"))
    decreases |m.modules|
  {
    var last := m.modules[|m.modules| - 1];
    LookupLast(m, kind, verb);
    AddedIsNoVerb(last.resource, verb);
    OwnVerb(last, verb);
    if KindOf(last.resource) != kind {
      FrontGenerates(m, kind);
      VerbLookup(Front(m), kind, verb);
    }
  }

  /** Reading an object of a generated type, and the roles and users on it, takes a member. */
  lemma ReadIff(m: Model, ts: set<Grant>, u: string, o: Object, verb: string)
    requires Generates(m, o.kind) && verb in {"get", "watch", "get_iam_roles", "get_iam_users"}
    ensures Allowed(m, ts, u, o, verb) <==> Allowed(m, ts, u, o, "member")
  {
    VerbLookup(m, o.kind, verb);
    AllowedUnfolds(m, ts, u, o, verb);
  }

  /** Managing the roles on an object of a generated type takes an owner. */
  lemma ManageRolesIff(m: Model, ts: set<Grant>, u: string, o: Object)
    requires Generates(m, o.kind)
    ensures Allowed(m, ts, u, o, "manage_iam_roles") <==> Allowed(m, ts, u, o, "owner")
  {
    VerbLookup(m, o.kind, "manage_iam_roles");
    AllowedUnfolds(m, ts, u, o, "manage_iam_roles");
  }

  /** On a type rendered with the ordinary template only, nobody may bind or escalate, unless the core
      module itself defines that. */
  lemma OrdinaryBindsNobody(m: Model, ts: set<Grant>, u: string, o: Object, verb: string)
    requires RenderedAs(m, o.kind, Ordinary) && verb in {"bind", "escalate"} && o.kind !in m.core
    ensures !Allowed(m, ts, u, o, verb)
  {
    BindLookup(m, o.kind, verb);
    AllowedUnfolds(m, ts, u, o, verb);
  }

  lemma {:induction false} BindLookup(m: Model, kind: string, verb: string)
    requires verb in {"bind", "escalate"} && kind !in m.core
    requires forall i :: 0 <= i < |m.modules| && KindOf(m.modules[i].resource) == kind ==>
                           m.modules[i].template == Ordinary
    ensures Permissions.Lookup(m, kind, verb).None?
    decreases |m.modules|
  {
    if m.modules != [] {
      var last := m.modules[|m.modules| - 1];
      LookupLast(m, kind, verb);
      AddedIsNoneOf(last.resource, verb);
      BindLookup(Front(m), kind, verb);
    }
  }

  /** An owner of an object of a generated type is assigned a role that owns it, or owns its parent. */
  lemma OwnerIff(m: Model, ts: set<Grant>, u: string, o: Object)
    requires Generates(m, o.kind)
    ensures Allowed(m, ts, u, o, "owner") <==>
            || (exists g :: g in ts && g.entity == o && g.relation == "owner" && HasRole(m, ts, u, g.subject))
            || (exists g :: g in ts && Leads(m, o, "parent", g) && Allowed(m, ts, u, g.subject.entity, "owner"))
  {
    GeneratedRelations(m, o.kind);
    AllowedUnfolds(m, ts, u, o, "owner");
    RolesMean(m, ts, u, o, "owner");
    assert Meaning(m, ts, u, o, "owner", From("owner", "parent")) <==>
           exists g :: g in ts && Leads(m, o, "parent", g) && Allowed(m, ts, u, g.subject.entity, "owner");
    assert Meaning(m, ts, u, o, "owner", Or(ASSIGNEES, From("owner", "parent"))) <==>
           Meaning(m, ts, u, o, "owner", ASSIGNEES) || Meaning(m, ts, u, o, "owner", From("owner", "parent"));
  }

  /** A member is assigned a role that is a member, or is an owner, or is a member of the parent. */
  lemma MemberIff(m: Model, ts: set<Grant>, u: string, o: Object)
    requires Generates(m, o.kind)
    ensures Allowed(m, ts, u, o, "member") <==>
            || (exists g :: g in ts && g.entity == o && g.relation == "member" && HasRole(m, ts, u, g.subject))
            || Allowed(m, ts, u, o, "owner")
            || (exists g :: g in ts && Leads(m, o, "parent", g) && Allowed(m, ts, u, g.subject.entity, "member"))
  {
    GeneratedRelations(m, o.kind);
    AllowedUnfolds(m, ts, u, o, "member");
    RolesMean(m, ts, u, o, "member");
    var own := Or(ASSIGNEES, Computed("owner"));
    assert Meaning(m, ts, u, o, "member", From("member", "parent")) <==>
           exists g :: g in ts && Leads(m, o, "parent", g) && Allowed(m, ts, u, g.subject.entity, "member");
    assert Meaning(m, ts, u, o, "member", Computed("owner")) <==> Allowed(m, ts, u, o, "owner");
    assert Meaning(m, ts, u, o, "member", own) <==>
           Meaning(m, ts, u, o, "member", ASSIGNEES) || Allowed(m, ts, u, o, "owner");
    assert Meaning(m, ts, u, o, "member", Or(own, From("member", "parent"))) <==>
           Meaning(m, ts, u, o, "member", own) || Meaning(m, ts, u, o, "member", From("member", "parent"));
  }

  /** The subject stands for the assignees of a role, and the user is one of them. */
  ghost predicate HasRole(m: Model, ts: set<Grant>, u: string, s: Subject) {
    s.Userset? && s.relation == "assignee" && s.entity.kind == "role" && Allowed(m, ts, u, s.entity, "assignee")
  }

  lemma RolesMean(m: Model, ts: set<Grant>, u: string, o: Object, r: string)
    ensures Meaning(m, ts, u, o, r, ASSIGNEES) <==>
            exists g :: g in ts && g.entity == o && g.relation == r && HasRole(m, ts, u, g.subject)
  {
    var has := AllowedTo(m, ts, u);
    forall s: Subject
      ensures HasRole(m, ts, u, s) <==>
              Accepts({Usersets("role", "assignee")}, s)
              && (s in {User(u), AnyUser} || (s.Userset? && has(s.entity, s.relation)))
    {
    }
  }

  /** The parent of an object of a generated type is a namespace for namespaced resources and an account
      for the others. */
  lemma ParentIff(m: Model, o: Object, namespaced: bool, g: Grant)
    requires Generates(m, o.kind)
    requires forall i :: 0 <= i < |m.modules| && KindOf(m.modules[i].resource) == o.kind ==>
                           m.modules[i].resource.namespaced == namespaced
    ensures Leads(m, o, "parent", g) <==>
            && g.entity == o && g.relation == "parent" && g.subject.Entity?
            && g.subject.entity.kind == if namespaced then "core_namespace" else "core_platform-mesh_io_account"
  {
    ParentLookup(m, o.kind, namespaced);
  }

  lemma {:induction false} ParentLookup(m: Model, kind: string, namespaced: bool)
    requires Generates(m, kind)
    requires forall i :: 0 <= i < |m.modules| && KindOf(m.modules[i].resource) == kind ==>
                           m.modules[i].resource.namespaced == namespaced
    ensures Permissions.Lookup(m, kind, "parent") ==
            Some(Direct({Entities(if namespaced then "core_namespace" else "core_platform-mesh_io_account")}))
    decreases |m.modules|
  {
    var last := m.modules[|m.modules| - 1];
    LookupLast(m, kind, "parent");
    AddedIsNoVerb(last.resource, "parent");
    if KindOf(last.resource) != kind {
      FrontGenerates(m, kind);
      ParentLookup(Front(m), kind, namespaced);
    }
  }

  lemma AddedTexts(r: Resource, verb: string, suffix: string)
    requires verb in {"create_", "list_", "watch_"}
    ensures AddedRelation(r, verb + suffix) ==
            if suffix == r.group + "_" + r.name then Some(Computed(if verb == "create_" then "owner" else "member"))
            else None
  {
    var own, text := r.group + "_" + r.name, verb + suffix;
    assert text[0] == verb[0] && ("create_" + own)[0] == 'c' && ("list_" + own)[0] == 'l' && ("watch_" + own)[0] == 'w';
    assert text[|verb|..] == suffix && (verb + own)[|verb|..] == own;
  }

  lemma OwnDefinesNone(m: Module, verb: string, suffix: string)
    requires verb in {"create_", "list_", "watch_"}
    ensures OwnRelation(m, verb + suffix).None?
  {
    var text := verb + suffix;
    assert text[0] == verb[0] && |text| >= |verb|;
    assert verb == "watch_" ==> |text| > |"watch"|;
    assert "parent"[0] == 'p' && "member"[0] == 'm' && "owner"[0] == 'o' && "update"[0] == 'u';
    assert "delete"[0] == 'd' && "patch"[0] == 'p' && "bind"[0] == 'b' && "escalate"[0] == 'e' && "get"[0] == 'g';
    assert "get_iam_roles"[0] == "get_iam_users"[0] == 'g' && "manage_iam_roles"[0] == 'm';
  }

  lemma {:induction false} AddedLookup(m: Model, i: nat, verb: string)
    requires i < |m.modules| && verb in {"create_", "list_", "watch_"}
    ensures var r := m.modules[i].resource;
            Permissions.Lookup(m, ParentKind(r), verb + (r.group + "_" + r.name)) ==
            Some(Computed(if verb == "create_" then "owner" else "member"))
    decreases |m.modules|
  {
    var r, last := m.modules[i].resource, m.modules[|m.modules| - 1];
    var suffix := r.group + "_" + r.name;
    LookupLast(m, ParentKind(r), verb + suffix);
    AddedTexts(last.resource, verb, suffix);
    OwnDefinesNone(last, verb, suffix);
    if i < |m.modules| - 1 {
      assert Front(m).modules[i] == m.modules[i];
      AddedLookup(Front(m), i, verb);
    }
  }

  /** Creating objects of a rendered resource takes an owner of the account or namespace they lie in;
      listing and watching them takes a member. */
  lemma CollectionIff(m: Model, ts: set<Grant>, i: nat, u: string, o: Object)
    requires i < |m.modules|
    requires o.kind == if m.modules[i].resource.namespaced then "core_namespace" else "core_platform-mesh_io_account"
    ensures var r := m.modules[i].resource;
            && (Allowed(m, ts, u, o, "create_" + (r.group + "_" + r.name)) <==> Allowed(m, ts, u, o, "owner"))
            && (Allowed(m, ts, u, o, "list_" + (r.group + "_" + r.name)) <==> Allowed(m, ts, u, o, "member"))
            && (Allowed(m, ts, u, o, "watch_" + (r.group + "_" + r.name)) <==> Allowed(m, ts, u, o, "member"))
  {
    var suffix := m.modules[i].resource.group + "_" + m.modules[i].resource.name;
    AddedLookup(m, i, "create_");
    AddedLookup(m, i, "list_");
    AddedLookup(m, i, "watch_");
    AllowedUnfolds(m, ts, u, o, "create_" + suffix);
    AllowedUnfolds(m, ts, u, o, "list_" + suffix);
    AllowedUnfolds(m, ts, u, o, "watch_" + suffix);
  }

  lemma DefinesNoRole(m: Module, relation: string)
    ensures Defines(m, "role", relation).None?
  {
    var r := m.resource;
    assert KindOf(r)[|r.group|] == '_' && '_' in KindOf(r) && '_' !in "role";
    assert ACCOUNT[4] == '_' && NAMESPACE[4] == '_';
  }

  lemma {:induction false} RoleIsNotGenerated(m: Model, relation: string)
    ensures Permissions.Lookup(m, "role", relation) == Permissions.Lookup(m.(modules := []), "role", relation)
    decreases |m.modules|
  {
    if m.modules != [] {
      LookupLast(m, "role", relation);
      DefinesNoRole(m.modules[|m.modules| - 1], relation);
      RoleIsNotGenerated(Front(m), relation);
    }
  }

  /** With the operator's core module, a user has a role by being assigned it, by name or with everyone. */
  lemma AssigneeIff(modules: seq<Module>, ts: set<Grant>, u: string, o: Object)
    requires o.kind == "role"
    ensures Allowed(Model(CORE, modules), ts, u, o, "assignee") <==>
            Grant(o, "assignee", User(u)) in ts || Grant(o, "assignee", AnyUser) in ts
  {
    var m := Model(CORE, modules);
    RoleIsNotGenerated(m, "assignee");
    AllowedUnfolds(m, ts, u, o, "assignee");
    var e := Direct({Users, AnyUsers});
    assert Permissions.Lookup(m, "role", "assignee") == Some(e);
    assert Meaning(m, ts, u, o, "assignee", e) <==>
           exists g :: g in ts && g.entity == o && g.relation == "assignee" && Accepts({Users, AnyUsers}, g.subject)
                       && g.subject in {User(u), AnyUser};
    if Grant(o, "assignee", User(u)) in ts {
      assert Accepts({Users, AnyUsers}, Grant(o, "assignee", User(u)).subject);
    }
    if Grant(o, "assignee", AnyUser) in ts {
      assert Accepts({Users, AnyUsers}, Grant(o, "assignee", AnyUser).subject);
    }
  }

  /** An account of the core module is owned through a role only. */
  lemma AccountOwnerIff(modules: seq<Module>, ts: set<Grant>, u: string, o: Object)
    requires o.kind == "account"
    ensures var m := Model(CORE, modules);
            Allowed(m, ts, u, o, "owner") <==>
            exists g :: g in ts && g.entity == o && g.relation == "owner" && HasRole(m, ts, u, g.subject)
  {
    var m := Model(CORE, modules);
    AccountIsNotGenerated(m, "owner");
    CoreBase();
    AllowedUnfolds(m, ts, u, o, "owner");
    RolesMean(m, ts, u, o, "owner");
  }

  /** Its members have a role that is a member, or own it. */
  lemma AccountMemberIff(modules: seq<Module>, ts: set<Grant>, u: string, o: Object)
    requires o.kind == "account"
    ensures var m := Model(CORE, modules);
            Allowed(m, ts, u, o, "member") <==>
            || (exists g :: g in ts && g.entity == o && g.relation == "member" && HasRole(m, ts, u, g.subject))
            || Allowed(m, ts, u, o, "owner")
  {
    var m := Model(CORE, modules);
    AccountIsNotGenerated(m, "member");
    CoreBase();
    AllowedUnfolds(m, ts, u, o, "member");
    RolesMean(m, ts, u, o, "member");
    assert Meaning(m, ts, u, o, "member", Computed("owner")) <==> Allowed(m, ts, u, o, "owner");
  }

  /** Its parent is an account. */
  lemma AccountParentIff(modules: seq<Module>, o: Object, g: Grant)
    requires o.kind == "account"
    ensures Leads(Model(CORE, modules), o, "parent", g) <==>
            && g.entity == o && g.relation == "parent" && g.subject.Entity? && g.subject.entity.kind == "account"
  {
    AccountIsNotGenerated(Model(CORE, modules), "parent");
    CoreAccount("get");
  }

  lemma CoreBase()
    ensures Permissions.Lookup(Model(CORE, []), "account", "owner") == Some(ASSIGNEES)
    ensures Permissions.Lookup(Model(CORE, []), "account", "member") == Some(Or(ASSIGNEES, Computed("owner")))
  {
  }

  const ACCOUNT_COLLECTION := {
    "create_core_platform-mesh_io_accounts", "list_core_platform-mesh_io_accounts",
    "watch_core_platform-mesh_io_accounts"
  }

  lemma CoreCollection(relation: string)
    requires relation in ACCOUNT_COLLECTION
    ensures Permissions.Lookup(Model(CORE, []), "account", relation) == Some(Computed("member"))
  {
  }

  /** Whoever is a member of an account may create, list and watch accounts in it. */
  lemma AccountCollectionIff(modules: seq<Module>, ts: set<Grant>, u: string, o: Object, relation: string)
    requires o.kind == "account" && relation in ACCOUNT_COLLECTION
    ensures var m := Model(CORE, modules);
            Allowed(m, ts, u, o, relation) <==> Allowed(m, ts, u, o, "member")
  {
    var m := Model(CORE, modules);
    AccountIsNotGenerated(m, relation);
    CoreCollection(relation);
    AllowedUnfolds(m, ts, u, o, relation);
  }
}
