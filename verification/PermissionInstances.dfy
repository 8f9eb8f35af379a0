/** A core module that itself asks for bind, for which the privileged template does not just tighten the
    ordinary one. */
module PermissionInstances {
  import opened Wrappers
  import opened Permissions

  function BinderModel(template: Template, r: Resource): Model {
    Model(
      map["role" := map["assignee" := Direct({Users})],
          "binder" := map["parent" := Direct({Entities(KindOf(r))}), "use" := From("bind", "parent")]],
      [Module(template, r)])
  }

  lemma BinderLookups(template: Template, r: Resource)
    requires KindOf(r) !in {"role", "binder"}
    ensures var m := BinderModel(template, r);
            && Permissions.Lookup(m, "role", "assignee") == Some(Direct({Users}))
            && Permissions.Lookup(m, "binder", "parent") == Some(Direct({Entities(KindOf(r))}))
            && Permissions.Lookup(m, "binder", "use") == Some(From("bind", "parent"))
            && Permissions.Lookup(m, KindOf(r), "owner") == Some(Or(ASSIGNEES, From("owner", "parent")))
            && Permissions.Lookup(m, KindOf(r), "bind") ==
               if template.Privileged? then Some(Computed("owner")) else None
  {
    var m := BinderModel(template, r);
    var front := Front(m);
    assert front.modules == [];
    LookupLast(m, "role", "assignee");
    LookupLast(m, "binder", "parent");
    LookupLast(m, "binder", "use");
    LookupLast(m, KindOf(r), "owner");
    LookupLast(m, KindOf(r), "bind");
  }

  /** Under the ordinary template no one may use anything. */
  lemma NothingIsBound(r: Resource, ts: set<Grant>, u: string, id: string)
    requires KindOf(r) !in {"role", "binder"}
    ensures !Allowed(BinderModel(Ordinary, r), ts, u, Object("binder", id), "use")
  {
    var m, o := BinderModel(Ordinary, r), Object("binder", id);
    BinderLookups(Ordinary, r);
    AllowedUnfolds(m, ts, u, o, "use");
    forall g | g in ts && Leads(m, o, "parent", g)
      ensures !Allowed(m, ts, u, g.subject.entity, "bind")
    {
      AllowedUnfolds(m, ts, u, g.subject.entity, "bind");
    }
  }

  /** Under the privileged template whoever owns the resource may use what is bound below it. */
  lemma OwnerMayUse(r: Resource, ts: set<Grant>, u: string, id: string)
    requires KindOf(r) !in {"role", "binder"}
    requires Grant(Object("binder", id), "parent", Entity(Object(KindOf(r), id))) in ts
    requires Allowed(BinderModel(Privileged, r), ts, u, Object(KindOf(r), id), "owner")
    ensures Allowed(BinderModel(Privileged, r), ts, u, Object("binder", id), "use")
  {
    var m, o, resource := BinderModel(Privileged, r), Object("binder", id), Object(KindOf(r), id);
    BinderLookups(Privileged, r);
    var k: nat :| Holds(m, ts, k, u, resource, "owner");
    assert Holds(m, ts, k + 1, u, resource, "bind");
    assert Leads(m, o, "parent", Grant(o, "parent", Entity(resource)));
    assert Holds(m, ts, k + 2, u, o, "use");
  }

  lemma RoleOwns(r: Resource, ts: set<Grant>, u: string, id: string)
    requires KindOf(r) !in {"role", "binder"}
    requires Grant(Object(KindOf(r), id), "owner", Userset(Object("role", id), "assignee")) in ts
    requires Grant(Object("role", id), "assignee", User(u)) in ts
    ensures Allowed(BinderModel(Privileged, r), ts, u, Object(KindOf(r), id), "owner")
  {
    var m, role, resource := BinderModel(Privileged, r), Object("role", id), Object(KindOf(r), id);
    BinderLookups(Privileged, r);
    assert Holds(m, ts, 1, u, role, "assignee") by {
      assert Grant(role, "assignee", User(u)) in ts;
    }
    assert Evaluates(m, ts, 1, u, resource, "owner", ASSIGNEES) by {
      assert Grant(resource, "owner", Userset(role, "assignee")) in ts;
    }
    assert Holds(m, ts, 2, u, resource, "owner");
  }

  /** A core module that asks for bind can allow more under the privileged template. */
  lemma CoreAskingForBindAllowsMore(r: Resource, u: string, id: string) returns (ts: set<Grant>)
    requires KindOf(r) !in {"role", "binder"}
    ensures Mentions(BinderModel(Ordinary, r).core["binder"]["use"], PRIVILEGED_ONLY)
    ensures Allowed(BinderModel(Privileged, r), ts, u, Object("binder", id), "use")
    ensures !Allowed(BinderModel(Ordinary, r), ts, u, Object("binder", id), "use")
  {
    var resource, role := Object(KindOf(r), id), Object("role", id);
    ts := {
      Grant(Object("binder", id), "parent", Entity(resource)), Grant(resource, "owner", Userset(role, "assignee")),
      Grant(role, "assignee", User(u))
    };
    RoleOwns(r, ts, u, id);
    OwnerMayUse(r, ts, u, id);
    NothingIsBound(r, ts, u, id);
  }
}
