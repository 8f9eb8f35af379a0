/** Authorization models generated for API bindings: binding an export in an organization creates
    one model per resource of the export, and releasing the last binding of the export in the
    organization deletes them. */
module ModelGeneration {
  import opened Strings
  import opened Wrappers
  import TupleReconciler

  type StoreRef = TupleReconciler.StoreRef

  const API_BINDING_FINALIZER := "core.platform-mesh.io/apibinding-finalizer"

  datatype ExportRef = ExportRef(path: string, name: string)

  datatype Organization = Organization(name: string, generatedClusterId: string, originClusterId: string)

  datatype Schema = Schema(group: string, plural: string)

  datatype ModelKey = ModelKey(cluster: string, name: string)

  type Models = map<ModelKey, StoreRef>

  datatype Binding = Binding(
    name: string, workspace: string, export_: ExportRef, exportCluster: string,
    finalizers: set<string>, processed: bool, deleting: bool)

  datatype AccountInfo = AccountInfo(org: Organization, protected_: bool)

  /** The resource schemas of each export, by the cluster the export lives in and its name. */
  type Exports = map<(string, string), seq<Schema>>

  function LowerChar(c: char): char {
    if 'A' <= c <= 'Z' then c - 'A' + 'a' else c
  }

  function ToLower(s: string): (r: string)
    ensures |r| == |s|
    ensures forall i :: 0 <= i < |s| ==> r[i] == LowerChar(s[i])
  {
    if s == "" then "" else [LowerChar(s[0])] + ToLower(s[1..])
  }

  function TrimLeft(s: string, c: char): string {
    if s != "" && s[0] == c then TrimLeft(s[1..], c) else s
  }

  function TrimRight(s: string, c: char): string {
    if s != "" && s[|s| - 1] == c then TrimRight(s[..|s| - 1], c) else s
  }

  /** A Kubernetes name from parts: lower case, dots and joints as dashes, none at the ends. */
  function ToK8sName(parts: seq<string>): string {
    TrimRight(TrimLeft(ReplaceAll(ToLower(Join(parts, '-')), '.', '-'), '-'), '-')
  }

  /** Process skips the platform's own exports. */
  predicate Skipped(exportName: string) {
    exportName == "core.platform-mesh.io" || exportName == "system.platform-mesh.io" || HasSuffix(exportName, "kcp.io")
  }

  /** Bindings named after the platform or kcp get no finalizer. */
  function Finalizers(bindingName: string): set<string> {
    if Contains(bindingName, "platform-mesh.io") || Contains(bindingName, "kcp.io") then {} else {API_BINDING_FINALIZER}
  }

  /** What a character of a joined name becomes. */
  function NameChar(c: char): char {
    if c == '.' then '-' else if 'A' <= c <= 'Z' then c - 'A' + 'a' else c
  }

  /** A model name is the joined text, lower-cased and with dashes for dots, from the first character
      that is no dash to the last. */
  lemma K8sNameIs(parts: seq<string>) returns (i: nat)
    ensures var text, name := Join(parts, '-'), ToK8sName(parts);
            && i + |name| <= |text|
            && (forall k :: 0 <= k < |name| ==> name[k] == NameChar(text[i + k]))
            && (forall k :: 0 <= k < i || i + |name| <= k < |text| ==> NameChar(text[k]) == '-')
            && (name != "" ==> name[0] != '-' && name[|name| - 1] != '-')
  {
    var text := Join(parts, '-');
    var dashed := ReplaceAll(ToLower(text), '.', '-');
    assert forall k :: 0 <= k < |text| ==> dashed[k] == NameChar(text[k]);
    var left := TrimLeft(dashed, '-');
    i := TrimLeftIs(dashed, '-');
    TrimRightIs(left, '-');
    assert left == dashed[i..];
  }

  lemma {:induction false} TrimLeftIs(s: string, c: char) returns (i: nat)
    ensures i <= |s| && TrimLeft(s, c) == s[i..] && forall k :: 0 <= k < i ==> s[k] == c
    ensures TrimLeft(s, c) != "" ==> TrimLeft(s, c)[0] != c
  {
    if s != "" && s[0] == c {
      var j := TrimLeftIs(s[1..], c);
      i := j + 1;
      assert s[1..][j..] == s[i..];
      assert forall k :: 0 <= k < j ==> s[k + 1] == s[1..][k];
      assert forall k :: 0 < k < i ==> s[k] == s[1..][k - 1];
    } else {
      i := 0;
    }
  }

  lemma {:induction false} TrimRightIs(s: string, c: char)
    ensures var r := TrimRight(s, c);
            && r <= s && (forall k :: |r| <= k < |s| ==> s[k] == c)
            && (r != "" ==> r[|r| - 1] != c)
  {
    if s != "" && s[|s| - 1] == c {
      TrimRightIs(s[..|s| - 1], c);
    }
  }

  /** A binding gets the finalizer unless its name contains one of the two. */
  lemma FinalizersIff(name: string)
    ensures Finalizers(name) ==
            if exists p, q :: name == p + "platform-mesh.io" + q || name == p + "kcp.io" + q then {}
            else {"core.platform-mesh.io/apibinding-finalizer"}
  {
    ContainsIff(name, "platform-mesh.io");
    ContainsIff(name, "kcp.io");
  }

  lemma ContainsIff(s: string, part: string)
    ensures Contains(s, part) <==> exists p, q :: s == p + part + q
  {
    if Contains(s, part) {
      var i :| 0 <= i <= |s| - |part| && OccursAt(s, part, i);
      assert s == s[..i] + part + s[i + |part|..];
    }
    if p, q :| s == p + part + q {
      assert OccursAt(s, part, |p|);
    }
  }

  /** The models of an export in an organization. */
  function KeysOf(exports: Exports, cluster: string, exportName: string, org: Organization): seq<ModelKey> {
    if (cluster, exportName) !in exports then []
    else
      var schemas := exports[(cluster, exportName)];
      seq(|schemas|, i requires 0 <= i < |schemas| =>
        ModelKey(cluster, ToK8sName([schemas[i].group, schemas[i].plural, org.name])))
  }

  lemma KeysAre(exports: Exports, cluster: string, exportName: string, org: Organization)
    requires (cluster, exportName) in exports
    ensures var schemas, keys := exports[(cluster, exportName)], KeysOf(exports, cluster, exportName, org);
            && (forall schema :: schema in schemas ==>
                 ModelKey(cluster, ToK8sName([schema.group, schema.plural, org.name])) in keys)
            && (forall key :: key in keys ==>
                 exists schema :: schema in schemas
                   && key == ModelKey(cluster, ToK8sName([schema.group, schema.plural, org.name])))
  {
    var schemas, keys := exports[(cluster, exportName)], KeysOf(exports, cluster, exportName, org);
    forall schema | schema in schemas
      ensures ModelKey(cluster, ToK8sName([schema.group, schema.plural, org.name])) in keys
    {
      var i :| 0 <= i < |schemas| && schemas[i] == schema;
      assert keys[i] in keys;
    }
    forall key | key in keys
      ensures exists schema :: schema in schemas
                && key == ModelKey(cluster, ToK8sName([schema.group, schema.plural, org.name]))
    {
      var i :| 0 <= i < |keys| && keys[i] == key;
      assert schemas[i] in schemas;
    }
  }

  function RefTo(org: Organization): StoreRef {
    TupleReconciler.StoreRef(org.name, org.originClusterId)
  }

  function CreateAll(models: Models, keys: seq<ModelKey>, ref: StoreRef): Models {
    models + map k | k in keys :: ref
  }

  function DeleteAll(models: Models, keys: seq<ModelKey>): Models {
    models - set k | k in keys
  }

  lemma CreateNext(models: Models, keys: seq<ModelKey>, i: nat, ref: StoreRef)
    requires i < |keys|
    ensures CreateAll(models, keys[..i + 1], ref) == CreateAll(models, keys[..i], ref)[keys[i] := ref]
  {
    assert keys[..i + 1] == keys[..i] + [keys[i]];
  }

  lemma DeleteNext(models: Models, keys: seq<ModelKey>, i: nat)
    requires i < |keys|
    ensures DeleteAll(models, keys[..i + 1]) == DeleteAll(models, keys[..i]) - {keys[i]}
  {
    assert keys[..i + 1] == keys[..i] + [keys[i]];
  }

  /** A binding counts for an export in an organization; one without account info does not. */
  predicate Counts(infos: map<string, AccountInfo>, b: Binding, export_: ExportRef, orgId: string) {
    b.export_ == export_ && b.workspace in infos && infos[b.workspace].org.generatedClusterId == orgId
  }

  function CountBindings(
    bindings: seq<Binding>, infos: map<string, AccountInfo>, export_: ExportRef, orgId: string): nat {
    if bindings == [] then 0
    else
      CountBindings(bindings[..|bindings| - 1], infos, export_, orgId)
      + (if Counts(infos, bindings[|bindings| - 1], export_, orgId) then 1 else 0)
  }

  /** The places in the listing of the bindings of an export in an organization. */
  ghost function Places(bindings: seq<Binding>, infos: map<string, AccountInfo>, export_: ExportRef, orgId: string)
    : set<int>
  {
    set i | 0 <= i < |bindings|
            && bindings[i].export_.path == export_.path && bindings[i].export_.name == export_.name
            && bindings[i].workspace in infos
            && infos[bindings[i].workspace].org.generatedClusterId == orgId
  }

  lemma {:induction false} CountIsCardinality(
    bindings: seq<Binding>, infos: map<string, AccountInfo>, export_: ExportRef, orgId: string)
    ensures CountBindings(bindings, infos, export_, orgId) == |Places(bindings, infos, export_, orgId)|
  {
    if bindings != [] {
      var n := |bindings| - 1;
      var front := Places(bindings[..n], infos, export_, orgId);
      CountIsCardinality(bindings[..n], infos, export_, orgId);
      assert Places(bindings, infos, export_, orgId) ==
             front + if Counts(infos, bindings[n], export_, orgId) then {n} else {};
    }
  }

  /** Process creates the first k models, all of them when it succeeds. */
  ghost predicate Processed(
    exports: Exports, infos: map<string, AccountInfo>, b: Binding, models: Models, models': Models, ok: bool) {
    if Skipped(b.export_.name) then ok && models' == models
    else if b.workspace !in infos then !ok && models' == models
    else
      var org := infos[b.workspace].org;
      var keys := KeysOf(exports, b.exportCluster, b.export_.name, org);
      exists k :: 0 <= k <= |keys| && models' == CreateAll(models, keys[..k], RefTo(org)) && (ok ==> k == |keys|)
  }

  /** Finalize deletes nothing while other bindings count, and else the first k models, all of them
      when it succeeds. */
  ghost predicate Finalized(
    exports: Exports, bindings: seq<Binding>, infos: map<string, AccountInfo>, b: Binding, models: Models,
    models': Models, ok: bool)
  {
    if b.workspace !in infos then !ok && models' == models
    else
      var org := infos[b.workspace].org;
      var keys := KeysOf(exports, b.exportCluster, b.export_.name, org);
      if CountBindings(bindings, infos, b.export_, org.generatedClusterId) > 1 then models' == models
      else exists k :: 0 <= k <= |keys| && models' == DeleteAll(models, keys[..k]) && (ok ==> k == |keys|)
  }

  /** At least two listed bindings name the binding's export with the same text and have account infos of
      its organization. */
  ghost predicate Shared(bindings: seq<Binding>, infos: map<string, AccountInfo>, b: Binding) {
    b.workspace in infos &&
    exists i, j :: 0 <= i < j < |bindings| && SharesWith(infos, b, bindings[i]) && SharesWith(infos, b, bindings[j])
  }

  predicate SharesWith(infos: map<string, AccountInfo>, b: Binding, c: Binding) {
    && c.export_.path == b.export_.path && c.export_.name == b.export_.name
    && b.workspace in infos && c.workspace in infos
    && infos[c.workspace].org.generatedClusterId == infos[b.workspace].org.generatedClusterId
  }

  lemma {:induction false} CountOneIff(bindings: seq<Binding>, infos: map<string, AccountInfo>, b: Binding)
    requires b.workspace in infos
    ensures CountBindings(bindings, infos, b.export_, infos[b.workspace].org.generatedClusterId) > 0 <==>
            exists i :: 0 <= i < |bindings| && SharesWith(infos, b, bindings[i])
  {
    if bindings != [] {
      var n := |bindings| - 1;
      CountOneIff(bindings[..n], infos, b);
      assert forall i :: 0 <= i < n ==> bindings[..n][i] == bindings[i];
      assert SharesWith(infos, b, bindings[n]) <==>
             Counts(infos, bindings[n], b.export_, infos[b.workspace].org.generatedClusterId);
    }
  }

  lemma {:induction false} CountTwoIff(bindings: seq<Binding>, infos: map<string, AccountInfo>, b: Binding)
    requires b.workspace in infos
    ensures CountBindings(bindings, infos, b.export_, infos[b.workspace].org.generatedClusterId) > 1 <==>
            Shared(bindings, infos, b)
  {
    if bindings != [] {
      var n := |bindings| - 1;
      CountTwoIff(bindings[..n], infos, b);
      CountOneIff(bindings[..n], infos, b);
      assert forall i :: 0 <= i < n ==> bindings[..n][i] == bindings[i];
      assert SharesWith(infos, b, bindings[n]) <==>
             Counts(infos, bindings[n], b.export_, infos[b.workspace].org.generatedClusterId);
    }
  }

  class AuthorizationModelGenerationSubroutine {
    const exports: Exports
    var models: Models

    /** No remote call fails for reasons of its own. */
    const reliable: bool

    constructor (exports: Exports, reliable: bool)
      ensures this.exports == exports && models == map[] && this.reliable == reliable
    {
      this.exports, this.reliable := exports, reliable;
      models := map[];
    }

    method CreateOrUpdateModel(key: ModelKey, ref: StoreRef) returns (ok: bool)
      modifies this`models
      ensures models == if ok then old(models)[key := ref] else old(models)
      ensures reliable ==> ok
    {
      ok := *;
      ok := reliable || ok;
      if ok {
        models := models[key := ref];
      }
    }

    /** A model that is not there counts as deleted. */
    method DeleteModel(key: ModelKey) returns (ok: bool)
      modifies this`models
      ensures models == if ok then old(models) - {key} else old(models)
      ensures reliable ==> ok
    {
      ok := *;
      ok := reliable || ok;
      if ok {
        models := models - {key};
      }
    }

    method Process(b: Binding, infos: map<string, AccountInfo>) returns (ok: bool)
      modifies this`models
      ensures Processed(exports, infos, b, old(models), models, ok)
      ensures ok ==>
                var name := b.export_.name;
                if name == "core.platform-mesh.io" || name == "system.platform-mesh.io"
                  || HasSuffix(name, "kcp.io") then
                  models == old(models)
                else
                  && b.workspace in infos && (b.exportCluster, name) in exports
                  && old(models).Keys <= models.Keys
                  && var org, schemas := infos[b.workspace].org, exports[(b.exportCluster, name)];
                  && (forall schema :: schema in schemas ==>
                       var key := ModelKey(b.exportCluster, ToK8sName([schema.group, schema.plural, org.name]));
                       key in models && models[key].name == org.name && models[key].cluster == org.originClusterId)
                  && (forall key :: key in models && (key in old(models) ==> models[key] != old(models)[key]) ==>
                       exists schema :: schema in schemas
                         && key == ModelKey(b.exportCluster, ToK8sName([schema.group, schema.plural, org.name])))
      ensures reliable ==>
                (ok <==>
                  || Skipped(b.export_.name)
                  || (b.workspace in infos && (b.exportCluster, b.export_.name) in exports))
    {
      if Skipped(b.export_.name) {
        return true;
      }
      if b.workspace !in infos {
        return false;
      }
      var org := infos[b.workspace].org;
      ghost var keys := KeysOf(exports, b.exportCluster, b.export_.name, org);
      assert CreateAll(models, keys[..0], RefTo(org)) == models;
      var found: bool := *;
      if !(reliable || found) || (b.exportCluster, b.export_.name) !in exports {
        return false;
      }
      var schemas := exports[(b.exportCluster, b.export_.name)];
      for i := 0 to |schemas|
        invariant models == CreateAll(old(models), keys[..i], RefTo(org))
      {
        found := *;
        if !(reliable || found) {
          return false;
        }
        var key := ModelKey(b.exportCluster, ToK8sName([schemas[i].group, schemas[i].plural, org.name]));
        ok := CreateOrUpdateModel(key, RefTo(org));
        if !ok {
          return;
        }
        CreateNext(old(models), keys, i, RefTo(org));
      }
      assert keys[..|keys|] == keys;
      KeysAre(exports, b.exportCluster, b.export_.name, org);
      ok := true;
    }

    /** Counts the listed bindings of the export in the organization; a failed lookup stops it. */
    method CountBindingsOf(bindings: seq<Binding>, infos: map<string, AccountInfo>, export_: ExportRef, orgId: string)
      returns (count: Option<nat>)
      ensures count.Some? ==> count.value == CountBindings(bindings, infos, export_, orgId)
      ensures count.Some? ==> count.value == |Places(bindings, infos, export_, orgId)|
      ensures reliable ==> count.Some?
    {
      CountIsCardinality(bindings, infos, export_, orgId);
      var bindingCount := 0;
      for i := 0 to |bindings|
        invariant bindingCount == CountBindings(bindings[..i], infos, export_, orgId)
      {
        assert bindings[..i + 1][..i] == bindings[..i];
        var b := bindings[i];
        if b.export_.name != export_.name || b.export_.path != export_.path {
          continue;
        }
        var reachable: bool := *;
        if !(reliable || reachable) {
          return None;
        }
        if b.workspace !in infos {
          continue;
        }
        if infos[b.workspace].org.generatedClusterId != orgId {
          continue;
        }
        bindingCount := bindingCount + 1;
      }
      assert bindings[..|bindings|] == bindings;
      count := Some(bindingCount);
    }

    method Finalize(b: Binding, bindings: seq<Binding>, infos: map<string, AccountInfo>) returns (ok: bool)
      modifies this`models
      ensures Finalized(exports, bindings, infos, b, old(models), models, ok)
      ensures b.workspace in infos && Shared(bindings, infos, b) ==> models == old(models)
      ensures ok ==> b.workspace in infos
      ensures ok && !Shared(bindings, infos, b) ==>
                && (b.exportCluster, b.export_.name) in exports
                && models.Keys <= old(models).Keys && (forall key :: key in models ==> models[key] == old(models)[key])
                && var org, schemas := infos[b.workspace].org, exports[(b.exportCluster, b.export_.name)];
                   forall key :: key in old(models) ==>
                     (key !in models <==>
                       exists schema :: schema in schemas
                         && key == ModelKey(b.exportCluster, ToK8sName([schema.group, schema.plural, org.name])))
      ensures reliable ==>
                (ok <==>
                  && b.workspace in infos
                  && (Shared(bindings, infos, b) || (b.exportCluster, b.export_.name) in exports))
    {
      if b.workspace !in infos {
        return false;
      }
      var org := infos[b.workspace].org;
      ghost var keys := KeysOf(exports, b.exportCluster, b.export_.name, org);
      assert DeleteAll(models, keys[..0]) == models;
      CountTwoIff(bindings, infos, b);
      var count := CountBindingsOf(bindings, infos, b.export_, org.generatedClusterId);
      if count.None? {
        return false;
      }
      if count.value > 1 {
        return true;
      }
      var found: bool := *;
      if !(reliable || found) || (b.exportCluster, b.export_.name) !in exports {
        return false;
      }
      var schemas := exports[(b.exportCluster, b.export_.name)];
      for i := 0 to |schemas|
        invariant models == DeleteAll(old(models), keys[..i])
      {
        found := *;
        if !(reliable || found) {
          return false;
        }
        var key := ModelKey(b.exportCluster, ToK8sName([schemas[i].group, schemas[i].plural, org.name]));
        ok := DeleteModel(key);
        if !ok {
          return;
        }
        DeleteNext(old(models), keys, i);
      }
      assert keys[..|keys|] == keys;
      KeysAre(exports, b.exportCluster, b.export_.name, org);
      ok := true;
    }
  }

  datatype Release = Released | Held | Failed

  /** The finalizer of an account info is released exactly when no listed binding of its workspace
      still holds the binding finalizer. */
  method FinalizeAccountInfo(workspaceBindings: Option<seq<Binding>>) returns (r: Release)
    ensures r.Failed? <==> workspaceBindings.None?
    ensures workspaceBindings.Some? ==>
              (r.Released? <==>
                forall b :: b in workspaceBindings.value ==>
                  "core.platform-mesh.io/apibinding-finalizer" !in b.finalizers)
  {
    if workspaceBindings.None? {
      return Failed;
    }
    for i := 0 to |workspaceBindings.value|
      invariant forall k :: 0 <= k < i ==> API_BINDING_FINALIZER !in workspaceBindings.value[k].finalizers
    {
      if API_BINDING_FINALIZER in workspaceBindings.value[i].finalizers {
        return Held;
      }
    }
    r := Released;
  }

  /** Different groups and plurals can be given the same model name: a dot in the group reads like
      the dash that joins group and plural. */
  lemma K8sNamesCollide(a: string, b: string, c: string, org: string)
    ensures ToK8sName([a + "." + b, c, org]) == ToK8sName([a, b + "-" + c, org])
  {
    var rest := b + "-" + (c + "-" + org);
    JoinThree(a + "." + b, c, org);
    JoinThree(a, b + "-" + c, org);
    assert Join([a + "." + b, c, org], '-') == a + "." + rest;
    assert Join([a, b + "-" + c, org], '-') == a + "-" + rest;
    DotReadsAsDash(a, rest);
  }

  lemma DotReadsAsDash(a: string, rest: string)
    ensures ReplaceAll(ToLower(a + "." + rest), '.', '-') == ReplaceAll(ToLower(a + "-" + rest), '.', '-')
  {
    var l, r := ToLower(a + "." + rest), ToLower(a + "-" + rest);
    assert forall i :: 0 <= i < |l| && i != |a| ==> l[i] == r[i];
    assert l[|a|] == '.' && r[|a|] == '-';
  }

  lemma JoinThree(a: string, b: string, c: string)
    ensures Join([a, b, c], '-') == a + "-" + (b + "-" + c)
  {
    assert [a, b, c][1..] == [b, c] && [b, c][1..] == [c];
    assert Join([b, c], '-') == b + "-" + c;
  }
}
