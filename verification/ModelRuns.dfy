/** Runs of bindings, account infos and their finalizers: a processed binding keeps its models, and
    a model does not outlive the bindings it was made for. */
module ModelRuns {
  import opened Strings
  import opened ModelGeneration
  import opened Wrappers

  /** What stays fixed: the exports, the cluster each export path names, and the organizations. */
  datatype World = World(exports: Exports, clusterOf: map<string, string>, orgs: set<Organization>)

  datatype State = State(bindings: seq<Binding>, infos: map<string, AccountInfo>, models: Models)

  /** Bindings are addressed by their place in the listing. */
  datatype Event =
    | Bind(b: Binding)
    | Process(i: nat, ok: bool)
    | Delete(i: nat)
    | Finalize(i: nat, ok: bool)
    | AddInfo(workspace: string, info: AccountInfo)
    | RemoveInfo(workspace: string)

  function RemoveAt(bindings: seq<Binding>, i: nat): seq<Binding>
    requires i < |bindings|
  {
    bindings[..i] + bindings[i + 1..]
  }

  predicate Holding(b: Binding) {
    API_BINDING_FINALIZER in b.finalizers
  }

  function Reconciled(b: Binding, ok: bool): Binding {
    b.(finalizers := b.finalizers + Finalizers(b.name), processed := b.processed || ok)
  }

  /** Reconciling a binding first sees to its finalizer; a deleted binding is gone at once without a
      finalizer and else once Finalize succeeds; a protected account info is gone once no binding of
      its workspace holds the finalizer, an unprotected one at any time. */
  ghost predicate Step(w: World, s: State, e: Event, s': State) {
    match e
    case Bind(b) =>
      !b.processed && !b.deleting && s' == s.(bindings := s.bindings + [b])
    case Process(i, ok) =>
      && i < |s.bindings| && !s.bindings[i].deleting
      && var b := s.bindings[i];
      && Processed(w.exports, s.infos, b, s.models, s'.models, ok)
      && s' == s.(models := s'.models, bindings := s'.bindings)
      && s'.bindings == s.bindings[i := Reconciled(b, ok)]
    case Delete(i) =>
      && i < |s.bindings|
      && s' == s.(bindings := s'.bindings)
      && s'.bindings == (if Holding(s.bindings[i]) then s.bindings[i := s.bindings[i].(deleting := true)]
                         else RemoveAt(s.bindings, i))
    case Finalize(i, ok) =>
      && i < |s.bindings| && s.bindings[i].deleting && Holding(s.bindings[i])
      && Finalized(w.exports, s.bindings, s.infos, s.bindings[i], s.models, s'.models, ok)
      && s' == s.(models := s'.models, bindings := if ok then RemoveAt(s.bindings, i) else s.bindings)
    case AddInfo(ws, info) =>
      ws !in s.infos && s' == s.(infos := s.infos[ws := info])
    case RemoveInfo(ws) =>
      && ws in s.infos
      && (s.infos[ws].protected_ ==> forall b :: b in s.bindings && b.workspace == ws ==> !Holding(b))
      && s' == s.(infos := s.infos - {ws})
  }

  ghost predicate Run(w: World, states: seq<State>, events: seq<Event>) {
    && |states| == |events| + 1
    && forall i :: 0 <= i < |events| ==> Step(w, states[i], events[i], states[i + 1])
  }

  function Keys(w: World, export_: ExportRef, org: Organization): seq<ModelKey> {
    if export_.path in w.clusterOf then KeysOf(w.exports, w.clusterOf[export_.path], export_.name, org) else []
  }

  /** A model name belongs to one export and one organization: exports of a cluster share no
      resource, different paths name different clusters, and no two names in use collide. */
  ghost predicate KeysIdentify(w: World) {
    forall e1: ExportRef, e2: ExportRef, o1: Organization, o2: Organization, key: ModelKey ::
      o1 in w.orgs && o2 in w.orgs && key in Keys(w, e1, o1) && key in Keys(w, e2, o2) ==> e1 == e2 && o1 == o2
  }

  ghost predicate OrgsIdentify(w: World) {
    forall o1, o2 :: o1 in w.orgs && o2 in w.orgs && o1.generatedClusterId == o2.generatedClusterId ==> o1 == o2
  }

  /** The export path of a binding names the cluster its status gives. */
  predicate Regular(w: World, b: Binding) {
    b.export_.path in w.clusterOf && w.clusterOf[b.export_.path] == b.exportCluster
  }

  predicate RegularEvent(w: World, e: Event) {
    match e
    case Bind(b) => Regular(w, b)
    case AddInfo(_, info) => info.protected_ && info.org in w.orgs
    case _ => true
  }

  predicate Complete(w: World, s: State, b: Binding) {
    && b.workspace in s.infos
    && forall key :: key in Keys(w, b.export_, s.infos[b.workspace].org) ==>
                       key in s.models && s.models[key] == RefTo(s.infos[b.workspace].org)
  }

  /** A processed binding has the finalizers its name asks for, and one that holds the finalizer has
      its account info and, until it is deleted, all its models. */
  ghost predicate Invariant(w: World, s: State) {
    && (forall ws :: ws in s.infos ==> s.infos[ws].protected_ && s.infos[ws].org in w.orgs)
    && (forall b :: b in s.bindings ==> Regular(w, b))
    && (forall b :: b in s.bindings && b.processed ==> Finalizers(b.name) <= b.finalizers)
    && (forall b :: b in s.bindings && Kept(b) ==> b.workspace in s.infos && (!b.deleting ==> Complete(w, s, b)))
  }

  predicate Kept(b: Binding) {
    b.processed && Holding(b) && !Skipped(b.export_.name)
  }

  lemma {:induction false} CountPositive(
    bindings: seq<Binding>, infos: map<string, AccountInfo>, e: ExportRef, orgId: string)
    ensures CountBindings(bindings, infos, e, orgId) > 0 <==> exists b :: b in bindings && Counts(infos, b, e, orgId)
  {
    if bindings != [] {
      var front := bindings[..|bindings| - 1];
      CountPositive(front, infos, e, orgId);
      assert bindings == front + [bindings[|bindings| - 1]];
    }
  }

  lemma {:induction false} CountWithout(
    bindings: seq<Binding>, infos: map<string, AccountInfo>, e: ExportRef, orgId: string, i: nat)
    requires i < |bindings| && Counts(infos, bindings[i], e, orgId)
    ensures CountBindings(bindings, infos, e, orgId) == CountBindings(RemoveAt(bindings, i), infos, e, orgId) + 1
  {
    var n := |bindings| - 1;
    var front, last := bindings[..n], bindings[n];
    assert bindings == front + [last];
    CountAppend(front, last, infos, e, orgId);
    if i == n {
      assert bindings[n + 1..] == [] && bindings[..i] == front && front + [] == front;
      assert RemoveAt(bindings, i) == front;
    } else {
      CountWithout(front, infos, e, orgId, i);
      assert bindings[..i] == front[..i] && bindings[i + 1..] == front[i + 1..] + [last];
      assert RemoveAt(bindings, i) == RemoveAt(front, i) + [last];
      CountAppend(RemoveAt(front, i), last, infos, e, orgId);
    }
  }

  lemma CountAppend(front: seq<Binding>, last: Binding, infos: map<string, AccountInfo>, e: ExportRef, orgId: string)
    ensures CountBindings(front + [last], infos, e, orgId) ==
            CountBindings(front, infos, e, orgId) + (if Counts(infos, last, e, orgId) then 1 else 0)
  {
    assert (front + [last])[..|front|] == front;
  }

  /** Finalize keeps the models exactly when another listed binding counts. */
  lemma OthersCountIff(bindings: seq<Binding>, infos: map<string, AccountInfo>, e: ExportRef, orgId: string, i: nat)
    requires i < |bindings| && Counts(infos, bindings[i], e, orgId)
    ensures CountBindings(bindings, infos, e, orgId) > 1 <==>
            exists b :: b in RemoveAt(bindings, i) && Counts(infos, b, e, orgId)
  {
    CountWithout(bindings, infos, e, orgId, i);
    CountPositive(RemoveAt(bindings, i), infos, e, orgId);
  }

  lemma Removing(bindings: seq<Binding>, i: nat, b: Binding)
    requires i < |bindings|
    ensures b in RemoveAt(bindings, i) ==> b in bindings
    ensures b in bindings && b != bindings[i] ==> b in RemoveAt(bindings, i)
  {
    assert bindings == bindings[..i] + [bindings[i]] + bindings[i + 1..];
  }

  lemma Updating(bindings: seq<Binding>, i: nat, b': Binding)
    requires i < |bindings|
    ensures forall b :: b in bindings[i := b'] ==> b == b' || b in bindings
    ensures forall b :: b in bindings && b != bindings[i] ==> b in bindings[i := b']
    ensures b' in bindings[i := b']
  {
    assert bindings[i := b'][i] == b';
    forall b | b in bindings && b != bindings[i]
      ensures b in bindings[i := b']
    {
      var k :| 0 <= k < |bindings| && bindings[k] == b;
      assert bindings[i := b'][k] == b;
    }
  }

  lemma ProcessKeepsInvariant(w: World, s: State, i: nat, ok: bool, s': State)
    requires KeysIdentify(w) && Invariant(w, s) && Step(w, s, Process(i, ok), s')
    ensures Invariant(w, s')
  {
    ProcessKeepsInfos(w, s, i, ok, s');
    Updating(s.bindings, i, Reconciled(s.bindings[i], ok));
    forall c | c in s'.bindings
      ensures Regular(w, c) && (c.processed ==> Finalizers(c.name) <= c.finalizers)
      ensures Kept(c) ==> c.workspace in s'.infos && (!c.deleting ==> Complete(w, s', c))
    {
      ProcessKeepsBinding(w, s, i, ok, s', c);
    }
  }

  lemma ProcessKeepsBinding(w: World, s: State, i: nat, ok: bool, s': State, c: Binding)
    requires KeysIdentify(w) && Invariant(w, s) && Step(w, s, Process(i, ok), s')
    requires c in s.bindings || c == Reconciled(s.bindings[i], ok)
    ensures Regular(w, c) && (c.processed ==> Finalizers(c.name) <= c.finalizers)
    ensures Kept(c) ==> c.workspace in s'.infos && (!c.deleting ==> Complete(w, s', c))
  {
    assert s.bindings[i] in s.bindings;
    if Kept(c) {
      if c in s.bindings {
        ProcessKeepsComplete(w, s, i, ok, s', c);
      } else {
        ProcessCompletes(w, s, i, ok, s');
      }
    }
  }

  /** What an attempt creates are models of the binding's export and organization, all of them on
      success. */
  lemma ProcessCreates(w: World, s: State, i: nat, ok: bool, s': State) returns (created: seq<ModelKey>)
    requires Step(w, s, Process(i, ok), s') && Regular(w, s.bindings[i])
    requires !Skipped(s.bindings[i].export_.name) && s.bindings[i].workspace in s.infos
    ensures var b := s.bindings[i];
            var org := s.infos[b.workspace].org;
            && s'.infos == s.infos && s'.models == CreateAll(s.models, created, RefTo(org))
            && (forall key :: key in created ==> key in Keys(w, b.export_, org))
            && (ok ==> created == Keys(w, b.export_, org))
  {
    var b := s.bindings[i];
    var org := s.infos[b.workspace].org;
    var keys := Keys(w, b.export_, org);
    var k :| 0 <= k <= |keys| && s'.models == CreateAll(s.models, keys[..k], RefTo(org)) && (ok ==> k == |keys|);
    created := keys[..k];
  }

  lemma ProcessKeepsComplete(w: World, s: State, i: nat, ok: bool, s': State, c: Binding)
    requires KeysIdentify(w) && Invariant(w, s) && Step(w, s, Process(i, ok), s')
    requires c in s.bindings && Kept(c)
    ensures c.workspace in s'.infos && (!c.deleting ==> Complete(w, s', c))
  {
    var b := s.bindings[i];
    ProcessKeepsInfos(w, s, i, ok, s');
    if !c.deleting && !Skipped(b.export_.name) && b.workspace in s.infos {
      var created := ProcessCreates(w, s, i, ok, s');
      StaysComplete(w, s, s', c, b, created);
    }
  }

  lemma ProcessKeepsInfos(w: World, s: State, i: nat, ok: bool, s': State)
    requires Invariant(w, s) && Step(w, s, Process(i, ok), s')
    ensures s'.infos == s.infos && Regular(w, s.bindings[i])
    ensures Skipped(s.bindings[i].export_.name) || s.bindings[i].workspace !in s.infos ==> s'.models == s.models
  {
    assert s.bindings[i] in s.bindings;
  }

  lemma ProcessCompletes(w: World, s: State, i: nat, ok: bool, s': State)
    requires Invariant(w, s) && Step(w, s, Process(i, ok), s')
    requires var b := Reconciled(s.bindings[i], ok); Kept(b) && b !in s.bindings
    ensures var b := Reconciled(s.bindings[i], ok); b.workspace in s'.infos && Complete(w, s', b)
  {
    var b := s.bindings[i];
    assert b in s.bindings && Regular(w, b);
    assert b.processed ==> b.finalizers + Finalizers(b.name) == b.finalizers && Reconciled(b, ok) == b;
    assert ok && !b.processed;
    var created := ProcessCreates(w, s, i, ok, s');
  }

  lemma StaysComplete(w: World, s: State, s': State, c: Binding, b: Binding, created: seq<ModelKey>)
    requires KeysIdentify(w) && Complete(w, s, c)
    requires forall ws :: ws in s.infos ==> s.infos[ws].org in w.orgs
    requires b.workspace in s.infos && s'.infos == s.infos
    requires s'.models == CreateAll(s.models, created, RefTo(s.infos[b.workspace].org))
    requires forall key :: key in created ==> key in Keys(w, b.export_, s.infos[b.workspace].org)
    ensures Complete(w, s', c)
  {
    var org := s.infos[c.workspace].org;
    forall key | key in Keys(w, c.export_, org)
      ensures key in s'.models && s'.models[key] == RefTo(org)
    {
      if key in created {
        assert key in Keys(w, b.export_, s.infos[b.workspace].org);
      }
    }
  }

  /** Deleting models of binding i while nobody else counts touches no model of a binding that is not
      deleted and has its account info. */
  lemma FinalizeSpares(w: World, s: State, i: nat, c: Binding, key: ModelKey)
    requires KeysIdentify(w) && forall ws :: ws in s.infos ==> s.infos[ws].org in w.orgs
    requires i < |s.bindings| && s.bindings[i].deleting && s.bindings[i].workspace in s.infos
    requires var b := s.bindings[i];
             CountBindings(s.bindings, s.infos, b.export_, s.infos[b.workspace].org.generatedClusterId) <= 1
    requires c in s.bindings && !c.deleting && c.workspace in s.infos
    requires key in Keys(w, c.export_, s.infos[c.workspace].org)
    ensures key !in Keys(w, s.bindings[i].export_, s.infos[s.bindings[i].workspace].org)
  {
    var b := s.bindings[i];
    var org := s.infos[b.workspace].org;
    if key in Keys(w, b.export_, org) {
      assert c.export_ == b.export_ && s.infos[c.workspace].org == org;
      Removing(s.bindings, i, c);
      OthersCountIff(s.bindings, s.infos, b.export_, org.generatedClusterId, i);
      assert Counts(s.infos, c, b.export_, org.generatedClusterId);
    }
  }

  lemma ModelsSpared(w: World, s: State, i: nat, ok: bool, s': State, c: Binding)
    requires KeysIdentify(w) && Invariant(w, s) && Step(w, s, Finalize(i, ok), s')
    requires c in s.bindings && !c.deleting && Complete(w, s, c)
    ensures Complete(w, s', c)
  {
    var b := s.bindings[i];
    assert b in s.bindings && Regular(w, b);
    if b.workspace in s.infos {
      var org := s.infos[b.workspace].org;
      var keys := Keys(w, b.export_, org);
      if CountBindings(s.bindings, s.infos, b.export_, org.generatedClusterId) <= 1 {
        var k :| 0 <= k <= |keys| && s'.models == DeleteAll(s.models, keys[..k]);
        forall key | key in Keys(w, c.export_, s.infos[c.workspace].org)
          ensures key in s'.models && s'.models[key] == RefTo(s.infos[c.workspace].org)
        {
          FinalizeSpares(w, s, i, c, key);
        }
      }
    }
  }

  lemma FinalizeKeepsInvariant(w: World, s: State, i: nat, ok: bool, s': State)
    requires KeysIdentify(w) && Invariant(w, s) && Step(w, s, Finalize(i, ok), s')
    ensures Invariant(w, s')
  {
    forall c
      ensures c in s'.bindings ==> c in s.bindings
    {
      Removing(s.bindings, i, c);
    }
    forall c | c in s'.bindings && Kept(c) && !c.deleting
      ensures Complete(w, s', c)
    {
      ModelsSpared(w, s, i, ok, s', c);
    }
  }

  lemma DeleteKeepsInvariant(w: World, s: State, i: nat, s': State)
    requires Invariant(w, s) && Step(w, s, Delete(i), s')
    ensures Invariant(w, s')
  {
    var b := s.bindings[i];
    assert b in s.bindings;
    var b' := b.(deleting := true);
    if Holding(b) {
      Updating(s.bindings, i, b');
    }
    forall c | c in s'.bindings
      ensures c in s.bindings || (Holding(b) && c == b')
    {
      Removing(s.bindings, i, c);
    }
    SameModels(w, s, s');
  }

  /** Bindings that were there stay complete as long as models and account infos of holders do. */
  lemma SameModels(w: World, s: State, s': State)
    requires Invariant(w, s) && s'.models == s.models
    ensures forall c :: c in s.bindings && Kept(c) && !c.deleting
                        && c.workspace in s'.infos && s'.infos[c.workspace] == s.infos[c.workspace]
                        ==> Complete(w, s', c)
  {
    forall c | c in s.bindings && Kept(c) && !c.deleting
               && c.workspace in s'.infos && s'.infos[c.workspace] == s.infos[c.workspace]
      ensures Complete(w, s', c)
    {
      assert Complete(w, s, c);
    }
  }

  lemma StepKeepsInvariant(w: World, s: State, e: Event, s': State)
    requires KeysIdentify(w) && RegularEvent(w, e)
    requires Invariant(w, s) && Step(w, s, e, s')
    ensures Invariant(w, s')
  {
    match e
    case Process(i, ok) => ProcessKeepsInvariant(w, s, i, ok, s');
    case Delete(i) => DeleteKeepsInvariant(w, s, i, s');
    case Finalize(i, ok) => FinalizeKeepsInvariant(w, s, i, ok, s');
    case _ => SameModels(w, s, s');
  }

  /** In every state of every run, whichever calls fail and whether or not bindings carry their
      finalizer from the start: a processed binding whose name asks for the finalizer holds it until it
      is released, and as long as its export bears models it has its account info and, until it is
      deleted, all its models, pointing at its organization's store. */
  lemma {:induction false} RunKeepsInvariant(w: World, states: seq<State>, events: seq<Event>, i: nat)
    requires KeysIdentify(w)
    requires Run(w, states, events) && Invariant(w, states[0])
    requires forall e :: e in events ==> RegularEvent(w, e)
    requires i < |states|
    ensures Invariant(w, states[i])
    ensures forall b :: b in states[i].bindings && b.processed && Finalizers(b.name) != {} ==> Holding(b)
    ensures forall b :: b in states[i].bindings && Kept(b) && !b.deleting ==>
              && b.workspace in states[i].infos
              && var org := states[i].infos[b.workspace].org;
                 forall key :: key in Keys(w, b.export_, org) ==>
                   && key in states[i].models
                   && states[i].models[key].name == org.name && states[i].models[key].cluster == org.originClusterId
  {
    if i > 0 {
      RunKeepsInvariant(w, states, events, i - 1);
      StepKeepsInvariant(w, states[i - 1], events[i - 1], states[i]);
    }
    KeptNameStores(w, states[i]);
  }

  /** The models of kept bindings name their organization and its origin cluster. */
  lemma KeptNameStores(w: World, s: State)
    requires Invariant(w, s)
    ensures forall b :: b in s.bindings && b.processed && Finalizers(b.name) != {} ==> Holding(b)
    ensures forall b :: b in s.bindings && Kept(b) && !b.deleting ==>
              && b.workspace in s.infos
              && var org := s.infos[b.workspace].org;
                 forall key :: key in Keys(w, b.export_, org) ==>
                   && key in s.models && s.models[key].name == org.name && s.models[key].cluster == org.originClusterId
  {
  }

  /** The finalizer protocol: while a binding holds its finalizer, the account info of its workspace
      stays what it is. */
  lemma InfoStaysWhileHeld(w: World, s: State, e: Event, s': State, ws: string)
    requires Invariant(w, s) && Step(w, s, e, s') && ws in s.infos
    requires exists b :: b in s.bindings && Holding(b) && b.workspace == ws
    ensures ws in s'.infos && s'.infos[ws] == s.infos[ws]
  {
  }

  /** Over a run: as long as in every state some binding of the workspace holds its finalizer, the
      account info stays what it is, so every binding of the workspace keeps its organization and is
      counted for it. */
  lemma {:induction false} InfoStaysThroughRun(
    w: World, states: seq<State>, events: seq<Event>, ws: string, i: nat, j: nat)
    requires KeysIdentify(w)
    requires Run(w, states, events) && Invariant(w, states[0]) && forall e :: e in events ==> RegularEvent(w, e)
    requires i <= j < |states| && ws in states[i].infos
    requires forall k :: i <= k < j ==> exists b :: b in states[k].bindings && Holding(b) && b.workspace == ws
    ensures ws in states[j].infos && states[j].infos[ws] == states[i].infos[ws]
  {
    if j > i {
      InfoStaysThroughRun(w, states, events, ws, i, j - 1);
      RunKeepsInvariant(w, states, events, j - 1);
      InfoStaysWhileHeld(w, states[j - 1], events[j - 1], states[j], ws);
    }
  }

  /** In every state of every run, Finalize of a processed binding whose name asks for the finalizer
      finds the account info it needs, and the binding is counted for its own organization whenever
      another one is finalized. */
  lemma FinalizeFindsInfo(w: World, states: seq<State>, events: seq<Event>, i: nat, b: Binding)
    requires KeysIdentify(w)
    requires Run(w, states, events) && Invariant(w, states[0]) && forall e :: e in events ==> RegularEvent(w, e)
    requires i < |states| && b in states[i].bindings && b.processed && !Skipped(b.export_.name)
    requires Finalizers(b.name) != {}
    ensures var s := states[i];
            && b.workspace in s.infos
            && Counts(s.infos, b, b.export_, s.infos[b.workspace].org.generatedClusterId)
            && CountBindings(s.bindings, s.infos, b.export_, s.infos[b.workspace].org.generatedClusterId) > 0
  {
    RunKeepsInvariant(w, states, events, i);
    var s := states[i];
    CountPositive(s.bindings, s.infos, b.export_, s.infos[b.workspace].org.generatedClusterId);
  }

  /** The binding of the export in the organization holds the finalizer. */
  predicate Holder(s: State, e: ExportRef, org: Organization, b: Binding) {
    Holding(b) && b.export_ == e && b.workspace in s.infos && s.infos[b.workspace].org == org
  }

  /** Models of the export in the organization are there only while a listed binding of the two holds
      the finalizer. */
  ghost predicate Held(w: World, s: State, e: ExportRef, org: Organization) {
    forall key :: key in Keys(w, e, org) && key in s.models ==> exists b :: b in s.bindings && Holder(s, e, org, b)
  }

  /** Every listed binding of the export holds the finalizer. */
  predicate AllHolding(s: State, e: ExportRef) {
    forall b :: b in s.bindings && b.export_ == e ==> Holding(b)
  }

  /** The bindings of the export carry the finalizer from the start. */
  ghost predicate HoldingFromStart(events: seq<Event>, e: ExportRef) {
    forall b :: Bind(b) in events && b.export_ == e ==> Holding(b)
  }

  lemma StepKeepsHeld(w: World, s: State, ev: Event, s': State, e: ExportRef, org: Organization)
    requires KeysIdentify(w) && OrgsIdentify(w) && RegularEvent(w, ev) && org in w.orgs
    requires Invariant(w, s) && AllHolding(s, e) && Held(w, s, e, org) && Step(w, s, ev, s')
    requires ev.Bind? && ev.b.export_ == e ==> Holding(ev.b)
    ensures AllHolding(s', e) && Held(w, s', e, org)
  {
    match ev
    case Process(i, ok) => ProcessKeepsHeld(w, s, i, ok, s', e, org);
    case Delete(i) =>
      if Holding(s.bindings[i]) {
        var b' := s.bindings[i].(deleting := true);
        Updating(s.bindings, i, b');
        assert s.bindings[i] in s.bindings && (Holder(s, e, org, s.bindings[i]) ==> Holder(s', e, org, b'));
      } else {
        forall c
          ensures c in s'.bindings ==> c in s.bindings
          ensures c in s.bindings && c != s.bindings[i] ==> c in s'.bindings
        {
          Removing(s.bindings, i, c);
        }
      }
      HoldersRemain(w, s, s', e, org);
    case Finalize(i, ok) => FinalizeKeepsHeld(w, s, i, ok, s', e, org);
    case _ =>
      assert forall b :: b in s.bindings && Holder(s, e, org, b) ==> b in s'.bindings && Holder(s', e, org, b);
      HoldersRemain(w, s, s', e, org);
  }

  lemma HoldersRemain(w: World, s: State, s': State, e: ExportRef, org: Organization)
    requires Held(w, s, e, org) && forall key :: key in s'.models ==> key in s.models
    requires forall b :: b in s.bindings && Holder(s, e, org, b) ==>
             exists c :: c in s'.bindings && Holder(s', e, org, c)
    ensures Held(w, s', e, org)
  {
    forall key | key in Keys(w, e, org) && key in s'.models
      ensures exists c :: c in s'.bindings && Holder(s', e, org, c)
    {
      var b :| b in s.bindings && Holder(s, e, org, b);
    }
  }

  lemma ProcessKeepsHeld(w: World, s: State, i: nat, ok: bool, s': State, e: ExportRef, org: Organization)
    requires KeysIdentify(w) && Invariant(w, s) && Step(w, s, Process(i, ok), s') && org in w.orgs
    requires AllHolding(s, e) && Held(w, s, e, org)
    ensures AllHolding(s', e) && Held(w, s', e, org)
  {
    var b, b' := s.bindings[i], Reconciled(s.bindings[i], ok);
    assert b in s.bindings && Regular(w, b);
    Updating(s.bindings, i, b');
    forall key | key in Keys(w, e, org) && key in s'.models
      ensures exists c :: c in s'.bindings && Holder(s', e, org, c)
    {
      if key in s.models {
        var c :| c in s.bindings && Holder(s, e, org, c);
        var c' := if c == b then b' else c;
        assert c' in s'.bindings && Holder(s', e, org, c');
      } else {
        var created := ProcessCreates(w, s, i, ok, s');
        assert key in created && b.export_ == e;
        assert b' in s'.bindings && Holder(s', e, org, b');
      }
    }
  }

  lemma FinalizeKeepsHeld(w: World, s: State, i: nat, ok: bool, s': State, e: ExportRef, org: Organization)
    requires OrgsIdentify(w) && Invariant(w, s) && Step(w, s, Finalize(i, ok), s') && org in w.orgs
    requires AllHolding(s, e) && Held(w, s, e, org)
    ensures AllHolding(s', e) && Held(w, s', e, org)
  {
    var b := s.bindings[i];
    forall c
      ensures c in s'.bindings ==> c in s.bindings
      ensures c in s.bindings && (c != b || !ok) ==> c in s'.bindings
    {
      Removing(s.bindings, i, c);
    }
    forall key | key in Keys(w, e, org) && key in s'.models
      ensures exists c :: c in s'.bindings && Holder(s', e, org, c)
    {
      var c :| c in s.bindings && Holder(s, e, org, c);
      if c == b && ok {
        HolderReplaced(w, s, i, s', e, org, key);
      } else {
        assert c in s'.bindings && Holder(s', e, org, c);
      }
    }
  }

  /** A model that survives the release of a holder has another holder. */
  lemma HolderReplaced(w: World, s: State, i: nat, s': State, e: ExportRef, org: Organization, key: ModelKey)
    requires OrgsIdentify(w) && Invariant(w, s) && Step(w, s, Finalize(i, true), s') && org in w.orgs
    requires AllHolding(s, e) && Holder(s, e, org, s.bindings[i])
    requires key in Keys(w, e, org) && key in s'.models
    ensures exists c :: c in s'.bindings && Holder(s', e, org, c)
  {
    var b := s.bindings[i];
    assert b in s.bindings && Regular(w, b);
    ReleaseKeepsModelIff(w, s, i, s', key);
    var c :| c in RemoveAt(s.bindings, i) && Counts(s.infos, c, e, org.generatedClusterId);
    Removing(s.bindings, i, c);
    assert Holder(s', e, org, c);
  }

  /** In every run in which the bindings of an export carry the finalizer from the start, whatever
      other bindings do: a model of the export exists only while a listed binding of it in the
      organization holds the finalizer. */
  lemma {:induction false} ModelsAreHeld(
    w: World, states: seq<State>, events: seq<Event>, i: nat, e: ExportRef, org: Organization)
    requires KeysIdentify(w) && OrgsIdentify(w) && org in w.orgs
    requires Run(w, states, events) && Invariant(w, states[0]) && forall ev :: ev in events ==> RegularEvent(w, ev)
    requires HoldingFromStart(events, e) && AllHolding(states[0], e) && Held(w, states[0], e, org)
    requires i < |states|
    ensures AllHolding(states[i], e) && Held(w, states[i], e, org)
  {
    if i > 0 {
      ModelsAreHeld(w, states, events, i - 1, e, org);
      RunKeepsInvariant(w, states, events, i - 1);
      StepKeepsHeld(w, states[i - 1], events[i - 1], states[i], e, org);
    }
  }

  /** In every state of every such run in which no binding of the export is left in an organization,
      none of the models of the two is. */
  lemma LastReleaseLeavesNothing(
    w: World, states: seq<State>, events: seq<Event>, i: nat, key: ModelKey, e: ExportRef, org: Organization)
    requires KeysIdentify(w) && OrgsIdentify(w) && org in w.orgs
    requires Run(w, states, events) && Invariant(w, states[0]) && forall ev :: ev in events ==> RegularEvent(w, ev)
    requires HoldingFromStart(events, e) && AllHolding(states[0], e) && Held(w, states[0], e, org)
    requires i < |states| && key in Keys(w, e, org)
    requires forall b :: b in states[i].bindings && b.workspace in states[i].infos ==>
                           b.export_ != e || states[i].infos[b.workspace].org != org
    ensures key !in states[i].models
  {
    ModelsAreHeld(w, states, events, i, e, org);
  }

  ghost predicate Counted(s: State, e: ExportRef, orgId: string) {
    exists b :: b in s.bindings && Counts(s.infos, b, e, orgId)
  }

  /** The step removes all that counts without anybody deleting the models: the last counted binding
      is deleted without holding the finalizer, or the account info of all of them goes, which their
      holding it would prevent. */
  ghost predicate Abandons(s: State, ev: Event, e: ExportRef, orgId: string) {
    || (&& ev.Delete? && ev.i < |s.bindings| && !Holding(s.bindings[ev.i])
        && forall c :: c in RemoveAt(s.bindings, ev.i) ==> !Counts(s.infos, c, e, orgId))
    || (&& ev.RemoveInfo?
        && forall c :: c in s.bindings && Counts(s.infos, c, e, orgId) ==> c.workspace == ev.workspace)
  }

  /** From a state in which a model's export and organization have a counted binding, one step leads to
      a state where the model is there with none if and only if the step abandons it. */
  lemma OrphansIff(w: World, s: State, ev: Event, s': State, e: ExportRef, org: Organization, key: ModelKey)
    requires Invariant(w, s) && RegularEvent(w, ev) && OrgsIdentify(w) && Step(w, s, ev, s')
    requires org in w.orgs && key in Keys(w, e, org) && key in s.models
    requires Counted(s, e, org.generatedClusterId)
    ensures key in s'.models && !Counted(s', e, org.generatedClusterId) <==> Abandons(s, ev, e, org.generatedClusterId)
  {
    var id := org.generatedClusterId;
    var b :| b in s.bindings && Counts(s.infos, b, e, id);
    match ev
    case Bind(_) => StillCounts(s', b, e, id);
    case Process(i, ok) => ProcessKeepsCounted(w, s, i, ok, s', e, id, b);
    case Delete(i) => DeleteOrphansIff(s, i, s', e, id, b);
    case Finalize(i, ok) => FinalizeOrphansNothing(w, s, i, ok, s', e, org, key, b);
    case AddInfo(_, _) => StillCounts(s', b, e, id);
    case RemoveInfo(workspace) => RemoveInfoOrphansIff(s, workspace, s', e, id);
  }

  lemma StillCounts(s: State, b: Binding, e: ExportRef, orgId: string)
    requires b in s.bindings && Counts(s.infos, b, e, orgId)
    ensures Counted(s, e, orgId)
  {
  }

  lemma RemoveInfoOrphansIff(s: State, workspace: string, s': State, e: ExportRef, orgId: string)
    requires s'.bindings == s.bindings && s'.infos == s.infos - {workspace}
    ensures !Counted(s', e, orgId) <==>
            forall c :: c in s.bindings && Counts(s.infos, c, e, orgId) ==> c.workspace == workspace
  {
    forall c | c in s.bindings
      ensures Counts(s'.infos, c, e, orgId) <==> Counts(s.infos, c, e, orgId) && c.workspace != workspace
    {
    }
  }

  lemma ProcessKeepsCounted(
    w: World, s: State, i: nat, ok: bool, s': State, e: ExportRef, orgId: string, b: Binding)
    requires Step(w, s, Process(i, ok), s') && b in s.bindings && Counts(s.infos, b, e, orgId)
    ensures Counted(s', e, orgId)
  {
    var b' := if b == s.bindings[i] then Reconciled(b, ok) else b;
    Updating(s.bindings, i, Reconciled(s.bindings[i], ok));
    assert b' in s'.bindings && Counts(s'.infos, b', e, orgId);
  }

  lemma DeleteOrphansIff(s: State, i: nat, s': State, e: ExportRef, orgId: string, b: Binding)
    requires i < |s.bindings| && s'.infos == s.infos && b in s.bindings && Counts(s.infos, b, e, orgId)
    requires s'.bindings == if Holding(s.bindings[i]) then s.bindings[i := s.bindings[i].(deleting := true)]
                            else RemoveAt(s.bindings, i)
    ensures !Counted(s', e, orgId) <==> Abandons(s, Delete(i), e, orgId)
  {
    if Holding(s.bindings[i]) {
      var b' := if b == s.bindings[i] then b.(deleting := true) else b;
      Updating(s.bindings, i, s.bindings[i].(deleting := true));
      assert b' in s'.bindings && Counts(s'.infos, b', e, orgId);
    }
  }

  lemma FinalizeOrphansNothing(
    w: World, s: State, i: nat, ok: bool, s': State, e: ExportRef, org: Organization, key: ModelKey, b: Binding)
    requires Invariant(w, s) && OrgsIdentify(w) && Step(w, s, Finalize(i, ok), s')
    requires org in w.orgs && key in Keys(w, e, org) && key in s.models
    requires b in s.bindings && Counts(s.infos, b, e, org.generatedClusterId)
    ensures key in s'.models ==> Counted(s', e, org.generatedClusterId)
  {
    Removing(s.bindings, i, b);
    if b == s.bindings[i] && ok && key in s'.models {
      assert Regular(w, b) && s.infos[b.workspace].org == org;
      ReleaseKeepsModelIff(w, s, i, s', key);
    } else {
      assert key in s'.models ==> b in s'.bindings && Counts(s'.infos, b, e, org.generatedClusterId);
    }
  }

  /** Releasing a binding keeps its models if and only if another listed binding counts, that is,
      names the export with the same text and has an account info of the same organization. No
      assumption on paths or names is made: an export reached under two path texts loses its models
      with the first release. */
  lemma ReleaseKeepsModelIff(w: World, s: State, i: nat, s': State, key: ModelKey)
    requires Step(w, s, Finalize(i, true), s')
    requires key in s.models
    requires var b := s.bindings[i];
             b.workspace in s.infos
               && key in KeysOf(w.exports, b.exportCluster, b.export_.name, s.infos[b.workspace].org)
    ensures var b := s.bindings[i];
            key in s'.models <==>
            exists c ::
              c in RemoveAt(s.bindings, i) && Counts(s.infos, c, b.export_, s.infos[b.workspace].org.generatedClusterId)
  {
    var b := s.bindings[i];
    var org := s.infos[b.workspace].org;
    var keys := KeysOf(w.exports, b.exportCluster, b.export_.name, org);
    assert keys[..|keys|] == keys;
    OthersCountIff(s.bindings, s.infos, b.export_, org.generatedClusterId, i);
  }

  /** Different path texts must name different clusters: releasing a binding takes the models of any
      other binding of the same export and organization, unless a third one names the export with the
      text of the released one. */
  lemma OtherPathLosesModels(w: World, s: State, i: nat, s': State, c: Binding, key: ModelKey)
    requires Step(w, s, Finalize(i, true), s') && c in RemoveAt(s.bindings, i) && Complete(w, s, c)
    requires var b := s.bindings[i];
             && b.workspace in s.infos
             && key in KeysOf(w.exports, b.exportCluster, b.export_.name, s.infos[b.workspace].org)
             && key in Keys(w, c.export_, s.infos[c.workspace].org)
             && forall d :: d in RemoveAt(s.bindings, i) ==> d.export_ != b.export_
    ensures c in s'.bindings && !Complete(w, s', c)
  {
    ReleaseKeepsModelIff(w, s, i, s', key);
  }

  /** Two processed bindings that reach one export under different path texts in one organization, with
      all their models; the first is being deleted. */
  predicate SharesExport(w: World, s: State, org: Organization, b: Binding, c: Binding) {
    && s.bindings == [b, c] && Regular(w, b) && Regular(w, c) && Holding(b) && Holding(c)
    && b.processed && b.deleting && c.processed && !c.deleting
    && b.exportCluster == c.exportCluster && b.export_.name == c.export_.name && b.export_.path != c.export_.path
    && !Skipped(b.export_.name) && org in w.orgs
    && s.infos == map[b.workspace := AccountInfo(org, true), c.workspace := AccountInfo(org, true)]
    && var keys := KeysOf(w.exports, b.exportCluster, b.export_.name, org);
       keys != [] && s.models == map key | key in keys :: RefTo(org)
  }

  /** Such a state keeps everything runs keep, and the release of the first binding succeeds in it and
      leaves the second, processed and not deleted, without its models. */
  lemma TwoPathsLoseModels(w: World, s: State, org: Organization, b: Binding, c: Binding) returns (s': State)
    requires SharesExport(w, s, org, b, c)
    requires Finalizers(b.name) <= b.finalizers && Finalizers(c.name) <= c.finalizers
    ensures Invariant(w, s) && Step(w, s, Finalize(0, true), s')
    ensures s' == State([c], s.infos, map[]) && !Complete(w, s', c)
  {
    var keys := KeysOf(w.exports, b.exportCluster, b.export_.name, org);
    s' := State([c], s.infos, map[]);
    SharedReleaseStep(w, s, org, b, c);
    assert RemoveAt(s.bindings, 0) == [c] && c in [c];
    assert keys[0] in keys;
    OtherPathLosesModels(w, s, 0, s', c, keys[0]);
    SharedInvariant(w, s, org, b, c);
  }

  lemma SharedReleaseStep(w: World, s: State, org: Organization, b: Binding, c: Binding)
    requires SharesExport(w, s, org, b, c)
    ensures Step(w, s, Finalize(0, true), State([c], s.infos, map[]))
  {
    var keys := KeysOf(w.exports, b.exportCluster, b.export_.name, org);
    assert [b, c][..1] == [b] && [b][..0] == [] && RemoveAt([b, c], 0) == [c];
    assert CountBindings([b], s.infos, b.export_, org.generatedClusterId) <= 1;
    assert CountBindings([b, c], s.infos, b.export_, org.generatedClusterId) <= 1;
    assert keys[..|keys|] == keys && DeleteAll(s.models, keys) == map[];
  }

  lemma SharedInvariant(w: World, s: State, org: Organization, b: Binding, c: Binding)
    requires SharesExport(w, s, org, b, c)
    requires Finalizers(b.name) <= b.finalizers && Finalizers(c.name) <= c.finalizers
    ensures Invariant(w, s)
  {
    assert b in s.bindings && c in s.bindings;
  }

  /** A finalizer from the start is needed: a binding that counts before its first reconcile and is
      deleted before it has a finalizer makes the other binding's Finalize leave the models behind,
      with no binding listed. */
  lemma UnreconciledBindingLeaks(w: World, s0: State, b: Binding, c: Binding, org: Organization)
    returns (states: seq<State>)
    requires s0.bindings == [b, c] && b.deleting && Holding(b) && !Holding(c)
    requires b.workspace in s0.infos && s0.infos[b.workspace].org == org
    requires Counts(s0.infos, c, b.export_, org.generatedClusterId)
    ensures Run(w, states, [Finalize(0, true), Delete(0)])
    ensures states[0] == s0 && states[2] == s0.(bindings := [])
  {
    assert s0.bindings[0] == b && s0.bindings[1] == c;
    OthersCountIff(s0.bindings, s0.infos, b.export_, org.generatedClusterId, 0);
    assert RemoveAt(s0.bindings, 0) == [c] && c in [c] && RemoveAt([c], 0) == [];
    assert Counts(s0.infos, b, b.export_, org.generatedClusterId);
    states := [s0, s0.(bindings := [c]), s0.(bindings := [])];
    assert Finalized(w.exports, s0.bindings, s0.infos, b, s0.models, s0.models, true);
  }

  /** The finalizer goes by the name of the binding, the models by the name of the export: a binding
      named after the platform's own user interface export gets models, but no finalizer. */
  lemma NameWithoutFinalizer()
    ensures Finalizers("ui.platform-mesh.io") == {} && !Skipped("ui.platform-mesh.io")
  {
    var name := "ui.platform-mesh.io";
    assert name[3..] == "platform-mesh.io" && OccursAt(name, "platform-mesh.io", 3);
    assert |name| == 19 && |"core.platform-mesh.io"| == 21 && |"system.platform-mesh.io"| == 23;
    assert name[13..][0] == 'e' && "kcp.io"[0] == 'k';
  }

  /** A binding of an export that bears models, whose name gets no finalizer. */
  predicate Unprotected(w: World, b: Binding, org: Organization) {
    && Regular(w, b) && b.finalizers == {} && Finalizers(b.name) == {}
    && !Skipped(b.export_.name) && KeysOf(w.exports, b.exportCluster, b.export_.name, org) != []
  }

  function ModelsOf(w: World, b: Binding, org: Organization): Models {
    CreateAll(map[], KeysOf(w.exports, b.exportCluster, b.export_.name, org), RefTo(org))
  }

  lemma ProcessStep(w: World, s: State, b: Binding, org: Organization)
    requires s.bindings == [b] && Unprotected(w, b, org) && !b.deleting && !b.processed
    requires b.workspace in s.infos && s.infos[b.workspace].org == org && s.models == map[]
    ensures Step(w, s, Process(0, true), State([b.(processed := true)], s.infos, ModelsOf(w, b, org)))
  {
    var keys := KeysOf(w.exports, b.exportCluster, b.export_.name, org);
    assert keys[..|keys|] == keys;
    assert [b][0 := b.(processed := true)] == [b.(processed := true)] && b.finalizers + Finalizers(b.name) == {};
  }

  lemma Extend(w: World, states: seq<State>, events: seq<Event>, e: Event, s': State) returns (states': seq<State>)
    requires Run(w, states, events) && Step(w, states[|events|], e, s')
    ensures Run(w, states', events + [e])
    ensures states'[0] == states[0] && states'[|events| + 1] == s'
  {
    states' := states + [s'];
  }

  lemma BoundRun(w: World, b: Binding, info: AccountInfo) returns (states: seq<State>)
    requires !b.processed && !b.deleting
    ensures Run(w, states, [AddInfo(b.workspace, info), Bind(b)])
    ensures states[0] == State([], map[], map[]) && states[2] == State([b], map[b.workspace := info], map[])
  {
    var infos := map[b.workspace := info];
    assert [] + [b] == [b] && map[][b.workspace := info] == infos;
    states := [State([], map[], map[]), State([], infos, map[]), State([b], infos, map[])];
  }

  lemma DeleteStep(w: World, b: Binding, infos: map<string, AccountInfo>, models: Models)
    requires !Holding(b)
    ensures Step(w, State([b], infos, models), Delete(0), State([], infos, models))
  {
    assert RemoveAt([b], 0) == [];
  }

  /** A binding is bound in a workspace with its account info, processed and deleted. */
  function LeakEvents(b: Binding, info: AccountInfo): seq<Event> {
    [AddInfo(b.workspace, info), Bind(b), Process(0, true), Delete(0)]
  }

  lemma LeakRun(w: World, b: Binding, b1: Binding, info: AccountInfo, models: Models) returns (states: seq<State>)
    requires !b.processed && !b.deleting && !Holding(b1)
    requires Step(w, State([b], map[b.workspace := info], map[]), Process(0, true),
             State([b1], map[b.workspace := info], models))
    ensures Run(w, states, LeakEvents(b, info))
    ensures states[0] == State([], map[], map[]) && states[4] == State([], map[b.workspace := info], models)
  {
    var infos, events := map[b.workspace := info], [AddInfo(b.workspace, info), Bind(b)];
    states := BoundRun(w, b, info);
    states := Extend(w, states, events, Process(0, true), State([b1], infos, models));
    DeleteStep(w, b1, infos, models);
    states := Extend(w, states, events + [Process(0, true)], Delete(0), State([], infos, models));
    assert events + [Process(0, true)] + [Delete(0)] == LeakEvents(b, info);
  }

  lemma LeakEventsAreRegular(w: World, b: Binding, org: Organization)
    requires Regular(w, b) && org in w.orgs
    ensures forall ev :: ev in LeakEvents(b, AccountInfo(org, true)) ==> RegularEvent(w, ev)
  {
  }

  /** Such a binding leaves its models behind: it is processed, then deleted, and no binding is listed
      any more. Everything else runs are assumed to keep to holds. */
  lemma UnprotectedBindingLeaks(w: World, b: Binding, org: Organization) returns (states: seq<State>)
    requires Unprotected(w, b, org) && !b.processed && !b.deleting && org in w.orgs
    ensures var events := LeakEvents(b, AccountInfo(org, true));
            Run(w, states, events) && forall ev :: ev in events ==> RegularEvent(w, ev)
    ensures states[0] == State([], map[], map[]) && Invariant(w, states[0])
    ensures states[4] == State([], map[b.workspace := AccountInfo(org, true)], ModelsOf(w, b, org))
    ensures ModelsOf(w, b, org) != map[]
  {
    var info := AccountInfo(org, true);
    ProcessStep(w, State([b], map[b.workspace := info], map[]), b, org);
    states := LeakRun(w, b, b.(processed := true), info, ModelsOf(w, b, org));
    LeakEventsAreRegular(w, b, org);
    ModelsOfIsNotEmpty(w, b, org);
  }

  lemma ModelsOfIsNotEmpty(w: World, b: Binding, org: Organization)
    requires KeysOf(w.exports, b.exportCluster, b.export_.name, org) != []
    ensures ModelsOf(w, b, org) != map[]
  {
    var keys := KeysOf(w.exports, b.exportCluster, b.export_.name, org);
    assert keys[0] in keys && keys[0] in ModelsOf(w, b, org);
  }

  /** And it loses its models: nothing keeps its account info, without which it no longer counts, so
      another binding's Finalize takes the models while it is processed and not deleted. */
  lemma UnprotectedBindingLosesModels(w: World, s: State, b: Binding, c: Binding, org: Organization)
    requires s.bindings == [c, b] && Unprotected(w, b, org) && b.processed && !b.deleting && Complete(w, s, b)
    requires b.workspace in s.infos && s.infos[b.workspace] == AccountInfo(org, true)
    requires c.deleting && Holding(c) && c.export_ == b.export_ && c.exportCluster == b.exportCluster
    requires c.workspace in s.infos && c.workspace != b.workspace && s.infos[c.workspace].org == org
    ensures var s1 := s.(infos := s.infos - {b.workspace});
            var s2 := State([b], s1.infos, DeleteAll(s.models, Keys(w, b.export_, org)));
            && Step(w, s, RemoveInfo(b.workspace), s1) && Step(w, s1, Finalize(0, true), s2)
            && forall key :: key in Keys(w, b.export_, org) ==> key !in s2.models
  {
    var s1 := s.(infos := s.infos - {b.workspace});
    var keys := KeysOf(w.exports, b.exportCluster, b.export_.name, org);
    assert [c, b][..1] == [c] && [c][..0] == [] && RemoveAt([c, b], 0) == [b];
    assert CountBindings([c], s1.infos, c.export_, org.generatedClusterId) <= 1;
    assert CountBindings([c, b], s1.infos, c.export_, org.generatedClusterId) <= 1;
    assert keys[..|keys|] == keys;
  }
}
