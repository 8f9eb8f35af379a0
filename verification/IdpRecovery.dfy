/** When a reconciliation of OIDC clients gets through: from whatever state cut-off attempts left, and
    what it leaves behind. */
module IdpRecovery {
  import opened Wrappers
  import opened Idp
  import opened IdpEffects

  function NamesOf(cs: seq<ClientConfig>): set<string> {
    set c | c in cs :: c.metadata.clientName
  }

  function RefsOf(cs: seq<ClientConfig>): set<SecretRef> {
    set c | c in cs :: c.secretRef
  }

  /** The clients of a spec have names and secrets of their own. */
  ghost predicate Distinct(cs: seq<ClientConfig>) {
    forall i, j :: 0 <= i < j < |cs| ==>
                     cs[i].metadata.clientName != cs[j].metadata.clientName && cs[i].secretRef != cs[j].secretRef
  }

  lemma NamesOfSnoc(cs: seq<ClientConfig>)
    requires cs != []
    ensures var front, c := cs[..|cs| - 1], cs[|cs| - 1];
            NamesOf(cs) == NamesOf(front) + {c.metadata.clientName} && RefsOf(cs) == RefsOf(front) + {c.secretRef}
  {
    assert cs == cs[..|cs| - 1] + [cs[|cs| - 1]];
  }

  lemma {:induction false} ProcessClientsAffects(w: World, status: Status, cs: seq<ClientConfig>)
    requires Sound(w) && Linked(w, status)
    ensures Affects(w, ProcessClients(w, status, cs).w, NamesOf(cs))
  {
    if cs == [] {
      AffectsNothing(w, w);
    } else {
      var front, c := cs[..|cs| - 1], cs[|cs| - 1];
      ProcessClientsAffects(w, status, front);
      var first := ProcessClients(w, status, front);
      NamesOfSnoc(cs);
      if first.r.Err? {
        AffectsMore(w, first.w, NamesOf(front), NamesOf(cs));
      } else {
        StillLinked(w, first.w, NamesOf(front), status);
        ProcessClientAffects(first.w, status, c);
        AffectsThen(w, first.w, ProcessClient(first.w, status, c).w, NamesOf(front), {c.metadata.clientName});
      }
    }
  }

  lemma AffectsMore(w: World, w': World, few: set<string>, many: set<string>)
    requires Affects(w, w', few) && few <= many
    ensures Affects(w, w', many)
  {
  }

  /** No attempt at the spec's clients makes a client go away or writes another secret. */
  lemma {:induction false} ProcessClientsKeep(w: World, status: Status, cs: seq<ClientConfig>)
    ensures w.clients.Keys <= ProcessClients(w, status, cs).w.clients.Keys
    ensures SameSecretsBut(w, ProcessClients(w, status, cs).w, RefsOf(cs))
  {
    if cs != [] {
      var front, c := cs[..|cs| - 1], cs[|cs| - 1];
      ProcessClientsKeep(w, status, front);
      NamesOfSnoc(cs);
      ProcessClientKeeps(ProcessClients(w, status, front).w, status, c);
    }
  }

  /** A settled client stays settled while other clients are reconciled. */
  lemma StaysSettled(
    w: World, w': World, names: set<string>, refs: set<SecretRef>, status: Status, status': Status, c: ClientConfig)
    requires Settled(w, status, c)
    requires Affects(w, w', names) && SameSecretsBut(w, w', refs)
    requires c.metadata.clientName !in names && c.secretRef !in refs
    requires c.metadata.clientName in status' && status'[c.metadata.clientName] == status[c.metadata.clientName]
    ensures Settled(w', status', c)
  {
    assert status[c.metadata.clientName].clientId in w.clients;
  }

  lemma {:induction false} ProcessClientsSettle(w: World, status: Status, cs: seq<ClientConfig>)
    requires Sound(w) && Linked(w, status) && Distinct(cs)
    requires ProcessClients(w, status, cs).r.Ok?
    ensures ProcessClients(w, status, cs).r.value.Keys == NamesOf(cs)
    ensures forall c :: c in cs ==> Settled(ProcessClients(w, status, cs).w, ProcessClients(w, status, cs).r.value, c)
  {
    if cs != [] {
      var front, c := cs[..|cs| - 1], cs[|cs| - 1];
      var first := ProcessClients(w, status, front);
      ProcessClientsSettle(w, status, front);
      NamesOfSnoc(cs);
      ProcessClientsAffects(w, status, front);
      StillLinked(w, first.w, NamesOf(front), status);
      ProcessClientSettlesToo(first.w, status, first.r.value, front, c);
    }
  }

  lemma ProcessClientSettlesToo(w: World, status: Status, done: Status, front: seq<ClientConfig>, c: ClientConfig)
    requires Sound(w) && Linked(w, status)
    requires ProcessClient(w, status, c).r.Ok?
    requires forall other :: other in front ==>
                               && Settled(w, done, other)
                               && other.metadata.clientName != c.metadata.clientName && other.secretRef != c.secretRef
    ensures var Reply(w', r) := ProcessClient(w, status, c);
            var done' := done[c.metadata.clientName := r.value];
            Settled(w', done', c) && forall other :: other in front ==> Settled(w', done', other)
  {
    var Reply(w', r) := ProcessClient(w, status, c);
    var done' := done[c.metadata.clientName := r.value];
    ProcessClientAffects(w, status, c);
    ProcessClientKeeps(w, status, c);
    ProcessClientSettles(w, status, c);
    forall other | other in front
      ensures Settled(w', done', other)
    {
      StaysSettled(w, w', {c.metadata.clientName}, {c.secretRef}, done, done', other);
    }
  }

  lemma StaysFresh(w: World, w': World, names: set<string>, status: Status, c: ClientConfig)
    requires Sound(w) && Affects(w, w', names) && c.metadata.clientName !in names
    ensures Fresh(w', status, c) <==> Fresh(w, status, c)
  {
    FindUntouched(w, w', names, c.metadata.clientName);
  }

  /** The spec's clients succeed only if all status entries are fresh, and uninterrupted exactly
      then. */
  lemma {:induction false} ProcessClientsSucceedIff(w: World, status: Status, cs: seq<ClientConfig>)
    requires Sound(w) && Linked(w, status) && Distinct(cs)
    ensures ProcessClients(w, status, cs).r.Ok? ==> forall c :: c in cs ==> Fresh(w, status, c)
    ensures Uninterrupted(w) ==> (ProcessClients(w, status, cs).r.Ok? <==> forall c :: c in cs ==> Fresh(w, status, c))
  {
    if cs != [] {
      var front, c := cs[..|cs| - 1], cs[|cs| - 1];
      var first := ProcessClients(w, status, front);
      ProcessClientsSucceedIff(w, status, front);
      ProcessClientsAffects(w, status, front);
      StillLinked(w, first.w, NamesOf(front), status);
      ProcessClientSucceedsIff(first.w, status, c);
      StaysFresh(w, first.w, NamesOf(front), status, c);
      assert forall other :: other in cs <==> other in front || other == c;
    }
  }

  /** A removed client can be deleted: its secret is gone already, or its client is still there, or
      the server says plainly that it is not. */
  predicate Deletable(w: World, m: Managed) {
    m.secretRef !in w.secrets || m.clientId in w.clients || w.missingIsNotFound
  }

  /** Besides the one request about the client, deleting it only spends calls. */
  lemma DeleteClientSplits(w: World, m: Managed)
    ensures var w1 := if !Alive(w) || m.secretRef !in w.secrets then w
                      else RoundTrip(Spend(w), m.clientId, Remove, w.secrets[m.secretRef]).w;
            Continues(w1, DeleteClient(w, m).w) && DeleteClient(w, m).w.clients == w1.clients
  {
  }

  lemma DeleteClientAffects(w: World, m: Managed, name: string)
    requires Sound(w) && Points(w, m.clientId, name)
    ensures Affects(w, DeleteClient(w, m).w, {name})
  {
    DeleteClientSplits(w, m);
    var w' := DeleteClient(w, m).w;
    if !Alive(w) || m.secretRef !in w.secrets {
      AffectsNothing(w, w');
    } else {
      RequestAffects(w, Spend(w), m.clientId, Remove, w.secrets[m.secretRef], name);
      AffectsStill(w, RoundTrip(Spend(w), m.clientId, Remove, w.secrets[m.secretRef]).w, w', {name});
    }
  }

  /** Nothing but the client and its secret goes away; a success leaves neither behind if the secret
      was there. */
  lemma DeleteClientDeletes(w: World, m: Managed)
    ensures var Reply(w', r) := DeleteClient(w, m);
            && w'.clients.Keys <= w.clients.Keys
            && SameSecretsBut(w, w', {m.secretRef})
            && (r.Ok? && m.secretRef in w.secrets ==> m.clientId !in w'.clients && m.secretRef !in w'.secrets)
            && (m.secretRef !in w.secrets ==> w'.clients == w.clients && w'.secrets == w.secrets)
            && (r.Err? ==> w'.secrets == w.secrets)
  {
    if Alive(w) && m.secretRef in w.secrets {
      RoundTripAnswers(Spend(w), m.clientId, Remove, w.secrets[m.secretRef]);
    }
  }

  lemma DeleteClientSucceedsIff(w: World, m: Managed)
    ensures DeleteClient(w, m).r.Ok? ==> Deletable(w, m)
    ensures Uninterrupted(w) ==> (DeleteClient(w, m).r.Ok? <==> Deletable(w, m))
  {
    if Alive(w) && m.secretRef in w.secrets {
      RoundTripAnswers(Spend(w), m.clientId, Remove, w.secrets[m.secretRef]);
    }
  }

  function Removed(cs: seq<ClientConfig>, order: seq<string>): set<string> {
    set n | n in order && !InSpec(cs, n)
  }

  function RemovedRefs(status: Status, cs: seq<ClientConfig>, order: seq<string>): set<SecretRef>
    requires forall n :: n in order ==> n in status
  {
    set n | n in Removed(cs, order) :: status[n].secretRef
  }

  lemma RemovedSnoc(cs: seq<ClientConfig>, order: seq<string>)
    requires order != []
    ensures var front, name := order[..|order| - 1], order[|order| - 1];
            Removed(cs, order) == Removed(cs, front) + if InSpec(cs, name) then {} else {name}
  {
    assert order == order[..|order| - 1] + [order[|order| - 1]];
  }

  lemma {:induction false} DeleteRemovedAffects(w: World, status: Status, cs: seq<ClientConfig>, order: seq<string>)
    requires Sound(w) && Linked(w, status)
    requires forall n :: n in order ==> n in status
    ensures Affects(w, DeleteRemoved(w, status, cs, order).w, Removed(cs, order))
  {
    if order == [] {
      AffectsNothing(w, w);
    } else {
      var front, name := order[..|order| - 1], order[|order| - 1];
      var first := DeleteRemoved(w, status, cs, front);
      DeleteRemovedAffects(w, status, cs, front);
      RemovedSnoc(cs, order);
      if first.r.Err? || InSpec(cs, name) {
        AffectsMore(w, first.w, Removed(cs, front), Removed(cs, order));
      } else {
        StillPoints(w, first.w, Removed(cs, front), status[name].clientId, name);
        DeleteClientAffects(first.w, status[name], name);
        AffectsThen(w, first.w, DeleteClient(first.w, status[name]).w, Removed(cs, front), {name});
      }
    }
  }

  /** Deleting adds nothing and touches only the secrets of removed clients. */
  lemma {:induction false} DeleteRemovedOnlyDeletes(w: World, status: Status, cs: seq<ClientConfig>, order: seq<string>)
    requires forall n :: n in order ==> n in status
    ensures var w' := DeleteRemoved(w, status, cs, order).w;
            w'.clients.Keys <= w.clients.Keys && SameSecretsBut(w, w', RemovedRefs(status, cs, order))
  {
    if order != [] {
      var front, name := order[..|order| - 1], order[|order| - 1];
      DeleteRemovedOnlyDeletes(w, status, cs, front);
      RemovedSnoc(cs, order);
      DeleteClientDeletes(DeleteRemoved(w, status, cs, front).w, status[name]);
    }
  }

  /** Nothing of the client and its secret is left. */
  predicate Gone(w: World, m: Managed) {
    m.clientId !in w.clients && m.secretRef !in w.secrets
  }

  /** The secret of a client that the others do not name is untouched by their deletion. */
  lemma OwnSecretUntouched(w: World, status: Status, cs: seq<ClientConfig>, order: seq<string>, name: string)
    requires Linked(w, status) && name in status && name !in order
    requires forall n :: n in order ==> n in status
    ensures status[name].secretRef in DeleteRemoved(w, status, cs, order).w.secrets <==>
            status[name].secretRef in w.secrets
  {
    DeleteRemovedOnlyDeletes(w, status, cs, order);
    assert status[name].secretRef !in RemovedRefs(status, cs, order);
  }

  lemma {:induction false} DeleteRemovedDeletes(w: World, status: Status, cs: seq<ClientConfig>, order: seq<string>)
    requires Linked(w, status) && Visited(order, status)
    requires DeleteRemoved(w, status, cs, order).r.Ok?
    ensures forall n :: n in Removed(cs, order) && status[n].secretRef in w.secrets
                        ==> Gone(DeleteRemoved(w, status, cs, order).w, status[n])
  {
    if order != [] {
      var front, name := order[..|order| - 1], order[|order| - 1];
      var first := DeleteRemoved(w, status, cs, front);
      DeleteRemovedDeletes(w, status, cs, front);
      RemovedSnoc(cs, order);
      if !InSpec(cs, name) {
        DeleteClientDeletes(first.w, status[name]);
        OwnSecretUntouched(w, status, cs, front, name);
      }
    }
  }

  lemma StaysDeletable(w: World, status: Status, cs: seq<ClientConfig>, order: seq<string>, name: string)
    requires Sound(w) && Linked(w, status) && name in status && name !in order
    requires forall n :: n in order ==> n in status
    ensures Deletable(DeleteRemoved(w, status, cs, order).w, status[name]) <==> Deletable(w, status[name])
  {
    OwnSecretUntouched(w, status, cs, order, name);
    DeleteRemovedAffects(w, status, cs, order);
    DeleteRemovedOnlyDeletes(w, status, cs, order);
  }

  /** The removed clients are deleted only if each of them can be, and uninterrupted exactly then. */
  lemma {:induction false} DeleteRemovedSucceedsIff(w: World, status: Status, cs: seq<ClientConfig>, order: seq<string>)
    requires Sound(w) && Linked(w, status) && Visited(order, status)
    ensures DeleteRemoved(w, status, cs, order).r.Ok? ==>
              forall n :: n in Removed(cs, order) ==> Deletable(w, status[n])
    ensures Uninterrupted(w) ==>
              (DeleteRemoved(w, status, cs, order).r.Ok? <==>
                forall n :: n in Removed(cs, order) ==> Deletable(w, status[n]))
  {
    if order != [] {
      var front, name := order[..|order| - 1], order[|order| - 1];
      DeleteRemovedSucceedsIff(w, status, cs, front);
      RemovedSnoc(cs, order);
      if !InSpec(cs, name) {
        DeleteRemovedAffects(w, status, cs, front);
        StaysDeletable(w, status, cs, front, name);
        DeleteClientSucceedsIff(DeleteRemoved(w, status, cs, front).w, status[name]);
      }
    }
  }

  /** The removed clients can be deleted and the remembered ones are those registered. */
  ghost predicate Recoverable(w: World, status: Status, cs: seq<ClientConfig>) {
    && (forall n :: n in status && !InSpec(cs, n) ==> Deletable(w, status[n]))
    && (forall c :: c in cs ==> Fresh(w, status, c))
  }

  lemma EnsureRealmSpends(w: World)
    ensures var Reply(w', r) := EnsureRealm(w);
            && Continues(w, w') && w'.clients == w.clients && w'.secrets == w.secrets
            && (r.Ok? <==> Alive(w)) && (r.Ok? ==> w'.realm)
  {
  }

  lemma SameWorld(w: World, w': World, status: Status, cs: seq<ClientConfig>)
    requires Sound(w) && Linked(w, status) && Continues(w, w') && w'.clients == w.clients && w'.secrets == w.secrets
    ensures Sound(w') && Linked(w', status)
    ensures Recoverable(w', status, cs) <==> Recoverable(w, status, cs)
  {
    AffectsNothing(w, w');
    assert Affects(w, w', {});
    StillLinked(w, w', {}, status);
    forall c | c in cs
      ensures Fresh(w', status, c) <==> Fresh(w, status, c)
    {
      StaysFresh(w, w', {}, status, c);
    }
  }

  lemma AfterDeletionsAffects(w: World, status: Status, cs: seq<ClientConfig>, order: seq<string>)
    requires Sound(w) && Linked(w, status) && Visited(order, status)
    ensures var w' := AfterDeletions(w, status, cs, order).w;
            Affects(w, w', Removed(cs, order)) && Sound(w') && Linked(w', status)
  {
    var realm, w' := EnsureRealm(w).w, AfterDeletions(w, status, cs, order).w;
    EnsureRealmSpends(w);
    SameWorld(w, realm, status, cs);
    DeleteRemovedAffects(realm, status, cs, order);
    AffectsFrom(w, realm, w', Removed(cs, order));
    StillLinked(w, w', Removed(cs, order), status);
  }

  lemma AffectsFrom(w: World, w1: World, w2: World, names: set<string>)
    requires Sound(w) && Continues(w, w1) && w1.clients == w.clients
    requires Affects(w1, w2, names)
    ensures Affects(w, w2, names)
  {
  }

  /** The ways an attempt can end: cut off first, in the deletions, or after them. */
  lemma ProcessSplits(w: World, status: Status, cs: seq<ClientConfig>, order: seq<string>)
    requires Visited(order, status)
    ensures var reply, removed := Process(w, status, cs, order), AfterDeletions(w, status, cs, order);
            if !Alive(w) then reply == Reply(w, Err)
            else if removed.r.Err? then reply == Reply(removed.w, Err)
            else
              var processed := ProcessClients(removed.w, status, cs);
              && Continues(processed.w, reply.w)
              && reply.w.clients == processed.w.clients && reply.w.secrets == processed.w.secrets
              && (reply.r.Ok? ==> reply.r == processed.r)
              && (processed.r.Ok? && Uninterrupted(processed.w) ==> reply.r.Ok?)
  {
  }

  /** Only names of the spec and removed names are touched, wherever the attempt is cut off, and no
      two clients ever share a name. */
  lemma ProcessAffects(w: World, status: Status, cs: seq<ClientConfig>, order: seq<string>)
    requires Sound(w) && Linked(w, status) && Visited(order, status)
    ensures Affects(w, Process(w, status, cs, order).w, Removed(cs, order) + NamesOf(cs))
  {
    var names := Removed(cs, order) + NamesOf(cs);
    ProcessSplits(w, status, cs, order);
    AfterDeletionsAffects(w, status, cs, order);
    var removed := AfterDeletions(w, status, cs, order);
    if !Alive(w) {
      AffectsNothing(w, w);
    } else if removed.r.Err? {
      AffectsMore(w, removed.w, Removed(cs, order), names);
    } else {
      ProcessClientsAffects(removed.w, status, cs);
      var processed := ProcessClients(removed.w, status, cs);
      AffectsThen(w, removed.w, processed.w, Removed(cs, order), NamesOf(cs));
      AffectsStill(w, processed.w, Process(w, status, cs, order).w, names);
    }
  }

  lemma NamesOfInSpec(cs: seq<ClientConfig>, name: string)
    ensures name in NamesOf(cs) <==> InSpec(cs, name)
  {
  }

  /** After the deletions the spec's clients are as before. */
  lemma StaysFreshAfterDeletions(w: World, status: Status, cs: seq<ClientConfig>, order: seq<string>, c: ClientConfig)
    requires Sound(w) && Linked(w, status) && Visited(order, status) && c in cs
    ensures Fresh(AfterDeletions(w, status, cs, order).w, status, c) <==> Fresh(w, status, c)
  {
    AfterDeletionsAffects(w, status, cs, order);
    StaysFresh(w, AfterDeletions(w, status, cs, order).w, Removed(cs, order), status, c);
  }

  lemma AfterDeletionsSucceedsIff(w: World, status: Status, cs: seq<ClientConfig>, order: seq<string>)
    requires Sound(w) && Linked(w, status) && Alive(w) && Covers(w, status, cs, order)
    ensures AfterDeletions(w, status, cs, order).r.Ok? ==>
              forall n :: n in status && !InSpec(cs, n) ==> Deletable(w, status[n])
    ensures Uninterrupted(w) ==>
              (AfterDeletions(w, status, cs, order).r.Ok? <==>
                forall n :: n in status && !InSpec(cs, n) ==> Deletable(w, status[n]))
  {
    var realm := EnsureRealm(w).w;
    EnsureRealmSpends(w);
    SameWorld(w, realm, status, cs);
    DeleteRemovedSucceedsIff(realm, status, cs, order);
    assert forall n :: n in Removed(cs, order) ==> n in status && !InSpec(cs, n);
  }

  /** An attempt succeeds only from recoverable states, and an uninterrupted one exactly from them. */
  lemma ProcessSucceedsIff(w: World, status: Status, cs: seq<ClientConfig>, order: seq<string>)
    requires Sound(w) && Linked(w, status) && Distinct(cs) && Covers(w, status, cs, order)
    ensures Process(w, status, cs, order).r.Ok? ==> Recoverable(w, status, cs)
    ensures Uninterrupted(w) ==> (Process(w, status, cs, order).r.Ok? <==> Recoverable(w, status, cs))
  {
    ProcessSplits(w, status, cs, order);
    if Alive(w) {
      var removed := AfterDeletions(w, status, cs, order);
      AfterDeletionsAffects(w, status, cs, order);
      AfterDeletionsSucceedsIff(w, status, cs, order);
      ProcessClientsSucceedIff(removed.w, status, cs);
      ProcessClientsAffects(removed.w, status, cs);
      forall c | c in cs
        ensures Fresh(removed.w, status, c) <==> Fresh(w, status, c)
      {
        StaysFreshAfterDeletions(w, status, cs, order, c);
      }
    }
  }

  /** The status has exactly the spec's names, and under each exactly one client is registered, the
      one the status points to, as the spec asks for and with its current token in its secret. */
  ghost predicate Reconciled(w: World, status: Status, cs: seq<ClientConfig>) {
    && status.Keys == NamesOf(cs)
    && (forall c :: c in cs ==> Settled(w, status, c))
    && (forall c, id :: c in cs && id in w.clients ==>
                          (NameOf(w, id) == c.metadata.clientName <==> id == status[c.metadata.clientName].clientId))
  }

  lemma SettledIsReconciled(w: World, status: Status, cs: seq<ClientConfig>)
    requires Sound(w) && Distinct(cs) && status.Keys == NamesOf(cs)
    requires forall c :: c in cs ==> Settled(w, status, c)
    ensures Reconciled(w, status, cs) && Linked(w, status)
  {
    forall n | n in status
      ensures exists c :: c in cs && c.metadata.clientName == n && Settled(w, status, c)
    {
    }
  }

  /** A successful attempt leaves the realm there and the spec's clients reconciled. */
  lemma SuccessReconciles(w: World, status: Status, cs: seq<ClientConfig>, order: seq<string>)
    requires Sound(w) && Linked(w, status) && Visited(order, status) && Distinct(cs)
    requires Process(w, status, cs, order).r.Ok?
    ensures var Reply(w', r) := Process(w, status, cs, order);
            w'.realm && Reconciled(w', r.value, cs) && Linked(w', r.value)
  {
    ProcessSplits(w, status, cs, order);
    RealmThere(w, status, cs, order);
    ProcessAffects(w, status, cs, order);
    AfterDeletionsAffects(w, status, cs, order);
    var removed := AfterDeletions(w, status, cs, order);
    ProcessClientsSettle(removed.w, status, cs);
    var Reply(w', r) := Process(w, status, cs, order);
    SettledIsReconciled(w', r.value, cs);
  }

  lemma RealmThere(w: World, status: Status, cs: seq<ClientConfig>, order: seq<string>)
    requires Sound(w) && Linked(w, status) && Visited(order, status)
    requires Process(w, status, cs, order).r.Ok?
    ensures Process(w, status, cs, order).w.realm
  {
    ProcessSplits(w, status, cs, order);
    EnsureRealmSpends(w);
    SameWorld(w, EnsureRealm(w).w, status, cs);
    DeleteRemovedAffects(EnsureRealm(w).w, status, cs, order);
    AfterDeletionsAffects(w, status, cs, order);
    ProcessClientsAffects(AfterDeletions(w, status, cs, order).w, status, cs);
  }

  /** A successful attempt leaves nothing of a removed client whose secret was still there, unless a
      client of the spec took the secret over. */
  lemma SuccessDeletes(w: World, status: Status, cs: seq<ClientConfig>, order: seq<string>, name: string)
    requires Sound(w) && Linked(w, status) && Covers(w, status, cs, order)
    requires Process(w, status, cs, order).r.Ok?
    requires name in status && !InSpec(cs, name) && status[name].secretRef in w.secrets
    ensures var w' := Process(w, status, cs, order).w;
            && status[name].clientId !in w'.clients
            && (status[name].secretRef !in RefsOf(cs) ==> status[name].secretRef !in w'.secrets)
  {
    ProcessSplits(w, status, cs, order);
    var realm := EnsureRealm(w).w;
    EnsureRealmSpends(w);
    SameWorld(w, realm, status, cs);
    DeleteRemovedDeletes(realm, status, cs, order);
    assert name in Removed(cs, order);
    var removed := AfterDeletions(w, status, cs, order);
    AfterDeletionsAffects(w, status, cs, order);
    ProcessClientsAffects(removed.w, status, cs);
    ProcessClientsKeep(removed.w, status, cs);
    assert status[name].clientId < removed.w.nextId;
  }

  /** A client that cannot be deleted stays so, wherever the deletions stop. */
  lemma {:induction false} StaysUndeletable(
    w: World, status: Status, cs: seq<ClientConfig>, order: seq<string>, name: string)
    requires Sound(w) && Linked(w, status) && Visited(order, status)
    requires name in status && !InSpec(cs, name) && !Deletable(w, status[name])
    ensures !Deletable(DeleteRemoved(w, status, cs, order).w, status[name])
  {
    if order != [] {
      var front, last := order[..|order| - 1], order[|order| - 1];
      StaysUndeletable(w, status, cs, front, name);
      DeleteRemovedAffects(w, status, cs, order);
      DeleteClientDeletes(DeleteRemoved(w, status, cs, front).w, status[last]);
      DeleteClientSucceedsIff(DeleteRemoved(w, status, cs, front).w, status[last]);
      DeleteRemovedOnlyDeletes(w, status, cs, order);
      if last != name {
        assert status[last].secretRef != status[name].secretRef;
      }
    }
  }

  /** A client registered behind the status's back stays so. */
  lemma StaysStale(w: World, w': World, names: set<string>, status: Status, c: ClientConfig)
    requires Sound(w) && Affects(w, w', names) && !Fresh(w, status, c)
    requires FindByName(w, c.metadata.clientName).value in w'.clients
    ensures !Fresh(w', status, c)
  {
    var name := c.metadata.clientName;
    var id := FindByName(w, name).value;
    FindByNameFinds(w, name, id);
    FindByNameFinds(w', name, id);
  }

  /** The first client of a name in the spec is still there after an attempt. */
  lemma SpecClientSurvives(w: World, status: Status, cs: seq<ClientConfig>, order: seq<string>, id: nat)
    requires Sound(w) && Linked(w, status) && Visited(order, status)
    requires id in w.clients && InSpec(cs, NameOf(w, id))
    ensures id in Process(w, status, cs, order).w.clients
  {
    ProcessSplits(w, status, cs, order);
    AfterDeletionsAffects(w, status, cs, order);
    assert NameOf(w, id) !in Removed(cs, order);
    ProcessClientsKeep(AfterDeletions(w, status, cs, order).w, status, cs);
  }

  /** From a state that is not recoverable no attempt succeeds, and none makes it recoverable. */
  lemma StaysUnrecoverable(w: World, status: Status, cs: seq<ClientConfig>, order: seq<string>)
    requires Sound(w) && Linked(w, status) && Distinct(cs) && Covers(w, status, cs, order)
    requires !Recoverable(w, status, cs)
    ensures Process(w, status, cs, order).r.Err?
    ensures !Recoverable(Process(w, status, cs, order).w, status, cs)
  {
    ProcessSucceedsIff(w, status, cs, order);
    var w' := Process(w, status, cs, order).w;
    if n :| n in status && !InSpec(cs, n) && !Deletable(w, status[n]) {
      UndeletableSticks(w, status, cs, order, n);
    } else {
      var c :| c in cs && !Fresh(w, status, c);
      ProcessAffects(w, status, cs, order);
      FindFromFinds(w, c.metadata.clientName, 0);
      SpecClientSurvives(w, status, cs, order, FindByName(w, c.metadata.clientName).value);
      StaysStale(w, w', Removed(cs, order) + NamesOf(cs), status, c);
    }
  }

  lemma UndeletableSticks(w: World, status: Status, cs: seq<ClientConfig>, order: seq<string>, name: string)
    requires Sound(w) && Linked(w, status) && Covers(w, status, cs, order)
    requires name in status && !InSpec(cs, name) && !Deletable(w, status[name])
    ensures !Deletable(Process(w, status, cs, order).w, status[name])
  {
    ProcessSplits(w, status, cs, order);
    if Alive(w) {
      AfterDeletionsSucceedsIff(w, status, cs, order);
      EnsureRealmSpends(w);
      SameWorld(w, EnsureRealm(w).w, status, cs);
      StaysUndeletable(EnsureRealm(w).w, status, cs, order, name);
    }
  }

  /** Deleting a client takes no other client. */
  lemma DeleteClientTakesOnly(w: World, m: Managed)
    ensures w.clients.Keys - {m.clientId} <= DeleteClient(w, m).w.clients.Keys
  {
    if Alive(w) && m.secretRef in w.secrets {
      RoundTripAnswers(Spend(w), m.clientId, Remove, w.secrets[m.secretRef]);
    }
  }

  /** A client that no removed status entry points to survives the deletions. */
  lemma {:induction false} DeleteRemovedTakesOnly(
    w: World, status: Status, cs: seq<ClientConfig>, order: seq<string>, id: nat)
    requires forall n :: n in order ==> n in status
    requires id in w.clients && forall n :: n in Removed(cs, order) ==> status[n].clientId != id
    ensures id in DeleteRemoved(w, status, cs, order).w.clients
  {
    if order != [] {
      var front, name := order[..|order| - 1], order[|order| - 1];
      RemovedSnoc(cs, order);
      DeleteRemovedTakesOnly(w, status, cs, front, id);
      DeleteClientTakesOnly(DeleteRemoved(w, status, cs, front).w, status[name]);
    }
  }

  /** The secret of a client goes only after the client. */
  lemma {:induction false} SecretGoesLast(
    w: World, status: Status, cs: seq<ClientConfig>, order: seq<string>, name: string)
    requires Linked(w, status) && Visited(order, status) && name in status
    requires var w' := DeleteRemoved(w, status, cs, order).w;
             status[name].secretRef in w.secrets && status[name].clientId in w'.clients
    ensures status[name].secretRef in DeleteRemoved(w, status, cs, order).w.secrets
  {
    if order != [] {
      var front, last := order[..|order| - 1], order[|order| - 1];
      var first := DeleteRemoved(w, status, cs, front).w;
      DeleteClientDeletes(first, status[last]);
      DeleteRemovedOnlyDeletes(w, status, cs, front);
      SecretGoesLast(w, status, cs, front, name);
      if last != name {
        assert status[last].secretRef != status[name].secretRef;
      }
    }
  }

  lemma {:induction false} ProcessClientsKeepSecrets(w: World, status: Status, cs: seq<ClientConfig>)
    ensures w.secrets.Keys <= ProcessClients(w, status, cs).w.secrets.Keys
  {
    if cs != [] {
      var front, c := cs[..|cs| - 1], cs[|cs| - 1];
      ProcessClientsKeepSecrets(w, status, front);
      ProcessClientKeepsSecrets(ProcessClients(w, status, front).w, status, c);
    }
  }

  lemma ProcessClientKeepsSecrets(w: World, status: Status, c: ClientConfig)
    ensures w.secrets.Keys <= ProcessClient(w, status, c).w.secrets.Keys
  {
    RegisterOrUpdateRegisters(w, status, c);
  }

  /** A client the status points to has its secret. */
  ghost predicate Backed(w: World, status: Status) {
    forall n :: n in status && status[n].clientId in w.clients ==> status[n].secretRef in w.secrets
  }

  /** Wherever an attempt is cut off, clients the status points to keep their secrets. */
  lemma AttemptKeepsBacked(w: World, status: Status, cs: seq<ClientConfig>, order: seq<string>)
    requires Sound(w) && Linked(w, status) && Visited(order, status) && Backed(w, status)
    ensures Backed(Process(w, status, cs, order).w, status)
  {
    ProcessSplits(w, status, cs, order);
    if Alive(w) {
      EnsureRealmSpends(w);
      SameWorld(w, EnsureRealm(w).w, status, cs);
      AfterDeletionsAffects(w, status, cs, order);
      DeletionsKeepBacked(EnsureRealm(w).w, status, cs, order);
      var removed := AfterDeletions(w, status, cs, order).w;
      ProcessClientsAffects(removed, status, cs);
      ProcessClientsKeepSecrets(removed, status, cs);
      assert forall n :: n in status ==> status[n].clientId < removed.nextId;
    }
  }

  lemma DeletionsKeepBacked(w: World, status: Status, cs: seq<ClientConfig>, order: seq<string>)
    requires Sound(w) && Linked(w, status) && Visited(order, status) && Backed(w, status)
    ensures Backed(DeleteRemoved(w, status, cs, order).w, status)
  {
    var w' := DeleteRemoved(w, status, cs, order).w;
    DeleteRemovedOnlyDeletes(w, status, cs, order);
    forall n | n in status && status[n].clientId in w'.clients
      ensures status[n].secretRef in w'.secrets
    {
      SecretGoesLast(w, status, cs, order, n);
    }
  }

  /** A client outside the spec after an attempt was there before, under the same name. */
  lemma OutsideSpecOnlyDeleted(w: World, status: Status, cs: seq<ClientConfig>, order: seq<string>, id: nat)
    requires Sound(w) && Linked(w, status) && Visited(order, status)
    requires id in Process(w, status, cs, order).w.clients && !InSpec(cs, NameOf(Process(w, status, cs, order).w, id))
    ensures id in w.clients && NameOf(w, id) == NameOf(Process(w, status, cs, order).w, id)
  {
    ProcessSplits(w, status, cs, order);
    if Alive(w) {
      var w', removed := Process(w, status, cs, order).w, AfterDeletions(w, status, cs, order).w;
      EnsureRealmSpends(w);
      DeleteRemovedOnlyDeletes(EnsureRealm(w).w, status, cs, order);
      AfterDeletionsAffects(w, status, cs, order);
      ProcessClientsAffects(removed, status, cs);
      NamesOfInSpec(cs, NameOf(w', id));
      assert id in removed.clients && NameOf(removed, id) == NameOf(w', id);
    }
  }

  /** A client outside the spec that the status does not point to survives an attempt. */
  lemma UntrackedSurvives(w: World, status: Status, cs: seq<ClientConfig>, order: seq<string>, id: nat)
    requires Sound(w) && Linked(w, status) && Visited(order, status)
    requires id in w.clients && !InSpec(cs, NameOf(w, id))
    requires NameOf(w, id) in status ==> status[NameOf(w, id)].clientId != id
    ensures id in Process(w, status, cs, order).w.clients
    ensures NameOf(Process(w, status, cs, order).w, id) == NameOf(w, id)
  {
    ProcessSplits(w, status, cs, order);
    ProcessAffects(w, status, cs, order);
    EnsureRealmSpends(w);
    assert forall n :: n in status ==> Points(w, status[n].clientId, n);
    DeleteRemovedTakesOnly(EnsureRealm(w).w, status, cs, order, id);
    ProcessClientsKeep(AfterDeletions(w, status, cs, order).w, status, cs);
  }

  /** Apart from clients that were always there, none outside the spec is left by a success if and
      only if before it the status pointed to every one of them. */
  lemma NoneOutsideSpecIff(w: World, status: Status, cs: seq<ClientConfig>, order: seq<string>, existing: set<nat>)
    requires Sound(w) && Linked(w, status) && Covers(w, status, cs, order) && Backed(w, status)
    requires Process(w, status, cs, order).r.Ok?
    ensures var w' := Process(w, status, cs, order).w;
            (forall id :: id in w'.clients && id !in existing ==> InSpec(cs, NameOf(w', id))) <==>
            (forall id :: id in w.clients && id !in existing && !InSpec(cs, NameOf(w, id)) ==>
                            NameOf(w, id) in status && status[NameOf(w, id)].clientId == id)
  {
    var w' := Process(w, status, cs, order).w;
    forall id | id in w'.clients && id !in existing && !InSpec(cs, NameOf(w', id))
      ensures id in w.clients && !InSpec(cs, NameOf(w, id))
      ensures !(NameOf(w, id) in status && status[NameOf(w, id)].clientId == id)
    {
      OutsideSpecOnlyDeleted(w, status, cs, order, id);
      if NameOf(w, id) in status && status[NameOf(w, id)].clientId == id {
        SuccessDeletes(w, status, cs, order, NameOf(w, id));
      }
    }
    forall id | id in w.clients && id !in existing && !InSpec(cs, NameOf(w, id))
                && !(NameOf(w, id) in status && status[NameOf(w, id)].clientId == id)
      ensures id in w'.clients && !InSpec(cs, NameOf(w', id))
    {
      UntrackedSurvives(w, status, cs, order, id);
    }
  }
}
