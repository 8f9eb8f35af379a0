/** What finalizing an identity provider deletes, and what it cannot. */
module IdpFinalize {
  import opened Wrappers
  import opened Idp
  import opened IdpEffects
  import opened IdpRecovery

  /** The client has a status entry, so Finalize deletes it by its secret. */
  predicate Handled(status: Status, c: ClientConfig) {
    c.metadata.clientName in status
  }

  function EntryOf(status: Status, c: ClientConfig): Managed
    requires Handled(status, c)
  {
    Managed(status[c.metadata.clientName].clientId, c.secretRef)
  }

  /** Some client with a status entry names the secret. */
  predicate Reaches(status: Status, cs: seq<ClientConfig>, ref: SecretRef) {
    exists c :: c in cs && Handled(status, c) && c.secretRef == ref
  }

  lemma ReachesSnoc(status: Status, cs: seq<ClientConfig>, ref: SecretRef)
    requires cs != []
    ensures var c := cs[|cs| - 1];
            Reaches(status, cs, ref) <==>
              Reaches(status, cs[..|cs| - 1], ref) || (Handled(status, c) && c.secretRef == ref)
  {
    assert cs == cs[..|cs| - 1] + [cs[|cs| - 1]];
  }

  /** Of the secrets, exactly those of clients with a status entry go. */
  lemma {:induction false} FinalizeClientsDelete(w: World, status: Status, cs: seq<ClientConfig>, ref: SecretRef)
    requires FinalizeClients(w, status, cs).r.Ok?
    ensures ref in FinalizeClients(w, status, cs).w.secrets <==> ref in w.secrets && !Reaches(status, cs, ref)
  {
    if cs != [] {
      var front, c := cs[..|cs| - 1], cs[|cs| - 1];
      FinalizeClientsDelete(w, status, front, ref);
      ReachesSnoc(status, cs, ref);
      if Handled(status, c) {
        DeleteClientDeletes(FinalizeClients(w, status, front).w, EntryOf(status, c));
      }
    }
  }

  lemma FinalizeClientAffects(w: World, status: Status, c: ClientConfig)
    requires Sound(w) && Linked(w, status)
    ensures Affects(w, FinalizeClient(w, status, c).w, {c.metadata.clientName})
  {
    if Handled(status, c) {
      DeleteClientAffects(w, EntryOf(status, c), c.metadata.clientName);
    } else {
      AffectsNothing(w, FinalizeClient(w, status, c).w);
    }
  }

  lemma {:induction false} FinalizeClientsAffect(w: World, status: Status, cs: seq<ClientConfig>)
    requires Sound(w) && Linked(w, status)
    ensures Affects(w, FinalizeClients(w, status, cs).w, NamesOf(cs))
  {
    if cs == [] {
      AffectsNothing(w, w);
    } else {
      var front, c := cs[..|cs| - 1], cs[|cs| - 1];
      var first := FinalizeClients(w, status, front);
      FinalizeClientsAffect(w, status, front);
      NamesOfSnoc(cs);
      if first.r.Err? {
        AffectsMore(w, first.w, NamesOf(front), NamesOf(cs));
      } else {
        StillLinked(w, first.w, NamesOf(front), status);
        FinalizeClientAffects(first.w, status, c);
        AffectsThen(w, first.w, FinalizeClient(first.w, status, c).w, NamesOf(front), {c.metadata.clientName});
      }
    }
  }

  /** The deletion of the clients before it does not decide whether a client can be deleted. */
  lemma StaysDeletableHere(w: World, status: Status, front: seq<ClientConfig>, c: ClientConfig)
    requires Sound(w) && Linked(w, status) && Handled(status, c)
    requires c.metadata.clientName !in NamesOf(front) && c.secretRef !in RefsOf(front)
    requires FinalizeClients(w, status, front).r.Ok?
    ensures Deletable(FinalizeClients(w, status, front).w, EntryOf(status, c)) <==> Deletable(w, EntryOf(status, c))
  {
    var w' := FinalizeClients(w, status, front).w;
    FinalizeClientsAffect(w, status, front);
    FinalizeClientsDelete(w, status, front, c.secretRef);
    var id := status[c.metadata.clientName].clientId;
    assert id in w.clients ==> NameOf(w, id) == c.metadata.clientName;
    StillPoints(w, w', NamesOf(front), id, c.metadata.clientName);
  }

  lemma {:induction false} FinalizeClientsSucceedIff(w: World, status: Status, cs: seq<ClientConfig>)
    requires Sound(w) && Linked(w, status) && Distinct(cs) && Uninterrupted(w)
    ensures FinalizeClients(w, status, cs).r.Ok? <==>
            forall c :: c in cs && Handled(status, c) ==> Deletable(w, EntryOf(status, c))
  {
    if cs != [] {
      var front, c := cs[..|cs| - 1], cs[|cs| - 1];
      var first := FinalizeClients(w, status, front);
      FinalizeClientsSucceedIff(w, status, front);
      FinalizeClientsAffect(w, status, front);
      if first.r.Ok? && Handled(status, c) {
        StaysDeletableHere(w, status, front, c);
        DeleteClientSucceedsIff(first.w, EntryOf(status, c));
      }
      assert forall other :: other in cs <==> other in front || other == c;
    }
  }

  /** A successful Finalize leaves no realm and no client, and of the secrets exactly those that no
      spec client with a saved status entry names. */
  lemma FinalizeLeaves(w: World, status: Status, cs: seq<ClientConfig>)
    requires FinalizeRealm(w, status, cs).r.Ok?
    ensures var w' := FinalizeRealm(w, status, cs).w;
            && !w'.realm && w'.clients == map[]
            && forall ref :: ref in w'.secrets <==> ref in w.secrets && !Reaches(status, cs, ref)
  {
    forall ref
      ensures ref in FinalizeRealm(w, status, cs).w.secrets <==> ref in w.secrets && !Reaches(status, cs, ref)
    {
      FinalizeClientsDelete(w, status, cs, ref);
    }
  }

  /** Uninterrupted, Finalize succeeds exactly if every spec client with a status entry can be
      deleted. */
  lemma FinalizeSucceedsIff(w: World, status: Status, cs: seq<ClientConfig>)
    requires Sound(w) && Linked(w, status) && Distinct(cs) && Uninterrupted(w)
    ensures FinalizeRealm(w, status, cs).r.Ok? <==>
            forall c :: c in cs && Handled(status, c) ==> Deletable(w, EntryOf(status, c))
  {
    FinalizeClientsSucceedIff(w, status, cs);
    FinalizeClientsAffect(w, status, cs);
  }

  /** Finalizing clients adds nothing and touches only the spec's secrets. */
  lemma {:induction false} FinalizeClientsOnlyDelete(w: World, status: Status, cs: seq<ClientConfig>)
    ensures var w' := FinalizeClients(w, status, cs).w;
            && w'.clients.Keys <= w.clients.Keys && SameSecretsBut(w, w', RefsOf(cs))
            && w'.missingIsNotFound == w.missingIsNotFound
  {
    if cs != [] {
      var front, c := cs[..|cs| - 1], cs[|cs| - 1];
      var w1 := FinalizeClients(w, status, front).w;
      FinalizeClientsOnlyDelete(w, status, front);
      NamesOfSnoc(cs);
      if Handled(status, c) {
        DeleteClientDeletes(w1, EntryOf(status, c));
        DeleteClientContinues(w1, EntryOf(status, c));
      }
    }
  }

  lemma DeleteClientContinues(w: World, m: Managed)
    ensures DeleteClient(w, m).w.missingIsNotFound == w.missingIsNotFound
  {
    DeleteClientSplits(w, m);
    if Alive(w) && m.secretRef in w.secrets {
      RoundTripContinues(Spend(w), m.clientId, Remove, w.secrets[m.secretRef]);
    }
  }

  lemma RoundTripContinues(w: World, id: nat, request: Request, token: Token)
    ensures RoundTrip(w, id, request, token).w.missingIsNotFound == w.missingIsNotFound
  {
    SendContinues(w, id, request, token);
    var first := Send(w, id, request, token);
    RefreshContinues(first.w, id);
    var refreshed := RefreshToken(first.w, id);
    if refreshed.r.Ok? {
      SendContinues(refreshed.w, id, request, refreshed.r.value);
    }
  }

  /** A client that cannot be deleted fails every Finalize, wherever it is cut off, and still cannot be
      deleted afterwards. */
  lemma {:induction false} UndeletableBlocks(w: World, status: Status, cs: seq<ClientConfig>, c: ClientConfig)
    requires Distinct(cs) && c in cs && Handled(status, c) && !Deletable(w, EntryOf(status, c))
    ensures FinalizeClients(w, status, cs).r.Err?
    ensures !Deletable(FinalizeClients(w, status, cs).w, EntryOf(status, c))
  {
    var front, last := cs[..|cs| - 1], cs[|cs| - 1];
    var w1 := FinalizeClients(w, status, front).w;
    assert cs == front + [last];
    if c in front {
      UndeletableBlocks(w, status, front, c);
    } else {
      FinalizeClientsOnlyDelete(w, status, front);
      assert c.secretRef !in RefsOf(front);
      DeleteClientSucceedsIff(w1, EntryOf(status, c));
      DeleteClientDeletes(w1, EntryOf(status, c));
      DeleteClientContinues(w1, EntryOf(status, c));
    }
  }

  /** Attempts to finalize, each cut off after the given number of calls. */
  function FinalizeAttempts(w: World, status: Status, cs: seq<ClientConfig>, cuts: seq<Option<nat>>): World
    decreases |cuts|
  {
    if cuts == [] then w
    else FinalizeAttempts(FinalizeRealm(w.(callsLeft := cuts[0]), status, cs).w, status, cs, cuts[1..])
  }

  /** Finalize stays stuck: once some client with a status entry cannot be deleted, no number of
      attempts, cut off anywhere or not at all, is followed by one that succeeds. */
  lemma {:induction false} FinalizeStaysStuck(
    w: World, status: Status, cs: seq<ClientConfig>, cuts: seq<Option<nat>>, cut: Option<nat>)
    requires Distinct(cs)
    requires exists c :: c in cs && Handled(status, c) && !Deletable(w, EntryOf(status, c))
    ensures FinalizeRealm(FinalizeAttempts(w, status, cs, cuts).(callsLeft := cut), status, cs).r.Err?
    decreases |cuts|
  {
    var c :| c in cs && Handled(status, c) && !Deletable(w, EntryOf(status, c));
    if cuts == [] {
      UndeletableBlocks(w.(callsLeft := cut), status, cs, c);
    } else {
      UndeletableBlocks(w.(callsLeft := cuts[0]), status, cs, c);
      FinalizeStaysStuck(FinalizeRealm(w.(callsLeft := cuts[0]), status, cs).w, status, cs, cuts[1..], cut);
    }
  }

  /** After a successful reconciliation Finalize succeeds on any server and leaves none of the
      spec's secrets. */
  lemma FinalizeUndoesProcess(w: World, status: Status, cs: seq<ClientConfig>, order: seq<string>)
    requires Sound(w) && Linked(w, status) && Visited(order, status) && Distinct(cs) && Uninterrupted(w)
    requires Process(w, status, cs, order).r.Ok?
    ensures var Reply(w1, r) := Process(w, status, cs, order);
            var Reply(w2, f) := FinalizeRealm(w1, r.value, cs);
            && f.Ok? && w2.clients == map[] && forall ref :: ref in RefsOf(cs) ==> ref !in w2.secrets
  {
    var Reply(w1, r) := Process(w, status, cs, order);
    ProcessAffects(w, status, cs, order);
    SuccessReconciles(w, status, cs, order);
    FinalizeSucceedsIff(w1, r.value, cs);
    FinalizeLeaves(w1, r.value, cs);
    forall ref | ref in RefsOf(cs)
      ensures Reaches(r.value, cs, ref)
    {
      var c :| c in cs && c.secretRef == ref;
      assert Settled(w1, r.value, c);
    }
  }
}
