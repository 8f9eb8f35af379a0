/** Runs from a realm not seen before that end where reconciling or finalizing OIDC clients fails for
    good or leaves something behind. Each begins with one client added to an empty spec. */
module IdpInstances {
  import opened Wrappers
  import opened Idp
  import opened IdpEffects
  import opened IdpRecovery
  import opened IdpRuns
  import opened IdpFinalize

  function Start(w: World): State {
    State(w, map[], [], {}, {})
  }

  /** The world in which one more client is registered and its secret holds its token. */
  function Registered(w: World, c: ClientConfig, callsLeft: Option<nat>): World {
    w.(realm := true, clients := w.clients[w.nextId := Client(c.metadata, w.nextToken)],
       secrets := w.secrets[c.secretRef := w.nextToken],
       nextId := w.nextId + 1, nextToken := w.nextToken + 1, callsLeft := callsLeft)
  }

  /** The client is registered and in the status. */
  function InSync(w: World, c: ClientConfig, cs: seq<ClientConfig>): State {
    State(Registered(w, c, None), map[c.metadata.clientName := Managed(w.nextId, c.secretRef)], cs, {}, {})
  }

  /** Registering the first client takes five calls, and saving the status a sixth. */
  lemma FirstRegistration(w: World, c: ClientConfig)
    requires FindByName(w, c.metadata.clientName).None?
    requires w.callsLeft == None || w.callsLeft == Some(5)
    ensures Process(w, map[], [c], []) ==
            if w.callsLeft.None? then
              Reply(Registered(w, c, None), Ok(map[c.metadata.clientName := Managed(w.nextId, c.secretRef)]))
            else Reply(Registered(w, c, Some(0)), Err)
  {
    var cs, w1 := [c], EnsureRealm(w).w;
    assert cs[..0] == [] && cs[0] == c;
    SameLookup(w, w1, c.metadata.clientName, 0);
    assert AfterDeletions(w, map[], cs, []) == EnsureRealm(w);
    assert ProcessClients(w1, map[], []) == Reply(w1, Ok(map[]));
    RegisterFirst(w1, c);
  }

  lemma RegisterFirst(w1: World, c: ClientConfig)
    requires FindByName(w1, c.metadata.clientName).None?
    requires w1.callsLeft == None || w1.callsLeft == Some(4)
    ensures ProcessClient(w1, map[], c) ==
            Reply(Registered(w1, c, if w1.callsLeft.None? then None else Some(0)).(realm := w1.realm),
              Ok(Managed(w1.nextId, c.secretRef)))
  {
  }

  /** Looking a client up depends on nothing but the clients. */
  lemma {:induction false} SameLookup(w: World, w': World, name: string, i: nat)
    requires w'.clients == w.clients && w'.nextId == w.nextId
    ensures FindFrom(w', name, i) == FindFrom(w, name, i)
    decreases w.nextId - i
  {
    if i < w.nextId {
      SameLookup(w, w', name, i + 1);
    }
  }

  /** The state after the client was added and the first attempt went through. */
  lemma Added(w: World, c: ClientConfig)
    requires Sound(w) && FindByName(w, c.metadata.clientName).None?
    ensures var s0, e0, e1 := Start(w), Edit([c]), Attempt(None, []);
            && Enabled(s0, e0) && Enabled(Step(s0, e0), e1)
            && var s := Step(Step(s0, e0), e1);
               Inv(s) && s == InSync(w, c, [c])
  {
    var s1 := Step(Start(w), Edit([c]));
    var w1 := Begin(s1, None);
    SameLookup(w, w1, c.metadata.clientName, 0);
    FirstRegistration(w1, c);
    InitialInv(w);
    StepKeepsInv(Start(w), Edit([c]));
    StepKeepsInv(s1, Attempt(None, []));
  }

  lemma {:induction false} RunThen(s: State, es: seq<Event>, e: Event)
    requires Possible(s, es) && Enabled(Run(s, es), e)
    ensures Possible(s, es + [e]) && Run(s, es + [e]) == Step(Run(s, es), e)
    decreases |es|
  {
    var all := es + [e];
    if es == [] {
      assert all == [e] && all[1..] == [];
    } else {
      assert all[0] == es[0] && all[1..] == es[1..] + [e];
      RunThen(Step(s, es[0]), es[1..], e);
    }
  }

  /** The client is added, registered, and dropped from the spec. */
  lemma AddedThenDropped(w: World, c: ClientConfig) returns (es: seq<Event>)
    requires Sound(w) && FindByName(w, c.metadata.clientName).None?
    ensures es == [Edit([c]), Attempt(None, []), Edit([])] && Possible(Start(w), es)
    ensures var s := Run(Start(w), es);
            Inv(s) && s == InSync(w, c, [])
  {
    Added(w, c);
    es := [Edit([c]), Attempt(None, []), Edit([])];
    var s1 := Step(Start(w), es[0]);
    var s2 := Step(s1, es[1]);
    StepKeepsInv(s2, es[2]);
    RunOfThree(Start(w), s1, s2, Step(s2, es[2]), es);
  }

  lemma RunOfThree(s0: State, s1: State, s2: State, s3: State, es: seq<Event>)
    requires |es| == 3
    requires Enabled(s0, es[0]) && s1 == Step(s0, es[0]) && Enabled(s1, es[1]) && s2 == Step(s1, es[1])
    requires Enabled(s2, es[2]) && s3 == Step(s2, es[2])
    ensures Possible(s0, es) && Run(s0, es) == s3
  {
    var e1, e2 := es[1..], es[1..][1..];
    assert e1[0] == es[1] && e2[0] == es[2] && e2[1..] == [];
    assert Possible(s3, e2[1..]) && Run(s3, e2[1..]) == s3;
    assert Possible(s2, e2) && Run(s2, e2) == s3;
    assert Possible(s1, e1) && Run(s1, e1) == s3;
  }

  /** The deletion sticks: the client is registered and dropped from the spec, and on a server that
      answers as RFC 7592 has it the attempt that deletes it is cut off before its secret is deleted.
      No later attempt at that spec succeeds. */
  lemma CutDeletionRun(w: World, c: ClientConfig) returns (es: seq<Event>)
    requires Sound(w) && FindByName(w, c.metadata.clientName).None? && !w.missingIsNotFound
    ensures es == [Edit([c]), Attempt(None, []), Edit([]), Attempt(Some(3), [c.metadata.clientName])]
    ensures Possible(Start(w), es)
    ensures var s := Run(Start(w), es); !Recoverable(s.w, s.status, s.cs)
  {
    var name := c.metadata.clientName;
    var before := AddedThenDropped(w, c);
    var s := Run(Start(w), before);
    assert s.w.clients[w.nextId].token == w.nextToken && s.status[name] == Managed(w.nextId, c.secretRef);
    CutDeletionSticks(s, name);
    RunThen(Start(w), before, Attempt(Some(3), [name]));
    es := before + [Attempt(Some(3), [name])];
  }

  /** Adding back sticks: the client is registered, dropped and deleted, with the status not saved, and
      comes back to the spec; the attempt that registers it again is cut off before the status is
      saved. On no server does a later attempt at that spec succeed. */
  lemma AddingBackRun(w: World, c: ClientConfig) returns (es: seq<Event>)
    requires Sound(w) && FindByName(w, c.metadata.clientName).None?
    ensures var name := c.metadata.clientName;
            es == [Edit([c]), Attempt(None, []), Edit([]), Attempt(Some(4), [name]), Edit([c]),
              Attempt(Some(5), [name])]
    ensures Possible(Start(w), es)
    ensures var s := Run(Start(w), es); !Recoverable(s.w, s.status, s.cs)
  {
    var before := DeletedThenAdded(w, c);
    var last := Attempt(Some(5), [c.metadata.clientName]);
    AddingBackSticks(Run(Start(w), before), c);
    RunThen(Start(w), before, last);
    es := before + [last];
  }

  lemma DeletedThenAdded(w: World, c: ClientConfig) returns (es: seq<Event>)
    requires Sound(w) && FindByName(w, c.metadata.clientName).None?
    ensures es == [Edit([c]), Attempt(None, []), Edit([]), Attempt(Some(4), [c.metadata.clientName]), Edit([c])]
    ensures Possible(Start(w), es)
    ensures IsAddedBack(Run(Start(w), es), c)
  {
    var before := AddedThenDropped(w, c);
    var last := Attempt(Some(4), [c.metadata.clientName]);
    DeletedNotSaved(Run(Start(w), before), w, c);
    RunThen(Start(w), before, last);
    var four := before + [last];
    EditBack(Run(Start(w), four), c);
    RunThen(Start(w), four, Edit([c]));
    es := four + [Edit([c])];
  }

  /** The spec is the client, which the status names and which is not registered. */
  ghost predicate IsAddedBack(s: State, c: ClientConfig) {
    && Inv(s) && s.cs == [c] && s.status.Keys == {c.metadata.clientName}
    && FindByName(s.w, c.metadata.clientName).None?
  }

  lemma EditBack(s: State, c: ClientConfig)
    requires IsAddedBack(s.(cs := [c]), c) && Enabled(s, Edit([c]))
    ensures IsAddedBack(Step(s, Edit([c])), c)
  {
  }

  lemma DeletedNotSaved(s: State, w: World, c: ClientConfig)
    requires Sound(w) && FindByName(w, c.metadata.clientName).None? && Inv(s)
    requires s == InSync(w, c, [])
    ensures var e := Attempt(Some(4), [c.metadata.clientName]);
            Enabled(s, e) && IsAddedBack(Step(s, e).(cs := [c]), c)
  {
    var name := c.metadata.clientName;
    var w4, order := Begin(s, Some(4)), [name];
    assert order[..0] == [] && order[0] == name && !InSpec([], name);
    var w5 := EnsureRealm(w4).w;
    assert DeleteRemoved(w5, s.status, [], []) == Reply(w5, Ok(true));
    assert AfterDeletions(w4, s.status, [], order) == DeleteClient(w5, s.status[name]);
    DeletedRegistered(w5, w, c);
    var w6 := DeleteClient(w5, s.status[name]).w;
    assert ProcessClients(w6, s.status, []) == Reply(w6, Ok(map[]));
    StepKeepsInv(s, Attempt(Some(4), order));
    StillNotFound(w, w6, name);
  }

  lemma StillNotFound(w: World, w': World, name: string)
    requires Sound(w) && w'.clients == w.clients && FindByName(w, name).None?
    ensures FindByName(w', name).None?
  {
    FindFromFinds(w, name, 0);
    FindFromFinds(w', name, 0);
  }

  lemma DeletedRegistered(w5: World, w: World, c: ClientConfig)
    requires Sound(w) && w5 == Registered(w, c, Some(3))
    ensures DeleteClient(w5, Managed(w.nextId, c.secretRef)).r.Ok?
    ensures !Alive(DeleteClient(w5, Managed(w.nextId, c.secretRef)).w)
    ensures DeleteClient(w5, Managed(w.nextId, c.secretRef)).w.clients == w.clients
  {
    assert w5.clients - {w.nextId} == w.clients;
  }

  /** A Finalize with two calls left reads the secret and deletes the client. */
  lemma CutFinalize(w: World, status: Status, c: ClientConfig)
    requires w.callsLeft == Some(2) && Handled(status, c) && c.secretRef in w.secrets
    requires var id := status[c.metadata.clientName].clientId;
             id in w.clients && w.clients[id].token == w.secrets[c.secretRef]
    ensures var w' := FinalizeRealm(w, status, [c]).w;
            && w'.clients == w.clients - {status[c.metadata.clientName].clientId}
            && w'.secrets == w.secrets && w'.missingIsNotFound == w.missingIsNotFound
  {
    var cs := [c];
    assert cs[..0] == [] && cs[0] == c;
    assert FinalizeClients(w, status, cs[..0]) == Reply(w, Ok(true));
  }

  /** Finalize sticks: the client is registered, and on a server that answers as RFC 7592 has it the
      first attempt to finalize is cut off before the client's secret is deleted. No later attempt to
      finalize succeeds. */
  lemma CutFinalizeSticks(w: World, c: ClientConfig, cuts: seq<Option<nat>>, cut: Option<nat>)
    requires Sound(w) && FindByName(w, c.metadata.clientName).None? && !w.missingIsNotFound
    ensures var Reply(w1, r) := Process(w.(callsLeft := None), map[], [c], []);
            && r.Ok?
            && var w2 := FinalizeAttempts(w1, r.value, [c], [Some(2)] + cuts);
               FinalizeRealm(w2.(callsLeft := cut), r.value, [c]).r.Err?
  {
    var all := [Some(2)] + cuts;
    SameLookup(w, w.(callsLeft := None), c.metadata.clientName, 0);
    FirstRegistration(w.(callsLeft := None), c);
    var Reply(w1, r) := Process(w.(callsLeft := None), map[], [c], []);
    CutFinalize(w1.(callsLeft := Some(2)), r.value, c);
    assert all[0] == Some(2) && all[1..] == cuts;
    assert Handled(r.value, c) && c in [c];
    FinalizeStaysStuck(FinalizeRealm(w1.(callsLeft := Some(2)), r.value, [c]).w, r.value, [c], cuts, cut);
  }

  /** A secret is left: the attempt that registers the client is cut off before the status is saved,
      and then the provider is finalized. Finalize succeeds and leaves the client's secret. */
  lemma CutRegistrationLeavesSecret(w: World, c: ClientConfig)
    requires Sound(w) && FindByName(w, c.metadata.clientName).None?
    ensures var Reply(w1, r) := Process(w.(callsLeft := Some(5)), map[], [c], []);
            && r.Err?
            && var Reply(w2, f) := FinalizeRealm(w1.(callsLeft := None), map[], [c]);
               f.Ok? && w2.clients == map[] && c.secretRef in w2.secrets
  {
    var cs, w0 := [c], w.(callsLeft := Some(5));
    SameLookup(w, w0, c.metadata.clientName, 0);
    FirstRegistration(w0, c);
    var w1 := Process(w0, map[], cs, []).w.(callsLeft := None);
    assert cs[..0] == [] && cs[0] == c;
    assert FinalizeClients(w1, map[], []) == Reply(w1, Ok(true));
    assert !Reaches(map[], cs, c.secretRef);
    FinalizeLeaves(w1, map[], cs);
  }

  /** A client whose secret holds its current token is updated with three calls, without asking for a new
      token first: it is looked up, its secret is read, and the update is accepted. */
  lemma UpdateNeedsNoRefresh(w: World, status: Status, c: ClientConfig, n: nat)
    requires Sound(w) && Settled(w, status, c) && w.callsLeft == Some(n + 3)
    ensures var Reply(w', r) := RegisterOrUpdateClient(w, status, c);
            && r.Ok? && w'.callsLeft == Some(n)
            && r.value.0 == status[c.metadata.clientName].clientId
            && (!w.rotates ==> r.value.1 == w.secrets[c.secretRef])
  {
    FindByNameFinds(w, c.metadata.clientName, status[c.metadata.clientName].clientId);
  }
}
