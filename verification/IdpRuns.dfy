/** Runs of spec edits and of reconciliation attempts cut off after any remote call. */
module IdpRuns {
  import opened Wrappers
  import opened Idp
  import opened IdpEffects
  import opened IdpRecovery

  /** The dropped names are those outside the spec of a failed attempt since the last success, which
      it may have deleted the clients of; the unsettled names are those of failed attempts under which
      a client may be registered that the status does not point to. */
  datatype State = State(w: World, status: Status, cs: seq<ClientConfig>, dropped: set<string>, unsettled: set<string>)

  /** An attempt makes at most the given number of remote calls and visits the status in the given
      order. */
  datatype Event = Edit(cs: seq<ClientConfig>) | Attempt(cut: Option<nat>, order: seq<string>)

  function Begin(s: State, cut: Option<nat>): World {
    s.w.(callsLeft := cut)
  }

  ghost predicate Enabled(s: State, e: Event) {
    match e
    case Edit(cs) => Distinct(cs)
    case Attempt(cut, order) => Covers(Begin(s, cut), s.status, s.cs, order)
  }

  ghost function Step(s: State, e: Event): State
    requires Enabled(s, e)
  {
    match e
    case Edit(cs) => s.(cs := cs)
    case Attempt(cut, order) =>
      var Reply(w', r) := Process(Begin(s, cut), s.status, s.cs, order);
      if r.Ok? then State(w', r.value, s.cs, {}, s.unsettled - NamesOf(s.cs))
      else
        s.(w := w', dropped := s.dropped + (s.status.Keys - NamesOf(s.cs)),
           unsettled := s.unsettled + (NamesOf(s.cs) - (s.status.Keys - s.dropped)))
  }

  ghost predicate Possible(s: State, es: seq<Event>)
    decreases |es|
  {
    es != [] ==> Enabled(s, es[0]) && Possible(Step(s, es[0]), es[1..])
  }

  ghost function Run(s: State, es: seq<Event>): State
    requires Possible(s, es)
    decreases |es|
  {
    if es == [] then s else Run(Step(s, es[0]), es[1..])
  }

  /** No two clients share a name, status entries point to the client of their name, and only the
      client of a dropped name may be gone. */
  ghost predicate Inv(s: State) {
    && Sound(s.w) && Linked(s.w, s.status) && Distinct(s.cs)
    && (forall n :: n in s.status && n !in s.dropped ==> s.status[n].clientId in s.w.clients)
  }

  /** An operator that starts on a realm it has not seen, whatever clients there are already. */
  lemma InitialInv(w: World)
    requires Sound(w)
    ensures Inv(State(w, map[], [], {}, {}))
  {
  }

  lemma BeginKeeps(s: State, cut: Option<nat>)
    requires Sound(s.w) && Linked(s.w, s.status)
    ensures Sound(Begin(s, cut)) && Linked(Begin(s, cut), s.status)
    ensures Recoverable(Begin(s, cut), s.status, s.cs) <==> Recoverable(s.w, s.status, s.cs)
  {
    forall c | c in s.cs
      ensures Fresh(Begin(s, cut), s.status, c) <==> Fresh(s.w, s.status, c)
    {
      FindFromFinds(s.w, c.metadata.clientName, 0);
      FindFromFinds(Begin(s, cut), c.metadata.clientName, 0);
    }
  }

  /** A failed attempt keeps the clients of names that were not dropped. */
  lemma AttemptKeepsTracked(s: State, cut: Option<nat>, order: seq<string>, name: string)
    requires Inv(s) && Visited(order, s.status)
    requires name in s.status && name !in s.dropped && InSpec(s.cs, name)
    ensures s.status[name].clientId in Process(Begin(s, cut), s.status, s.cs, order).w.clients
  {
    BeginKeeps(s, cut);
    SpecClientSurvives(Begin(s, cut), s.status, s.cs, order, s.status[name].clientId);
  }

  lemma StepKeepsInv(s: State, e: Event)
    requires Inv(s) && Enabled(s, e)
    ensures Inv(Step(s, e))
  {
    match e
    case Edit(cs) =>
    case Attempt(cut, order) =>
      var w := Begin(s, cut);
      var Reply(w', r) := Process(w, s.status, s.cs, order);
      BeginKeeps(s, cut);
      ProcessAffects(w, s.status, s.cs, order);
      if r.Ok? {
        SuccessReconciles(w, s.status, s.cs, order);
        SuccessKeepsInv(Step(s, e));
      } else {
        StillLinked(w, w', Removed(s.cs, order) + NamesOf(s.cs), s.status);
        forall n | n in s.status && n !in s.dropped + (s.status.Keys - NamesOf(s.cs))
          ensures s.status[n].clientId in w'.clients
        {
          NamesOfInSpec(s.cs, n);
          AttemptKeepsTracked(s, cut, order, n);
        }
      }
  }

  lemma SuccessKeepsInv(s: State)
    requires Sound(s.w) && Linked(s.w, s.status) && Distinct(s.cs) && Reconciled(s.w, s.status, s.cs)
    ensures Inv(s)
  {
    forall n | n in s.status
      ensures s.status[n].clientId in s.w.clients
    {
      NamesOfInSpec(s.cs, n);
      var c :| c in s.cs && c.metadata.clientName == n;
      assert Settled(s.w, s.status, c);
    }
  }

  /** No run ever holds two clients of one name, whatever the edits and wherever attempts are cut
      off. */
  lemma {:induction false} RunKeepsInv(s: State, es: seq<Event>)
    requires Inv(s) && Possible(s, es)
    ensures Inv(Run(s, es))
    decreases |es|
  {
    if es != [] {
      StepKeepsInv(s, es[0]);
      RunKeepsInv(Step(s, es[0]), es[1..]);
    }
  }

  /** The spec names no name that was dropped, and the server tells missing clients apart or there is
      nothing to delete. */
  ghost predicate Orderly(s: State) {
    && NamesOf(s.cs) !! s.dropped
    && (s.w.missingIsNotFound || s.status.Keys <= NamesOf(s.cs))
  }

  lemma OrderlyIsRecoverable(s: State)
    requires Inv(s) && Orderly(s)
    ensures Recoverable(s.w, s.status, s.cs)
  {
    forall n | n in s.status && !InSpec(s.cs, n)
      ensures Deletable(s.w, s.status[n])
    {
      NamesOfInSpec(s.cs, n);
    }
    forall c | c in s.cs
      ensures Fresh(s.w, s.status, c)
    {
      var name := c.metadata.clientName;
      NamesOfInSpec(s.cs, name);
      if name in s.status {
        FindByNameFinds(s.w, name, s.status[name].clientId);
      }
    }
  }

  /** Whatever a run of cut-off attempts left, one uninterrupted attempt succeeds exactly from the
      recoverable states, and then every client of the spec is registered exactly once by name, its
      secret holds its current token and the status has exactly the spec's names. */
  lemma RunRecoversIff(s: State, es: seq<Event>, order: seq<string>)
    requires Inv(s) && Possible(s, es)
    requires Enabled(Run(s, es), Attempt(None, order))
    ensures var s1 := Run(s, es);
            var Reply(w', r) := Process(Begin(s1, None), s1.status, s1.cs, order);
            && (r.Ok? <==> Recoverable(s1.w, s1.status, s1.cs))
            && (Orderly(s1) ==> r.Ok?)
            && (r.Ok? ==> Reconciled(w', r.value, s1.cs))
  {
    RunKeepsInv(s, es);
    var s1 := Run(s, es);
    var w := Begin(s1, None);
    BeginKeeps(s1, None);
    ProcessSucceedsIff(w, s1.status, s1.cs, order);
    if Orderly(s1) {
      OrderlyIsRecoverable(s1);
    }
    if Process(w, s1.status, s1.cs, order).r.Ok? {
      SuccessReconciles(w, s1.status, s1.cs, order);
    }
  }

  /** Once not recoverable, a state stays so for every number of attempts at the same spec, and the
      saved status never changes. */
  lemma {:induction false} RetriesStayUnrecoverable(s: State, es: seq<Event>)
    requires Inv(s) && Possible(s, es) && !Recoverable(s.w, s.status, s.cs)
    requires forall e :: e in es ==> e.Attempt?
    ensures Run(s, es).status == s.status && Run(s, es).cs == s.cs
    ensures !Recoverable(Run(s, es).w, s.status, s.cs)
    decreases |es|
  {
    if es != [] {
      var e := es[0];
      assert e in es;
      BeginKeeps(s, e.cut);
      StaysUnrecoverable(Begin(s, e.cut), s.status, s.cs, e.order);
      StepKeepsInv(s, e);
      RetriesStayUnrecoverable(Step(s, e), es[1..]);
    }
  }

  /** A server that answers as RFC 7592 has it and an attempt cut off between deleting a client and
      deleting its secret: no later attempt gets past the deletion. */
  lemma CutDeletionSticks(s: State, name: string)
    requires Inv(s) && s.cs == [] && s.status.Keys == {name}
    requires s.w.missingIsNotFound == false
    requires var m := s.status[name];
             && m.clientId in s.w.clients && m.secretRef in s.w.secrets
             && s.w.secrets[m.secretRef] == s.w.clients[m.clientId].token
    ensures var e := Attempt(Some(3), [name]);
            && Enabled(s, e)
            && var s' := Step(s, e);
               s'.status == s.status && s'.cs == s.cs && !Recoverable(s'.w, s'.status, s'.cs)
  {
    var m, w := s.status[name], Begin(s, Some(3));
    var order := [name];
    assert order[..0] == [] && order[0] == name;
    assert DeleteRemoved(EnsureRealm(w).w, s.status, [], []) == EnsureRealm(w);
    assert !InSpec([], name);
    assert AfterDeletions(w, s.status, [], order) == DeleteClient(EnsureRealm(w).w, m);
    assert !Deletable(DeleteClient(EnsureRealm(w).w, m).w, m);
  }

  /** A name that was dropped and whose client was deleted comes back, and the attempt that registers
      it again is cut off before the status is saved: no later attempt at that spec succeeds. */
  lemma AddingBackSticks(s: State, c: ClientConfig)
    requires Inv(s) && s.cs == [c] && s.status.Keys == {c.metadata.clientName}
    requires FindByName(s.w, c.metadata.clientName).None?
    ensures var e := Attempt(Some(5), [c.metadata.clientName]);
            && Enabled(s, e)
            && var s' := Step(s, e);
               s'.status == s.status && s'.cs == s.cs && !Recoverable(s'.w, s'.status, s'.cs)
  {
    var name, w := c.metadata.clientName, Begin(s, Some(5));
    var order, cs := [name], [c];
    assert order[..0] == [] && order[0] == name && cs[..0] == [] && cs[0] == c;
    assert c in cs && InSpec(cs, name);
    var w1 := EnsureRealm(w).w;
    assert DeleteRemoved(w1, s.status, cs, []) == EnsureRealm(w);
    assert AfterDeletions(w, s.status, cs, order) == EnsureRealm(w);
    FindFromFinds(s.w, name, 0);
    FindFromFinds(w1, name, 0);
    assert ProcessClients(w1, s.status, []) == Reply(w1, Ok(map[]));
    var one := ProcessClient(w1, s.status, c);
    assert one.r == Ok(Managed(w.nextId, c.secretRef));
    var w' := Process(w, s.status, cs, order).w;
    assert w' == one.w;
    assert NameOf(w', w.nextId) == name;
    FindFromFinds(w', name, 0);
  }

  /** Apart from clients that were always there, every client is registered under a name of the status
      or an unsettled name; under a settled name of the status there is only the client it points to;
      and clients the status points to have their secrets. */
  ghost predicate Accounted(existing: set<nat>, s: State) {
    && (forall id :: id in s.w.clients && id !in existing ==> NameOf(s.w, id) in s.status.Keys + s.unsettled)
    && (forall id :: id in s.w.clients && NameOf(s.w, id) in s.status.Keys - s.unsettled ==>
                       id == s.status[NameOf(s.w, id)].clientId)
    && Backed(s.w, s.status)
  }

  /** An operator that starts on a realm it has not seen. */
  lemma InitialAccounted(w: World)
    ensures Accounted(w.clients.Keys, State(w, map[], [], {}, {}))
  {
  }

  lemma FailureKeepsAccounted(existing: set<nat>, s: State, cut: Option<nat>, order: seq<string>)
    requires Inv(s) && Accounted(existing, s) && Enabled(s, Attempt(cut, order))
    requires Process(Begin(s, cut), s.status, s.cs, order).r.Err?
    ensures Accounted(existing, Step(s, Attempt(cut, order)))
  {
    var w, s' := Begin(s, cut), Step(s, Attempt(cut, order));
    BeginKeeps(s, cut);
    AttemptKeepsBacked(w, s.status, s.cs, order);
    ProcessAffects(w, s.status, s.cs, order);
    StepKeepsInv(s, Attempt(cut, order));
    forall id | id in s'.w.clients
      ensures id !in existing ==> NameOf(s'.w, id) in s'.status.Keys + s'.unsettled
      ensures NameOf(s'.w, id) in s'.status.Keys - s'.unsettled ==> id == s'.status[NameOf(s'.w, id)].clientId
    {
      var n := NameOf(s'.w, id);
      NamesOfInSpec(s.cs, n);
      if !InSpec(s.cs, n) {
        OutsideSpecOnlyDeleted(w, s.status, s.cs, order, id);
      } else if n in s.status && n !in s.dropped {
        AttemptKeepsTracked(s, cut, order, n);
      }
    }
  }

  lemma SuccessKeepsAccounted(existing: set<nat>, s: State, cut: Option<nat>, order: seq<string>)
    requires Inv(s) && Accounted(existing, s) && Enabled(s, Attempt(cut, order))
    requires Process(Begin(s, cut), s.status, s.cs, order).r.Ok?
    ensures Accounted(existing, Step(s, Attempt(cut, order)))
  {
    var w, s' := Begin(s, cut), Step(s, Attempt(cut, order));
    BeginKeeps(s, cut);
    SuccessReconciles(w, s.status, s.cs, order);
    forall id | id in s'.w.clients && id !in existing && !InSpec(s.cs, NameOf(s'.w, id))
      ensures NameOf(s'.w, id) in s'.unsettled
    {
      LeftIsUnsettled(existing, s, w, order, id);
    }
    ReconciledIsAccounted(existing, s');
  }

  /** What a success leaves outside the spec is under an unsettled name. */
  lemma LeftIsUnsettled(existing: set<nat>, s: State, w: World, order: seq<string>, id: nat)
    requires Sound(w) && Linked(w, s.status) && w.clients == s.w.clients && w.secrets == s.w.secrets
    requires Accounted(existing, s) && Covers(w, s.status, s.cs, order) && Process(w, s.status, s.cs, order).r.Ok?
    requires id in Process(w, s.status, s.cs, order).w.clients && id !in existing
    requires !InSpec(s.cs, NameOf(Process(w, s.status, s.cs, order).w, id))
    ensures NameOf(Process(w, s.status, s.cs, order).w, id) in s.unsettled - NamesOf(s.cs)
  {
    OutsideSpecOnlyDeleted(w, s.status, s.cs, order, id);
    NamesOfInSpec(s.cs, NameOf(w, id));
    if NameOf(w, id) !in s.unsettled {
      SuccessDeletes(w, s.status, s.cs, order, NameOf(w, id));
    }
  }

  lemma ReconciledIsAccounted(existing: set<nat>, s: State)
    requires Reconciled(s.w, s.status, s.cs)
    requires forall id :: id in s.w.clients && id !in existing && !InSpec(s.cs, NameOf(s.w, id)) ==>
             NameOf(s.w, id) in s.unsettled
    ensures Accounted(existing, s)
  {
    forall n | n in s.status
      ensures exists c :: c in s.cs && c.metadata.clientName == n && Settled(s.w, s.status, c)
    {
      var c :| c in s.cs && c.metadata.clientName == n;
      assert Settled(s.w, s.status, c);
    }
    forall id | id in s.w.clients
      ensures InSpec(s.cs, NameOf(s.w, id)) <==> NameOf(s.w, id) in s.status
    {
      NamesOfInSpec(s.cs, NameOf(s.w, id));
    }
  }

  lemma StepKeepsAccounted(existing: set<nat>, s: State, e: Event)
    requires Inv(s) && Accounted(existing, s) && Enabled(s, e)
    ensures Accounted(existing, Step(s, e))
  {
    match e
    case Edit(_) =>
    case Attempt(cut, order) =>
      if Process(Begin(s, cut), s.status, s.cs, order).r.Ok? {
        SuccessKeepsAccounted(existing, s, cut, order);
      } else {
        FailureKeepsAccounted(existing, s, cut, order);
      }
  }

  /** In every run, whatever the edits and wherever attempts are cut off, each client the operator
      registered is under a name of the status or an unsettled name. */
  lemma {:induction false} RunKeepsAccounted(existing: set<nat>, s: State, es: seq<Event>)
    requires Inv(s) && Accounted(existing, s) && Possible(s, es)
    ensures Accounted(existing, Run(s, es))
    decreases |es|
  {
    if es != [] {
      StepKeepsInv(s, es[0]);
      StepKeepsAccounted(existing, s, es[0]);
      RunKeepsAccounted(existing, Step(s, es[0]), es[1..]);
    }
  }

  ghost predicate Succeeds(s: State, e: Event)
    requires Enabled(s, e)
  {
    e.Attempt? && Process(Begin(s, e.cut), s.status, s.cs, e.order).r.Ok?
  }

  /** The spec is edited only while no cut-off attempt waits for a retry. */
  ghost predicate RetriedBeforeEdits(s: State, es: seq<Event>, pending: bool)
    requires Possible(s, es)
    decreases |es|
  {
    es != [] ==>
      && (es[0].Edit? ==> !pending)
      && RetriedBeforeEdits(Step(s, es[0]), es[1..], es[0].Attempt? && !Succeeds(s, es[0]))
  }

  ghost predicate Quiet(s: State, pending: bool) {
    && s.unsettled <= NamesOf(s.cs) && NamesOf(s.cs) !! s.dropped
    && (!pending ==> s.unsettled == s.dropped == {})
  }

  lemma {:induction false} RetriedRunIsQuiet(s: State, es: seq<Event>, pending: bool) returns (pending': bool)
    requires Possible(s, es) && RetriedBeforeEdits(s, es, pending) && Quiet(s, pending)
    ensures Quiet(Run(s, es), pending')
    decreases |es|
  {
    if es == [] {
      pending' := pending;
    } else {
      pending' := RetriedRunIsQuiet(Step(s, es[0]), es[1..], es[0].Attempt? && !Succeeds(s, es[0]));
    }
  }

  /** In every run in which cut-off attempts are retried to success before the next edit: a success
      leaves no client of the operator outside the spec; and on a server that tells missing clients
      apart, or with nothing to delete, an uninterrupted attempt always is a success, after which
      every client of the spec is registered exactly once. */
  lemma RetriedRunConverges(w: World, es: seq<Event>, cut: Option<nat>, order: seq<string>)
    requires Sound(w) && Possible(State(w, map[], [], {}, {}), es)
    requires RetriedBeforeEdits(State(w, map[], [], {}, {}), es, false)
    requires Enabled(Run(State(w, map[], [], {}, {}), es), Attempt(cut, order))
    ensures var s1 := Run(State(w, map[], [], {}, {}), es);
            var Reply(w', r) := Process(Begin(s1, cut), s1.status, s1.cs, order);
            && (cut.None? && (s1.w.missingIsNotFound || s1.status.Keys <= NamesOf(s1.cs)) ==> r.Ok?)
            && (r.Ok? ==> Reconciled(w', r.value, s1.cs))
            && (r.Ok? ==> forall id :: id in w'.clients && id !in w.clients ==> InSpec(s1.cs, NameOf(w', id)))
  {
    var s := State(w, map[], [], {}, {});
    var s1 := Run(s, es);
    var pending := RetriedRunIsQuiet(s, es, false);
    RunKeepsInv(s, es);
    RunKeepsAccounted(w.clients.Keys, s, es);
    BeginKeeps(s1, cut);
    ProcessSucceedsIff(Begin(s1, cut), s1.status, s1.cs, order);
    if s1.w.missingIsNotFound || s1.status.Keys <= NamesOf(s1.cs) {
      OrderlyIsRecoverable(s1);
    }
    var Reply(w', r) := Process(Begin(s1, cut), s1.status, s1.cs, order);
    if r.Ok? {
      SuccessReconciles(Begin(s1, cut), s1.status, s1.cs, order);
      StepKeepsAccounted(w.clients.Keys, s1, Attempt(cut, order));
      forall id | id in w'.clients && id !in w.clients
        ensures InSpec(s1.cs, NameOf(w', id))
      {
        NamesOfInSpec(s1.cs, NameOf(w', id));
      }
    }
  }

  /** A client outside spec and status stays for good, as long as no edit names it. */
  lemma {:induction false} OutsideStaysForGood(s: State, es: seq<Event>, id: nat)
    requires Inv(s) && Possible(s, es)
    requires id in s.w.clients && NameOf(s.w, id) !in s.status.Keys + NamesOf(s.cs)
    requires forall e :: e in es && e.Edit? ==> NameOf(s.w, id) !in NamesOf(e.cs)
    ensures id in Run(s, es).w.clients && Run(s, es).w.clients[id] == s.w.clients[id]
    decreases |es|
  {
    if es != [] {
      var e := es[0];
      assert e in es;
      StepKeepsInv(s, e);
      if e.Attempt? {
        BeginKeeps(s, e.cut);
        ProcessAffects(Begin(s, e.cut), s.status, s.cs, e.order);
        if Succeeds(s, e) {
          SuccessReconciles(Begin(s, e.cut), s.status, s.cs, e.order);
        }
      }
      OutsideStaysForGood(Step(s, e), es[1..], id);
    }
  }

  /** The retry before the edit is needed: a client is registered by an attempt that is cut off before
      its secret is written, and then dropped from the spec. The next attempt succeeds with an empty
      status and leaves the client registered. */
  lemma EditBeforeRetryOrphans(w: World, c: ClientConfig) returns (es: seq<Event>)
    requires Sound(w) && FindByName(w, c.metadata.clientName).None?
    ensures es == [Edit([c]), Attempt(Some(4), []), Edit([]), Attempt(None, [])]
    ensures var s := State(w, map[], [], {}, {});
            && Possible(s, es)
            && var s' := Run(s, es);
               && s'.status == map[] && s'.cs == [] && Reconciled(s'.w, s'.status, s'.cs)
               && exists id :: id in s'.w.clients && id !in w.clients && NameOf(s'.w, id) == c.metadata.clientName
  {
    es := [Edit([c]), Attempt(Some(4), []), Edit([]), Attempt(None, [])];
    var s0 := State(w, map[], [], {}, {});
    var s1 := Step(s0, es[0]);
    CutRegistration(s1, c);
    var s2 := Step(s1, es[1]);
    var s3 := Step(s2, es[2]);
    NothingToDo(s3);
    var s4 := Step(s3, es[3]);
    RunOfFour(s0, s1, s2, s3, s4, es);
  }

  lemma RunOfFour(s0: State, s1: State, s2: State, s3: State, s4: State, es: seq<Event>)
    requires |es| == 4
    requires Enabled(s0, es[0]) && s1 == Step(s0, es[0]) && Enabled(s1, es[1]) && s2 == Step(s1, es[1])
    requires Enabled(s2, es[2]) && s3 == Step(s2, es[2]) && Enabled(s3, es[3]) && s4 == Step(s3, es[3])
    ensures Possible(s0, es) && Run(s0, es) == s4
  {
    var e1, e2, e3 := es[1..], es[1..][1..], es[1..][1..][1..];
    assert e1[0] == es[1] && e2[0] == es[2] && e3[0] == es[3] && e3[1..] == [];
    assert Possible(s4, e3[1..]) && Run(s4, e3[1..]) == s4;
    assert Possible(s3, e3) && Run(s3, e3) == s4;
    assert Possible(s2, e2) && Run(s2, e2) == s4;
    assert Possible(s1, e1) && Run(s1, e1) == s4;
  }

  lemma CutRegistration(s: State, c: ClientConfig)
    requires Sound(s.w) && s.status == map[] && s.cs == [c] && FindByName(s.w, c.metadata.clientName).None?
    ensures var e := Attempt(Some(4), []);
            && Enabled(s, e)
            && var s' := Step(s, e);
               && s'.status == map[]
               && s.w.nextId in s'.w.clients && NameOf(s'.w, s.w.nextId) == c.metadata.clientName
  {
    var w, cs := Begin(s, Some(4)), [c];
    assert cs[..0] == [] && cs[0] == c;
    var w1 := EnsureRealm(w).w;
    FindFromFinds(s.w, c.metadata.clientName, 0);
    FindFromFinds(w1, c.metadata.clientName, 0);
    assert AfterDeletions(w, map[], cs, []) == EnsureRealm(w);
    assert ProcessClients(w1, map[], []) == Reply(w1, Ok(map[]));
    var one := ProcessClient(w1, map[], c);
    assert one.r == Err && w.nextId in one.w.clients;
    assert Process(w, map[], cs, []) == Reply(one.w, Err);
  }

  lemma NothingToDo(s: State)
    requires s.status == map[] && s.cs == []
    ensures var e := Attempt(None, []);
            && Enabled(s, e)
            && Step(s, e).w.clients == s.w.clients && Step(s, e).status == map[] && Step(s, e).cs == []
  {
    var w := Begin(s, None);
    assert AfterDeletions(w, map[], [], []) == EnsureRealm(w);
  }
}
