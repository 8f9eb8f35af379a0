/** Runs of the tuple subroutine for any number of resources that share one OpenFGA store, with
    spec edits, failing attempts and foreign writers interleaved in any order. */
module TupleRuns {
  import opened Tuples
  import opened TupleManager
  import opened TupleReconciler

  /** A resource together with its unsettled tuples: those of specs whose attempt failed and that
      no success has since taken into the status or removed. */
  datatype Tracked = Tracked(owner: Owner, unsettled: set<Tuple>)

  datatype System = System(store: set<Tuple>, owners: map<nat, Tracked>)

  datatype Event =
    | Edit(id: nat, spec: seq<Tuple>)
    | ProcessOk(id: nat)
    | ProcessError(id: nat)
    | FinalizeOk(id: nat)
    | FinalizeError(id: nat)
    | Foreign

  /** The tuples each resource may ever name; different resources never name the same tuple. */
  type Universe = map<nat, set<Tuple>>

  predicate Disjoint(u: Universe) {
    forall i, j :: i in u && j in u && i != j ==> u[i] !! u[j]
  }

  ghost predicate Step(u: Universe, s: System, e: Event, s': System) {
    if e.Foreign? then
      && s'.owners == s.owners
      && forall id :: id in u ==> s'.store * u[id] == s.store * u[id]
    else
      && e.id in u && e.id in s.owners && e.id in s'.owners
      && s'.owners == s.owners[e.id := s'.owners[e.id]]
      && OwnerStep(u[e.id], s.store, s.owners[e.id], e, s'.store, s'.owners[e.id])
  }

  ghost predicate OwnerStep(universe: set<Tuple>, s: set<Tuple>, o: Tracked, e: Event, s': set<Tuple>, o': Tracked) {
    match e
    case Edit(_, spec) =>
      AsSet(spec) <= universe && s' == s && o' == o.(owner := o.owner.(spec := spec))
    case ProcessOk(_) =>
      && Processed(s, o.owner, s', o'.owner)
      && o'.unsettled == o.unsettled - AsSet(o.owner.spec) - Stale(o.owner)
    case ProcessError(_) =>
      ProcessFailed(s, o.owner, s', o'.owner) && o'.unsettled == o.unsettled + AsSet(o.owner.spec)
    case FinalizeOk(_) => Finalized(s, o.owner, s', o'.owner) && o'.unsettled == o.unsettled
    case FinalizeError(_) => FinalizeFailed(s, o.owner, s', o'.owner) && o'.unsettled == o.unsettled
    case Foreign => false
  }

  ghost predicate Run(u: Universe, states: seq<System>, events: seq<Event>) {
    && |states| == |events| + 1
    && forall i :: 0 <= i < |events| ==> Step(u, states[i], events[i], states[i + 1])
  }

  /** Nobody has written anything yet. */
  predicate Initial(u: Universe, s: System) {
    && s.owners.Keys == u.Keys
    && forall id :: id in u ==>
                      && s.store * u[id] == {}
                      && s.owners[id].owner.managed == []
                      && s.owners[id].unsettled == {}
                      && AsSet(s.owners[id].owner.spec) <= u[id]
  }

  /** A resource's managed tuples are in the store, and whatever it has in the store is managed or
      unsettled. */
  predicate OwnerInvariant(universe: set<Tuple>, store: set<Tuple>, o: Tracked) {
    && AsSet(o.owner.spec) <= universe
    && AsSet(o.owner.managed) <= universe
    && AsSet(o.owner.managed) <= store
    && store * universe <= AsSet(o.owner.managed) + o.unsettled
  }

  predicate Invariant(u: Universe, s: System) {
    && s.owners.Keys == u.Keys
    && forall id :: id in u ==> OwnerInvariant(u[id], s.store, s.owners[id])
  }

  /** A step changes no tuple outside the universe of the resource it is about, and no other
      resource's record. */
  lemma StepFrame(u: Universe, s: System, e: Event, s': System)
    requires Invariant(u, s) && Step(u, s, e, s') && !e.Foreign?
    ensures s'.store - u[e.id] == s.store - u[e.id]
    ensures forall id :: id in u && id != e.id ==> s'.owners[id] == s.owners[id]
  {
    assert OwnerInvariant(u[e.id], s.store, s.owners[e.id]);
  }

  lemma OwnersShareUntouched(u: Universe, s: System, e: Event, s': System, id: nat)
    requires Disjoint(u) && Invariant(u, s) && Step(u, s, e, s')
    requires id in u && (e.Foreign? || e.id != id)
    ensures s'.store * u[id] == s.store * u[id] && s'.owners[id] == s.owners[id]
  {
    if !e.Foreign? {
      StepFrame(u, s, e, s');
      assert u[id] !! u[e.id];
      assert forall t :: t in u[id] ==> (t in s'.store <==> t in s'.store - u[e.id]);
      assert forall t :: t in u[id] ==> (t in s.store <==> t in s.store - u[e.id]);
    }
  }

  lemma StepKeepsInvariant(u: Universe, s: System, e: Event, s': System)
    requires Disjoint(u) && Invariant(u, s) && Step(u, s, e, s')
    ensures Invariant(u, s')
  {
    forall id | id in u
      ensures OwnerInvariant(u[id], s'.store, s'.owners[id])
    {
      assert OwnerInvariant(u[id], s.store, s.owners[id]);
      if e.Foreign? || e.id != id {
        OwnersShareUntouched(u, s, e, s', id);
        assert AsSet(s.owners[id].owner.managed) <= s.store * u[id];
      } else {
        OwnerStepKeepsInvariant(u[id], s.store, s.owners[id], e, s'.store, s'.owners[id]);
      }
    }
  }

  lemma OwnerStepKeepsInvariant(universe: set<Tuple>, s: set<Tuple>, o: Tracked, e: Event, s': set<Tuple>, o': Tracked)
    requires OwnerInvariant(universe, s, o) && OwnerStep(universe, s, o, e, s', o')
    ensures OwnerInvariant(universe, s', o')
  {
    forall t | t in s' * universe
      ensures t in AsSet(o'.owner.managed) + o'.unsettled
    {
      assert t in s * universe || t in AsSet(o.owner.spec);
    }
  }

  /** Whatever the interleaving and whichever calls fail, in every state of every run each
      resource's managed tuples are in the store, and nothing of its universe is in the store
      beyond its managed and its unsettled tuples. */
  lemma {:induction false} RunKeepsInvariant(u: Universe, states: seq<System>, events: seq<Event>, i: nat)
    requires Disjoint(u) && Run(u, states, events) && Initial(u, states[0])
    requires i < |states|
    ensures Invariant(u, states[i])
  {
    if i > 0 {
      RunKeepsInvariant(u, states, events, i - 1);
      StepKeepsInvariant(u, states[i - 1], events[i - 1], states[i]);
    }
  }

  /** Without foreign writers, tuples outside all universes never change. */
  lemma {:induction false} RunFrame(u: Universe, states: seq<System>, events: seq<Event>, i: nat, t: Tuple)
    requires Disjoint(u) && Run(u, states, events) && Initial(u, states[0])
    requires Foreign !in events
    requires i < |states| && forall id :: id in u ==> t !in u[id]
    ensures t in states[i].store <==> t in states[0].store
  {
    if i > 0 {
      RunFrame(u, states, events, i - 1, t);
      RunKeepsInvariant(u, states, events, i - 1);
      var e := events[i - 1];
      StepFrame(u, states[i - 1], e, states[i]);
      assert t in states[i].store <==> t in states[i].store - u[e.id];
    }
  }

  /** No edit and no success of the resource happens in the events. */
  predicate OnlyRetries(events: seq<Event>, id: nat) {
    forall e :: e in events && !e.Foreign? && e.id == id ==> e.ProcessError?
  }

  /** Retry convergence: any number of failed attempts, with any steps of other resources in
      between, followed by a success leaves the resource's share of the store and its status as a
      single success straight away would have. */
  lemma {:induction false} RetriesConverge(u: Universe, states: seq<System>, events: seq<Event>, id: nat)
    requires Disjoint(u) && Run(u, states, events) && Invariant(u, states[0]) && id in u
    requires |events| > 0 && OnlyRetries(events[..|events| - 1], id) && events[|events| - 1] == ProcessOk(id)
    ensures var first, last := states[0], states[|events|];
            && id in first.owners && id in last.owners
            && var o := first.owners[id].owner;
            && last.store * u[id] == (first.store + AsSet(o.spec) - Stale(o)) * u[id]
            && last.owners[id].owner == Owner(o.spec, o.spec)
  {
    var n := |events| - 1;
    RetriesOnlyAddSpec(u, states[..n + 1], events[..n], id);
    var first, mid, last := states[0], states[n], states[|events|];
    var o := first.owners[id].owner;
    assert OwnerInvariant(u[id], first.store, first.owners[id]);
    SuccessAfterRetries(u[id], first.store, o, mid.store, last.store, last.owners[id].owner);
  }

  lemma SuccessAfterRetries(
    universe: set<Tuple>, first: set<Tuple>, o: Owner, mid: set<Tuple>, last: set<Tuple>, o': Owner)
    requires first * universe <= mid * universe <= first * universe + AsSet(o.spec)
    requires Processed(mid, o, last, o')
    ensures last * universe == (first + AsSet(o.spec) - Stale(o)) * universe
  {
    assert forall t :: t in first * universe ==> t in mid * universe;
    assert forall t :: t in mid * universe ==> t in first * universe || t in AsSet(o.spec);
  }

  lemma {:induction false} RetriesOnlyAddSpec(u: Universe, states: seq<System>, events: seq<Event>, id: nat)
    requires Disjoint(u) && Run(u, states, events) && Invariant(u, states[0]) && id in u
    requires OnlyRetries(events, id)
    ensures var first, last := states[0], states[|events|];
            && Invariant(u, last)
            && last.owners[id].owner == first.owners[id].owner
            && first.store * u[id] <= last.store * u[id] <= first.store * u[id] + AsSet(first.owners[id].owner.spec)
  {
    if |events| > 0 {
      var n := |events| - 1;
      RetriesOnlyAddSpec(u, states[..n + 1], events[..n], id);
      StepKeepsInvariant(u, states[n], events[n], states[n + 1]);
      assert events[n] in events;
      if events[n].Foreign? || events[n].id != id {
        OwnersShareUntouched(u, states[n], events[n], states[n + 1], id);
      } else {
        assert OwnerInvariant(u[id], states[n].store, states[n].owners[id]);
        FailureOnlyAddsSpec(u[id], states[n].store, states[n].owners[id].owner, states[n + 1].store,
          states[n + 1].owners[id].owner);
      }
    }
  }

  lemma FailureOnlyAddsSpec(universe: set<Tuple>, s: set<Tuple>, o: Owner, s': set<Tuple>, o': Owner)
    requires AsSet(o.spec) <= universe && ProcessFailed(s, o, s', o')
    ensures o' == o && s * universe <= s' * universe <= s * universe + AsSet(o.spec)
  {
  }

  /** A success leaves exactly the spec in the resource's share if and only if the share held
      nothing beyond managed tuples and the spec before. */
  lemma ProcessIsExactIff(universe: set<Tuple>, s: set<Tuple>, o: Owner, s': set<Tuple>, o': Owner)
    requires AsSet(o.spec) <= universe && AsSet(o.managed) <= universe && Processed(s, o, s', o')
    ensures s' * universe == AsSet(o.spec) <==> s * universe <= AsSet(o.managed) + AsSet(o.spec)
  {
    if s' * universe == AsSet(o.spec) {
      forall t | t in s * universe
        ensures t in AsSet(o.managed) + AsSet(o.spec)
      {
        assert t in Stale(o) || t in s' * universe;
      }
    }
    if s * universe <= AsSet(o.managed) + AsSet(o.spec) {
      forall t
        ensures t in s' * universe <==> t in AsSet(o.spec)
      {
        assert t in s' * universe ==> t in s * universe || t in AsSet(o.spec);
      }
    }
  }

  /** A successful Finalize leaves none of the resource's tuples if and only if all of them were
      managed. */
  lemma FinalizeIsExactIff(universe: set<Tuple>, s: set<Tuple>, o: Owner, s': set<Tuple>, o': Owner)
    requires Finalized(s, o, s', o')
    ensures s' * universe == {} <==> s * universe <= AsSet(o.managed)
  {
    if s' * universe == {} {
      forall t | t in s * universe
        ensures t in AsSet(o.managed)
      {
        assert t !in s' * universe;
      }
    }
  }

  /** The last attempt of the resource in the events failed. */
  predicate Pending(events: seq<Event>, id: nat) {
    if events == [] then false
    else
      var front, last := events[..|events| - 1], events[|events| - 1];
      if last == ProcessError(id) then true
      else if last == ProcessOk(id) then false
      else Pending(front, id)
  }

  /** The resource's spec is edited only while none of its attempts waits for a retry. */
  predicate RetriedBeforeEdits(events: seq<Event>, id: nat) {
    forall i :: 0 <= i < |events| && events[i].Edit? && events[i].id == id ==> !Pending(events[..i], id)
  }

  lemma PendingSnoc(events: seq<Event>, i: nat, id: nat)
    requires i < |events|
    ensures Pending(events[..i + 1], id) <==>
            events[i] == ProcessError(id) || (events[i] != ProcessOk(id) && Pending(events[..i], id))
  {
    assert events[..i + 1][..i] == events[..i];
  }

  predicate Settled(s: System, id: nat, pending: bool) {
    && id in s.owners
    && s.owners[id].unsettled <= AsSet(s.owners[id].owner.spec)
    && (!pending ==> s.owners[id].unsettled == {})
  }

  /** If failed attempts are retried before the next edit, only the current spec is ever unsettled,
      and nothing is while no retry is due. */
  lemma {:induction false} RetriesSettle(u: Universe, states: seq<System>, events: seq<Event>, id: nat, i: nat)
    requires Disjoint(u) && Run(u, states, events) && Initial(u, states[0]) && id in u
    requires RetriedBeforeEdits(events, id) && i < |states|
    ensures Settled(states[i], id, Pending(events[..i], id))
  {
    if i > 0 {
      RetriesSettle(u, states, events, id, i - 1);
      RunKeepsInvariant(u, states, events, i - 1);
      PendingSnoc(events, i - 1, id);
      StepSettles(u, states[i - 1], events[i - 1], states[i], id, Pending(events[..i - 1], id));
    }
  }

  lemma StepSettles(u: Universe, s: System, e: Event, s': System, id: nat, pending: bool)
    requires Disjoint(u) && Invariant(u, s) && Step(u, s, e, s') && id in u
    requires Settled(s, id, pending) && (e.Edit? && e.id == id ==> !pending)
    ensures Settled(s', id, e == ProcessError(id) || (e != ProcessOk(id) && pending))
  {
    if e.Foreign? || e.id != id {
      OwnersShareUntouched(u, s, e, s', id);
    } else {
      OwnerStepSettles(u[id], s.store, s.owners[id], e, s'.store, s'.owners[id], pending);
    }
  }

  lemma OwnerStepSettles(
    universe: set<Tuple>, s: set<Tuple>, o: Tracked, e: Event, s': set<Tuple>, o': Tracked, pending: bool)
    requires OwnerStep(universe, s, o, e, s', o') && (e.Edit? ==> !pending)
    requires o.unsettled <= AsSet(o.owner.spec) && (!pending ==> o.unsettled == {})
    ensures o'.unsettled <= AsSet(o'.owner.spec)
    ensures e.ProcessOk? || (!pending && !e.ProcessError?) ==> o'.unsettled == {}
  {
  }

  lemma SettledShare(universe: set<Tuple>, store: set<Tuple>, o: Tracked)
    requires OwnerInvariant(universe, store, o) && o.unsettled <= AsSet(o.owner.spec)
    ensures AsSet(o.owner.managed) <= store * universe <= AsSet(o.owner.managed) + AsSet(o.owner.spec)
    ensures o.unsettled == {} ==> store * universe == AsSet(o.owner.managed)
  {
  }

  /** In every run in which failed attempts of the resource are retried to success before its next
      edit, whatever the other resources and writers do: its share of the store is exactly what its
      status lists whenever no retry is due, so it equals the spec after every success and is empty
      after a Finalize; while a retry is due it holds nothing beyond status and spec. */
  lemma RetriedToSuccessIsExact(u: Universe, states: seq<System>, events: seq<Event>, id: nat, i: nat)
    requires Disjoint(u) && Run(u, states, events) && Initial(u, states[0]) && id in u
    requires RetriedBeforeEdits(events, id) && i < |states|
    ensures id in states[i].owners
    ensures var share, o := states[i].store * u[id], states[i].owners[id].owner;
            && AsSet(o.managed) <= share <= AsSet(o.managed) + AsSet(o.spec)
            && (!Pending(events[..i], id) ==> share == AsSet(o.managed))
            && (i > 0 && events[i - 1] == ProcessOk(id) ==> share == AsSet(o.spec) && o.managed == o.spec)
            && (i > 0 && events[i - 1] == FinalizeOk(id) && !Pending(events[..i], id) ==> share == {})
  {
    RetriesSettle(u, states, events, id, i);
    RunKeepsInvariant(u, states, events, i);
    SettledShare(u[id], states[i].store, states[i].owners[id]);
    if i > 0 && !events[i - 1].Foreign? && events[i - 1].id == id {
      PendingSnoc(events, i - 1, id);
      assert Step(u, states[i - 1], events[i - 1], states[i]);
      LastSuccess(u[id], states[i - 1].store, states[i - 1].owners[id], events[i - 1], states[i].store,
        states[i].owners[id]);
    }
  }

  lemma LastSuccess(universe: set<Tuple>, s: set<Tuple>, o: Tracked, e: Event, s': set<Tuple>, o': Tracked)
    requires OwnerStep(universe, s, o, e, s', o')
    ensures e.ProcessOk? ==> o'.owner.managed == o'.owner.spec
    ensures e.FinalizeOk? ==> AsSet(o'.owner.managed) == {}
  {
  }

  /** The retry before the edit is needed: if a failed attempt for spec [a] is followed by an edit
      to [b], then a success and a Finalize leave a in the store with nobody managing it. */
  lemma EditBeforeRetryOrphans(a: Tuple, b: Tuple, c: Tuple)
    returns (u: Universe, states: seq<System>, events: seq<Event>)
    requires a != b && b != c && a != c
    ensures Disjoint(u) && Run(u, states, events) && Initial(u, states[0])
    ensures events ==
            [Edit(0, [c]), ProcessOk(0), Edit(0, [a]), ProcessError(0), Edit(0, [b]), ProcessOk(0), FinalizeOk(0)]
    ensures states[|events|] == System({a}, map[0 := Tracked(Owner([b], []), {a})])
  {
    u := map[0 := {a, b, c}];
    events := [Edit(0, [c]), ProcessOk(0), Edit(0, [a]), ProcessError(0), Edit(0, [b]), ProcessOk(0), FinalizeOk(0)];
    states := [
      System({}, map[0 := Tracked(Owner([], []), {})]),
      System({}, map[0 := Tracked(Owner([c], []), {})]),
      System({c}, map[0 := Tracked(Owner([c], [c]), {})]),
      System({c}, map[0 := Tracked(Owner([a], [c]), {})]),
      System({a, c}, map[0 := Tracked(Owner([a], [c]), {a})]),
      System({a, c}, map[0 := Tracked(Owner([b], [c]), {a})]),
      System({a, b}, map[0 := Tracked(Owner([b], [b]), {a})]),
      System({a}, map[0 := Tracked(Owner([b], []), {a})])
    ];
    assert AsSet([]) == {} && AsSet([a]) == {a} && AsSet([b]) == {b} && AsSet([c]) == {c};
    forall i | 0 <= i < |events|
      ensures Step(u, states[i], events[i], states[i + 1])
    {
      if i == 3 {
        assert Stale(Owner([a], [c])) == {c};
      } else if i == 5 {
        assert Stale(Owner([b], [c])) == {c};
      }
    }
  }
}
