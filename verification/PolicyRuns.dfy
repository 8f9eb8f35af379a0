/** Runs of a policy under edits, interrupted attempts and other writers, and how policies for the
    same export interfere with each other. */
module PolicyRuns {
  import opened Strings
  import opened Tuples
  import opened Expressions
  import opened Plans
  import opened PolicyPlans
  import opened PolicyTheorems
  import opened Wrappers

  /** The stores, the policy, and the expressions of interrupted attempts that no success has since
      taken into the status or revoked. */
  datatype State = State(stores: Stores, allow: seq<string>, managed: seq<string>, unsettled: set<string>)

  datatype Event =
    | Edit(allow: seq<string>)
    | Attempt(done: seq<Op>)
    | Success
    | FinalizeAttempt(done: seq<Op>)
    | Finalized
    | Foreign
    | Revoked

  function AsExpressions(es: seq<string>): set<string> {
    set e | e in es
  }

  predicate Holds(stores: Stores, id: string, t: Tuple) {
    id in stores && t in stores[id]
  }

  /** World and export reference stay fixed. A finalized policy is gone with its status, and may be
      created anew. Other writers do what they like with tuples of other users, and may take tuples of
      the export away, as the end of an account or another policy for the export does. */
  ghost predicate Step(w: World, ref: PolicySpec, s: State, e: Event, s': State) {
    var spec := ref.(allow := s.allow);
    match e
    case Edit(allow) => s' == s.(allow := allow)
    case Attempt(done) =>
      && Carried(s.stores, ProcessPlan(w, spec, s.managed), done, s'.stores, false)
      && s' == s.(stores := s'.stores, unsettled := s.unsettled + AsExpressions(s.allow))
    case Success =>
      && ProcessedPolicy(w, spec, s.managed, s.stores, s'.stores)
      && s' == State(s'.stores, s.allow, s.allow, s.unsettled - AsExpressions(s.managed) - AsExpressions(s.allow))
    case FinalizeAttempt(done) =>
      && Carried(s.stores, FinalizePlan(w, spec), done, s'.stores, false)
      && s' == s.(stores := s'.stores)
    case Finalized =>
      && FinalizedPolicy(w, spec, s.stores, s'.stores)
      && s' == State(s'.stores, s.allow, [], s.unsettled + AsExpressions(s.managed) - AsExpressions(s.allow))
    case Foreign =>
      && s' == s.(stores := s'.stores)
      && forall id, t: Tuple :: ref.clusterPath in w.clusterIds && t.user == UserOf(w, ref) ==>
                           (Holds(s'.stores, id, t) <==> Holds(s.stores, id, t))
    case Revoked =>
      && s' == s.(stores := s'.stores)
      && forall id, t: Tuple :: ref.clusterPath in w.clusterIds && t.user == UserOf(w, ref) ==>
                           (Holds(s'.stores, id, t) ==> Holds(s.stores, id, t))
  }

  ghost predicate Run(w: World, ref: PolicySpec, states: seq<State>, events: seq<Event>) {
    && |states| == |events| + 1
    && forall i :: 0 <= i < |events| ==> Step(w, ref, states[i], events[i], states[i + 1])
  }

  /** Every tuple of the export is granted by a managed or an unsettled expression. */
  ghost predicate Accounted(w: World, user: string, s: State) {
    forall id, t :: Holds(s.stores, id, t) && t.user == user ==> Justified(w, user, s, id, t)
  }

  ghost predicate Justified(w: World, user: string, s: State, id: string, t: Tuple) {
    exists e :: (e in s.managed || e in s.unsettled) && Concerns(w, e, user, true, id, t)
  }

  lemma SuccessKeepsAccounted(w: World, ref: PolicySpec, s: State, s': State)
    requires ref.clusterPath in w.clusterIds
    requires Accounted(w, UserOf(w, ref), s) && Step(w, ref, s, Success, s')
    ensures Accounted(w, UserOf(w, ref), s')
  {
    var user, spec := UserOf(w, ref), ref.(allow := s.allow);
    forall id, t | Holds(s'.stores, id, t) && t.user == user
      ensures Justified(w, user, s', id, t)
    {
      ProcessIsExact(w, spec, s.managed, s.stores, s'.stores, id, t);
      if e :| e in s.allow && Concerns(w, e, user, true, id, t) {
      } else {
        SurvivorsAreUnsettled(w, user, s, id, t);
      }
    }
  }

  /** A tuple that is neither granted by the spec nor revoked comes from an unsettled expression. */
  lemma SurvivorsAreUnsettled(w: World, user: string, s: State, id: string, t: Tuple)
    requires Justified(w, user, s, id, t)
    requires !AnyConcerns(w, s.allow, user, true, id, t)
             && !AnyConcerns(w, Removed(s.managed, s.allow), user, false, id, t)
    ensures exists e ::
            e in s.unsettled - AsExpressions(s.managed) - AsExpressions(s.allow) && Concerns(w, e, user, true, id, t)
  {
    var e :| (e in s.managed || e in s.unsettled) && Concerns(w, e, user, true, id, t);
    RemovedMembers(s.managed, s.allow, e);
    assert e in [e] && AnyConcerns(w, [e], user, true, id, t);
    RevocationCoversGrants(w, [e], user, id, t);
  }

  lemma AttemptKeepsAccounted(w: World, ref: PolicySpec, s: State, done: seq<Op>, s': State)
    requires ref.clusterPath in w.clusterIds
    requires Accounted(w, UserOf(w, ref), s) && Step(w, ref, s, Attempt(done), s')
    ensures Accounted(w, UserOf(w, ref), s')
  {
    var user, spec := UserOf(w, ref), ref.(allow := s.allow);
    forall id, t | Holds(s'.stores, id, t) && t.user == user
      ensures Justified(w, user, s', id, t)
    {
      ExecByLastEffect(s.stores, done, id, t);
      LastEffectMembers(done, id, t);
      if LastEffect(done, id, t).Present? {
        GrantsComeFromSpec(w, spec, s.managed, done, id, t);
        var e :| e in s.allow && Concerns(w, e, user, true, id, t);
        assert e in s'.unsettled;
      } else {
        assert Justified(w, user, s, id, t);
        var e :| (e in s.managed || e in s.unsettled) && Concerns(w, e, user, true, id, t);
      }
    }
  }

  /** A grant a Process performs is one of a specified expression. */
  lemma GrantsComeFromSpec(w: World, spec: PolicySpec, managed: seq<string>, done: seq<Op>, id: string, t: Tuple)
    requires spec.clusterPath in w.clusterIds
    requires done <= ProcessPlan(w, spec, managed).ops && Grant(id, t) in done
    ensures AnyConcerns(w, spec.allow, UserOf(w, spec), true, id, t)
  {
    var user := UserOf(w, spec);
    RemovedPlan(w, managed, spec.allow, user);
    ExpressionsOps(w, Removed(managed, spec.allow), user, false, Grant(id, t));
    ExpressionsOps(w, spec.allow, user, true, Grant(id, t));
    assert Grant(id, t) in ProcessPlan(w, spec, managed).ops;
  }

  lemma FinalizeKeepsAccounted(w: World, ref: PolicySpec, s: State, done: seq<Op>, s': State)
    requires ref.clusterPath in w.clusterIds
    requires Accounted(w, UserOf(w, ref), s) && Step(w, ref, s, FinalizeAttempt(done), s')
    ensures Accounted(w, UserOf(w, ref), s')
  {
    var user, spec := UserOf(w, ref), ref.(allow := s.allow);
    forall id, t | Holds(s'.stores, id, t) && t.user == user
      ensures Justified(w, user, s', id, t)
    {
      ExecByLastEffect(s.stores, done, id, t);
      LastEffectMembers(done, id, t);
      ExpressionsOps(w, spec.allow, user, false, Grant(id, t));
      assert Grant(id, t) !in FinalizePlan(w, spec).ops;
      assert Justified(w, user, s, id, t);
    }
  }

  lemma FinalizedKeepsAccounted(w: World, ref: PolicySpec, s: State, s': State)
    requires ref.clusterPath in w.clusterIds
    requires Accounted(w, UserOf(w, ref), s) && Step(w, ref, s, Finalized, s')
    ensures Accounted(w, UserOf(w, ref), s')
  {
    var user, spec := UserOf(w, ref), ref.(allow := s.allow);
    forall id, t | Holds(s'.stores, id, t) && t.user == user
      ensures Justified(w, user, s', id, t)
    {
      FinalizeIsExact(w, spec, s.stores, s'.stores, id, t);
      assert Justified(w, user, s, id, t);
      var e :| (e in s.managed || e in s.unsettled) && Concerns(w, e, user, true, id, t);
      if e in s.allow {
        RevocationCoversGrants(w, s.allow, user, id, t);
      } else {
        assert e in s'.unsettled;
      }
    }
  }

  lemma StepKeepsAccounted(w: World, ref: PolicySpec, s: State, e: Event, s': State)
    requires ref.clusterPath in w.clusterIds
    requires Accounted(w, UserOf(w, ref), s) && Step(w, ref, s, e, s')
    ensures Accounted(w, UserOf(w, ref), s')
  {
    match e
    case Attempt(done) => AttemptKeepsAccounted(w, ref, s, done, s');
    case Success => SuccessKeepsAccounted(w, ref, s, s');
    case FinalizeAttempt(done) => FinalizeKeepsAccounted(w, ref, s, done, s');
    case Finalized => FinalizedKeepsAccounted(w, ref, s, s');
    case _ =>
      forall id, t | Holds(s'.stores, id, t) && t.user == UserOf(w, ref)
        ensures Justified(w, UserOf(w, ref), s', id, t)
      {
        assert Justified(w, UserOf(w, ref), s, id, t);
      }
  }

  /** In every run from stores without tuples of the export, whatever other writers do, each of its
      tuples is granted by a managed or an unsettled expression. */
  lemma {:induction false} RunKeepsAccounted(w: World, ref: PolicySpec, states: seq<State>, events: seq<Event>, i: nat)
    requires ref.clusterPath in w.clusterIds
    requires Run(w, ref, states, events) && Accounted(w, UserOf(w, ref), states[0])
    requires i < |states|
    ensures Accounted(w, UserOf(w, ref), states[i])
  {
    if i > 0 {
      RunKeepsAccounted(w, ref, states, events, i - 1);
      StepKeepsAccounted(w, ref, states[i - 1], events[i - 1], states[i]);
    }
  }

  /** The export's tuples are the grants of the managed expressions. */
  ghost predicate Exact(w: World, user: string, s: State) {
    forall id, t: Tuple :: t.user == user ==> (Holds(s.stores, id, t) <==> AnyConcerns(w, s.managed, user, true, id, t))
  }

  /** A success after which nothing is unsettled leaves exactly the grants of the spec. */
  lemma SettledSuccessIsExact(w: World, ref: PolicySpec, s: State, s': State)
    requires ref.clusterPath in w.clusterIds
    requires Accounted(w, UserOf(w, ref), s) && Step(w, ref, s, Success, s')
    requires s.unsettled <= AsExpressions(s.allow) + AsExpressions(s.managed)
    ensures s'.unsettled == {} && s'.managed == s'.allow
    ensures Exact(w, UserOf(w, ref), s')
  {
    var user, spec := UserOf(w, ref), ref.(allow := s.allow);
    SuccessKeepsAccounted(w, ref, s, s');
    forall id, t: Tuple | t.user == user
      ensures Holds(s'.stores, id, t) <==> AnyConcerns(w, s'.managed, user, true, id, t)
    {
      if Holds(s'.stores, id, t) {
        assert Justified(w, user, s', id, t);
      } else if AnyConcerns(w, s.allow, user, true, id, t) {
        GrantsFindTheirStore(w, spec, s.managed, s.stores, s'.stores, id, t);
        ProcessIsExact(w, spec, s.managed, s.stores, s'.stores, id, t);
      }
    }
  }

  lemma GrantsFindTheirStore(
    w: World, spec: PolicySpec, managed: seq<string>, before: Stores, after: Stores, id: string, t: Tuple)
    requires ProcessedPolicy(w, spec, managed, before, after)
    requires spec.clusterPath in w.clusterIds && AnyConcerns(w, spec.allow, UserOf(w, spec), true, id, t)
    ensures id in before
  {
    ExpressionsOps(w, spec.allow, UserOf(w, spec), true, Grant(id, t));
    assert Grant(id, t) in ProcessPlan(w, spec, managed).ops;
  }

  /** A Finalize with the spec covering what is managed and unsettled leaves no tuple of the export. */
  lemma CoveredFinalizeLeavesNothing(w: World, ref: PolicySpec, s: State, s': State)
    requires ref.clusterPath in w.clusterIds
    requires Accounted(w, UserOf(w, ref), s) && Step(w, ref, s, Finalized, s')
    requires s.unsettled + AsExpressions(s.managed) <= AsExpressions(s.allow)
    ensures s'.unsettled == {} && s'.managed == []
    ensures Exact(w, UserOf(w, ref), s')
  {
    FinalizedKeepsAccounted(w, ref, s, s');
    assert forall id, t :: Holds(s'.stores, id, t) && t.user == UserOf(w, ref) ==>
           Justified(w, UserOf(w, ref), s', id, t);
  }

  /** What happened since the last success: an attempt was cut off, the spec was edited, or tuples of
      the export may be missing because of a cut-off attempt or another writer. */
  datatype Phase = Phase(interrupted: bool, edited: bool, disturbed: bool)

  const QUIET := Phase(false, false, false)

  function Next(p: Phase, e: Event): Phase {
    match e
    case Edit(_) => p.(edited := true)
    case Attempt(_) => p.(interrupted := true, disturbed := true)
    case FinalizeAttempt(_) => p.(interrupted := true, disturbed := true)
    case Revoked => p.(disturbed := true)
    case Success => QUIET
    case Finalized => QUIET
    case Foreign => p
  }

  function After(events: seq<Event>): Phase {
    if events == [] then QUIET else Next(After(events[..|events| - 1]), events[|events| - 1])
  }

  lemma AfterSnoc(events: seq<Event>, i: nat)
    requires i < |events|
    ensures After(events[..i + 1]) == Next(After(events[..i]), events[i])
  {
    assert events[..i + 1][..i] == events[..i];
  }

  /** Interrupted attempts are retried to success before the spec is edited, and an edited spec is
      processed before the policy goes. */
  predicate SettledBeforeEdits(events: seq<Event>) {
    forall i :: 0 <= i < |events| ==>
                  && (events[i].Edit? ==> !After(events[..i]).interrupted)
                  && (events[i].Finalized? ==> !After(events[..i]).edited)
  }

  /** No tuple of the export yet, and no status. */
  ghost predicate Initial(w: World, user: string, s: State) {
    s.managed == [] && s.unsettled == {} && forall id, t :: Holds(s.stores, id, t) ==> t.user != user
  }

  /** What a run keeps if it settles before edits: only expressions of the spec are ever unsettled,
      none is while no retry is due, and the tuples are exact while none can be missing. */
  ghost predicate SettledSoFar(w: World, user: string, s: State, p: Phase) {
    && s.unsettled <= AsExpressions(s.allow)
    && (!p.edited ==> AsExpressions(s.managed) <= AsExpressions(s.allow))
    && (!p.interrupted ==> s.unsettled == {})
    && (!p.disturbed ==> Exact(w, user, s))
  }

  lemma StepSettles(w: World, ref: PolicySpec, s: State, e: Event, s': State, p: Phase)
    requires ref.clusterPath in w.clusterIds && Accounted(w, UserOf(w, ref), s) && Step(w, ref, s, e, s')
    requires SettledSoFar(w, UserOf(w, ref), s, p)
    requires (e.Edit? ==> !p.interrupted) && (e.Finalized? ==> !p.edited)
    ensures SettledSoFar(w, UserOf(w, ref), s', Next(p, e))
  {
    if e.Success? {
      SettledSuccessIsExact(w, ref, s, s');
    } else if e.Finalized? {
      CoveredFinalizeLeavesNothing(w, ref, s, s');
    }
  }

  lemma {:induction false} RunSettles(w: World, ref: PolicySpec, states: seq<State>, events: seq<Event>, i: nat)
    requires ref.clusterPath in w.clusterIds
    requires Run(w, ref, states, events) && Initial(w, UserOf(w, ref), states[0])
    requires SettledBeforeEdits(events) && i < |states|
    ensures SettledSoFar(w, UserOf(w, ref), states[i], After(events[..i]))
  {
    if i > 0 {
      RunSettles(w, ref, states, events, i - 1);
      RunKeepsAccounted(w, ref, states, events, i - 1);
      AfterSnoc(events, i - 1);
      StepSettles(w, ref, states[i - 1], events[i - 1], states[i], After(events[..i - 1]));
    }
  }

  /** In every run in which interrupted attempts are retried before the next edit and an edited spec
      is processed before the policy goes: after every success the export's tuples are exactly the
      grants of the spec, and after a Finalize there are none, even if other writers took tuples of the
      export away in between; and as long as nobody does, they are exactly the grants of the status
      whenever no retry is due. */
  lemma RetriedToSuccessIsExact(w: World, ref: PolicySpec, states: seq<State>, events: seq<Event>, i: nat)
    requires ref.clusterPath in w.clusterIds
    requires Run(w, ref, states, events) && Initial(w, UserOf(w, ref), states[0])
    requires SettledBeforeEdits(events) && i < |states|
    ensures i > 0 && events[i - 1] == Success ==>
            states[i].managed == states[i].allow && Exact(w, UserOf(w, ref), states[i])
    ensures i > 0 && events[i - 1] == Finalized ==>
              forall id, t :: Holds(states[i].stores, id, t) ==> t.user != UserOf(w, ref)
    ensures !After(events[..i]).interrupted && Revoked !in events ==> Exact(w, UserOf(w, ref), states[i])
  {
    RunSettles(w, ref, states, events, i);
    if Revoked !in events {
      OnlyAttemptsDisturb(events, i);
    }
    if i > 0 {
      AfterSnoc(events, i - 1);
      assert Step(w, ref, states[i - 1], events[i - 1], states[i]);
      ExactAfterSuccess(w, ref, states[i - 1], events[i - 1], states[i], After(events[..i]));
    }
  }

  lemma ExactAfterSuccess(w: World, ref: PolicySpec, s: State, e: Event, s': State, p: Phase)
    requires ref.clusterPath in w.clusterIds && Step(w, ref, s, e, s') && SettledSoFar(w, UserOf(w, ref), s', p)
    ensures e == Success && p == QUIET ==> s'.managed == s'.allow && Exact(w, UserOf(w, ref), s')
    ensures e == Finalized && p == QUIET ==> forall id, t :: Holds(s'.stores, id, t) ==> t.user != UserOf(w, ref)
  {
    if e == Finalized && p == QUIET {
      assert s'.managed == [];
      assert forall id, t :: !AnyConcerns(w, [], UserOf(w, ref), true, id, t);
    }
  }

  lemma {:induction false} OnlyAttemptsDisturb(events: seq<Event>, i: nat)
    requires Revoked !in events && i <= |events|
    ensures After(events[..i]).disturbed == After(events[..i]).interrupted
  {
    if i > 0 {
      OnlyAttemptsDisturb(events, i - 1);
      AfterSnoc(events, i - 1);
      assert events[i - 1] in events;
    }
  }

  /** Two policies for one export share its tuples: after both were processed, finalizing the second
      keeps exactly those grants of the first that no expression of the second revokes. */
  lemma SecondPolicyFinalizedKeeps(
    w: World, first: PolicySpec, second: PolicySpec, s0: Stores, s1: Stores, s2: Stores, s3: Stores, id: string,
    t: Tuple)
    requires first.clusterPath in w.clusterIds && second.clusterPath in w.clusterIds
    requires UserOf(w, first) == UserOf(w, second)
    requires ProcessedPolicy(w, first, [], s0, s1) && ProcessedPolicy(w, second, [], s1, s2)
             && FinalizedPolicy(w, second, s2, s3)
    requires id in s0 && AnyConcerns(w, first.allow, UserOf(w, first), true, id, t)
    ensures id in s3 && (t in s3[id] <==> !AnyConcerns(w, second.allow, UserOf(w, second), false, id, t))
  {
    ProcessIsExact(w, first, [], s0, s1, id, t);
    ProcessIsExact(w, second, [], s1, s2, id, t);
    FinalizeIsExact(w, second, s2, s3, id, t);
  }

  const DEV := "root:orgs:" + "acme:dev"
  const ALL_ORGS := "root:orgs:*"

  lemma ChainOfOne(p: Plan)
    ensures Chain([p]) == p
  {
    assert [p][..0] == [] && [] + p.ops == p.ops;
  }

  lemma ChainOfTwo(p: Plan, q: Plan)
    ensures Chain([p, q]) == Then(p, q)
  {
    assert [p, q][..1] == [p];
    ChainOfOne(p);
  }

  /** The plans of a policy with one expression and nothing managed. */
  lemma PlansOfOne(w: World, spec: PolicySpec, e: string)
    requires spec.clusterPath in w.clusterIds && spec.allow == [e]
    ensures ProcessPlan(w, spec, []) == OnExpression(w, e, UserOf(w, spec), true)
    ensures FinalizePlan(w, spec) == OnExpression(w, e, UserOf(w, spec), false)
  {
    var user := UserOf(w, spec);
    forall grant: bool
      ensures Chain(OnExpressions(w, [e], user, grant)) == OnExpression(w, e, user, grant)
    {
      assert OnExpressions(w, [e], user, grant) == [OnExpression(w, e, user, grant)];
      ChainOfOne(OnExpression(w, e, user, grant));
    }
    assert OnRemoved(w, [], [e], user) == [];
    assert [] + OnExpression(w, e, user, true).ops == OnExpression(w, e, user, true).ops;
  }

  lemma ProcessedByOps(w: World, spec: PolicySpec, e: string, ops: seq<Op>, before: Stores, after: Stores)
    requires spec.clusterPath in w.clusterIds && spec.allow == [e]
    requires OnExpression(w, e, UserOf(w, spec), true) == Plan(ops, true)
    requires after == Exec(before, ops) && forall op :: op in ops ==> op.store in before
    ensures ProcessedPolicy(w, spec, [], before, after)
  {
    PlansOfOne(w, spec, e);
  }

  lemma FinalizedByOps(w: World, spec: PolicySpec, e: string, ops: seq<Op>, before: Stores, after: Stores)
    requires spec.clusterPath in w.clusterIds && spec.allow == [e]
    requires OnExpression(w, e, UserOf(w, spec), false) == Plan(ops, true)
    requires after == Exec(before, ops) && forall op :: op in ops ==> op.store in before
    ensures FinalizedPolicy(w, spec, before, after)
  {
    PlansOfOne(w, spec, e);
  }

  lemma ExecOne(stores: Stores, op: Op)
    ensures Exec(stores, [op]) == Perform(stores, op)
  {
    assert [op][..0] == [];
  }

  lemma DifferentAccounts()
    ensures RenderAccountEntity(Account(ACCOUNT_TYPE, "c0", "acme")) !=
            RenderAccountEntity(Account(ACCOUNT_TYPE, "c1", "dev"))
  {
    assert |RenderAccountEntity(Account(ACCOUNT_TYPE, "c0", "acme"))| !=
           |RenderAccountEntity(Account(ACCOUNT_TYPE, "c1", "dev"))|;
  }

  lemma AllOrgsOfTwo(w: World, org: AccountInfo, other: AccountInfo, user: string)
    requires w.accountInfos == [org, other] && org.accountType.OrgAccount? && other.accountType.OtherAccount?
    requires org.organization == other.organization && org.organization in w.storeIds
    ensures var id := w.storeIds[org.organization];
            var t0, t := BindTuple(org, BIND_INHERITED, user), BindTuple(other, BIND_INHERITED, user);
            && OnExpression(w, ALL_ORGS, user, true) == Plan([Grant(id, t0)], true)
            && OnExpression(w, ALL_ORGS, user, false) == Plan([Revoke(id, t0)] + [Revoke(id, t)], true)
  {
    AllOrgsTarget();
    var p, q := OnAccount(w, org, BIND_INHERITED, user, true), DONE;
    assert OnAllOrgs(w, BIND_INHERITED, user, true) == [p, q];
    ChainOfTwo(p, q);
    assert p.ops + [] == p.ops;
    var r1, r2 := OnAccount(w, org, BIND_INHERITED, user, false), OnAccount(w, other, BIND_INHERITED, user, false);
    assert OnAllOrgs(w, BIND_INHERITED, user, false) == [r1, r2];
    ChainOfTwo(r1, r2);
  }

  lemma AllOrgsTarget()
    ensures ParseAllowExpression(ALL_ORGS) == Ok(Target(ORGS_WORKSPACE_PATH, BIND_INHERITED))
  {
    assert ALL_ORGS[0] == 'r' && TrimPrefix(ALL_ORGS, ":") == ALL_ORGS;
    AllOrgsIff(ALL_ORGS);
  }

  lemma DevTarget()
    ensures ParseAllowExpression(DEV + WILDCARD) == Ok(Target(DEV, BIND_INHERITED))
    ensures DEV != ORGS_WORKSPACE_PATH
  {
    PrintParseRoundTrip(Target(DEV, BIND_INHERITED));
    assert |DEV| == 18;
  }

  lemma GrantThenRevokeAll(id: string, t0: Tuple, t: Tuple)
    requires t0 != t
    ensures Exec(map[id := {}], [Grant(id, t)]) == map[id := {t}]
    ensures Exec(map[id := {t}], [Grant(id, t0)]) == map[id := {t, t0}]
    ensures Exec(map[id := {t, t0}], [Revoke(id, t0)] + [Revoke(id, t)]) == map[id := {}]
  {
    ExecOne(map[id := {}], Grant(id, t));
    ExecOne(map[id := {t}], Grant(id, t0));
    ExecAppend(map[id := {t, t0}], [Revoke(id, t0)], [Revoke(id, t)]);
    ExecOne(map[id := {t, t0}], Revoke(id, t0));
    assert {t, t0} - {t0} == {t} && {t} - {t} == {} && {} + {t} == {t} && {t} + {t0} == {t, t0};
    ExecOne(map[id := {t}], Revoke(id, t));
  }

  const ACME := AccountInfo(OrgAccount, "acme", "c0", "acme")
  const TEAM := AccountInfo(OtherAccount, "acme", "c1", "dev")
  const TWO_ACCOUNTS := World([ACME, TEAM], map[DEV := TEAM], map["acme" := "store"], map["provider" := "p"])

  /** An instance where a grant is lost: the first policy allows one account and its children, the
      second all organizations. Both are processed, and finalizing the second, which visits every
      account info, takes the grant the first still specifies. */
  lemma AllOrgsRevokesOtherPolicies()
    returns (w: World, first: PolicySpec, second: PolicySpec, s: seq<Stores>, id: string, t: Tuple)
    ensures first.clusterPath in w.clusterIds && second.clusterPath in w.clusterIds
    ensures UserOf(w, first) == UserOf(w, second)
    ensures first.allow == [DEV + WILDCARD] && second.allow == [ALL_ORGS] && |s| == 4
    ensures ProcessedPolicy(w, first, [], s[0], s[1]) && ProcessedPolicy(w, second, [], s[1], s[2])
    ensures FinalizedPolicy(w, second, s[2], s[3])
    ensures AnyConcerns(w, first.allow, UserOf(w, first), true, id, t)
    ensures !AnyConcerns(w, second.allow, UserOf(w, first), true, id, t)
    ensures Holds(s[2], id, t) && id in s[3] && t !in s[3][id]
  {
    w := TWO_ACCOUNTS;
    first, second := PolicySpec("provider", "export", [DEV + WILDCARD]), PolicySpec("provider", "export", [ALL_ORGS]);
    var user := UserOf(w, first);
    var t0 := BindTuple(ACME, BIND_INHERITED, user);
    id, t := "store", BindTuple(TEAM, BIND_INHERITED, user);
    s := [map[id := {}], map[id := {t}], map[id := {t, t0}], map[id := {}]];
    DifferentAccounts();
    GrantThenRevokeAll(id, t0, t);
    FirstIsProcessed(first, s[0], s[1], t);
    SecondIsProcessed(second, s[1], s[2], t0);
    SecondIsFinalized(second, s[2], s[3], t0, t);
    LostGrantIsSpecified(user);
  }

  lemma FirstIsProcessed(first: PolicySpec, before: Stores, after: Stores, t: Tuple)
    requires first.clusterPath == "provider" && first.allow == [DEV + WILDCARD]
    requires t == BindTuple(TEAM, BIND_INHERITED, UserOf(TWO_ACCOUNTS, first))
    requires "store" in before && Exec(before, [Grant("store", t)]) == after
    ensures ProcessedPolicy(TWO_ACCOUNTS, first, [], before, after)
  {
    DevTarget();
    ProcessedByOps(TWO_ACCOUNTS, first, DEV + WILDCARD, [Grant("store", t)], before, after);
  }

  lemma SecondIsProcessed(second: PolicySpec, before: Stores, after: Stores, t0: Tuple)
    requires second.clusterPath == "provider" && second.allow == [ALL_ORGS]
    requires t0 == BindTuple(ACME, BIND_INHERITED, UserOf(TWO_ACCOUNTS, second))
    requires "store" in before && Exec(before, [Grant("store", t0)]) == after
    ensures ProcessedPolicy(TWO_ACCOUNTS, second, [], before, after)
  {
    AllOrgsOfTwo(TWO_ACCOUNTS, ACME, TEAM, UserOf(TWO_ACCOUNTS, second));
    ProcessedByOps(TWO_ACCOUNTS, second, ALL_ORGS, [Grant("store", t0)], before, after);
  }

  lemma SecondIsFinalized(second: PolicySpec, before: Stores, after: Stores, t0: Tuple, t: Tuple)
    requires second.clusterPath == "provider" && second.allow == [ALL_ORGS]
    requires t0 == BindTuple(ACME, BIND_INHERITED, UserOf(TWO_ACCOUNTS, second))
    requires t == BindTuple(TEAM, BIND_INHERITED, UserOf(TWO_ACCOUNTS, second))
    requires "store" in before && Exec(before, [Revoke("store", t0)] + [Revoke("store", t)]) == after
    ensures FinalizedPolicy(TWO_ACCOUNTS, second, before, after)
  {
    AllOrgsOfTwo(TWO_ACCOUNTS, ACME, TEAM, UserOf(TWO_ACCOUNTS, second));
    FinalizedByOps(TWO_ACCOUNTS, second, ALL_ORGS, [Revoke("store", t0)] + [Revoke("store", t)], before, after);
  }

  lemma LostGrantIsSpecified(user: string)
    ensures AnyConcerns(TWO_ACCOUNTS, [DEV + WILDCARD], user, true, "store", BindTuple(TEAM, BIND_INHERITED, user))
    ensures !AnyConcerns(TWO_ACCOUNTS, [ALL_ORGS], user, true, "store", BindTuple(TEAM, BIND_INHERITED, user))
  {
    DevTarget();
    AllOrgsTarget();
    DifferentAccounts();
    var w, one := TWO_ACCOUNTS, DEV + WILDCARD;
    assert Names(w, one, TEAM, true) && one in [one];
    assert Concerns(w, one, user, true, "store", BindTuple(TEAM, BIND_INHERITED, user));
    assert forall ai :: Names(w, ALL_ORGS, ai, true) ==> ai == ACME;
  }

  /** Two organizations with a store each. */
  function TwoOrgs(p: string, q: string): World {
    var a, b := AccountInfo(OrgAccount, p, "", ""), AccountInfo(OrgAccount, q, "", "");
    World([a, b], map[p := a, q := b], map[p := p, q := q], map["provider" := "p"])
  }

  const EXPORT := PolicySpec("provider", "export", [])

  lemma GrantOne(p: Target, q: string, managed: string, t: Tuple)
    requires ParseAllowExpression(managed) == Ok(p) && p.path != ORGS_WORKSPACE_PATH && p.path != q
    requires t == BindTuple(TwoOrgs(p.path, q).workspaces[p.path], p.relation, UserOf(TwoOrgs(p.path, q), EXPORT))
    ensures ProcessedPolicy(TwoOrgs(p.path, q), EXPORT.(allow := [managed]), [],
                            map[p.path := {}, q := {}], map[p.path := {t}, q := {}])
  {
    var w, spec, empty := TwoOrgs(p.path, q), EXPORT.(allow := [managed]), map[p.path := {}, q := {}];
    ExecOne(empty, Grant(p.path, t));
    assert {} + {t} == {t} && empty[p.path := {t}] == map[p.path := {t}, q := {}];
    ProcessedByOps(w, spec, managed, [Grant(p.path, t)], empty, map[p.path := {t}, q := {}]);
  }

  lemma RevokeOther(p: string, q: Target, edited: string, t: Tuple)
    requires ParseAllowExpression(edited) == Ok(q) && q.path != ORGS_WORKSPACE_PATH && p != q.path
    ensures var granted := map[p := {t}, q.path := {}];
            FinalizedPolicy(TwoOrgs(p, q.path), EXPORT.(allow := [edited]), granted, granted)
  {
    var w, spec, granted := TwoOrgs(p, q.path), EXPORT.(allow := [edited]), map[p := {t}, q.path := {}];
    var u := BindTuple(w.workspaces[q.path], q.relation, UserOf(w, spec));
    ExecOne(granted, Revoke(q.path, u));
    assert {} - {u} == {} && granted[q.path := {}] == granted;
    FinalizedByOps(w, spec, edited, [Revoke(q.path, u)], granted, granted);
  }

  /** One expression is processed, replaced by another, and then the policy is finalized. */
  function EditedRun(before: Stores, granted: Stores, after: Stores, managed: string, edited: string): seq<State> {
    [
      State(before, [], [], {}), State(before, [managed], [], {}), State(granted, [managed], [managed], {}),
      State(granted, [edited], [managed], {}), State(after, [edited], [], {managed})
    ]
  }

  lemma SuccessStep(w: World, before: Stores, granted: Stores, e: string)
    requires ProcessedPolicy(w, EXPORT.(allow := [e]), [], before, granted)
    ensures Step(w, EXPORT, State(before, [e], [], {}), Success, State(granted, [e], [e], {}))
  {
    assert {} - AsExpressions([]) - AsExpressions([e]) == {};
  }

  lemma FinalizedStep(w: World, granted: Stores, after: Stores, managed: string, edited: string)
    requires FinalizedPolicy(w, EXPORT.(allow := [edited]), granted, after) && managed != edited
    ensures Step(w, EXPORT, State(granted, [edited], [managed], {}), Finalized, State(after, [edited], [], {managed}))
  {
    assert {} + AsExpressions([managed]) - AsExpressions([edited]) == {managed};
  }

  lemma FourSteps(w: World, states: seq<State>, events: seq<Event>)
    requires |states| == 5 && |events| == 4
    requires Step(w, EXPORT, states[0], events[0], states[1]) && Step(w, EXPORT, states[1], events[1], states[2])
    requires Step(w, EXPORT, states[2], events[2], states[3]) && Step(w, EXPORT, states[3], events[3], states[4])
    ensures Run(w, EXPORT, states, events)
  {
    forall i | 0 <= i < 4
      ensures Step(w, EXPORT, states[i], events[i], states[i + 1])
    {
      assert i == 0 || i == 1 || i == 2 || i == 3;
    }
  }

  lemma EditedRunSteps(w: World, before: Stores, granted: Stores, after: Stores, managed: string, edited: string)
    requires managed != edited
    requires ProcessedPolicy(w, EXPORT.(allow := [managed]), [], before, granted)
    requires FinalizedPolicy(w, EXPORT.(allow := [edited]), granted, after)
    ensures Run(w, EXPORT, EditedRun(before, granted, after, managed, edited),
                [Edit([managed]), Success, Edit([edited]), Finalized])
  {
    SuccessStep(w, before, granted, managed);
    FinalizedStep(w, granted, after, managed, edited);
    FourSteps(w, EditedRun(before, granted, after, managed, edited),
      [Edit([managed]), Success, Edit([edited]), Finalized]);
  }

  lemma OrphaningRun(p: Target, q: Target, managed: string, edited: string, t: Tuple)
    requires ParseAllowExpression(managed) == Ok(p) && ParseAllowExpression(edited) == Ok(q)
    requires p.path != ORGS_WORKSPACE_PATH && q.path != ORGS_WORKSPACE_PATH && p.path != q.path
    requires t == BindTuple(TwoOrgs(p.path, q.path).workspaces[p.path], p.relation,
                   UserOf(TwoOrgs(p.path, q.path), EXPORT))
    ensures var empty, granted := map[p.path := {}, q.path := {}], map[p.path := {t}, q.path := {}];
            Run(TwoOrgs(p.path, q.path), EXPORT, EditedRun(empty, granted, granted, managed, edited),
              [Edit([managed]), Success, Edit([edited]), Finalized])
  {
    var empty, granted := map[p.path := {}, q.path := {}], map[p.path := {t}, q.path := {}];
    GrantOne(p, q.path, managed, t);
    RevokeOther(p.path, q, edited, t);
    EditedRunSteps(TwoOrgs(p.path, q.path), empty, granted, granted, managed, edited);
  }

  /** A run where Finalize leaves a tuple behind: the spec is replaced by an expression for another
      workspace after the last success, so the grant of the first is not among those Finalize
      revokes. Any two expressions for different single workspaces will do. */
  lemma EditBeforeFinalizeOrphans(managed: string, edited: string)
    returns (w: World, states: seq<State>, id: string, t: Tuple)
    requires ParseAllowExpression(managed).Ok? && ParseAllowExpression(edited).Ok?
    requires !IsAllOrgs(managed) && !IsAllOrgs(edited)
    requires ParseAllowExpression(managed).value.path != ParseAllowExpression(edited).value.path
    ensures EXPORT.clusterPath in w.clusterIds && t.user == UserOf(w, EXPORT)
    ensures Run(w, EXPORT, states, [Edit([managed]), Success, Edit([edited]), Finalized])
    ensures Initial(w, UserOf(w, EXPORT), states[0])
    ensures Holds(states[4].stores, id, t) && states[4].managed == []
  {
    var p, q := ParseAllowExpression(managed).value, ParseAllowExpression(edited).value;
    w := TwoOrgs(p.path, q.path);
    id, t := p.path, BindTuple(w.workspaces[p.path], p.relation, UserOf(w, EXPORT));
    var empty: Stores := map[p.path := {}, q.path := {}];
    var granted: Stores := map[p.path := {t}, q.path := {}];
    states := EditedRun(empty, granted, granted, managed, edited);
    OrphaningRun(p, q, managed, edited, t);
  }
}
