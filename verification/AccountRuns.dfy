/** What Terminate takes away and what it leaves, and runs of any number of accounts that share a
    store. */
module AccountRuns {
  import opened Strings
  import opened Tuples
  import opened TupleManager
  import opened AccountTuples
  import opened Wrappers

  predicate OfAccount(a: Account, t: Tuple) {
    t.object_ == RenderAccountEntity(a) || HasPrefix(t.object_, RenderRolePrefix(a))
  }

  /** The tuples of one reconcile of an account under a parent. */
  datatype Request = Request(
    account: Account, creator: string, creatorRelation: string, parent: Account, parentRelation: string)
  {
    predicate Valid() {
      && creator != ""
      && SeparatorFree(account) && SeparatorFree(parent)
      && parent.objectType == account.objectType
    }

    function Tuples(): set<Tuple>
      requires creator != ""
    {
      AsSet(InitialTuplesForAccount(creator, creatorRelation, account, parent, parentRelation).value)
    }
  }

  lemma RequestTuples(r: Request)
    requires r.Valid()
    ensures r.Tuples() == {
              Tuple(RenderOwnerRole(r.account), "assignee", RenderCreatorUser(r.creator)),
              Tuple(RenderAccountEntity(r.account), r.creatorRelation, RenderOwnerRoleAssigneeGroup(r.account)),
              Tuple(RenderAccountEntity(r.account), r.parentRelation, RenderAccountEntity(r.parent))
            }
    ensures forall t :: t in r.Tuples() ==> OfAccount(r.account, t)
  {
    OwnerGroupNamesOwnerRole(r.account);
  }

  /** Terminate takes only tuples of the account: on it, or on a role below its role prefix. */
  lemma CollectedAreOfAccount(s: set<Tuple>, a: Account, t: Tuple)
    requires Collected(s, a, t)
    ensures OfAccount(a, t)
  {
    if t.object_ != RenderAccountEntity(a) {
      var ref :| ref in s && NamesRole(a, ref) && t.object_ == RoleOf(ref.user);
      TrimKeepsRolePrefix(a, ref.user);
    }
  }

  /** No tuple is of two accounts. */
  lemma AccountsDisjoint(a: Account, b: Account, t: Tuple)
    requires SeparatorFree(a) && SeparatorFree(b)
    requires OfAccount(a, t) && OfAccount(b, t)
    ensures a == b
  {
    if t.object_ == RenderAccountEntity(a) && t.object_ == RenderAccountEntity(b) {
      EntityInjective(a, b);
    } else if t.object_ == RenderAccountEntity(a) {
      EntityIsNotARole(a, t.object_);
    } else if t.object_ == RenderAccountEntity(b) {
      EntityIsNotARole(b, t.object_);
    } else {
      RolePrefixInjective(a, b, t.object_);
    }
  }

  /** Terminating one account keeps every tuple whose object is another account's entity or role. */
  lemma TerminateKeepsOtherAccounts(s: set<Tuple>, a: Account, b: Account, t: Tuple)
    requires SeparatorFree(a) && SeparatorFree(b) && a != b
    requires OfAccount(b, t)
    ensures t in s - CollectedTuples(s, a) <==> t in s
  {
    if t in s && Collected(s, a, t) {
      CollectedAreOfAccount(s, a, t);
      AccountsDisjoint(a, b, t);
    }
  }

  /** What a set holding only reconciled tuples of the account loses on Terminate: the owner role is
      found through the group that owns the account, and the parent is never taken for a role. */
  lemma ReconciledIsCollected(s: set<Tuple>, r: Request, t: Tuple)
    requires r.Valid() && r.Tuples() <= s && t in r.Tuples()
    ensures Collected(s, r.account, t)
  {
    RequestTuples(r);
    OwnerGroupNamesOwnerRole(r.account);
    var group := Tuple(RenderAccountEntity(r.account), r.creatorRelation, RenderOwnerRoleAssigneeGroup(r.account));
    assert group in s && NamesRole(r.account, group) && RoleOf(group.user) == RenderOwnerRole(r.account);
  }

  /** Terminate is the inverse of reconcile: the store is restored if and only if it held no tuple
      on the account and none on its owner role before. */
  lemma TerminateUndoesReconcileIff(s: set<Tuple>, r: Request)
    requires r.Valid()
    ensures var s1 := s + r.Tuples();
            s1 - CollectedTuples(s1, r.account) == s <==>
            forall t :: t in s ==>
              t.object_ != RenderAccountEntity(r.account) && t.object_ != RenderOwnerRole(r.account)
  {
    var a, s1 := r.account, s + r.Tuples();
    RequestTuples(r);
    OwnerGroupNamesOwnerRole(a);
    var group := Tuple(RenderAccountEntity(a), r.creatorRelation, RenderOwnerRoleAssigneeGroup(a));
    assert NamesRole(a, group) && RoleOf(group.user) == RenderOwnerRole(a);
    forall t
      ensures t in r.Tuples() ==> Collected(s1, a, t)
      ensures t in s && (t.object_ == RenderAccountEntity(a) || t.object_ == RenderOwnerRole(a)) ==> Collected(s1, a, t)
    {
      if t in r.Tuples() {
        ReconciledIsCollected(s1, r, t);
      }
    }
    if forall t :: t in s ==> t.object_ != RenderAccountEntity(a) && t.object_ != RenderOwnerRole(a) {
      forall t | t in s
        ensures !Collected(s1, a, t)
      {
        if Collected(s1, a, t) {
          OnlyOwnerRoleIsNamed(s, r, t);
        }
      }
      forall t
        ensures t in s1 - CollectedTuples(s1, a) <==> t in s
      {
      }
    }
  }

  /** Besides what the store held before, reconcile names no role but the owner role. */
  lemma OnlyOwnerRoleIsNamed(s: set<Tuple>, r: Request, t: Tuple)
    requires r.Valid()
    requires forall u :: u in s ==> u.object_ != RenderAccountEntity(r.account)
    requires Collected(s + r.Tuples(), r.account, t)
    ensures t.object_ == RenderAccountEntity(r.account) || t.object_ == RenderOwnerRole(r.account)
  {
    if t.object_ != RenderAccountEntity(r.account) {
      var ref :| ref in s + r.Tuples() && NamesRole(r.account, ref) && t.object_ == RoleOf(ref.user);
      assert ref in r.Tuples();
      NamedRoleIsOwner(r, ref);
    }
  }

  lemma NamedRoleIsOwner(r: Request, ref: Tuple)
    requires r.Valid() && ref in r.Tuples() && NamesRole(r.account, ref)
    ensures RoleOf(ref.user) == RenderOwnerRole(r.account)
  {
    RequestTuples(r);
    OwnerGroupNamesOwnerRole(r.account);
    assert HasPrefix(RenderOwnerRole(r.account), "role:");
    EntityIsNotARole(r.account, RenderOwnerRole(r.account));
    ParentIsNoRole(r, ref);
  }

  lemma ParentIsNoRole(r: Request, ref: Tuple)
    requires r.Valid() && NamesRole(r.account, ref)
    ensures ref.user != RenderAccountEntity(r.parent)
  {
    if ref.user == RenderAccountEntity(r.parent) {
      assert HasPrefix(RenderRolePrefix(r.account), "role:");
      EntityIsNotARole(r.parent, ref.user);
    }
  }

  /** Terminate leaves nothing of the account if and only if every role tuple in the store is on a
      role that some tuple on the account names. */
  lemma TerminateIsCompleteIff(s: set<Tuple>, a: Account)
    ensures (forall t :: t in s - CollectedTuples(s, a) ==> !OfAccount(a, t)) <==>
            (forall t :: t in s && HasPrefix(t.object_, RenderRolePrefix(a)) && t.object_ != RenderAccountEntity(a)
                      ==> exists ref :: ref in s && NamesRole(a, ref) && t.object_ == RoleOf(ref.user))
  {
    if forall t :: t in s - CollectedTuples(s, a) ==> !OfAccount(a, t) {
      forall t | t in s && HasPrefix(t.object_, RenderRolePrefix(a)) && t.object_ != RenderAccountEntity(a)
        ensures exists ref :: ref in s && NamesRole(a, ref) && t.object_ == RoleOf(ref.user)
      {
        assert t !in s - CollectedTuples(s, a);
        assert Collected(s, a, t);
      }
    }
  }

  /** A role is left: someone is assigned a role of the account other than the owner role, and no tuple
      on the account names it. Terminate leaves the assignment. */
  lemma UnnamedRoleIsLeft(r: Request, role: string, user: string)
    requires r.Valid() && role != "owner"
    ensures var t := Tuple(RenderRolePrefix(r.account) + role, "assignee", user);
            var s := r.Tuples() + {t};
            OfAccount(r.account, t) && t in s - CollectedTuples(s, r.account)
  {
    var t := Tuple(RenderRolePrefix(r.account) + role, "assignee", user);
    assert HasPrefix(t.object_, "role:");
    EntityIsNotARole(r.account, t.object_);
    assert t.object_[|RenderRolePrefix(r.account)|..] == role;
    assert RenderOwnerRole(r.account)[|RenderRolePrefix(r.account)|..] == "owner";
    var s := r.Tuples() + {t};
    forall ref | ref in s && NamesRole(r.account, ref)
      ensures t.object_ != RoleOf(ref.user)
    {
      NamedRoleIsOwner(r, ref);
    }
  }

  /** The store together with what was reconciled for each account since it last terminated. */
  datatype State = State(store: set<Tuple>, live: map<Account, set<Tuple>>)

  /** A failed attempt changes nothing, so only successes are events. Other writers may do what they
      like with tuples of none of the given accounts, and may add tuples to the entities of these, as
      policies do when they grant an export on an account, and remove them again; they leave alone the
      roles of the given accounts, what names these on them, and what was reconciled for them. */
  datatype Event = Reconciled(request: Request) | Terminated(account: Account) | Foreign

  ghost predicate Step(accounts: set<Account>, s: State, e: Event, s': State) {
    match e
    case Reconciled(r) =>
      && r.Valid()
      && s'.store == s.store + r.Tuples()
      && s'.live == s.live[r.account := Live(s, r.account) + r.Tuples()]
    case Terminated(a) =>
      && SeparatorFree(a)
      && s'.store == s.store - CollectedTuples(s.store, a)
      && s'.live == s.live - {a}
    case Foreign =>
      && s'.live == s.live
      && forall a, t :: a in accounts && OfAccount(a, t) && !(t in s'.store <==> t in s.store) ==>
                          Additional(a, t) && t !in Live(s, a)
  }

  /** What the subroutine wants for an account is such a request. */
  lemma WantedIsRequest(kcp: Kcp, config: Config, a: Account, parent: string, parentName: string)
    returns (r: Request)
    requires WantedIn(kcp, config, a, parent, parentName).Ok? && a.objectType == config.objectType
    requires SeparatorFree(a) && SeparatorFree(Account(config.objectType, kcp.ownerClusters[parent], parentName))
    ensures r.Valid() && r.account == a
    ensures r.Tuples() == AsSet(WantedIn(kcp, config, a, parent, parentName).value)
  {
    r := Request(a, kcp.creators[(parent, a.name)].value, config.creatorRelation,
      Account(config.objectType, kcp.ownerClusters[parent], parentName), config.parentRelation);
  }

  /** On the account itself and for a user that is none of its roles. */
  predicate Additional(a: Account, t: Tuple) {
    t.object_ == RenderAccountEntity(a) && !HasPrefix(t.user, RenderRolePrefix(a))
  }

  function Live(s: State, a: Account): set<Tuple> {
    if a in s.live then s.live[a] else {}
  }

  ghost predicate Run(accounts: set<Account>, states: seq<State>, events: seq<Event>) {
    && |states| == |events| + 1
    && forall i :: 0 <= i < |events| ==> Step(accounts, states[i], events[i], states[i + 1])
  }

  /** An account has in the store what was reconciled for it since it last terminated, which
      Terminate finds again, and beyond that only additional tuples. */
  ghost predicate AccountInvariant(s: State, a: Account) {
    && Live(s, a) <= s.store
    && (forall t :: t in s.store && OfAccount(a, t) && t !in Live(s, a) ==> Additional(a, t))
    && (forall t :: t in Live(s, a) ==> OfAccount(a, t) && Collected(Live(s, a), a, t) && Requested(a, t))
  }

  /** Some reconcile of the account asks for the tuple. */
  ghost predicate Requested(a: Account, t: Tuple) {
    exists r: Request :: r.Valid() && r.account == a && t in r.Tuples()
  }

  lemma ReconciledKeepsInvariant(accounts: set<Account>, s: State, r: Request, s': State, a: Account)
    requires Step(accounts, s, Reconciled(r), s') && SeparatorFree(a) && AccountInvariant(s, a)
    ensures AccountInvariant(s', a)
  {
    RequestTuples(r);
    if a == r.account {
      forall t | t in Live(s', a)
        ensures OfAccount(a, t) && Collected(Live(s', a), a, t) && Requested(a, t)
      {
        if t in r.Tuples() {
          ReconciledIsCollected(Live(s', a), r, t);
        } else {
          assert Collected(Live(s, a), a, t);
        }
      }
    } else {
      assert Live(s', a) == Live(s, a);
      forall t | OfAccount(a, t)
        ensures t !in r.Tuples()
      {
        if t in r.Tuples() {
          AccountsDisjoint(a, r.account, t);
        }
      }
    }
  }

  /** Terminate takes all of the account: what was reconciled, and anything else on its entity. */
  lemma TerminateTakesAll(s: State, a: Account, t: Tuple)
    requires SeparatorFree(a) && AccountInvariant(s, a)
    requires OfAccount(a, t) && t in s.store
    ensures t in CollectedTuples(s.store, a)
  {
    if t in Live(s, a) {
      assert Collected(Live(s, a), a, t);
      assert forall ref :: ref in Live(s, a) ==> ref in s.store;
    }
  }

  lemma TerminatedKeepsInvariant(accounts: set<Account>, s: State, b: Account, s': State, a: Account)
    requires Step(accounts, s, Terminated(b), s') && SeparatorFree(a) && AccountInvariant(s, a)
    ensures AccountInvariant(s', a)
    ensures a == b ==> forall t :: t in s'.store ==> !OfAccount(a, t)
  {
    if a == b {
      forall t | OfAccount(a, t) && t in s.store
        ensures t !in s'.store
      {
        TerminateTakesAll(s, a, t);
      }
    } else {
      assert Live(s', a) == Live(s, a);
      forall t | OfAccount(a, t)
        ensures t in s'.store <==> t in s.store
      {
        TerminateKeepsOtherAccounts(s.store, b, a, t);
      }
    }
  }

  /** In every run from a store without tuples of the account, whatever other accounts do, and other
      writers that leave the account's own tuples alone: what was reconciled for the account since its
      last Terminate is in the store, its roles have exactly those tuples, anything else of the account
      is on its entity for a user that is none of its roles, and right after a Terminate nothing of the
      account is left. */
  lemma {:induction false} RunIsExact(
    accounts: set<Account>, states: seq<State>, events: seq<Event>, a: Account, i: nat)
    requires Run(accounts, states, events) && a in accounts && SeparatorFree(a) && AccountInvariant(states[0], a)
    requires i < |states|
    ensures AccountInvariant(states[i], a)
    ensures forall t: Tuple :: HasPrefix(t.object_, RenderRolePrefix(a)) ==>
            (t in states[i].store <==> t in Live(states[i], a))
    ensures i > 0 && events[i - 1] == Terminated(a) ==> forall t :: t in states[i].store ==> !OfAccount(a, t)
  {
    if i > 0 {
      RunIsExact(accounts, states, events, a, i - 1);
      var s, s' := states[i - 1], states[i];
      assert Step(accounts, s, events[i - 1], s');
      match events[i - 1]
      case Reconciled(r) => ReconciledKeepsInvariant(accounts, s, r, s', a);
      case Terminated(b) => TerminatedKeepsInvariant(accounts, s, b, s', a);
      case Foreign => assert Live(s', a) == Live(s, a);
    }
    RolesAreExact(states[i], a);
  }

  lemma RolesAreExact(s: State, a: Account)
    requires SeparatorFree(a) && AccountInvariant(s, a)
    ensures forall t: Tuple :: HasPrefix(t.object_, RenderRolePrefix(a)) ==> (t in s.store <==> t in Live(s, a))
  {
    forall t: Tuple | HasPrefix(t.object_, RenderRolePrefix(a))
      ensures t in s.store <==> t in Live(s, a)
    {
      assert HasPrefix(RenderRolePrefix(a), "role:");
      EntityIsNotARole(a, t.object_);
    }
  }

  /** An empty store, or one without tuples of the account, is a start of a run. */
  lemma StartOfRun(store: set<Tuple>, a: Account)
    requires forall t :: t in store ==> !OfAccount(a, t)
    ensures AccountInvariant(State(store, map[]), a)
  {
  }
}
