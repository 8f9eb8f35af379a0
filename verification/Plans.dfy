/** Sequences of single-tuple writes on several stores, and what executing all or a part of such a
    sequence does. */
module Plans {
  import opened Tuples

  type Stores = map<string, set<Tuple>>

  datatype Op = Grant(store: string, tuple: Tuple) | Revoke(store: string, tuple: Tuple)

  /** The writes a computation performs in order; an incomplete plan is cut off at a lookup that
      cannot succeed. */
  datatype Plan = Plan(ops: seq<Op>, complete: bool)

  const DONE := Plan([], true)
  const STUCK := Plan([], false)

  function Then(p: Plan, q: Plan): Plan {
    if p.complete then Plan(p.ops + q.ops, q.complete) else p
  }

  function Chain(ps: seq<Plan>): Plan {
    if ps == [] then DONE else Then(Chain(ps[..|ps| - 1]), ps[|ps| - 1])
  }

  lemma ChainStep(ps: seq<Plan>, i: nat)
    requires i < |ps|
    ensures Chain(ps[..i + 1]) == Then(Chain(ps[..i]), ps[i])
  {
    assert ps[..i + 1][..i] == ps[..i];
  }

  /** What a loop has done after i plans is a prefix of the whole. */
  lemma {:induction false} ChainPrefix(ps: seq<Plan>, i: nat)
    requires i <= |ps|
    ensures Chain(ps[..i]).ops <= Chain(ps).ops
    ensures Chain(ps).complete ==> Chain(ps[..i]).complete
  {
    if i == |ps| {
      assert ps[..i] == ps;
    } else {
      var front := ps[..|ps| - 1];
      assert front[..i] == ps[..i];
      ChainPrefix(front, i);
    }
  }

  /** Every operation of a chain comes from one of its plans, and all of them do if it is complete. */
  lemma {:induction false} ChainMembers(ps: seq<Plan>, op: Op)
    ensures op in Chain(ps).ops ==> exists p :: p in ps && op in p.ops
    ensures Chain(ps).complete ==> forall p :: p in ps ==> p.complete
    ensures Chain(ps).complete ==> (op in Chain(ps).ops <==> exists p :: p in ps && op in p.ops)
  {
    if ps != [] {
      var front, last := ps[..|ps| - 1], ps[|ps| - 1];
      ChainMembers(front, op);
      assert ps == front + [last];
    }
  }

  function Perform(stores: Stores, op: Op): Stores {
    if op.store !in stores then stores
    else match op
      case Grant(s, t) => stores[s := stores[s] + {t}]
      case Revoke(s, t) => stores[s := stores[s] - {t}]
  }

  function Exec(stores: Stores, ops: seq<Op>): (r: Stores)
    ensures r.Keys == stores.Keys
  {
    if ops == [] then stores else Perform(Exec(stores, ops[..|ops| - 1]), ops[|ops| - 1])
  }

  lemma {:induction false} ExecAppend(stores: Stores, a: seq<Op>, b: seq<Op>)
    ensures Exec(stores, a + b) == Exec(Exec(stores, a), b)
  {
    if b == [] {
      assert a + b == a;
    } else {
      assert (a + b)[..|a + b| - 1] == a + b[..|b| - 1];
      ExecAppend(stores, a, b[..|b| - 1]);
    }
  }

  datatype Effect = Untouched | Present | Absent

  /** The last word the operations have on a tuple of a store. */
  function LastEffect(ops: seq<Op>, s: string, t: Tuple): Effect {
    if ops == [] then Untouched
    else
      var op := ops[|ops| - 1];
      if op.store == s && op.tuple == t then (if op.Grant? then Present else Absent)
      else LastEffect(ops[..|ops| - 1], s, t)
  }

  lemma {:induction false} ExecByLastEffect(stores: Stores, ops: seq<Op>, s: string, t: Tuple)
    requires s in stores
    ensures t in Exec(stores, ops)[s] <==>
            LastEffect(ops, s, t).Present? || (LastEffect(ops, s, t).Untouched? && t in stores[s])
  {
    if ops != [] {
      ExecByLastEffect(stores, ops[..|ops| - 1], s, t);
    }
  }

  lemma {:induction false} LastEffectMembers(ops: seq<Op>, s: string, t: Tuple)
    ensures LastEffect(ops, s, t).Untouched? <==> Grant(s, t) !in ops && Revoke(s, t) !in ops
    ensures LastEffect(ops, s, t).Present? ==> Grant(s, t) in ops
    ensures LastEffect(ops, s, t).Absent? ==> Revoke(s, t) in ops
  {
    if ops != [] {
      var front, last := ops[..|ops| - 1], ops[|ops| - 1];
      LastEffectMembers(front, s, t);
      assert ops == front + [last];
    }
  }

  lemma SameStores(a: Stores, b: Stores)
    requires a.Keys == b.Keys
    requires forall s, t :: s in a && s in b ==> (t in a[s] <==> t in b[s])
    ensures a == b
  {
    forall s | s in a
      ensures a[s] == b[s]
    {
      assert forall t :: t in a[s] <==> t in b[s];
    }
  }

  /** Replay: executing any part of a plan from its start and then the whole plan is the same as
      executing it once, whatever the mix of grants and revocations. */
  lemma Replay(stores: Stores, ops: seq<Op>, part: seq<Op>)
    requires part <= ops
    ensures Exec(Exec(stores, part), ops) == Exec(stores, ops)
  {
    forall s, t | s in stores
      ensures t in Exec(Exec(stores, part), ops)[s] <==> t in Exec(stores, ops)[s]
    {
      ExecByLastEffect(Exec(stores, part), ops, s, t);
      ExecByLastEffect(stores, part, s, t);
      ExecByLastEffect(stores, ops, s, t);
      LastEffectMembers(part, s, t);
      LastEffectMembers(ops, s, t);
      assert ops == part + ops[|part|..];
      assert forall op :: op in part ==> op in ops;
    }
    SameStores(Exec(Exec(stores, part), ops), Exec(stores, ops));
  }

  function ExecAttempts(stores: Stores, ops: seq<Op>, cuts: seq<nat>): Stores
    requires forall i :: 0 <= i < |cuts| ==> cuts[i] <= |ops|
  {
    if cuts == [] then stores else ExecAttempts(Exec(stores, ops[..cuts[0]]), ops, cuts[1..])
  }

  /** Any number of attempts, each cut off anywhere, followed by a complete one ends as a single
      complete one. */
  lemma {:induction false} AttemptsConverge(stores: Stores, ops: seq<Op>, cuts: seq<nat>)
    requires forall i :: 0 <= i < |cuts| ==> cuts[i] <= |ops|
    ensures Exec(ExecAttempts(stores, ops, cuts), ops) == Exec(stores, ops)
  {
    if cuts != [] {
      AttemptsConverge(Exec(stores, ops[..cuts[0]]), ops, cuts[1..]);
      Replay(stores, ops, ops[..cuts[0]]);
    }
  }

  /** Revoking first and granting afterwards: every grant is present in the end, and what was there
      stays unless it was revoked. */
  lemma RevokeThenGrant(stores: Stores, revokes: seq<Op>, grants: seq<Op>, s: string, t: Tuple)
    requires forall op :: op in revokes ==> op.Revoke?
    requires forall op :: op in grants ==> op.Grant?
    requires s in stores
    ensures t in Exec(stores, revokes + grants)[s] <==>
            Grant(s, t) in grants || (t in stores[s] && Revoke(s, t) !in revokes)
  {
    ExecAppend(stores, revokes, grants);
    ExecByLastEffect(stores, revokes, s, t);
    ExecByLastEffect(Exec(stores, revokes), grants, s, t);
    LastEffectMembers(revokes, s, t);
    LastEffectMembers(grants, s, t);
  }
}
