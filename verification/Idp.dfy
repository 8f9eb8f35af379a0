/** Reconciliation of OIDC clients with a registration server (RFC 7591 and RFC 7592) and of the
    secrets that keep their registration access tokens. Every remote call spends one of the calls
    left before the operator is cut off; without a limit a run is uninterrupted. */
module Idp {
  import opened Wrappers

  /** Tokens are opaque; the empty token is never valid. */
  type Token = nat
  const NO_TOKEN: Token := 0

  datatype SecretRef = SecretRef(name: string, namespace: string)

  datatype Metadata = Metadata(
    clientName: string, redirectUris: seq<string>, isPublic: bool, postLogoutRedirectUris: seq<string>)

  datatype ClientConfig = ClientConfig(metadata: Metadata, secretRef: SecretRef)

  /** A registered client with its current registration access token. */
  datatype Client = Client(metadata: Metadata, token: Token)

  /** The status entry of a client. The registration client URI is the one built from the client ID,
      so the ID stands for both. */
  datatype Managed = Managed(clientId: nat, secretRef: SecretRef)

  type Status = map<string, Managed>

  /** The realm's clients by client ID, the secrets by reference, and how the server behaves: whether
      it rotates tokens on update, and whether a request for a missing client is answered not found
      or, as RFC 7592 has it, unauthorized. */
  datatype World = World(
    realm: bool, clients: map<nat, Client>, secrets: map<SecretRef, Token>,
    nextId: nat, nextToken: Token, rotates: bool, missingIsNotFound: bool, callsLeft: Option<nat>)

  datatype Reply<+T> = Reply(w: World, r: Result<T>)

  predicate Alive(w: World) {
    w.callsLeft != Some(0)
  }

  function Spend(w: World): World {
    if w.callsLeft.Some? && w.callsLeft.value > 0 then w.(callsLeft := Some(w.callsLeft.value - 1)) else w
  }

  datatype Request = Put(metadata: Metadata) | Remove

  datatype Response = Success(token: Token) | Unauthorized | NotFound

  /** The server's answer to an authenticated request about a client. */
  function Send(w: World, id: nat, request: Request, token: Token): Reply<Response> {
    if !Alive(w) then Reply(w, Err)
    else
      var w1 := Spend(w);
      if id !in w.clients then Reply(w1, Ok(if w.missingIsNotFound then NotFound else Unauthorized))
      else if token != w.clients[id].token then Reply(w1, Ok(Unauthorized))
      else match request
        case Remove => Reply(w1.(clients := w1.clients - {id}), Ok(Success(token)))
        case Put(metadata) =>
          if w.rotates then
            Reply(w1.(clients := w1.clients[id := Client(metadata, w.nextToken)], nextToken := w.nextToken + 1),
              Ok(Success(w.nextToken)))
          else Reply(w1.(clients := w1.clients[id := Client(metadata, token)]), Ok(Success(token)))
  }

  /** The administration interface looks the client up and gives it a new token. */
  function RefreshToken(w: World, id: nat): Reply<Token> {
    if !Alive(w) then Reply(w, Err)
    else
      var w1 := Spend(w);
      if id !in w.clients || !Alive(w1) then Reply(w1, Err)
      else
        var w2 := Spend(w1);
        Reply(w2.(clients := w2.clients[id := w2.clients[id].(token := w.nextToken)], nextToken := w.nextToken + 1),
          Ok(w.nextToken))
  }

  /** An unauthorized request is sent once more with a refreshed token, if refreshing works. */
  function RoundTrip(w: World, id: nat, request: Request, token: Token): Reply<Response> {
    var first := Send(w, id, request, token);
    if first.r != Ok(Unauthorized) then first
    else
      var refreshed := RefreshToken(first.w, id);
      if refreshed.r.Err? then Reply(refreshed.w, first.r) else Send(refreshed.w, id, request, refreshed.r.value)
  }

  /** Registration takes an initial access token and then creates a client under a new ID. */
  function Register(w: World, metadata: Metadata): Reply<(nat, Token)> {
    if !Alive(w) || !Alive(Spend(w)) then Reply(Spend(w), Err)
    else
      var w2 := Spend(Spend(w));
      Reply(w2.(clients := w2.clients[w.nextId := Client(metadata, w.nextToken)], nextId := w.nextId + 1,
        nextToken := w.nextToken + 1),
            Ok((w.nextId, w.nextToken)))
  }

  /** The first client of a name from ID i on, in the order of the listing. */
  function FindFrom(w: World, name: string, i: nat): Option<nat>
    decreases w.nextId - i
  {
    if i >= w.nextId then None
    else if i in w.clients && w.clients[i].metadata.clientName == name then Some(i)
    else FindFrom(w, name, i + 1)
  }

  function FindByName(w: World, name: string): Option<nat> {
    FindFrom(w, name, 0)
  }

  function RegisterOrUpdateClient(w: World, status: Status, c: ClientConfig): Reply<(nat, Token)> {
    var name := c.metadata.clientName;
    if !Alive(w) then Reply(w, Err)
    else
      var w1 := Spend(w);
      var existing := FindByName(w, name);
      if existing.None? then Register(w1, c.metadata)
      else if !Alive(w1) then Reply(w1, Err)
      else
        var w2 := Spend(w1);
        var token := if c.secretRef in w.secrets then w.secrets[c.secretRef] else NO_TOKEN;
        var id := if name in status then status[name].clientId else existing.value;
        var updated := RoundTrip(w2, id, Put(c.metadata), token);
        if updated.r.Ok? && updated.r.value.Success? then Reply(updated.w, Ok((id, updated.r.value.token)))
        else Reply(updated.w, Err)
  }

  function WriteSecret(w: World, ref: SecretRef, token: Token): Reply<bool> {
    if !Alive(w) then Reply(w, Err)
    else Reply(Spend(w).(secrets := w.secrets[ref := token]), Ok(true))
  }

  /** Registers or updates one client and then keeps its token in its secret. */
  function ProcessClient(w: World, status: Status, c: ClientConfig): Reply<Managed> {
    var info := RegisterOrUpdateClient(w, status, c);
    if info.r.Err? then Reply(info.w, Err)
    else
      var written := WriteSecret(info.w, c.secretRef, info.r.value.1);
      if written.r.Err? then Reply(written.w, Err)
      else Reply(written.w, Ok(Managed(info.r.value.0, c.secretRef)))
  }

  /** The clients of the spec one after the other, up to the first failure. */
  function ProcessClients(w: World, status: Status, cs: seq<ClientConfig>): Reply<Status> {
    if cs == [] then Reply(w, Ok(map[]))
    else
      var front, c := ProcessClients(w, status, cs[..|cs| - 1]), cs[|cs| - 1];
      if front.r.Err? then front
      else
        var one := ProcessClient(front.w, status, c);
        if one.r.Err? then Reply(one.w, Err)
        else Reply(one.w, Ok(front.r.value[c.metadata.clientName := one.r.value]))
  }

  /** Deletes a client that left the spec and then its secret; without the secret the client is taken
      to be gone already. */
  function DeleteClient(w: World, m: Managed): Reply<bool> {
    if !Alive(w) then Reply(w, Err)
    else
      var w1 := Spend(w);
      if m.secretRef !in w.secrets then Reply(w1, Ok(true))
      else
        var deleted := RoundTrip(w1, m.clientId, Remove, w.secrets[m.secretRef]);
        if deleted.r.Err? || deleted.r.value.Unauthorized? || !Alive(deleted.w) then Reply(deleted.w, Err)
        else Reply(Spend(deleted.w).(secrets := deleted.w.secrets - {m.secretRef}), Ok(true))
  }

  predicate InSpec(cs: seq<ClientConfig>, name: string) {
    exists c :: c in cs && c.metadata.clientName == name
  }

  /** The status entries in the given order, skipping those still in the spec. */
  function DeleteRemoved(w: World, status: Status, cs: seq<ClientConfig>, order: seq<string>): Reply<bool>
    requires forall n :: n in order ==> n in status
  {
    if order == [] then Reply(w, Ok(true))
    else
      var front, name := DeleteRemoved(w, status, cs, order[..|order| - 1]), order[|order| - 1];
      if front.r.Err? || InSpec(cs, name) then front else DeleteClient(front.w, status[name])
  }

  function EnsureRealm(w: World): Reply<bool> {
    if !Alive(w) then Reply(w, Err) else Reply(Spend(w).(realm := true), Ok(true))
  }

  function AfterDeletions(w: World, status: Status, cs: seq<ClientConfig>, order: seq<string>): Reply<bool>
    requires forall n :: n in order ==> n in status
  {
    DeleteRemoved(EnsureRealm(w).w, status, cs, order)
  }

  /** One reconciliation; the new status is part of the result and saved with the last call. */
  function Process(w: World, status: Status, cs: seq<ClientConfig>, order: seq<string>): Reply<Status>
    requires forall n :: n in order ==> n in status
  {
    if EnsureRealm(w).r.Err? then Reply(w, Err)
    else
      var removed := AfterDeletions(w, status, cs, order);
      if removed.r.Err? then Reply(removed.w, Err)
      else
        var processed := ProcessClients(removed.w, status, cs);
        if processed.r.Err? then processed
        else if !Alive(processed.w) then Reply(processed.w, Err)
        else Reply(Spend(processed.w), processed.r)
  }

  /** A spec client's deletion in Finalize: by its own secret, and not without a status entry. */
  function FinalizeClient(w: World, status: Status, c: ClientConfig): Reply<bool> {
    var name := c.metadata.clientName;
    if name in status then DeleteClient(w, Managed(status[name].clientId, c.secretRef))
    else if !Alive(w) then Reply(w, Err)
    else Reply(Spend(w), Ok(true))
  }

  function FinalizeClients(w: World, status: Status, cs: seq<ClientConfig>): Reply<bool> {
    if cs == [] then Reply(w, Ok(true))
    else
      var front := FinalizeClients(w, status, cs[..|cs| - 1]);
      if front.r.Err? then front else FinalizeClient(front.w, status, cs[|cs| - 1])
  }

  /** Deleting the realm takes all its clients along. */
  function FinalizeRealm(w: World, status: Status, cs: seq<ClientConfig>): Reply<bool> {
    var deleted := FinalizeClients(w, status, cs);
    if deleted.r.Err? || !Alive(deleted.w) then Reply(deleted.w, Err)
    else Reply(Spend(deleted.w).(realm := false, clients := map[]), Ok(true))
  }

  lemma FinalizeClientsSnoc(w: World, status: Status, cs: seq<ClientConfig>, i: nat)
    requires i < |cs|
    ensures var front := FinalizeClients(w, status, cs[..i]);
            FinalizeClients(w, status, cs[..i + 1]) ==
            if front.r.Err? then front else FinalizeClient(front.w, status, cs[i])
  {
    assert cs[..i + 1][..i] == cs[..i];
  }

  lemma {:induction false} FinalizeFailureSticks(w: World, status: Status, cs: seq<ClientConfig>, i: nat)
    requires i <= |cs|
    requires FinalizeClients(w, status, cs[..i]).r.Err?
    ensures FinalizeClients(w, status, cs) == FinalizeClients(w, status, cs[..i])
  {
    if i == |cs| {
      assert cs[..i] == cs;
    } else {
      assert cs[..|cs| - 1][..i] == cs[..i];
      FinalizeFailureSticks(w, status, cs[..|cs| - 1], i);
    }
  }

  lemma {:induction false} FailureSticks(w: World, status: Status, cs: seq<ClientConfig>, i: nat)
    requires i <= |cs|
    requires ProcessClients(w, status, cs[..i]).r.Err?
    ensures ProcessClients(w, status, cs) == ProcessClients(w, status, cs[..i])
  {
    if i == |cs| {
      assert cs[..i] == cs;
    } else {
      var front := cs[..|cs| - 1];
      assert front[..i] == cs[..i];
      FailureSticks(w, status, front, i);
    }
  }

  lemma ProcessClientsSnoc(w: World, status: Status, cs: seq<ClientConfig>, i: nat)
    requires i < |cs|
    ensures var front := ProcessClients(w, status, cs[..i]);
            ProcessClients(w, status, cs[..i + 1]) ==
            if front.r.Err? then front
            else
              var one := ProcessClient(front.w, status, cs[i]);
              if one.r.Err? then Reply(one.w, Err)
              else Reply(one.w, Ok(front.r.value[cs[i].metadata.clientName := one.r.value]))
  {
    assert cs[..i + 1][..i] == cs[..i];
  }

  lemma DeleteRemovedSnoc(w: World, status: Status, cs: seq<ClientConfig>, order: seq<string>, name: string)
    requires (forall n :: n in order ==> n in status) && name in status
    ensures var front := DeleteRemoved(w, status, cs, order);
            DeleteRemoved(w, status, cs, order + [name]) ==
            if front.r.Err? || InSpec(cs, name) then front else DeleteClient(front.w, status[name])
  {
    assert (order + [name])[..|order|] == order;
  }

  /** Map keys in the order they happen to be visited, possibly not all of them. */
  ghost predicate Visited(order: seq<string>, status: Status) {
    && (forall n :: n in order ==> n in status)
    && (forall i, j :: 0 <= i < j < |order| ==> order[i] != order[j])
  }

  /** All keys, in the order they happen to be visited. */
  ghost predicate Visits(order: seq<string>, status: Status) {
    Visited(order, status) && forall n :: n in status ==> n in order
  }

  /** What an attempt visits: all keys, unless it stops in the deletions. */
  ghost predicate Covers(w: World, status: Status, cs: seq<ClientConfig>, order: seq<string>) {
    && Visited(order, status)
    && (Alive(w) && AfterDeletions(w, status, cs, order).r.Ok? ==> Visits(order, status))
  }

  class IdentityProviderConfiguration {
    var clients: seq<ClientConfig>
    var managedClients: Status

    constructor (clients: seq<ClientConfig>)
      ensures this.clients == clients && managedClients == map[]
    {
      this.clients := clients;
      managedClients := map[];
    }
  }

  class Subroutine {
    var w: World

    constructor (w: World)
      ensures this.w == w
    {
      this.w := w;
    }

    /** Sends a request over the retrying transport. */
    method Do(id: nat, request: Request, token: Token) returns (r: Result<Response>)
      modifies this
      ensures Reply(w, r) == RoundTrip(old(w), id, request, token)
    {
      var sent := Send(w, id, request, token);
      w := sent.w;
      r := sent.r;
      if r.Err? || !r.value.Unauthorized? {
        return;
      }
      var refreshed := RefreshToken(w, id);
      w := refreshed.w;
      if refreshed.r.Err? {
        return;
      }
      sent := Send(w, id, request, refreshed.r.value);
      w := sent.w;
      r := sent.r;
    }

    method ReadRegistrationAccessToken(ref: SecretRef) returns (token: Result<Option<Token>>)
      modifies this
      ensures token.Err? <==> !Alive(old(w))
      ensures w == if Alive(old(w)) then Spend(old(w)) else old(w)
      ensures token.Ok? ==> token.value == if ref in w.secrets then Some(w.secrets[ref]) else None
    {
      if !Alive(w) {
        return Err;
      }
      w := Spend(w);
      token := Ok(if ref in w.secrets then Some(w.secrets[ref]) else None);
    }

    method DeleteRemovedClients(idp: IdentityProviderConfiguration) returns (ok: bool, ghost order: seq<string>)
      modifies this
      ensures Visited(order, idp.managedClients) && (ok ==> Visits(order, idp.managedClients))
      ensures DeleteRemoved(old(w), idp.managedClients, idp.clients, order) == Reply(w, if ok then Ok(true) else Err)
    {
      var status, cs := idp.managedClients, idp.clients;
      var rest := status.Keys;
      order := [];
      ok := true;
      while rest != {} && ok
        invariant rest <= status.Keys
        invariant forall n :: n in order <==> n in status && n !in rest
        invariant forall i, j :: 0 <= i < j < |order| ==> order[i] != order[j]
        invariant DeleteRemoved(old(w), status, cs, order) == Reply(w, if ok then Ok(true) else Err)
        decreases |rest|, ok
      {
        var name :| name in rest;
        rest := rest - {name};
        DeleteRemovedSnoc(old(w), status, cs, order, name);
        order := order + [name];
        if exists c :: c in cs && c.metadata.clientName == name {
          continue;
        }
        ok := DeleteManaged(status[name]);
      }
    }

    /** The body of the loop for a client that left the spec. */
    method DeleteManaged(m: Managed) returns (ok: bool)
      modifies this
      ensures DeleteClient(old(w), m) == Reply(w, if ok then Ok(true) else Err)
    {
      var token := ReadRegistrationAccessToken(m.secretRef);
      if token.Err? {
        return false;
      }
      if token.value.None? {
        return true;
      }
      var deleted := Do(m.clientId, Remove, token.value.value);
      if deleted.Err? || deleted.value.Unauthorized? || !Alive(w) {
        return false;
      }
      w := Spend(w).(secrets := w.secrets - {m.secretRef});
      ok := true;
    }

    method RegisterOrUpdate(status: Status, c: ClientConfig) returns (r: Result<(nat, Token)>)
      modifies this
      ensures Reply(w, r) == RegisterOrUpdateClient(old(w), status, c)
    {
      if !Alive(w) {
        return Err;
      }
      var existing := FindByName(w, c.metadata.clientName);
      w := Spend(w);
      if existing.None? {
        var registered := Register(w, c.metadata);
        w := registered.w;
        return registered.r;
      }
      var token := ReadRegistrationAccessToken(c.secretRef);
      if token.Err? {
        return Err;
      }
      var id := existing.value;
      if c.metadata.clientName in status {
        id := status[c.metadata.clientName].clientId;
      }
      var updated := Do(id, Put(c.metadata), if token.value.Some? then token.value.value else NO_TOKEN);
      r := if updated.Ok? && updated.value.Success? then Ok((id, updated.value.token)) else Err;
    }

    /** Registers or updates one client and writes its secret. */
    method ReconcileClient(status: Status, c: ClientConfig) returns (r: Result<Managed>)
      modifies this
      ensures Reply(w, r) == ProcessClient(old(w), status, c)
    {
      var info := RegisterOrUpdate(status, c);
      if info.Err? {
        return Err;
      }
      var written := WriteSecret(w, c.secretRef, info.value.1);
      w := written.w;
      r := if written.r.Err? then Err else Ok(Managed(info.value.0, c.secretRef));
    }

    /** All clients of the spec in turn, filling the new status entries. */
    method ReconcileClients(status: Status, cs: seq<ClientConfig>) returns (r: Result<Status>)
      modifies this
      ensures Reply(w, r) == ProcessClients(old(w), status, cs)
    {
      var managedClients: Status := map[];
      for i := 0 to |cs|
        invariant ProcessClients(old(w), status, cs[..i]) == Reply(w, Ok(managedClients))
      {
        ProcessClientsSnoc(old(w), status, cs, i);
        var one := ReconcileClient(status, cs[i]);
        if one.Err? {
          FailureSticks(old(w), status, cs, i + 1);
          return Err;
        }
        managedClients := managedClients[cs[i].metadata.clientName := one.value];
      }
      assert cs[..|cs|] == cs;
      r := Ok(managedClients);
    }

    /** One reconciliation. The status changes only with the last call. */
    method Reconcile(idp: IdentityProviderConfiguration) returns (ok: bool, ghost order: seq<string>)
      modifies this, idp`managedClients
      ensures Covers(old(w), old(idp.managedClients), idp.clients, order)
      ensures var reply := Process(old(w), old(idp.managedClients), idp.clients, order);
              && w == reply.w
              && (ok <==> reply.r.Ok?)
              && idp.managedClients == if ok then reply.r.value else old(idp.managedClients)
    {
      var status, cs := idp.managedClients, idp.clients;
      var realm := EnsureRealm(w);
      w := realm.w;
      if realm.r.Err? {
        return false, [];
      }
      ok, order := DeleteRemovedClients(idp);
      if !ok {
        return;
      }
      var managedClients := ReconcileClients(status, cs);
      if managedClients.Err? || !Alive(w) {
        return false, order;
      }
      w := Spend(w);
      idp.managedClients := managedClients.value;
      ok := true;
    }

    method FinalizeOne(status: Status, c: ClientConfig) returns (ok: bool)
      modifies this
      ensures FinalizeClient(old(w), status, c) == Reply(w, if ok then Ok(true) else Err)
    {
      var token := ReadRegistrationAccessToken(c.secretRef);
      if token.Err? {
        return false;
      }
      if token.value.None? || c.metadata.clientName !in status {
        return true;
      }
      var deleted := Do(status[c.metadata.clientName].clientId, Remove, token.value.value);
      if deleted.Err? || deleted.value.Unauthorized? || !Alive(w) {
        return false;
      }
      w := Spend(w).(secrets := w.secrets - {c.secretRef});
      ok := true;
    }

    method Finalize(idp: IdentityProviderConfiguration) returns (ok: bool)
      modifies this
      ensures FinalizeRealm(old(w), idp.managedClients, idp.clients) == Reply(w, if ok then Ok(true) else Err)
    {
      var status, cs := idp.managedClients, idp.clients;
      for i := 0 to |cs|
        invariant FinalizeClients(old(w), status, cs[..i]) == Reply(w, Ok(true))
      {
        FinalizeClientsSnoc(old(w), status, cs, i);
        var done := FinalizeOne(status, cs[i]);
        if !done {
          FinalizeFailureSticks(old(w), status, cs, i + 1);
          return false;
        }
      }
      assert cs[..|cs|] == cs;
      if !Alive(w) {
        return false;
      }
      w := Spend(w).(realm := false, clients := map[]);
      ok := true;
    }
  }
}
