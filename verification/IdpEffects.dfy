/** What each part of an OIDC reconciliation may change, wherever it is cut off, and when it succeeds
    uninterrupted. */
module IdpEffects {
  import opened Wrappers
  import opened Idp

  /** IDs and tokens in use were handed out before, and no two clients share a name. */
  ghost predicate Sound(w: World) {
    && w.nextToken > NO_TOKEN
    && (forall id :: id in w.clients ==> id < w.nextId && NO_TOKEN < w.clients[id].token < w.nextToken)
    && (forall id1, id2 :: id1 in w.clients && id2 in w.clients && NameOf(w, id1) == NameOf(w, id2) ==> id1 == id2)
  }

  function NameOf(w: World, id: nat): string
    requires id in w.clients
  {
    w.clients[id].metadata.clientName
  }

  /** A status entry never points to a client of another name, and no two share a secret. */
  ghost predicate Linked(w: World, status: Status) {
    && (forall n :: n in status ==> Points(w, status[n].clientId, n))
    && (forall n1, n2 :: n1 in status && n2 in status && status[n1].secretRef == status[n2].secretRef ==> n1 == n2)
  }

  /** The ID was handed out, and if its client is still there it has the name. */
  predicate Points(w: World, id: nat, name: string) {
    id < w.nextId && (id in w.clients ==> NameOf(w, id) == name)
  }

  predicate Uninterrupted(w: World) {
    w.callsLeft.None?
  }

  /** Only clients of the given names are touched, and new clients get new IDs. */
  ghost predicate Affects(w: World, w': World, names: set<string>) {
    && Sound(w')
    && (w.realm ==> w'.realm)
    && w'.nextId >= w.nextId && w'.rotates == w.rotates && w'.missingIsNotFound == w.missingIsNotFound
    && (Uninterrupted(w) <==> Uninterrupted(w'))
    && (forall id :: id in w.clients && NameOf(w, id) !in names ==> id in w'.clients && w'.clients[id] == w.clients[id])
    && (forall id :: id in w'.clients && NameOf(w', id) !in names ==>
          id in w.clients && w'.clients[id] == w.clients[id])
    && (forall id :: id in w'.clients && id !in w.clients ==> id >= w.nextId)
    && (forall id :: id in w'.clients && id in w.clients ==> NameOf(w', id) == NameOf(w, id))
  }

  lemma AffectsThen(w: World, w1: World, w2: World, a: set<string>, b: set<string>)
    requires Sound(w) && Affects(w, w1, a) && Affects(w1, w2, b)
    ensures Affects(w, w2, a + b)
  {
  }

  /** Counters only grow and the server behaves as before. */
  predicate Continues(w: World, w': World) {
    && (w.realm ==> w'.realm)
    && w'.nextId >= w.nextId && w'.nextToken >= w.nextToken
    && w'.rotates == w.rotates && w'.missingIsNotFound == w.missingIsNotFound
    && (Uninterrupted(w) <==> Uninterrupted(w'))
  }

  lemma AffectsPut(w: World, w': World, id: nat, client: Client)
    requires Sound(w) && Continues(w, w')
    requires w'.clients == w.clients[id := client]
    requires id < w'.nextId && NO_TOKEN < client.token < w'.nextToken
    requires if id in w.clients then NameOf(w, id) == client.metadata.clientName
             else id >= w.nextId
                  && forall other :: other in w.clients ==> NameOf(w, other) != client.metadata.clientName
    ensures Affects(w, w', {client.metadata.clientName})
  {
    SoundPut(w, w', id, client);
  }

  lemma SoundPut(w: World, w': World, id: nat, client: Client)
    requires Sound(w) && Continues(w, w')
    requires w'.clients == w.clients[id := client]
    requires id < w'.nextId && NO_TOKEN < client.token < w'.nextToken
    requires forall other :: other in w.clients && NameOf(w, other) == client.metadata.clientName ==> other == id
    ensures Sound(w')
  {
  }

  lemma AffectsRemove(w: World, w': World, id: nat, name: string)
    requires Sound(w) && Continues(w, w')
    requires w'.clients == w.clients - {id} && id in w.clients && NameOf(w, id) == name
    ensures Affects(w, w', {name})
  {
  }

  lemma AffectsNothing(w: World, w': World)
    requires Sound(w) && Continues(w, w') && w'.clients == w.clients
    ensures forall names :: Affects(w, w', names)
  {
  }

  lemma StillPoints(w: World, w': World, names: set<string>, id: nat, name: string)
    requires Points(w, id, name) && Affects(w, w', names)
    ensures Points(w', id, name)
  {
  }

  lemma StillLinked(w: World, w': World, names: set<string>, status: Status)
    requires Linked(w, status) && Affects(w, w', names)
    ensures Linked(w', status)
  {
    forall n | n in status
      ensures Points(w', status[n].clientId, n)
    {
      StillPoints(w, w', names, status[n].clientId, n);
    }
  }

  lemma {:induction false} FindFromFinds(w: World, name: string, i: nat)
    ensures var r := FindFrom(w, name, i);
            && (r.Some? ==> r.value in w.clients && NameOf(w, r.value) == name)
            && (r.None? ==> forall id :: i <= id < w.nextId && id in w.clients ==> NameOf(w, id) != name)
    decreases w.nextId - i
  {
    if i < w.nextId && !(i in w.clients && NameOf(w, i) == name) {
      FindFromFinds(w, name, i + 1);
    }
  }

  /** With unique names, finding by name finds the client of that name. */
  lemma FindByNameFinds(w: World, name: string, id: nat)
    requires Sound(w)
    ensures FindByName(w, name) == Some(id) <==> id in w.clients && NameOf(w, id) == name
    ensures FindByName(w, name).None? ==> (id in w.clients ==> NameOf(w, id) != name)
  {
    FindFromFinds(w, name, 0);
  }

  /** Lookups of untouched names do not change. */
  lemma FindUntouched(w: World, w': World, names: set<string>, name: string)
    requires Sound(w) && Affects(w, w', names) && name !in names
    ensures FindByName(w', name) == FindByName(w, name)
  {
    FindFromFinds(w, name, 0);
    FindFromFinds(w', name, 0);
    if FindByName(w, name).Some? {
      FindByNameFinds(w', name, FindByName(w, name).value);
    }
    if FindByName(w', name).Some? {
      FindByNameFinds(w, name, FindByName(w', name).value);
    }
  }

  predicate Requests(request: Request, name: string) {
    request.Put? ==> request.metadata.clientName == name
  }

  /** What one request does if it succeeds. */
  predicate Done(w: World, id: nat, request: Request, w': World, token: Token) {
    && id in w.clients
    && w'.clients == match request
                     case Put(metadata) => w.clients[id := Client(metadata, token)]
                     case Remove => w.clients - {id}
  }

  lemma SendAffects(w: World, id: nat, request: Request, token: Token, name: string)
    requires Sound(w) && Points(w, id, name) && Requests(request, name)
    ensures Affects(w, Send(w, id, request, token).w, {name})
  {
    var w' := Send(w, id, request, token).w;
    SendContinues(w, id, request, token);
    if !Alive(w) || id !in w.clients || token != w.clients[id].token {
      AffectsNothing(w, w');
    } else {
      match request
      case Put(metadata) => AffectsPut(w, w', id, Client(metadata, if w.rotates then w.nextToken else token));
      case Remove => AffectsRemove(w, w', id, name);
    }
  }

  lemma SendContinues(w: World, id: nat, request: Request, token: Token)
    ensures var w' := Send(w, id, request, token).w;
            && Continues(w, w')
            && w'.clients == if !Alive(w) || id !in w.clients || token != w.clients[id].token then w.clients
                             else match request
                               case Put(metadata) =>
                                 w.clients[id := Client(metadata, if w.rotates then w.nextToken else token)]
                               case Remove => w.clients - {id}
  {
  }

  /** What an answer says about the request. */
  predicate Answers(w: World, id: nat, request: Request, reply: Reply<Response>) {
    var Reply(w', r) := reply;
    && w'.secrets == w.secrets
    && (Uninterrupted(w) ==> r.Ok?)
    && (if r.Ok? && r.value.Success? then Done(w, id, request, w', r.value.token)
        else w'.clients.Keys == w.clients.Keys)
    && (r.Ok? && r.value.NotFound? ==> id !in w.clients && w.missingIsNotFound)
    && (r.Ok? && id !in w.clients ==> r.value == if w.missingIsNotFound then NotFound else Unauthorized)
  }

  lemma SendAnswers(w: World, id: nat, request: Request, token: Token)
    ensures Answers(w, id, request, Send(w, id, request, token))
    ensures Send(w, id, request, token).r == Ok(Unauthorized) ==> Send(w, id, request, token).w == Spend(w)
    ensures Uninterrupted(w) && id in w.clients && token == w.clients[id].token ==>
            Send(w, id, request, token).r.value.Success?
  {
  }

  lemma RefreshContinues(w: World, id: nat)
    ensures var Reply(w', r) := RefreshToken(w, id);
            && Continues(w, w')
            && (r.Ok? ==> id in w.clients && w.nextToken == r.value < w'.nextToken)
            && w'.clients == if r.Ok? then w.clients[id := w.clients[id].(token := r.value)] else w.clients
  {
  }

  lemma RefreshAffects(w: World, id: nat, name: string)
    requires Sound(w) && Points(w, id, name)
    ensures Affects(w, RefreshToken(w, id).w, {name})
  {
    RefreshContinues(w, id);
    var Reply(w', r) := RefreshToken(w, id);
    if r.Ok? {
      AffectsPut(w, w', id, w.clients[id].(token := r.value));
    } else {
      AffectsNothing(w, w');
    }
  }

  lemma RefreshAnswers(w: World, id: nat)
    ensures var Reply(w', r) := RefreshToken(w, id);
            && w'.secrets == w.secrets && w'.missingIsNotFound == w.missingIsNotFound
            && (Uninterrupted(w) ==> Uninterrupted(w') && (r.Ok? <==> id in w.clients))
            && (r.Ok? ==> id in w.clients && w'.clients == w.clients[id := w.clients[id].(token := r.value)])
            && (r.Err? ==> w'.clients == w.clients)
  {
  }

  lemma AffectsTwice(w: World, w1: World, w2: World, name: string)
    requires Sound(w) && Affects(w, w1, {name}) && Affects(w1, w2, {name})
    ensures Affects(w, w2, {name})
  {
    AffectsThen(w, w1, w2, {name}, {name});
    assert {name} + {name} == {name};
  }

  lemma RoundTripAffects(w: World, id: nat, request: Request, token: Token, name: string)
    requires Sound(w) && Points(w, id, name) && Requests(request, name)
    ensures Affects(w, RoundTrip(w, id, request, token).w, {name})
  {
    SendAffects(w, id, request, token, name);
    var first := Send(w, id, request, token);
    if first.r == Ok(Unauthorized) {
      StillPoints(w, first.w, {name}, id, name);
      RefreshAffects(first.w, id, name);
      var refreshed := RefreshToken(first.w, id);
      AffectsTwice(w, first.w, refreshed.w, name);
      if refreshed.r.Ok? {
        StillPoints(w, refreshed.w, {name}, id, name);
        SendAffects(refreshed.w, id, request, refreshed.r.value, name);
        AffectsTwice(w, refreshed.w, Send(refreshed.w, id, request, refreshed.r.value).w, name);
      }
    }
  }

  /** Over the retrying transport, a stale or missing token is no obstacle: uninterrupted, a request
      about an existing client succeeds whatever the token. */
  lemma RoundTripAnswers(w: World, id: nat, request: Request, token: Token)
    ensures Answers(w, id, request, RoundTrip(w, id, request, token))
    ensures Uninterrupted(w) ==> (RoundTrip(w, id, request, token).r.value.Success? <==> id in w.clients)
  {
    SendAnswers(w, id, request, token);
    var first := Send(w, id, request, token);
    if first.r == Ok(Unauthorized) {
      RefreshAnswers(first.w, id);
      var refreshed := RefreshToken(first.w, id);
      if refreshed.r.Ok? {
        RetryAnswers(w, refreshed.w, id, request, refreshed.r.value);
      }
    }
  }

  /** With the token just refreshed, the request succeeds if it gets through, and does to the clients
      what it would have done before. */
  lemma RetryAnswers(w: World, w2: World, id: nat, request: Request, token: Token)
    requires id in w.clients && w2.clients == w.clients[id := w.clients[id].(token := token)]
    requires w2.secrets == w.secrets && w2.missingIsNotFound == w.missingIsNotFound
    requires Uninterrupted(w) ==> Uninterrupted(w2)
    ensures Answers(w, id, request, Send(w2, id, request, token))
    ensures Uninterrupted(w) ==> Send(w2, id, request, token).r.value.Success?
  {
    SendAnswers(w2, id, request, token);
    assert w2.clients - {id} == w.clients - {id};
  }

  lemma RegisterAnswers(w: World, metadata: Metadata)
    ensures var Reply(w', r) := Register(w, metadata);
            && Continues(w, w')
            && (r.Ok? ==> w'.nextId > w.nextId && w'.nextToken > w.nextToken)
            && w'.clients == if r.Ok? then w.clients[w.nextId := Client(metadata, w.nextToken)] else w.clients
  {
  }

  lemma RegisterAffects(w: World, metadata: Metadata)
    requires Sound(w)
    requires forall id :: id in w.clients ==> NameOf(w, id) != metadata.clientName
    ensures Affects(w, Register(w, metadata).w, {metadata.clientName})
  {
    RegisterAnswers(w, metadata);
    var Reply(w', r) := Register(w, metadata);
    if r.Ok? {
      AffectsPut(w, w', w.nextId, Client(metadata, w.nextToken));
    } else {
      AffectsNothing(w, w');
    }
  }

  /** The client the status remembers is the one registered under the name, if there is one. */
  predicate Fresh(w: World, status: Status, c: ClientConfig) {
    var name := c.metadata.clientName;
    FindByName(w, name).None? || name !in status || status[name].clientId == FindByName(w, name).value
  }

  /** The client is registered as the spec asks for, the secret holds its current token and the
      status entry points to it. */
  predicate Settled(w: World, status: Status, c: ClientConfig) {
    var name := c.metadata.clientName;
    && name in status
    && status[name].secretRef == c.secretRef
    && status[name].clientId in w.clients
    && w.clients[status[name].clientId].metadata == c.metadata
    && c.secretRef in w.secrets && w.secrets[c.secretRef] == w.clients[status[name].clientId].token
  }

  /** What registering or updating a client comes to. */
  predicate Registers(w: World, c: ClientConfig, reply: Reply<(nat, Token)>) {
    && reply.w.secrets == w.secrets
    && w.clients.Keys <= reply.w.clients.Keys
    && (reply.r.Ok? ==> reply.w.clients == w.clients[reply.r.value.0 := Client(c.metadata, reply.r.value.1)])
  }

  /** The client and the token an update goes out with. */
  function Target(w: World, status: Status, c: ClientConfig): (nat, Token)
    requires FindByName(w, c.metadata.clientName).Some?
  {
    var name := c.metadata.clientName;
    (if name in status then status[name].clientId else FindByName(w, name).value,
     if c.secretRef in w.secrets then w.secrets[c.secretRef] else NO_TOKEN)
  }

  lemma TargetPoints(w: World, status: Status, c: ClientConfig)
    requires Sound(w) && Linked(w, status) && FindByName(w, c.metadata.clientName).Some?
    ensures Points(w, Target(w, status, c).0, c.metadata.clientName)
    ensures Target(w, status, c).0 in w.clients <==> Fresh(w, status, c)
  {
    var name := c.metadata.clientName;
    FindFromFinds(w, name, 0);
    FindByNameFinds(w, name, Target(w, status, c).0);
  }

  lemma RegistrationAffects(w: World, w1: World, metadata: Metadata)
    requires Sound(w) && FindByName(w, metadata.clientName).None?
    requires Continues(w, w1) && w1.clients == w.clients
    ensures Affects(w, Register(w1, metadata).w, {metadata.clientName})
  {
    FindFromFinds(w, metadata.clientName, 0);
    AffectsNothing(w, w1);
    assert Affects(w, w1, {metadata.clientName});
    RegisterAffects(w1, metadata);
    AffectsTwice(w, w1, Register(w1, metadata).w, metadata.clientName);
  }

  /** A request sent after some calls that changed no client. */
  lemma RequestAffects(w: World, w2: World, id: nat, request: Request, token: Token, name: string)
    requires Sound(w) && Points(w, id, name) && Requests(request, name)
    requires Continues(w, w2) && w2.clients == w.clients
    ensures Affects(w, RoundTrip(w2, id, request, token).w, {name})
  {
    AffectsNothing(w, w2);
    assert Affects(w, w2, {name});
    RoundTripAffects(w2, id, request, token, name);
    AffectsTwice(w, w2, RoundTrip(w2, id, request, token).w, name);
  }

  lemma AffectsStill(w: World, w1: World, w2: World, names: set<string>)
    requires Affects(w, w1, names)
    requires Continues(w1, w2) && w2.clients == w1.clients
    ensures Affects(w, w2, names)
  {
  }

  /** The three ways a registration or update can go: cut off early, registering, or updating. */
  lemma RegisterOrUpdateSplits(w: World, status: Status, c: ClientConfig)
    ensures var reply := RegisterOrUpdateClient(w, status, c);
            if !Alive(w) then reply == Reply(w, Err)
            else if FindByName(w, c.metadata.clientName).None? then reply == Register(Spend(w), c.metadata)
            else if !Alive(Spend(w)) then reply == Reply(Spend(w), Err)
            else
              var id := Target(w, status, c).0;
              var updated := RoundTrip(Spend(Spend(w)), id, Put(c.metadata), Target(w, status, c).1);
              reply == Reply(updated.w,
                             if updated.r.Ok? && updated.r.value.Success? then Ok((id, updated.r.value.token)) else Err)
  {
  }

  lemma RegisterOrUpdateAffects(w: World, status: Status, c: ClientConfig)
    requires Sound(w) && Linked(w, status)
    ensures Affects(w, RegisterOrUpdateClient(w, status, c).w, {c.metadata.clientName})
  {
    RegisterOrUpdateSplits(w, status, c);
    if !Alive(w) {
      AffectsNothing(w, w);
    } else if FindByName(w, c.metadata.clientName).None? {
      RegistrationAffects(w, Spend(w), c.metadata);
    } else if !Alive(Spend(w)) {
      AffectsNothing(w, Spend(w));
    } else {
      var (id, token) := Target(w, status, c);
      TargetPoints(w, status, c);
      RequestAffects(w, Spend(Spend(w)), id, Put(c.metadata), token, c.metadata.clientName);
    }
  }

  lemma RegisterOrUpdateRegisters(w: World, status: Status, c: ClientConfig)
    ensures Registers(w, c, RegisterOrUpdateClient(w, status, c))
  {
    RegisterOrUpdateSplits(w, status, c);
    if FindByName(w, c.metadata.clientName).Some? {
      var (id, token) := Target(w, status, c);
      RoundTripAnswers(Spend(Spend(w)), id, Put(c.metadata), token);
    }
  }

  /** Uninterrupted it succeeds exactly if the status entry is fresh, and it never succeeds
      otherwise. */
  lemma RegisterOrUpdateSucceedsIff(w: World, status: Status, c: ClientConfig)
    requires Sound(w) && Linked(w, status)
    ensures RegisterOrUpdateClient(w, status, c).r.Ok? ==> Fresh(w, status, c)
    ensures Uninterrupted(w) && Fresh(w, status, c) ==> RegisterOrUpdateClient(w, status, c).r.Ok?
  {
    RegisterOrUpdateSplits(w, status, c);
    if FindByName(w, c.metadata.clientName).Some? {
      var (id, token) := Target(w, status, c);
      TargetPoints(w, status, c);
      RoundTripAnswers(Spend(Spend(w)), id, Put(c.metadata), token);
    }
  }

  ghost predicate SameSecretsBut(w: World, w': World, refs: set<SecretRef>) {
    forall ref :: ref !in refs ==>
                    && (ref in w'.secrets <==> ref in w.secrets)
                    && (ref in w.secrets && ref in w'.secrets ==> w'.secrets[ref] == w.secrets[ref])
  }

  /** Only the client's name is touched. */
  lemma ProcessClientAffects(w: World, status: Status, c: ClientConfig)
    requires Sound(w) && Linked(w, status)
    ensures Affects(w, ProcessClient(w, status, c).w, {c.metadata.clientName})
  {
    RegisterOrUpdateAffects(w, status, c);
    ProcessClientContinues(w, status, c);
    AffectsStill(w, RegisterOrUpdateClient(w, status, c).w, ProcessClient(w, status, c).w, {c.metadata.clientName});
  }

  /** Writing the secret changes no client. */
  lemma ProcessClientContinues(w: World, status: Status, c: ClientConfig)
    ensures var w1, w2 := RegisterOrUpdateClient(w, status, c).w, ProcessClient(w, status, c).w;
            Continues(w1, w2) && w2.clients == w1.clients
  {
  }

  /** No client goes away and only its own secret is written, whatever happens. */
  lemma ProcessClientKeeps(w: World, status: Status, c: ClientConfig)
    ensures w.clients.Keys <= ProcessClient(w, status, c).w.clients.Keys
    ensures SameSecretsBut(w, ProcessClient(w, status, c).w, {c.secretRef})
  {
    RegisterOrUpdateRegisters(w, status, c);
  }

  /** If all calls got through, the client is settled. */
  lemma ProcessClientSettles(w: World, status: Status, c: ClientConfig)
    requires ProcessClient(w, status, c).r.Ok?
    ensures Settled(ProcessClient(w, status, c).w, map[c.metadata.clientName := ProcessClient(w, status, c).r.value], c)
  {
    RegisterOrUpdateRegisters(w, status, c);
  }

  /** A client succeeds only if its status entry is fresh, and uninterrupted exactly then. */
  lemma ProcessClientSucceedsIff(w: World, status: Status, c: ClientConfig)
    requires Sound(w) && Linked(w, status)
    ensures ProcessClient(w, status, c).r.Ok? ==> Fresh(w, status, c)
    ensures Uninterrupted(w) ==> (ProcessClient(w, status, c).r.Ok? <==> Fresh(w, status, c))
  {
    RegisterOrUpdateSucceedsIff(w, status, c);
    RegisterOrUpdateAffects(w, status, c);
  }
}
