/** CRUD of persisted OIDC clients: payloads in the provider's shape, PATCH merging, secrets. */
module AdminClients {
  import opened Wrappers

  const PUBLIC_AUTH_METHOD := "none"
  const DEFAULT_AUTH_METHOD := "client_secret_basic"
  const DEFAULT_GRANTS := ["authorization_code", "refresh_token"]

  /** A stored client. Payloads written by others may lack fields; `other` is metadata this service does not know. */
  datatype Payload = Payload(
    redirectUris: Option<seq<string>>,
    postLogoutRedirectUris: Option<seq<string>>,
    grantTypes: Option<seq<string>>,
    responseTypes: seq<string>,
    authMethod: Option<string>,
    secret: Option<string>,
    logoutUri: Option<string>,
    sessionRequired: Option<bool>,
    other: map<string, string>)

  datatype ClientInput = ClientInput(
    clientId: Option<string>,
    redirectUris: seq<string>,
    postLogoutRedirectUris: seq<string>,
    grantTypes: seq<string>,
    authMethod: string,
    logoutUri: Option<string>,
    sessionRequired: Option<bool>)

  /** A partial input: None means "not sent". */
  datatype Patch = Patch(
    redirectUris: Option<seq<string>>,
    postLogoutRedirectUris: Option<seq<string>>,
    grantTypes: Option<seq<string>>,
    authMethod: Option<string>,
    logoutUri: Option<string>,
    sessionRequired: Option<bool>)

  const NO_PATCH := Patch(None, None, None, None, None, None)

  predicate Confidential(authMethod: string) {
    authMethod != PUBLIC_AUTH_METHOD
  }

  /** `a ?? b`. */
  function OrElse<T>(a: Option<T>, b: T): T {
    if a.Some? then a.value else b
  }

  function OrElseOption<T>(a: Option<T>, b: Option<T>): Option<T> {
    if a.Some? then a else b
  }

  /** `#buildPayload`. */
  function Built(input: ClientInput, secret: Option<string>): Payload {
    var grants := if |input.grantTypes| > 0 then input.grantTypes else DEFAULT_GRANTS;
    Payload(
      Some(input.redirectUris),
      Some(input.postLogoutRedirectUris),
      Some(grants),
      if "authorization_code" in grants then ["code"] else [],
      Some(input.authMethod),
      if Truthy(secret) then secret else None,
      if Truthy(input.logoutUri) then input.logoutUri else None,
      if Truthy(input.logoutUri) then input.sessionRequired else None,
      map[])
  }

  function Merged(id: string, p: Payload, patch: Patch): ClientInput {
    ClientInput(
      Some(id),
      OrElse(patch.redirectUris, OrElse(p.redirectUris, [])),
      OrElse(patch.postLogoutRedirectUris, OrElse(p.postLogoutRedirectUris, [])),
      OrElse(patch.grantTypes, OrElse(p.grantTypes, [])),
      OrElse(patch.authMethod, OrElse(p.authMethod, DEFAULT_AUTH_METHOD)),
      OrElseOption(patch.logoutUri, p.logoutUri),
      OrElseOption(patch.sessionRequired, p.sessionRequired))
  }

  /** A new payload for `create` (no secret given) and `createWithSecret`; `random` is the generated secret. */
  function Created(input: ClientInput, provided: Option<string>, random: string): Payload {
    Built(input, if Confidential(input.authMethod) then Some(OrElse(provided, random)) else None)
  }

  function Updated(id: string, p: Payload, patch: Patch, random: string): Payload {
    var merged := Merged(id, p, patch);
    Built(merged, if Confidential(merged.authMethod) then Some(OrElse(p.secret, random)) else None)
  }

  predicate Regenerable(p: Payload) {
    Confidential(OrElse(p.authMethod, DEFAULT_AUTH_METHOD))
  }

  // ---- The service ---------------------------------------------------------------------

  datatype AdminClient = AdminClient(clientId: string, confidential: bool, grants: seq<string>, redirectUris: seq<string>,
    postLogoutRedirectUris: seq<string>, authMethod: string, logoutUri: Option<string>, sessionRequired: Option<bool>)

  /** `#present`. */
  function Presented(id: string, p: Payload): AdminClient {
    AdminClient(id, Truthy(p.secret), OrElse(p.grantTypes, DEFAULT_GRANTS), OrElse(p.redirectUris, []),
      OrElse(p.postLogoutRedirectUris, []), OrElse(p.authMethod, DEFAULT_AUTH_METHOD),
      if Truthy(p.logoutUri) then p.logoutUri else None,
      if Truthy(p.logoutUri) then Some(OrElse(p.sessionRequired, false)) else None)
  }

  /** `given.trim() || random`. */
  function IdFor(trim: string -> string, given: Option<string>, random: string): string {
    var id := trim(OrElse(given, ""));
    if id != "" then id else random
  }

  class AdminClientsService {
    var clients: map<string, Payload>
    const trim: string -> string

    constructor (trim: string -> string)
      ensures clients == map[] && this.trim == trim
    {
      clients, this.trim := map[], trim;
    }

    method Find(id: string) returns (r: Option<AdminClient>)
      ensures r == if id in clients then Some(Presented(id, clients[id])) else None
    {
      if id !in clients {
        return None;
      }
      return Some(Presented(id, clients[id]));
    }

    method Create(input: ClientInput, randomId: string, randomSecret: string) returns (id: string, secret: Option<string>)
      modifies this
      ensures id == IdFor(trim, input.clientId, randomId)
      ensures clients == old(clients)[id := Created(input, None, randomSecret)]
      ensures secret == if Confidential(input.authMethod) then Some(randomSecret) else None
    {
      id, secret := CreateWithSecret(input, None, randomId, randomSecret);
    }

    /** Keeps a secret given from outside; for a public client it is ignored. */
    method CreateWithSecret(input: ClientInput, provided: Option<string>, randomId: string, randomSecret: string)
      returns (id: string, secret: Option<string>)
      modifies this
      ensures id == IdFor(trim, input.clientId, randomId)
      ensures id == (if input.clientId.Some? && trim(input.clientId.value) != "" then trim(input.clientId.value)
                     else if input.clientId.None? && trim("") != "" then trim("") else randomId)
      ensures clients == old(clients)[id := Created(input, provided, randomSecret)]
      ensures secret == if Confidential(input.authMethod) then Some(OrElse(provided, randomSecret)) else None
    {
      id := trim(OrElse(input.clientId, ""));
      if id == "" {
        id := randomId;
      }
      secret := None;
      if Confidential(input.authMethod) {
        secret := Some(OrElse(provided, randomSecret));
      }
      clients := clients[id := Built(input, secret)];
    }

    /** `ok` is false where the original throws: an unknown client. */
    method Update(id: string, patch: Patch, randomSecret: string) returns (ok: bool)
      modifies this
      ensures ok <==> id in old(clients)
      ensures clients == if ok then old(clients)[id := Updated(id, old(clients)[id], patch, randomSecret)] else old(clients)
    {
      if id !in clients {
        return false;
      }
      var existing := clients[id];
      var merged := Merged(id, existing, patch);
      var secret: Option<string> := None;
      if Confidential(merged.authMethod) {
        secret := Some(OrElse(existing.secret, randomSecret));
      }
      clients := clients[id := Built(merged, secret)];
      return true;
    }

    method RegenerateSecret(id: string, randomSecret: string) returns (secret: Option<string>)
      modifies this
      ensures secret == if id in old(clients) && Regenerable(old(clients)[id]) then Some(randomSecret) else None
      ensures clients == if secret.Some? then old(clients)[id := old(clients)[id].(secret := secret)] else old(clients)
    {
      if id !in clients || !Confidential(OrElse(clients[id].authMethod, DEFAULT_AUTH_METHOD)) {
        return None;
      }
      secret := Some(randomSecret);
      clients := clients[id := clients[id].(secret := secret)];
    }

    method Delete(id: string)
      modifies this
      ensures clients == old(clients) - {id}
    {
      clients := clients - {id};
    }
  }

  // ---- What every stored client satisfies ------------------------------------------------

  /** The shape of a client that the provider can load. */
  ghost predicate Coherent(p: Payload) {
    && p.redirectUris.Some? && p.postLogoutRedirectUris.Some?
    && p.authMethod.Some? && (p.secret.Some? <==> Confidential(p.authMethod.value)) && p.secret != Some("")
    && p.grantTypes.Some? && p.grantTypes.value != []
    && p.responseTypes == (if "authorization_code" in p.grantTypes.value then ["code"] else [])
    && p.logoutUri != Some("") && (p.sessionRequired.Some? ==> p.logoutUri.Some?)
  }

  /** A created client is coherent exactly when a confidential one is not given the empty secret. */
  lemma CreatedIsCoherentIff(input: ClientInput, provided: Option<string>, random: string)
    requires random != ""
    ensures Coherent(Created(input, provided, random)) <==> !(Confidential(input.authMethod) && provided == Some(""))
  {
  }

  datatype Op =
    | Create(id: string, input: ClientInput, provided: Option<string>)
    | Update(id: string, patch: Patch)
    | Regenerate(id: string)
    | Delete(id: string)

  /** The n-th operation draws the secret `random(n)`. */
  function Step(clients: map<string, Payload>, op: Op, random: string): map<string, Payload> {
    match op
    case Create(id, input, provided) => clients[id := Created(input, provided, random)]
    case Update(id, patch) => if id in clients then clients[id := Updated(id, clients[id], patch, random)] else clients
    case Regenerate(id) =>
      if id in clients && Regenerable(clients[id]) then clients[id := clients[id].(secret := Some(random))] else clients
    case Delete(id) => clients - {id}
  }

  function Run(ops: seq<Op>, random: nat -> string): map<string, Payload> {
    if ops == [] then map[] else Step(Run(ops[..|ops| - 1], random), ops[|ops| - 1], random(|ops| - 1))
  }

  /** Over every run of the service, all stored clients are coherent. */
  lemma {:induction false} ClientsStayCoherent(ops: seq<Op>, random: nat -> string)
    requires forall n :: random(n) != ""
    requires forall i :: 0 <= i < |ops| && ops[i].Create? ==> !(Confidential(ops[i].input.authMethod) && ops[i].provided == Some(""))
    ensures forall id :: id in Run(ops, random) ==> Coherent(Run(ops, random)[id])
  {
    if ops != [] {
      var n := |ops| - 1;
      ClientsStayCoherent(ops[..n], random);
      var before, op := Run(ops[..n], random), ops[n];
      forall id | id in Run(ops, random) ensures Coherent(Run(ops, random)[id]) {
        if op.Create? && op.id == id {
          CreatedIsCoherentIff(op.input, op.provided, random(n));
        } else {
          assert Coherent(before[id]);
        }
      }
    }
  }

  /**
   * Updating twice with the same patch is updating once, whatever secrets are drawn, exactly unless a
   * client that is or becomes confidential was stored with the empty secret: the first update then
   * drops it, and the second one draws a new one.
   */
  lemma UpdateIsIdempotentIff(id: string, p: Payload, patch: Patch, r1: string, r2: string)
    requires r1 != "" && r2 != ""
    ensures Updated(id, Updated(id, p, patch, r1), patch, r2) == Updated(id, p, patch, r1)
       <==> !(p.secret == Some("") && Confidential(Merged(id, p, patch).authMethod))
  {
  }

  /**
   * What was sent is stored, what was not sent stays, and the secret stays as long as the client stays
   * confidential. An empty grant list stands for the default one, an empty logout uri for none, and
   * without a logout uri there is no session flag.
   */
  lemma PatchTouchesOnlyWhatIsSent(id: string, p: Payload, patch: Patch, random: string)
    requires Coherent(p)
    ensures var q := Updated(id, p, patch, random);
      && q.redirectUris == OrElseOption(patch.redirectUris, p.redirectUris)
      && q.postLogoutRedirectUris == OrElseOption(patch.postLogoutRedirectUris, p.postLogoutRedirectUris)
      && q.authMethod == OrElseOption(patch.authMethod, p.authMethod)
      && q.grantTypes == (if patch.grantTypes == Some([]) then Some(DEFAULT_GRANTS) else OrElseOption(patch.grantTypes, p.grantTypes))
      && q.logoutUri == (if patch.logoutUri == Some("") then None else OrElseOption(patch.logoutUri, p.logoutUri))
      && q.sessionRequired == (if q.logoutUri.Some? then OrElseOption(patch.sessionRequired, p.sessionRequired) else None)
      && (Confidential(p.authMethod.value) && Confidential(q.authMethod.value) ==> q.secret == p.secret)
      && (!Confidential(q.authMethod.value) ==> q.secret == None)
  {
  }

  /** What a created client stores, field by field: the empty grant list and an absent secret are filled in. */
  lemma CreatedStores(input: ClientInput, provided: Option<string>, random: string)
    requires random != ""
    ensures var p := Created(input, provided, random);
      && p.redirectUris == Some(input.redirectUris)
      && p.postLogoutRedirectUris == Some(input.postLogoutRedirectUris)
      && p.grantTypes == Some(if input.grantTypes == [] then ["authorization_code", "refresh_token"] else input.grantTypes)
      && p.authMethod == Some(input.authMethod)
      && (input.authMethod == "none" || provided == Some("") ==> p.secret == None)
      && (input.authMethod != "none" && provided == None ==> p.secret == Some(random))
      && (input.authMethod != "none" && provided !in {None, Some("")} ==> p.secret == provided)
      && p.logoutUri == (if input.logoutUri == Some("") then None else input.logoutUri)
      && p.sessionRequired == (if p.logoutUri.Some? then input.sessionRequired else None)
      && p.other == map[]
  {
  }

  /** A regeneration is refused exactly for an unknown client and for one whose auth method is stored as `none`. */
  lemma RegenerationRefusedIff(clients: map<string, Payload>, id: string, random: string)
    requires id in clients ==> clients[id].secret != Some(random)
    ensures Step(clients, Regenerate(id), random) == clients <==> id !in clients || clients[id].authMethod == Some("none")
    ensures id in clients && clients[id].authMethod != Some("none") ==>
      Step(clients, Regenerate(id), random) == clients[id := clients[id].(secret := Some(random))]
  {
    if id in clients {
      assert clients[id := clients[id]] == clients;
    }
  }

  /** The console shows each list under its own name, with the defaults of the provider for what is not stored. */
  lemma PresentedShowsWhatIsStored(id: string, p: Payload)
    ensures var c := Presented(id, p);
      && c.clientId == id
      && (c.confidential <==> p.secret.Some? && p.secret.value != "")
      && (p.grantTypes.Some? ==> Some(c.grants) == p.grantTypes)
      && (p.grantTypes.None? ==> c.grants == ["authorization_code", "refresh_token"])
      && (p.redirectUris.Some? ==> Some(c.redirectUris) == p.redirectUris)
      && (p.redirectUris.None? ==> c.redirectUris == [])
      && (p.postLogoutRedirectUris.Some? ==> Some(c.postLogoutRedirectUris) == p.postLogoutRedirectUris)
      && (p.postLogoutRedirectUris.None? ==> c.postLogoutRedirectUris == [])
      && (p.authMethod.Some? ==> Some(c.authMethod) == p.authMethod)
      && (p.authMethod.None? ==> c.authMethod == "client_secret_basic")
      && (p.logoutUri.None? || p.logoutUri.value == "" ==> c.logoutUri == None && c.sessionRequired == None)
      && (p.logoutUri.Some? && p.logoutUri.value != "" ==>
            c.logoutUri == p.logoutUri && c.sessionRequired == Some(p.sessionRequired.Some? && p.sessionRequired.value))
  {
  }

  /** The empty patch is the identity exactly on clients without metadata of other writers. */
  lemma EmptyPatchIsIdentityIff(id: string, p: Payload, random: string)
    requires Coherent(p)
    ensures Updated(id, p, NO_PATCH, random) == p <==> p.other == map[]
  {
  }

  /** The console calls a coherent client confidential exactly when its auth method is. */
  lemma PresentedConfidentiality(id: string, p: Payload)
    requires Coherent(p)
    ensures Presented(id, p).confidential <==> Confidential(Presented(id, p).authMethod)
    ensures Presented(id, p).sessionRequired.Some? <==> p.logoutUri.Some?
  {
  }
}
