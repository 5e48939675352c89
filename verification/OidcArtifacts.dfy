/** What both OIDC artefact stores keep: payloads named by (model, id), under a clock in whole seconds. */
module OidcArtifacts {
  import opened Wrappers

  /** The OidcPayload fields that the adapters read; `body` stands for everything else. */
  datatype Payload = Payload(
    grantId: Option<string>,
    userCode: Option<string>,
    uid: Option<string>,
    consumed: Option<int>,
    body: string)

  datatype Ident = Ident(model: string, id: string)

  /** A stored value with an optional absolute deadline. */
  datatype Timed<V> = Timed(value: V, deadline: Option<int>)

  const GRANTABLE: set<string> :=
    {"AccessToken", "AuthorizationCode", "RefreshToken", "DeviceCode", "BackchannelAuthenticationRequest"}

  predicate Live(deadline: Option<int>, now: int) {
    deadline.None? || now < deadline.value
  }

  /** The deadline that a lifetime asks for; 0 means "no deadline". */
  function DeadlineFor(now: int, expiresIn: int): Option<int> {
    if expiresIn == 0 then None else Some(now + expiresIn)
  }

  /** The entry a reader sees under `k`: expired entries are absent. */
  function Lookup<K, V>(m: map<K, Timed<V>>, k: K, now: int): Option<Timed<V>> {
    if k in m && Live(m[k].deadline, now) then Some(m[k]) else None
  }

  function PayloadOf(entry: Option<Timed<Payload>>): Option<Payload> {
    if entry.Some? then Some(entry.value.value) else None
  }

  // ---- Key names -----------------------------------------------------------

  /** The four families of Redis keys. */
  datatype Key = ArtifactKey(ident: Ident) | GrantKey(grantId: string) | UserCodeKey(userCode: string) | UidKey(uid: string)

  function Tag(k: Key): string {
    match k
    case ArtifactKey(ident) => ident.model
    case GrantKey(_) => "grant"
    case UserCodeKey(_) => "userCode"
    case UidKey(_) => "uid"
  }

  function Name(k: Key): string {
    match k
    case ArtifactKey(ident) => ident.id
    case GrantKey(g) => g
    case UserCodeKey(c) => c
    case UidKey(u) => u
  }

  function Render(prefix: string, k: Key): string {
    prefix + ":" + Tag(k) + ":" + Name(k)
  }

  /** Model names of the provider: no colon, and none of the index tags. */
  predicate ProperModel(model: string) {
    ':' !in model && model !in {"grant", "userCode", "uid"}
  }

  predicate ProperKey(k: Key) {
    k.ArtifactKey? ==> ProperModel(k.ident.model)
  }

  /** A colon-free head is determined by the whole string. */
  lemma ColonSplitsOnce(a: string, x: string, b: string, y: string)
    requires ':' !in a && ':' !in b
    requires a + ":" + x == b + ":" + y
    ensures a == b && x == y
  {
    var s := a + ":" + x;
    assert s == b + ":" + y;
    assert s[|a|] == ':' && s[|b|] == ':';
    assert forall i :: 0 <= i < |a| ==> s[i] == a[i];
    assert forall i :: 0 <= i < |b| ==> s[i] == b[i];
    assert |a| == |b|;
    assert a == s[..|a|] == s[..|b|] == b;
    assert x == s[|a| + 1..] == y;
  }

  /** No two keys of the four families share a name, so the families are separate maps. */
  lemma RenderInjective(prefix: string, k: Key, l: Key)
    requires ProperKey(k) && ProperKey(l)
    requires Render(prefix, k) == Render(prefix, l)
    ensures k == l
  {
    var p := prefix + ":";
    assert Render(prefix, k) == p + (Tag(k) + ":" + Name(k));
    assert Render(prefix, l) == p + (Tag(l) + ":" + Name(l));
    assert Tag(k) + ":" + Name(k) == Render(prefix, k)[|p|..];
    assert Tag(l) + ":" + Name(l) == Render(prefix, l)[|p|..];
    ColonSplitsOnce(Tag(k), Name(k), Tag(l), Name(l));
  }

  function ModelPrefix(prefix: string, model: string): string {
    prefix + ":" + model + ":"
  }

  /** The SCAN pattern `<prefix>:<model>:*` matches exactly the artefacts of that model, and slicing gives the id back. */
  lemma ScanMatchesOneModel(prefix: string, model: string, k: Key)
    requires ProperModel(model) && ProperKey(k)
    ensures ModelPrefix(prefix, model) <= Render(prefix, k) <==> k.ArtifactKey? && k.ident.model == model
    ensures k.ArtifactKey? && k.ident.model == model ==> Render(prefix, k)[|ModelPrefix(prefix, model)|..] == k.ident.id
  {
    var p := ModelPrefix(prefix, model);
    if p <= Render(prefix, k) {
      var rest := Render(prefix, k)[|p|..];
      assert Render(prefix, k) == p + rest;
      var other := ArtifactKey(Ident(model, rest));
      assert Render(prefix, other) == p + rest;
      RenderInjective(prefix, k, other);
    }
    if k.ArtifactKey? && k.ident.model == model {
      assert Render(prefix, k) == p + k.ident.id;
    }
  }
}
