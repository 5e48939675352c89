/**
 * The account deletion cascade: ordered operations over many stores, each of which may fail part
 * way, with the account row going last.
 */
module AccountDeletion {
  import opened Wrappers

  datatype Account = Account(email: string, avatarUrl: Option<string>)

  datatype Token = Token(model: string, id: string)

  datatype Invitation = Invitation(email: string, accepted: bool)

  datatype AuditRow = AuditRow(
    kind: string,
    accountId: Option<string>,
    email: Option<string>,
    actorId: Option<string>,
    ip: Option<string>,
    metadata: string)

  datatype Actor = Actor(actorId: Option<string>, ip: Option<string>, source: string)

  /** The provider's artefacts: id to owner, and for a token its grant. */
  datatype Oidc = Oidc(
    sessions: map<string, string>,
    grants: map<string, string>,
    tokens: map<Token, string>,
    revokedSubs: set<string>)

  datatype Credentials = Credentials(
    pats: map<string, string>,
    passkeys: map<string, string>,
    mfa: set<string>,
    identities: map<string, string>)

  datatype Orgs = Orgs(memberships: map<string, string>, invitations: map<string, Invitation>)

  /** `files` are the stored avatars: key to the account that uploaded the file. */
  datatype Stores = Stores(
    accounts: map<string, Account>,
    oidc: Oidc,
    credentials: Credentials,
    orgs: Orgs,
    files: map<string, string>,
    audit: seq<AuditRow>)

  /**
   * What the configured stores can do; every operation probes its own capability. `bestEffort` is an
   * audit sink that swallows its own errors, as the default one does; `byOwner` is the upload backend
   * that removes an account's avatar by its owner, where the drive goes by the stored URL.
   */
  datatype Capabilities = Capabilities(
    deletes: bool, enumerates: bool, pats: bool, passkeys: bool, mfa: bool, identities: bool, orgs: bool,
    uploads: bool, byOwner: bool, audit: bool, bestEffort: bool, anonymizes: bool)

  /** `pseudonym` is the one-way alias of an account id; `keyOf` reads the drive's key out of a stored URL. */
  datatype Config = Config(caps: Capabilities, pseudonym: string -> string, keyOf: string -> Option<string>)

  predicate Sane(cfg: Config, a: string) {
    a != "" && cfg.pseudonym(a) != a
  }

  // ---- What a complete deletion leaves ---------------------------------------------------

  function Without<K>(m: map<K, string>, a: string): map<K, string> {
    map k | k in m && m[k] != a :: m[k]
  }

  function Owned<K>(m: map<K, string>, a: string): set<K> {
    set k | k in m && m[k] == a
  }

  /** The token hangs on a grant of the account. */
  predicate OnGrantOf(grants: map<string, string>, grant: string, a: string) {
    grant in grants && grants[grant] == a
  }

  function TokensWithout(tokens: map<Token, string>, grants: map<string, string>, a: string): map<Token, string> {
    map t | t in tokens && !OnGrantOf(grants, tokens[t], a) :: tokens[t]
  }

  function InvitationsWithout(invitations: map<string, Invitation>, email: string): map<string, Invitation> {
    map i | i in invitations && (invitations[i].email != email || invitations[i].accepted) :: invitations[i]
  }

  function PendingFor(invitations: map<string, Invitation>, email: string): set<string> {
    set i | i in invitations && invitations[i].email == email && !invitations[i].accepted
  }

  /** The subject half of `anonymizeAccount`: the row's subject becomes the alias, email and ip go. */
  function SubjectScrubbed(cfg: Config, a: string, row: AuditRow): AuditRow {
    if row.accountId == Some(a) then row.(accountId := Some(cfg.pseudonym(a)), email := None, ip := None) else row
  }

  /** The actor half: only the actor id becomes the alias. */
  function ActorScrubbed(cfg: Config, a: string, row: AuditRow): AuditRow {
    if row.actorId == Some(a) then row.(actorId := Some(cfg.pseudonym(a))) else row
  }

  function Scrubbed(cfg: Config, a: string, row: AuditRow): AuditRow {
    if cfg.caps.anonymizes then ActorScrubbed(cfg, a, SubjectScrubbed(cfg, a, row)) else row
  }

  function ForEachRow(rows: seq<AuditRow>, f: AuditRow -> AuditRow): (r: seq<AuditRow>)
    ensures |r| == |rows| && forall i :: 0 <= i < |rows| ==> r[i] == f(rows[i])
  {
    seq(|rows|, i requires 0 <= i < |rows| => f(rows[i]))
  }

  function DeletedRow(a: string, email: string, actor: Actor): AuditRow {
    AuditRow("account.deleted", Some(a), Some(email), actor.actorId, actor.ip, actor.source)
  }

  function ScrubbedAudit(cfg: Config, a: string, rows: seq<AuditRow>): seq<AuditRow> {
    ForEachRow(rows, row => Scrubbed(cfg, a, row))
  }

  /** The audit rows one attempt adds. */
  function Announcement(cfg: Config, s: Stores, a: string, actor: Actor): seq<AuditRow>
    requires a in s.accounts
  {
    if cfg.caps.audit then [DeletedRow(a, s.accounts[a].email, actor)] else []
  }

  function OidcErased(cfg: Config, o: Oidc, a: string): Oidc {
    if cfg.caps.enumerates
    then Oidc(Without(o.sessions, a), Without(o.grants, a), TokensWithout(o.tokens, o.grants, a), o.revokedSubs + {a})
    else o.(revokedSubs := o.revokedSubs + {a})
  }

  function CredentialsErased(cfg: Config, c: Credentials, a: string): Credentials {
    Credentials(
      if cfg.caps.pats then Without(c.pats, a) else c.pats,
      if cfg.caps.passkeys then Without(c.passkeys, a) else c.passkeys,
      if cfg.caps.mfa then c.mfa - {a} else c.mfa,
      if cfg.caps.identities then Without(c.identities, a) else c.identities)
  }

  function OrgsErased(cfg: Config, o: Orgs, a: string, email: string): Orgs {
    if cfg.caps.orgs then Orgs(Without(o.memberships, a), InvitationsWithout(o.invitations, email)) else o
  }

  /** The key that the drive deletes: whatever the URL of the account names. */
  function NamedKey(cfg: Config, account: Account): Option<string> {
    if account.avatarUrl.Some? then cfg.keyOf(account.avatarUrl.value) else None
  }

  function FilesErased(cfg: Config, files: map<string, string>, a: string, account: Account): map<string, string> {
    if !cfg.caps.uploads then files
    else if cfg.caps.byOwner then Without(files, a)
    else if NamedKey(cfg, account).Some? then files - {NamedKey(cfg, account).value}
    else files
  }

  /** Operations 2 to 8 without a failure. */
  function Cascaded(cfg: Config, s: Stores, a: string): Stores
    requires a in s.accounts
  {
    Stores(
      s.accounts,
      OidcErased(cfg, s.oidc, a),
      CredentialsErased(cfg, s.credentials, a),
      OrgsErased(cfg, s.orgs, a, s.accounts[a].email),
      FilesErased(cfg, s.files, a, s.accounts[a]),
      ScrubbedAudit(cfg, a, s.audit))
  }

  /** One undisturbed `delete`: announce, cascade, drop the row. */
  function Erased(cfg: Config, s: Stores, a: string, actor: Actor): Stores {
    if !cfg.caps.deletes || a !in s.accounts then s
    else Cascaded(cfg, s.(audit := s.audit + Announcement(cfg, s, a, actor)), a).(accounts := s.accounts - {a})
  }

  // ---- What an attempt that fails anywhere may leave ---------------------------------------

  /** Only entries of the account are missing. */
  ghost predicate Thinned<K(!new)>(before: map<K, string>, after: map<K, string>, a: string) {
    && (forall k :: k in after ==> k in before && after[k] == before[k])
    && (forall k :: k in before && k !in after ==> before[k] == a)
  }

  /** Tokens go before their grant does. */
  ghost predicate TokensThinned(before: Oidc, after: Oidc, a: string) {
    && (forall t :: t in after.tokens ==> t in before.tokens && after.tokens[t] == before.tokens[t])
    && (forall t :: t in before.tokens && t !in after.tokens ==> OnGrantOf(before.grants, before.tokens[t], a))
    && (forall t :: t in after.tokens && after.tokens[t] in before.grants ==> after.tokens[t] in after.grants)
  }

  ghost predicate OidcThinned(cfg: Config, before: Oidc, after: Oidc, a: string) {
    && Thinned(before.sessions, after.sessions, a)
    && Thinned(before.grants, after.grants, a)
    && TokensThinned(before, after, a)
    && before.revokedSubs <= after.revokedSubs <= before.revokedSubs + {a}
    && (!cfg.caps.enumerates ==> after.(revokedSubs := before.revokedSubs) == before)
  }

  ghost predicate CredentialsThinned(cfg: Config, before: Credentials, after: Credentials, a: string) {
    && Thinned(before.pats, after.pats, a)
    && Thinned(before.passkeys, after.passkeys, a)
    && before.mfa - {a} <= after.mfa <= before.mfa
    && Thinned(before.identities, after.identities, a)
    && (!cfg.caps.pats ==> after.pats == before.pats)
    && (!cfg.caps.passkeys ==> after.passkeys == before.passkeys)
    && (!cfg.caps.mfa ==> after.mfa == before.mfa)
    && (!cfg.caps.identities ==> after.identities == before.identities)
  }

  ghost predicate InvitationsThinned(before: map<string, Invitation>, after: map<string, Invitation>, email: string) {
    && (forall i :: i in after ==> i in before && after[i] == before[i])
    && (forall i :: i in before && i !in after ==> before[i].email == email && !before[i].accepted)
  }

  ghost predicate OrgsThinned(cfg: Config, before: Orgs, after: Orgs, a: string, email: string) {
    && Thinned(before.memberships, after.memberships, a)
    && InvitationsThinned(before.invitations, after.invitations, email)
    && (!cfg.caps.orgs ==> after == before)
  }

  /** One own `account.deleted` row may be added, and the log may be scrubbed not at all, half, or fully. */
  ghost predicate AuditStage(cfg: Config, before: Stores, log: seq<AuditRow>, a: string, actor: Actor)
    requires a in before.accounts
  {
    exists rows :: rows in [before.audit, before.audit + Announcement(cfg, before, a, actor)] && ScrubStage(cfg, a, rows, log)
  }

  ghost predicate ScrubStage(cfg: Config, a: string, rows: seq<AuditRow>, log: seq<AuditRow>) {
    || log == rows
    || (cfg.caps.anonymizes && log == ForEachRow(rows, row => SubjectScrubbed(cfg, a, row)))
    || log == ScrubbedAudit(cfg, a, rows)
  }

  /** `after` is what an attempt on `before` may leave when it stops before the account row goes. */
  ghost predicate Interrupted(cfg: Config, before: Stores, after: Stores, a: string, actor: Actor) {
    && a in before.accounts
    && after.accounts == before.accounts
    && OidcThinned(cfg, before.oidc, after.oidc, a)
    && CredentialsThinned(cfg, before.credentials, after.credentials, a)
    && OrgsThinned(cfg, before.orgs, after.orgs, a, before.accounts[a].email)
    && after.files in [before.files, FilesErased(cfg, before.files, a, before.accounts[a])]
    && AuditStage(cfg, before, after.audit, a, actor)
  }

  /** What operations 2 to 8 may leave, each of them complete or not. */
  ghost predicate ThinnedCascade(cfg: Config, s: Stores, a: string, left: Stores)
    requires a in s.accounts
  {
    && left.accounts == s.accounts
    && OidcThinned(cfg, s.oidc, left.oidc, a)
    && CredentialsThinned(cfg, s.credentials, left.credentials, a)
    && OrgsThinned(cfg, s.orgs, left.orgs, a, s.accounts[a].email)
    && left.files in [s.files, FilesErased(cfg, s.files, a, s.accounts[a])]
    && ScrubStage(cfg, a, s.audit, left.audit)
  }

  // ---- The operations, with failures -----------------------------------------------------

  class Deployment {
    var s: Stores

    constructor (s: Stores)
      ensures this.s == s
    {
      this.s := s;
    }
  }

  datatype DeletionResult = DeletionResult(
    ok: bool, sessions: nat, grants: nat, accessTokens: nat, refreshTokens: nat, pats: nat, passkeys: nat,
    identities: nat, auditAnonymized: nat, avatarDeleted: bool, memberships: nat, invitations: nat)

  const NOTHING_DELETED := DeletionResult(false, 0, 0, 0, 0, 0, 0, 0, 0, false, 0, 0)

  function AsSubject(rows: seq<AuditRow>, a: string): nat {
    if rows == [] then 0 else AsSubject(rows[..|rows| - 1], a) + (if rows[|rows| - 1].accountId == Some(a) then 1 else 0)
  }

  function AsActor(rows: seq<AuditRow>, a: string): nat {
    if rows == [] then 0 else AsActor(rows[..|rows| - 1], a) + (if rows[|rows| - 1].actorId == Some(a) then 1 else 0)
  }

  lemma RowsGrow(rows: seq<AuditRow>, n: nat, a: string)
    requires |rows| == n + 1
    ensures n !in SubjectRows(rows[..n], a) && n !in ActorRows(rows[..n], a)
    ensures SubjectRows(rows, a) == SubjectRows(rows[..n], a) + (if rows[n].accountId == Some(a) then {n} else {})
    ensures ActorRows(rows, a) == ActorRows(rows[..n], a) + (if rows[n].actorId == Some(a) then {n} else {})
  {
    assert forall i :: 0 <= i < n ==> rows[..n][i] == rows[i];
  }

  /** The two counts are numbers of rows. */
  lemma {:induction false} CountsAreCardinalities(rows: seq<AuditRow>, a: string)
    ensures AsSubject(rows, a) == |SubjectRows(rows, a)|
    ensures AsActor(rows, a) == |ActorRows(rows, a)|
  {
    if rows == [] {
      assert SubjectRows(rows, a) == {} && ActorRows(rows, a) == {};
    } else {
      CountsAreCardinalities(rows[..|rows| - 1], a);
      RowsGrow(rows, |rows| - 1, a);
    }
  }

  function SubjectRows(rows: seq<AuditRow>, a: string): set<nat> {
    set i: nat | i < |rows| && rows[i].accountId == Some(a)
  }

  function ActorRows(rows: seq<AuditRow>, a: string): set<nat> {
    set i: nat | i < |rows| && rows[i].actorId == Some(a)
  }

  /** The first update does not hide rows from the second. */
  lemma {:induction false} ActorsStayCounted(cfg: Config, rows: seq<AuditRow>, a: string)
    ensures AsActor(ForEachRow(rows, row => SubjectScrubbed(cfg, a, row)), a) == AsActor(rows, a)
  {
    if rows != [] {
      var before := rows[..|rows| - 1];
      ActorsStayCounted(cfg, before, a);
      assert ForEachRow(rows, row => SubjectScrubbed(cfg, a, row))[..|rows| - 1]
          == ForEachRow(before, row => SubjectScrubbed(cfg, a, row));
    }
  }

  /** `revokeByGrantId`: everything that names the grant goes. */
  function WithoutGrant(tokens: map<Token, string>, g: string): map<Token, string> {
    map t | t in tokens && tokens[t] != g :: tokens[t]
  }

  /** The tokens of one model that hang on the account's grants. */
  function Attached(o: Oidc, model: string, a: string): set<Token> {
    set t | t in o.tokens && t.model == model && OnGrantOf(o.grants, o.tokens[t], a)
  }

  // ---- When one operation is complete ----------------------------------------------------

  predicate OidcDone(cfg: Config, o: Oidc, a: string, left: Oidc, sessions: nat, grants: nat, accessTokens: nat, refreshTokens: nat) {
    && left == OidcErased(cfg, o, a)
    && sessions == (if cfg.caps.enumerates then |Owned(o.sessions, a)| else 0)
    && grants == (if cfg.caps.enumerates then |Owned(o.grants, a)| else 0)
    && accessTokens == (if cfg.caps.enumerates then |Attached(o, "AccessToken", a)| else 0)
    && refreshTokens == (if cfg.caps.enumerates then |Attached(o, "RefreshToken", a)| else 0)
  }

  predicate EntriesDone(capable: bool, m: map<string, string>, a: string, left: map<string, string>, removed: nat) {
    left == (if capable then Without(m, a) else m) && removed == (if capable then |Owned(m, a)| else 0)
  }

  predicate MfaDone(cfg: Config, mfa: set<string>, a: string, left: set<string>) {
    left == if cfg.caps.mfa then mfa - {a} else mfa
  }

  predicate OrgsDone(cfg: Config, o: Orgs, a: string, email: string, left: Orgs, memberships: nat, invitations: nat) {
    && left == OrgsErased(cfg, o, a, email)
    && memberships == (if cfg.caps.orgs then |Owned(o.memberships, a)| else 0)
    && invitations == (if cfg.caps.orgs then |PendingFor(o.invitations, email)| else 0)
  }

  predicate FilesDone(cfg: Config, files: map<string, string>, a: string, account: Account, left: map<string, string>, deleted: bool) {
    left == FilesErased(cfg, files, a, account) && deleted == AvatarGoes(cfg, account)
  }

  predicate AuditDone(cfg: Config, log: seq<AuditRow>, a: string, left: seq<AuditRow>, count: nat) {
    left == ScrubbedAudit(cfg, a, log) && count == (if cfg.caps.anonymizes then AsSubject(log, a) + AsActor(log, a) else 0)
  }

  /** Where in the numbering of the mutations each of operations 2 to 8 begins, and the last one ends. */
  datatype Marks = Marks(
    oidc: nat, pats: nat, passkeys: nat, mfa: nat, identities: nat, orgs: nat, files: nat, audit: nat, end: nat)
  {
    predicate Ordered() {
      oidc <= pats <= passkeys <= mfa <= identities <= orgs <= files <= audit <= end
    }
  }

  const NO_MARKS := Marks(0, 0, 0, 0, 0, 0, 0, 0, 0)

  class AccountDeletionService {
    const cfg: Config
    const site: Deployment
    /** Whether the n-th store mutation throws; a process that dies at n is one where all from n on do. */
    const fails: nat -> bool
    var step: nat

    constructor (cfg: Config, site: Deployment, fails: nat -> bool)
      ensures this.cfg == cfg && this.site == site && this.fails == fails && step == 0
    {
      this.cfg, this.site, this.fails, step := cfg, site, fails, 0;
    }

    /** None of the mutations numbered from `from` to before `to` throws. */
    ghost predicate Quiet(from: nat, to: nat) {
      forall n :: from <= n < to ==> !fails(n)
    }

    method NextThrows() returns (throws: bool)
      modifies this`step
      ensures throws == fails(old(step)) && step == old(step) + 1
    {
      throws := fails(step);
      step := step + 1;
    }

    /** A listing of the account's entries, then one removal after the other. */
    method DropEach<K(!new, ==)>(m: map<K, string>, a: string) returns (left: map<K, string>, removed: nat, threw: bool)
      modifies this`step
      ensures Thinned(m, left, a)
      ensures !threw ==> left == Without(m, a) && removed == |Owned(m, a)|
      ensures old(step) <= step && (threw <==> !Quiet(old(step), step))
    {
      left, removed, threw := m, 0, false;
      var todo := Owned(m, a);
      while todo != {}
        invariant old(step) <= step && Quiet(old(step), step)
        invariant Thinned(m, left, a)
        invariant todo == Owned(left, a)
        invariant removed + |todo| == |Owned(m, a)|
        decreases |todo|
      {
        var k :| k in todo;
        threw := NextThrows();
        if threw {
          return;
        }
        left, todo, removed := left - {k}, todo - {k}, removed + 1;
      }
      NoneOwned(m, left, a);
    }

    /** The same, when the store has the capability at all; a failure reports no removal. */
    method DropIf(capable: bool, m: map<string, string>, a: string) returns (left: map<string, string>, removed: nat)
      modifies this`step
      ensures Thinned(m, left, a)
      ensures !capable ==> left == m && removed == 0
      ensures old(step) <= step
      ensures Quiet(old(step), step) ==> EntriesDone(capable, m, a, left, removed)
    {
      left, removed := m, 0;
      if capable {
        var threw;
        left, removed, threw := DropEach(m, a);
        removed := if threw then 0 else removed;
      }
    }

    /** Removes the tokens of one model that hang on the account's grants. */
    method DestroyTokensOfGrants(model: string, o: Oidc, a: string) returns (left: Oidc, count: nat, threw: bool)
      modifies this`step
      ensures left == o.(tokens := left.tokens) && TokensThinned(o, left, a)
      ensures forall t :: t in o.tokens && t !in left.tokens ==> t.model == model
      ensures !threw ==> count == |Attached(o, model, a)|
      ensures old(step) <= step && (threw <==> !Quiet(old(step), step))
    {
      left, count, threw := o, 0, false;
      var todo := Attached(o, model, a);
      while todo != {}
        invariant old(step) <= step && Quiet(old(step), step)
        invariant left == o.(tokens := left.tokens) && TokensThinned(o, left, a)
        invariant forall t :: t in o.tokens && t !in left.tokens ==> t.model == model
        invariant todo == Attached(left, model, a)
        invariant count + |todo| == |Attached(o, model, a)|
        decreases |todo|
      {
        var t :| t in todo;
        threw := NextThrows();
        if threw {
          return;
        }
        left, todo, count := left.(tokens := left.tokens - {t}), todo - {t}, count + 1;
      }
    }

    /** Per grant: first everything that hangs on it, then the grant itself. */
    method DropGrants(o: Oidc, a: string) returns (left: Oidc, threw: bool)
      modifies this`step
      ensures left == o.(tokens := left.tokens, grants := left.grants)
      ensures Thinned(o.grants, left.grants, a) && TokensThinned(o, left, a)
      ensures !threw ==> left.grants == Without(o.grants, a)
      ensures old(step) <= step && (threw <==> !Quiet(old(step), step))
    {
      left, threw := o, false;
      var todo := Owned(o.grants, a);
      while todo != {}
        invariant old(step) <= step && Quiet(old(step), step)
        invariant left == o.(tokens := left.tokens, grants := left.grants)
        invariant Thinned(o.grants, left.grants, a) && TokensThinned(o, left, a)
        invariant todo == Owned(left.grants, a)
        decreases |todo|
      {
        var g :| g in todo;
        threw := NextThrows();
        if threw {
          return;
        }
        GrantGoes(o, left, g, a);
        left := left.(tokens := WithoutGrant(left.tokens, g));
        threw := NextThrows();
        if threw {
          return;
        }
        left, todo := left.(grants := left.grants - {g}), todo - {g};
      }
      NoneOwned(o.grants, left.grants, a);
    }

    /** Sessions, then the tokens, then the grants; `done` is false when something threw on the way. */
    method RevokeListed(o: Oidc, a: string)
      returns (left: Oidc, sessions: nat, grants: nat, accessTokens: nat, refreshTokens: nat, done: bool)
      modifies this`step
      ensures left.revokedSubs == o.revokedSubs
      ensures Thinned(o.sessions, left.sessions, a) && Thinned(o.grants, left.grants, a) && TokensThinned(o, left, a)
      ensures done ==>
        && left == Oidc(Without(o.sessions, a), Without(o.grants, a), TokensWithout(o.tokens, o.grants, a), o.revokedSubs)
        && sessions == |Owned(o.sessions, a)| && grants == |Owned(o.grants, a)|
        && accessTokens == |Attached(o, "AccessToken", a)| && refreshTokens == |Attached(o, "RefreshToken", a)|
      ensures old(step) <= step && (done <==> Quiet(old(step), step))
    {
      left, sessions, grants, accessTokens, refreshTokens, done := o, 0, 0, 0, 0, false;
      var sessionsLeft, n, threw := DropEach(o.sessions, a);
      left := left.(sessions := sessionsLeft);
      if threw {
        return;
      }
      var o1 := left;
      var o2, at, t2 := DestroyTokensOfGrants("AccessToken", o1, a);
      left := o2;
      if t2 {
        return;
      }
      var o3, rt, t3 := DestroyTokensOfGrants("RefreshToken", o2, a);
      left := o3;
      TokensThinnedTwice(o1, o2, o3, a);
      if t3 {
        return;
      }
      var o4, t4 := DropGrants(o3, a);
      left := o4;
      TokensThinnedTwice(o1, o3, o4, a);
      if t4 {
        return;
      }
      assert Attached(o2, "RefreshToken", a) == Attached(o, "RefreshToken", a);
      assert Attached(o1, "AccessToken", a) == Attached(o, "AccessToken", a);
      TokensGone(o, o4, a);
      sessions, grants, accessTokens, refreshTokens, done := n, |Owned(o.grants, a)|, at, rt, true;
    }

    /** The listed artefacts, then the revocation note, whose failure is only logged. */
    method RevokeSessions(o: Oidc, a: string)
      returns (left: Oidc, sessions: nat, grants: nat, accessTokens: nat, refreshTokens: nat)
      modifies this`step
      ensures OidcThinned(cfg, o, left, a)
      ensures !cfg.caps.enumerates ==> sessions == grants == accessTokens == refreshTokens == 0
      ensures old(step) <= step
      ensures Quiet(old(step), step) ==> OidcDone(cfg, o, a, left, sessions, grants, accessTokens, refreshTokens)
    {
      left, sessions, grants, accessTokens, refreshTokens := o, 0, 0, 0, 0;
      if cfg.caps.enumerates {
        var done;
        left, sessions, grants, accessTokens, refreshTokens, done := RevokeListed(o, a);
        if !done {
          return;
        }
      }
      var throws := NextThrows();
      if !throws {
        left := left.(revokedSubs := left.revokedSubs + {a});
      }
    }

    /**
     * Personal access tokens, passkeys, MFA and provider identities, each on its own: m1 to m3 say
     * where the mutations of the next one begin, and each is complete when its own do not throw.
     */
    method RemoveCredentials(c: Credentials, a: string)
      returns (left: Credentials, pats: nat, passkeys: nat, identities: nat, ghost m1: nat, ghost m2: nat, ghost m3: nat)
      modifies this`step
      ensures CredentialsThinned(cfg, c, left, a)
      ensures old(step) <= m1 <= m2 <= m3 <= step
      ensures Quiet(old(step), m1) ==> EntriesDone(cfg.caps.pats, c.pats, a, left.pats, pats)
      ensures Quiet(m1, m2) ==> EntriesDone(cfg.caps.passkeys, c.passkeys, a, left.passkeys, passkeys)
      ensures Quiet(m2, m3) ==> MfaDone(cfg, c.mfa, a, left.mfa)
      ensures Quiet(m3, step) ==> EntriesDone(cfg.caps.identities, c.identities, a, left.identities, identities)
    {
      var tokens, keys, links;
      tokens, pats := DropIf(cfg.caps.pats, c.pats, a);
      m1 := step;
      keys, passkeys := DropIf(cfg.caps.passkeys, c.passkeys, a);
      m2 := step;
      var mfa := c.mfa;
      if cfg.caps.mfa {
        var throws := NextThrows();
        mfa := if throws then mfa else mfa - {a};
      }
      m3 := step;
      links, identities := DropIf(cfg.caps.identities, c.identities, a);
      left := Credentials(tokens, keys, mfa, links);
    }

    /** The pending invitations to an address, one after the other. */
    method DropInvitations(v: map<string, Invitation>, email: string)
      returns (left: map<string, Invitation>, count: nat, threw: bool)
      modifies this`step
      ensures InvitationsThinned(v, left, email)
      ensures !threw ==> left == InvitationsWithout(v, email) && count == |PendingFor(v, email)|
      ensures old(step) <= step && (threw <==> !Quiet(old(step), step))
    {
      left, count, threw := v, 0, false;
      var todo := PendingFor(v, email);
      while todo != {}
        invariant old(step) <= step && Quiet(old(step), step)
        invariant InvitationsThinned(v, left, email)
        invariant todo == PendingFor(left, email)
        invariant count + |todo| == |PendingFor(v, email)|
        decreases |todo|
      {
        var i :| i in todo;
        threw := NextThrows();
        if threw {
          return;
        }
        left, todo, count := left - {i}, todo - {i}, count + 1;
      }
      NonePending(v, left, email);
    }

    method RemoveFromOrgs(o: Orgs, a: string, email: string) returns (left: Orgs, memberships: nat, invitations: nat)
      modifies this`step
      ensures OrgsThinned(cfg, o, left, a, email)
      ensures old(step) <= step
      ensures Quiet(old(step), step) ==> OrgsDone(cfg, o, a, email, left, memberships, invitations)
    {
      left, memberships, invitations := o, 0, 0;
      if !cfg.caps.orgs {
        return;
      }
      var m, n, threw := DropEach(o.memberships, a);
      left := left.(memberships := m);
      if threw {
        return;
      }
      var v, count, threwToo := DropInvitations(o.invitations, email);
      left := left.(invitations := v);
      if threwToo {
        return;
      }
      memberships, invitations := n, count;
    }

    /** Two updates; an error in either is swallowed and reported as no row. */
    method AnonymizeAudit(log: seq<AuditRow>, a: string) returns (left: seq<AuditRow>, count: nat)
      modifies this`step
      ensures ScrubStage(cfg, a, log, left)
      ensures old(step) <= step
      ensures Quiet(old(step), step) ==> AuditDone(cfg, log, a, left, count)
    {
      left, count := log, 0;
      if !cfg.caps.anonymizes {
        assert log == ScrubbedAudit(cfg, a, log);
        return;
      }
      var throws := NextThrows();
      if throws {
        return;
      }
      var asSubject := AsSubject(left, a);
      var alias := cfg.pseudonym(a);
      left := ForEachRow(left, (row: AuditRow) => if row.accountId == Some(a) then row.(accountId := Some(alias), email := None, ip := None) else row);
      assert left == ForEachRow(log, row => SubjectScrubbed(cfg, a, row));
      throws := NextThrows();
      if throws {
        return;
      }
      var asActor := AsActor(left, a);
      left := ForEachRow(left, (row: AuditRow) => if row.actorId == Some(a) then row.(actorId := Some(alias)) else row);
      assert left == ScrubbedAudit(cfg, a, log);
      ActorsStayCounted(cfg, log, a);
      count := asSubject + asActor;
    }

    /** The avatar: one call to the backend, if it has anything to delete. */
    method DeleteAvatar(files: map<string, string>, a: string, account: Account) returns (left: map<string, string>, deleted: bool)
      modifies this`step
      ensures left in [files, FilesErased(cfg, files, a, account)]
      ensures old(step) <= step
      ensures Quiet(old(step), step) ==> FilesDone(cfg, files, a, account, left, deleted)
    {
      left, deleted := files, false;
      if !cfg.caps.uploads {
        return;
      }
      if cfg.caps.byOwner {
        var throws := NextThrows();
        if !throws {
          left, deleted := Without(files, a), true;
        }
        return;
      }
      var key := NamedKey(cfg, account);
      if key.None? {
        return;
      }
      var throws := NextThrows();
      if !throws {
        left, deleted := files - {key.value}, true;
      }
    }

    /** Each of operations 2 to 8 is complete, and rightly counted, when its own mutations do not throw. */
    ghost predicate Isolated(s: Stores, a: string, left: Stores, counts: DeletionResult, m: Marks)
      requires a in s.accounts
    {
      var c, l := s.credentials, left.credentials;
      && (Quiet(m.oidc, m.pats) ==>
            OidcDone(cfg, s.oidc, a, left.oidc, counts.sessions, counts.grants, counts.accessTokens, counts.refreshTokens))
      && (Quiet(m.pats, m.passkeys) ==> EntriesDone(cfg.caps.pats, c.pats, a, l.pats, counts.pats))
      && (Quiet(m.passkeys, m.mfa) ==> EntriesDone(cfg.caps.passkeys, c.passkeys, a, l.passkeys, counts.passkeys))
      && (Quiet(m.mfa, m.identities) ==> MfaDone(cfg, c.mfa, a, l.mfa))
      && (Quiet(m.identities, m.orgs) ==> EntriesDone(cfg.caps.identities, c.identities, a, l.identities, counts.identities))
      && (Quiet(m.orgs, m.files) ==>
            OrgsDone(cfg, s.orgs, a, s.accounts[a].email, left.orgs, counts.memberships, counts.invitations))
      && (Quiet(m.files, m.audit) ==> FilesDone(cfg, s.files, a, s.accounts[a], left.files, counts.avatarDeleted))
      && (Quiet(m.audit, m.end) ==> AuditDone(cfg, s.audit, a, left.audit, counts.auditAnonymized))
    }

    /** The same for an attempt, whose announcement may be missing. */
    ghost predicate IsolatedAttempt(s: Stores, a: string, actor: Actor, left: Stores, counts: DeletionResult, m: Marks)
      requires a in s.accounts
    {
      exists log :: log in [s.audit, s.audit + Announcement(cfg, s, a, actor)]
        && Isolated(s.(audit := log), a, left, counts, m)
    }

    /** What the cascade leaves on an announced deletion is an interrupted attempt with isolated operations. */
    lemma AttemptLeaves(s: Stores, log: seq<AuditRow>, a: string, actor: Actor, left: Stores, counts: DeletionResult, m: Marks)
      requires a in s.accounts && log in [s.audit, s.audit + Announcement(cfg, s, a, actor)]
      requires ThinnedCascade(cfg, s.(audit := log), a, left)
      requires Isolated(s.(audit := log), a, left, counts, m)
      ensures Interrupted(cfg, s, left, a, actor)
      ensures IsolatedAttempt(s, a, actor, left.(accounts := s.accounts - {a}), counts.(ok := true), m)
    {
      Staged(cfg, s, log, left.audit, a, actor);
      assert Isolated(s.(audit := log), a, left.(accounts := s.accounts - {a}), counts.(ok := true), m);
    }

    /** Without a failure it is the clean deletion, once the row is gone. */
    lemma QuietAttempt(s: Stores, log: seq<AuditRow>, a: string, actor: Actor, left: Stores, counts: DeletionResult, m: Marks)
      requires cfg.caps.deletes && a in s.accounts && ThinnedCascade(cfg, s.(audit := log), a, left) && !counts.ok
      requires log == s.audit + Announcement(cfg, s, a, actor)
      requires m.Ordered() && Quiet(m.oidc, m.end)
      requires Isolated(s.(audit := log), a, left, counts, m)
      ensures left.(accounts := s.accounts - {a}) == Erased(cfg, s, a, actor)
      ensures counts == Tally(cfg, s.(audit := log), a)
    {
      QuietCascade(s.(audit := log), a, left, counts, m);
    }

    /** Undisturbed operations amount to the complete cascade and its tally. */
    lemma QuietCascade(s: Stores, a: string, left: Stores, counts: DeletionResult, m: Marks)
      requires a in s.accounts && left.accounts == s.accounts && !counts.ok
      requires m.Ordered() && Isolated(s, a, left, counts, m) && Quiet(m.oidc, m.end)
      ensures left == Cascaded(cfg, s, a) && counts == Tally(cfg, s, a)
    {
    }

    /** Operations 2 to 8 took the mutations from `from` to before `to`, thinned the stores, and were isolated. */
    ghost predicate Cascading(s: Stores, a: string, left: Stores, counts: DeletionResult, m: Marks, from: nat, to: nat)
      requires a in s.accounts
    {
      && ThinnedCascade(cfg, s, a, left) && !counts.ok
      && m.Ordered() && m.oidc == from && m.end == to
      && Isolated(s, a, left, counts, m)
    }

    /** Operations 2 to 8, after the announcement is in the log; `counts` has no `ok` yet. */
    method Cascade(s: Stores, a: string) returns (left: Stores, counts: DeletionResult, ghost m: Marks)
      requires Sane(cfg, a) && a in s.accounts
      modifies this`step
      ensures Cascading(s, a, left, counts, m, old(step), step)
    {
      var oidc, sessions, grants, at, rt := RevokeSessions(s.oidc, a);
      ghost var m1 := step;
      var credentials, pats, passkeys, identities, m2, m3, m4 := RemoveCredentials(s.credentials, a);
      ghost var m5 := step;
      var orgs, memberships, invitations := RemoveFromOrgs(s.orgs, a, s.accounts[a].email);
      ghost var m6 := step;
      var files, avatarDeleted := DeleteAvatar(s.files, a, s.accounts[a]);
      ghost var m7 := step;
      var log, anonymized := AnonymizeAudit(s.audit, a);
      m := Marks(old(step), m1, m2, m3, m4, m5, m6, m7, step);
      left := Stores(s.accounts, oidc, credentials, orgs, files, log);
      counts := DeletionResult(false, sessions, grants, at, rt, pats, passkeys, identities, anonymized, avatarDeleted,
        memberships, invitations);
    }

    /**
     * Operation 1. None is an error that stops the deletion: a failing sink does so unless it
     * swallows the error, and without a sink there is nothing to fail.
     */
    method Announce(s: Stores, a: string, actor: Actor) returns (log: Option<seq<AuditRow>>)
      requires a in s.accounts
      modifies this`step
      ensures log.Some? ==> log.value in [s.audit, s.audit + Announcement(cfg, s, a, actor)]
      ensures log.None? <==> cfg.caps.audit && !cfg.caps.bestEffort && fails(old(step))
      ensures step == old(step) + (if cfg.caps.audit then 1 else 0)
      ensures !(cfg.caps.audit && fails(old(step))) ==> log == Some(s.audit + Announcement(cfg, s, a, actor))
    {
      if !cfg.caps.audit {
        assert s.audit + [] == s.audit;
        return Some(s.audit);
      }
      var throws := NextThrows();
      if !throws {
        var row := AuditRow("account.deleted", Some(a), Some(s.accounts[a].email), actor.actorId, actor.ip, actor.source);
        return Some(s.audit + [row]);
      }
      return if cfg.caps.bestEffort then Some(s.audit) else None;
    }

    /** A process that died stays dead: from some mutation on all throw. */
    ghost predicate Dying() {
      forall i, j :: i <= j && fails(i) ==> fails(j)
    }

    /** What `delete` of a known account promises, its mutations being those numbered from `from` to before `to`. */
    ghost predicate Outcome(before: Stores, after: Stores, a: string, actor: Actor, result: DeletionResult, m: Marks, from: nat, to: nat)
      requires a in before.accounts
    {
      // what is left is an interrupted attempt, with or without the account row
      && Interrupted(cfg, before, after.(accounts := before.accounts), a, actor)
      && after.accounts == (if result.ok then before.accounts - {a} else before.accounts)
      // the row goes last, whatever operations 2 to 8 do, unless the announcement stops the deletion
      && from < to
      && (result.ok <==> !fails(to - 1) && !(cfg.caps.audit && !cfg.caps.bestEffort && fails(from)))
      // operations 2 to 8 are complete one by one, when their own mutations do not throw
      && (result.ok ==>
            && m.Ordered() && m.oidc == from + (if cfg.caps.audit then 1 else 0) && m.end == to - 1
            && IsolatedAttempt(before, a, actor, after, result, m))
      // a process that dies has left the row, or nothing to clean up
      && (Dying() && result.ok ==> after == Erased(cfg, before, a, actor))
      // undisturbed, it is the clean deletion
      && (Quiet(from, to) ==>
            && after == Erased(cfg, before, a, actor)
            && result == Tally(cfg, before.(audit := before.audit + Announcement(cfg, before, a, actor)), a).(ok := true))
    }

    lemma StoppedAtOnce(s: Stores, a: string, actor: Actor, from: nat)
      requires a in s.accounts && cfg.caps.audit && !cfg.caps.bestEffort && fails(from)
      ensures Outcome(s, s, a, actor, NOTHING_DELETED, NO_MARKS, from, from + 1)
    {
      NotEvenStarted(cfg, s, a, actor);
    }

    lemma RowGoesOrStays(s: Stores, log: seq<AuditRow>, a: string, actor: Actor, left: Stores, counts: DeletionResult, m: Marks, from: nat)
      requires cfg.caps.deletes && a in s.accounts
      requires log in [s.audit, s.audit + Announcement(cfg, s, a, actor)]
      requires cfg.caps.audit && fails(from) ==> cfg.caps.bestEffort
      requires !(cfg.caps.audit && fails(from)) ==> log == s.audit + Announcement(cfg, s, a, actor)
      requires Cascading(s.(audit := log), a, left, counts, m, from + (if cfg.caps.audit then 1 else 0), m.end)
      ensures fails(m.end) ==> Outcome(s, left, a, actor, counts, m, from, m.end + 1)
      ensures !fails(m.end) ==>
        Outcome(s, left.(accounts := s.accounts - {a}), a, actor, counts.(ok := true), m, from, m.end + 1)
    {
      AttemptLeaves(s, log, a, actor, left, counts, m);
      if Quiet(from, m.end) {
        QuietAttempt(s, log, a, actor, left, counts, m);
      }
      if Dying() && !fails(m.end) {
        assert Quiet(from, m.end);
      }
      if Quiet(from, m.end + 1) {
        assert Quiet(from, m.end) && !fails(m.end);
      }
    }

    /** Operations 1 to 8, unless the announcement stops them; the row is still to go. */
    method Attempt(before: Stores, a: string, actor: Actor)
      returns (announced: bool, left: Stores, counts: DeletionResult, ghost m: Marks)
      requires Sane(cfg, a) && cfg.caps.deletes && a in before.accounts && site.s == before
      modifies this`step, site
      ensures !announced ==> Outcome(before, site.s, a, actor, NOTHING_DELETED, NO_MARKS, old(step), step)
      ensures announced ==>
        && site.s == left && left.accounts == before.accounts
        && (fails(step) ==> Outcome(before, left, a, actor, counts, m, old(step), step + 1))
        && (!fails(step) ==>
              Outcome(before, left.(accounts := before.accounts - {a}), a, actor, counts.(ok := true), m, old(step), step + 1))
    {
      announced, left, counts, m := false, before, NOTHING_DELETED, NO_MARKS;
      var log := Announce(before, a, actor);
      if log.None? {
        StoppedAtOnce(before, a, actor, old(step));
        return;
      }
      announced := true;
      var announcedStores := before.(audit := log.value);
      site.s := announcedStores;
      left, counts, m := Cascade(announcedStores, a);
      RowGoesOrStays(before, log.value, a, actor, left, counts, m, old(step));
      site.s := left;
    }

    /** The whole deletion; without the capability, or for an unknown account, it changes nothing. */
    method Delete(a: string, actor: Actor) returns (result: DeletionResult, ghost m: Marks)
      requires Sane(cfg, a)
      modifies this`step, site
      ensures !cfg.caps.deletes || a !in old(site.s).accounts ==> site.s == old(site.s) && result == NOTHING_DELETED
      ensures cfg.caps.deletes && a in old(site.s).accounts ==>
        Outcome(old(site.s), site.s, a, actor, result, m, old(step), step)
    {
      result, m := NOTHING_DELETED, NO_MARKS;
      if !cfg.caps.deletes {
        return;
      }
      if a !in site.s.accounts {
        return;
      }
      var announced, left, counts, marks := Attempt(site.s, a, actor);
      if !announced {
        return;
      }
      result, m := counts, marks;
      var throws := NextThrows();
      if throws {
        return;
      }
      site.s := left.(accounts := left.accounts - {a});
      result := result.(ok := true);
    }
  }

  lemma NotEvenStarted(cfg: Config, s: Stores, a: string, actor: Actor)
    requires a in s.accounts
    ensures Interrupted(cfg, s, s, a, actor)
  {
    assert s.audit in [s.audit, s.audit + Announcement(cfg, s, a, actor)];
    assert ScrubStage(cfg, a, s.audit, s.audit);
  }

  lemma Staged(cfg: Config, s: Stores, rows: seq<AuditRow>, log: seq<AuditRow>, a: string, actor: Actor)
    requires a in s.accounts && rows in [s.audit, s.audit + Announcement(cfg, s, a, actor)] && ScrubStage(cfg, a, rows, log)
    ensures AuditStage(cfg, s, log, a, actor)
  {
  }

  /** Emptying a grant and then dropping it keeps the order "tokens before grant". */
  lemma GrantGoes(o: Oidc, left: Oidc, g: string, a: string)
    requires Thinned(o.grants, left.grants, a) && TokensThinned(o, left, a) && g in Owned(left.grants, a)
    ensures var emptied := left.(tokens := WithoutGrant(left.tokens, g));
      && TokensThinned(o, emptied, a)
      && TokensThinned(o, emptied.(grants := left.grants - {g}), a)
    ensures Thinned(o.grants, left.grants - {g}, a)
    ensures Owned(left.grants - {g}, a) == Owned(left.grants, a) - {g}
  {
  }

  lemma NoneOwned<K(!new)>(m: map<K, string>, left: map<K, string>, a: string)
    requires Thinned(m, left, a) && Owned(left, a) == {}
    ensures left == Without(m, a)
  {
    forall k | k in left ensures left[k] != a {
      assert k !in Owned(left, a);
    }
  }

  lemma NonePending(v: map<string, Invitation>, left: map<string, Invitation>, email: string)
    requires InvitationsThinned(v, left, email) && PendingFor(left, email) == {}
    ensures left == InvitationsWithout(v, email)
  {
    forall i | i in left ensures left[i].email != email || left[i].accepted {
      assert i !in PendingFor(left, email);
    }
  }

  lemma TokensThinnedTwice(o: Oidc, mid: Oidc, left: Oidc, a: string)
    requires mid.grants == o.grants && TokensThinned(o, mid, a) && TokensThinned(mid, left, a)
    ensures TokensThinned(o, left, a)
  {
  }

  lemma TokensGone(o: Oidc, left: Oidc, a: string)
    requires TokensThinned(o, left, a) && left.grants == Without(o.grants, a)
    ensures left.tokens == TokensWithout(o.tokens, o.grants, a)
  {
  }

  /** Whether a working backend reports a deleted avatar. */
  predicate AvatarGoes(cfg: Config, account: Account) {
    cfg.caps.uploads && (cfg.caps.byOwner || NamedKey(cfg, account).Some?)
  }

  /** The counts that a clean cascade reports for a log that already holds the announcement. */
  function Tally(cfg: Config, s: Stores, a: string): DeletionResult
    requires a in s.accounts
  {
    var c := cfg.caps;
    DeletionResult(
      false,
      if c.enumerates then |Owned(s.oidc.sessions, a)| else 0,
      if c.enumerates then |Owned(s.oidc.grants, a)| else 0,
      if c.enumerates then |Attached(s.oidc, "AccessToken", a)| else 0,
      if c.enumerates then |Attached(s.oidc, "RefreshToken", a)| else 0,
      if c.pats then |Owned(s.credentials.pats, a)| else 0,
      if c.passkeys then |Owned(s.credentials.passkeys, a)| else 0,
      if c.identities then |Owned(s.credentials.identities, a)| else 0,
      if c.anonymizes then AsSubject(s.audit, a) + AsActor(s.audit, a) else 0,
      AvatarGoes(cfg, s.accounts[a]),
      if c.orgs then |Owned(s.orgs.memberships, a)| else 0,
      if c.orgs then |PendingFor(s.orgs.invitations, s.accounts[a].email)| else 0)
  }
}
