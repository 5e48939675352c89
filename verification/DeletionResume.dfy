/** A deletion may be interrupted and run again: the end is that of one clean run. */
module DeletionResume {
  import opened Wrappers
  import opened AccountDeletion
  import AvatarKeys

  lemma ThinnedAgrees<K(!new)>(before: map<K, string>, after: map<K, string>, a: string)
    requires Thinned(before, after, a)
    ensures Without(after, a) == Without(before, a)
  {
  }

  lemma OidcAgrees(cfg: Config, before: Oidc, after: Oidc, a: string)
    requires OidcThinned(cfg, before, after, a)
    ensures OidcErased(cfg, after, a) == OidcErased(cfg, before, a)
  {
    ThinnedAgrees(before.sessions, after.sessions, a);
    ThinnedAgrees(before.grants, after.grants, a);
    assert TokensWithout(after.tokens, after.grants, a) == TokensWithout(before.tokens, before.grants, a);
  }

  lemma CredentialsAgree(cfg: Config, before: Credentials, after: Credentials, a: string)
    requires CredentialsThinned(cfg, before, after, a)
    ensures CredentialsErased(cfg, after, a) == CredentialsErased(cfg, before, a)
  {
  }

  lemma OrgsAgree(cfg: Config, before: Orgs, after: Orgs, a: string, email: string)
    requires OrgsThinned(cfg, before, after, a, email)
    ensures OrgsErased(cfg, after, a, email) == OrgsErased(cfg, before, a, email)
  {
  }

  /** Scrubbing half of the log first changes nothing in the end, and scrubbing twice is scrubbing once. */
  lemma ScrubAbsorbs(cfg: Config, a: string, row: AuditRow)
    requires Sane(cfg, a)
    ensures cfg.caps.anonymizes ==> Scrubbed(cfg, a, SubjectScrubbed(cfg, a, row)) == Scrubbed(cfg, a, row)
    ensures Scrubbed(cfg, a, Scrubbed(cfg, a, row)) == Scrubbed(cfg, a, row)
  {
  }

  lemma ScrubSplits(cfg: Config, a: string, xs: seq<AuditRow>, ys: seq<AuditRow>)
    ensures ScrubbedAudit(cfg, a, xs + ys) == ScrubbedAudit(cfg, a, xs) + ScrubbedAudit(cfg, a, ys)
  {
  }

  /** The stores differ at most in extra scrubbed `account.deleted` rows just before the last attempt's own. */
  ghost predicate SameButAnnouncements(cfg: Config, a: string, clean: Stores, resumed: Stores, log: seq<AuditRow>, last: seq<AuditRow>) {
    && resumed == clean.(audit := resumed.audit)
    && clean.audit == ScrubbedAudit(cfg, a, log + last)
    && exists extra: seq<AuditRow> ::
         && resumed.audit == ScrubbedAudit(cfg, a, log) + extra + ScrubbedAudit(cfg, a, last)
         && forall row :: row in extra ==> ScrubbedAnnouncement(cfg, a, row)
  }

  ghost predicate ScrubbedAnnouncement(cfg: Config, a: string, row: AuditRow) {
    exists email, actor :: row == Scrubbed(cfg, a, DeletedRow(a, email, actor))
  }

  lemma StageVanishes(cfg: Config, a: string, rows: seq<AuditRow>, log: seq<AuditRow>)
    requires Sane(cfg, a) && ScrubStage(cfg, a, rows, log)
    ensures ScrubbedAudit(cfg, a, log) == ScrubbedAudit(cfg, a, rows)
  {
  }

  lemma AnnouncementIsScrubbed(cfg: Config, s: Stores, a: string, actor: Actor)
    requires a in s.accounts
    ensures forall row :: row in ScrubbedAudit(cfg, a, Announcement(cfg, s, a, actor)) ==> ScrubbedAnnouncement(cfg, a, row)
  {
  }

  /** What one interrupted attempt contributes to the final log. */
  lemma StageScrubs(cfg: Config, before: Stores, log: seq<AuditRow>, a: string, actor: Actor) returns (extra: seq<AuditRow>)
    requires Sane(cfg, a) && a in before.accounts && AuditStage(cfg, before, log, a, actor)
    ensures ScrubbedAudit(cfg, a, log) == ScrubbedAudit(cfg, a, before.audit) + extra
    ensures forall row :: row in extra ==> ScrubbedAnnouncement(cfg, a, row)
  {
    var announcement := Announcement(cfg, before, a, actor);
    var rows :| rows in [before.audit, before.audit + announcement] && ScrubStage(cfg, a, rows, log);
    StageVanishes(cfg, a, rows, log);
    if rows == before.audit {
      extra := [];
    } else {
      extra := ScrubbedAudit(cfg, a, announcement);
      ScrubSplits(cfg, a, before.audit, announcement);
      AnnouncementIsScrubbed(cfg, before, a, actor);
    }
  }

  /** All stores but the audit log: finishing after an interrupted attempt erases what finishing at once erases. */
  lemma InterruptedOnceIsHarmless(cfg: Config, before: Stores, after: Stores, a: string, stopped: Actor, actor: Actor)
    requires Sane(cfg, a) && cfg.caps.deletes && Interrupted(cfg, before, after, a, stopped)
    ensures Erased(cfg, after, a, actor).(audit := []) == Erased(cfg, before, a, actor).(audit := [])
  {
    OidcAgrees(cfg, before.oidc, after.oidc, a);
    CredentialsAgree(cfg, before.credentials, after.credentials, a);
    OrgsAgree(cfg, before.orgs, after.orgs, a, before.accounts[a].email);
  }

  /** A chain of interrupted attempts, each by its own actor. */
  ghost predicate Attempts(cfg: Config, chain: seq<Stores>, actors: seq<Actor>, a: string) {
    && |chain| == |actors| + 1
    && forall i :: 0 <= i < |actors| ==> Interrupted(cfg, chain[i], chain[i + 1], a, actors[i])
  }

  lemma {:induction false} ChainIsHarmless(cfg: Config, chain: seq<Stores>, actors: seq<Actor>, a: string, actor: Actor)
    returns (extra: seq<AuditRow>)
    requires Sane(cfg, a) && cfg.caps.deletes && Attempts(cfg, chain, actors, a)
    ensures chain[|actors|].accounts == chain[0].accounts
    ensures Erased(cfg, chain[|actors|], a, actor).(audit := []) == Erased(cfg, chain[0], a, actor).(audit := [])
    ensures ScrubbedAudit(cfg, a, chain[|actors|].audit) == ScrubbedAudit(cfg, a, chain[0].audit) + extra
    ensures forall row :: row in extra ==> ScrubbedAnnouncement(cfg, a, row)
  {
    var n := |actors|;
    extra := [];
    if n > 0 {
      var earlier := ChainIsHarmless(cfg, chain[..n], actors[..n - 1], a, actor);
      assert Interrupted(cfg, chain[n - 1], chain[n - 1 + 1], a, actors[n - 1]);
      InterruptedOnceIsHarmless(cfg, chain[n - 1], chain[n], a, actors[n - 1], actor);
      var more := StageScrubs(cfg, chain[n - 1], chain[n].audit, a, actors[n - 1]);
      extra := earlier + more;
    }
  }

  /**
   * Interrupted anywhere before the account row goes, any number of times, and then run once
   * without failure: the stores end as after one clean run, up to extra scrubbed announcements.
   */
  lemma ResumedDeletionIsClean(cfg: Config, chain: seq<Stores>, actors: seq<Actor>, a: string, actor: Actor)
    requires Sane(cfg, a) && cfg.caps.deletes && Attempts(cfg, chain, actors, a) && a in chain[0].accounts
    ensures SameButAnnouncements(cfg, a,
      Erased(cfg, chain[0], a, actor), Erased(cfg, chain[|actors|], a, actor),
      chain[0].audit, Announcement(cfg, chain[0], a, actor))
  {
    var extra := ChainIsHarmless(cfg, chain, actors, a, actor);
    var last, end := Announcement(cfg, chain[0], a, actor), chain[|actors|];
    ScrubSplits(cfg, a, chain[0].audit, last);
    ScrubSplits(cfg, a, end.audit, Announcement(cfg, end, a, actor));
    assert Erased(cfg, end, a, actor).audit == ScrubbedAudit(cfg, a, chain[0].audit) + extra + ScrubbedAudit(cfg, a, last);
  }

  // ---- Everyone else -----------------------------------------------------------------------

  ghost predicate OidcUntouched(before: Oidc, after: Oidc, a: string, b: string) {
    && Owned(after.sessions, b) == Owned(before.sessions, b)
    && Owned(after.grants, b) == Owned(before.grants, b)
    && (forall t :: t in after.tokens ==> t in before.tokens)
    && (forall t :: t in before.tokens && !OnGrantOf(before.grants, before.tokens[t], a) ==>
          t in after.tokens && after.tokens[t] == before.tokens[t])
    && (b in after.revokedSubs <==> b in before.revokedSubs)
  }

  ghost predicate CredentialsUntouched(before: Credentials, after: Credentials, b: string) {
    && Owned(after.pats, b) == Owned(before.pats, b)
    && Owned(after.passkeys, b) == Owned(before.passkeys, b)
    && (b in after.mfa <==> b in before.mfa)
    && Owned(after.identities, b) == Owned(before.identities, b)
  }

  /**
   * A row of the log whose subject is not the account stays as it is, except that the account is
   * named by its alias where it was the actor.
   */
  predicate RowUntouched(cfg: Config, a: string, before: AuditRow, after: AuditRow) {
    || after == before
    || (cfg.caps.anonymizes && before.actorId == Some(a) && after == before.(actorId := Some(cfg.pseudonym(a))))
  }

  ghost predicate LogUntouched(cfg: Config, a: string, before: seq<AuditRow>, after: seq<AuditRow>) {
    && |before| <= |after|
    && forall i :: 0 <= i < |before| && before[i].accountId != Some(a) ==> RowUntouched(cfg, a, before[i], after[i])
  }

  /** Only pending invitations to the address of the account may go. */
  ghost predicate InvitationsUntouched(before: Stores, after: Stores, a: string) {
    && (forall i :: i in after.orgs.invitations ==> i in before.orgs.invitations)
    && (forall i :: i in before.orgs.invitations ==>
          var v := before.orgs.invitations[i];
          || (i in after.orgs.invitations && after.orgs.invitations[i] == v)
          || (a in before.accounts && v.email == before.accounts[a].email && !v.accepted))
  }

  /** The URL of the account names a file that somebody else uploaded, and the backend goes by the URL. */
  predicate NamesForeignFile(cfg: Config, s: Stores, a: string)
    requires a in s.accounts
  {
    var url := s.accounts[a].avatarUrl;
    && cfg.caps.uploads && !cfg.caps.byOwner
    && url.Some? && cfg.keyOf(url.value).Some?
    && cfg.keyOf(url.value).value in s.files && s.files[cfg.keyOf(url.value).value] != a
  }

  /** No file but the account's own goes, and the one its URL names when the backend goes by the URL. */
  predicate FilesUntouched(cfg: Config, before: Stores, after: Stores, a: string) {
    && (forall k :: k in after.files ==> k in before.files && after.files[k] == before.files[k])
    && (forall k :: k in before.files && before.files[k] != a && k !in after.files ==>
          a in before.accounts && NamesForeignFile(cfg, before, a) && NamedKey(cfg, before.accounts[a]) == Some(k))
  }

  /** Nothing that belongs to `b` differs, nor anything that belongs to nobody, but for a file of theirs that `a`'s URL names. */
  ghost predicate Untouched(cfg: Config, before: Stores, after: Stores, a: string, b: string) {
    && (b in before.accounts <==> b in after.accounts)
    && (b in before.accounts ==> after.accounts[b] == before.accounts[b])
    && OidcUntouched(before.oidc, after.oidc, a, b)
    && CredentialsUntouched(before.credentials, after.credentials, b)
    && Owned(after.orgs.memberships, b) == Owned(before.orgs.memberships, b)
    && InvitationsUntouched(before, after, a)
    && FilesUntouched(cfg, before, after, a)
    && LogUntouched(cfg, a, before.audit, after.audit)
  }

  lemma ThinnedKeepsOthers<K(!new)>(before: map<K, string>, after: map<K, string>, a: string, b: string)
    requires a != b && Thinned(before, after, a)
    ensures Owned(after, b) == Owned(before, b)
  {
  }

  lemma LogKeepsOthers(cfg: Config, before: Stores, after: Stores, a: string, actor: Actor)
    requires a in before.accounts && AuditStage(cfg, before, after.audit, a, actor)
    ensures LogUntouched(cfg, a, before.audit, after.audit)
  {
  }

  /** An interrupted deletion touches no other account. */
  lemma InterruptedTouchesNoOther(cfg: Config, before: Stores, after: Stores, a: string, b: string, actor: Actor)
    requires a != b && Interrupted(cfg, before, after, a, actor)
    ensures Untouched(cfg, before, after, a, b)
  {
    ThinnedKeepsOthers(before.oidc.sessions, after.oidc.sessions, a, b);
    ThinnedKeepsOthers(before.oidc.grants, after.oidc.grants, a, b);
    ThinnedKeepsOthers(before.credentials.pats, after.credentials.pats, a, b);
    ThinnedKeepsOthers(before.credentials.passkeys, after.credentials.passkeys, a, b);
    ThinnedKeepsOthers(before.credentials.identities, after.credentials.identities, a, b);
    ThinnedKeepsOthers(before.orgs.memberships, after.orgs.memberships, a, b);
    LogKeepsOthers(cfg, before, after, a, actor);
  }

  /** Up to the account row, a completed deletion is an attempt that was not interrupted early. */
  lemma ErasedButForTheRow(cfg: Config, s: Stores, a: string, actor: Actor)
    requires cfg.caps.deletes && a in s.accounts
    ensures Interrupted(cfg, s, Erased(cfg, s, a, actor).(accounts := s.accounts), a, actor)
  {
    var e := Erased(cfg, s, a, actor).(accounts := s.accounts);
    var rows := s.audit + Announcement(cfg, s, a, actor);
    assert rows in [s.audit, s.audit + Announcement(cfg, s, a, actor)];
    assert e.audit == ScrubbedAudit(cfg, a, rows);
    assert AuditStage(cfg, s, e.audit, a, actor);
  }

  /** A completed deletion touches no other account. */
  lemma ErasedTouchesNoOther(cfg: Config, s: Stores, a: string, b: string, actor: Actor)
    requires a != b
    ensures Untouched(cfg, s, Erased(cfg, s, a, actor), a, b)
  {
    if cfg.caps.deletes && a in s.accounts {
      ErasedButForTheRow(cfg, s, a, actor);
      InterruptedTouchesNoOther(cfg, s, Erased(cfg, s, a, actor).(accounts := s.accounts), a, b, actor);
    }
  }

  /** Every file of the others is still there. */
  predicate OthersKeepFiles(before: Stores, after: Stores, a: string) {
    forall k :: k in before.files && before.files[k] != a ==> k in after.files && after.files[k] == before.files[k]
  }

  /**
   * A completed deletion leaves every file of the others in place exactly when the account's URL does
   * not name one of them, to a backend that goes by the URL.
   */
  lemma OthersKeepFilesIff(cfg: Config, s: Stores, a: string, actor: Actor)
    requires cfg.caps.deletes && a in s.accounts
    ensures OthersKeepFiles(s, Erased(cfg, s, a, actor), a) <==> !NamesForeignFile(cfg, s, a)
  {
  }

  /** An avatar is reported as deleted exactly when the backend goes by the owner or the URL yields a key. */
  lemma AvatarReportedIff(cfg: Config, files: map<string, string>, a: string, account: Account, left: map<string, string>, deleted: bool)
    requires FilesDone(cfg, files, a, account, left, deleted)
    ensures deleted <==>
      cfg.caps.uploads && (cfg.caps.byOwner || (account.avatarUrl.Some? && cfg.keyOf(account.avatarUrl.value).Some?))
    ensures !deleted ==> left == files
  {
  }

  /** An interrupted one as well keeps them all under that condition. */
  lemma InterruptedKeepsFiles(cfg: Config, before: Stores, after: Stores, a: string, actor: Actor)
    requires Interrupted(cfg, before, after, a, actor) && !NamesForeignFile(cfg, before, a)
    ensures OthersKeepFiles(before, after, a)
  {
  }

  /**
   * The failing input: the drive stores the file of b under `key`, and the profile of a holds the
   * public URL of that file. Deleting a deletes the file of b.
   */
  lemma SharedUrlLosesTheFile(cfg: Config, s: Stores, a: string, b: string, actor: Actor,
      directory: string, base: string, name: string)
    requires a != b && cfg.caps.deletes && cfg.caps.uploads && !cfg.caps.byOwner && a in s.accounts
    requires forall url :: cfg.keyOf(url) == AvatarKeys.KeyOf(directory, url)
    requires var key := AvatarKeys.BuildKey(directory, name); '?' !in key && '#' !in key && key in s.files && s.files[key] == b
    requires var url := base + AvatarKeys.BuildKey(directory, name);
      && s.accounts[a].avatarUrl == Some(url)
      && forall j :: 0 <= j < |base| ==> !(AvatarKeys.Marker(directory) <= url[j..])
    ensures AvatarKeys.BuildKey(directory, name) !in Erased(cfg, s, a, actor).files
  {
    var url := base + AvatarKeys.BuildKey(directory, name);
    assert url + "" == url;
    AvatarKeys.PublicUrlNamesItsFileIff(directory, base, name, "");
  }

  /** Once the account row is gone, deleting again changes nothing. */
  lemma DeletingAgainChangesNothing(cfg: Config, s: Stores, a: string, first: Actor, second: Actor)
    requires cfg.caps.deletes
    ensures Erased(cfg, Erased(cfg, s, a, first), a, second) == Erased(cfg, s, a, first)
  {
  }

  predicate FullyCapable(c: Capabilities) {
    c.deletes && c.enumerates && c.pats && c.passkeys && c.mfa && c.identities && c.orgs && c.uploads && c.anonymizes
  }

  /** With every capability, a clean deletion leaves no entry and no audit row under the id of the account. */
  lemma NoIdRemains(cfg: Config, s: Stores, a: string, actor: Actor)
    requires Sane(cfg, a) && a in s.accounts && FullyCapable(cfg.caps)
    ensures var e := Erased(cfg, s, a, actor);
      && a !in e.accounts && a !in e.credentials.mfa
      && Owned(e.oidc.sessions, a) == {} && Owned(e.oidc.grants, a) == {}
      && Owned(e.credentials.pats, a) == {} && Owned(e.credentials.passkeys, a) == {}
      && Owned(e.credentials.identities, a) == {} && Owned(e.orgs.memberships, a) == {}
      && (forall t :: t in e.oidc.tokens ==> !OnGrantOf(s.oidc.grants, e.oidc.tokens[t], a))
      && (forall row :: row in e.audit ==> row.accountId != Some(a) && row.actorId != Some(a))
      && |e.audit| >= |s.audit|
      && forall i :: 0 <= i < |s.audit| ==> e.audit[i].kind == s.audit[i].kind && e.audit[i].metadata == s.audit[i].metadata
  {
  }

  /** A missing capability leaves its store to itself, and a present one leaves no entry of the account in it. */
  lemma EntriesGoIff(cfg: Config, s: Stores, a: string, actor: Actor)
    requires a in s.accounts && cfg.caps.deletes
    ensures var c, e := cfg.caps, Erased(cfg, s, a, actor);
      && a !in e.accounts && a in e.oidc.revokedSubs
      && Owned(e.oidc.sessions, a) == (if c.enumerates then {} else Owned(s.oidc.sessions, a))
      && Owned(e.oidc.grants, a) == (if c.enumerates then {} else Owned(s.oidc.grants, a))
      && (forall t :: t in e.oidc.tokens <==>
            t in s.oidc.tokens && !(c.enumerates && OnGrantOf(s.oidc.grants, s.oidc.tokens[t], a)))
      && Owned(e.credentials.pats, a) == (if c.pats then {} else Owned(s.credentials.pats, a))
      && Owned(e.credentials.passkeys, a) == (if c.passkeys then {} else Owned(s.credentials.passkeys, a))
      && (a in e.credentials.mfa <==> a in s.credentials.mfa && !c.mfa)
      && Owned(e.credentials.identities, a) == (if c.identities then {} else Owned(s.credentials.identities, a))
      && Owned(e.orgs.memberships, a) == (if c.orgs then {} else Owned(s.orgs.memberships, a))
      && PendingFor(e.orgs.invitations, s.accounts[a].email)
           == (if c.orgs then {} else PendingFor(s.orgs.invitations, s.accounts[a].email))
  {
  }

  /** An id after the scrub: the alias in place of the account, and every other id as it was. */
  function Renamed(cfg: Config, a: string, id: Option<string>): Option<string> {
    if id == Some(a) then Some(cfg.pseudonym(a)) else id
  }

  /**
   * Every row of the log after a deletion: subject and actor are the alias where they were the
   * account, email and ip are gone exactly where the account was the subject, and the rest stays.
   */
  lemma RowAfterDeletion(cfg: Config, s: Stores, a: string, actor: Actor, i: nat)
    requires a in s.accounts && cfg.caps.deletes && cfg.caps.anonymizes && i < |s.audit|
    ensures var before, log := s.audit[i], Erased(cfg, s, a, actor).audit;
      && i < |log|
      && var after := log[i];
      && after.accountId == Renamed(cfg, a, before.accountId)
      && after.actorId == Renamed(cfg, a, before.actorId)
      && after.email == (if before.accountId == Some(a) then None else before.email)
      && after.ip == (if before.accountId == Some(a) then None else before.ip)
      && after.kind == before.kind && after.metadata == before.metadata
  {
  }

  /** Without the capability no row changes; with a log at all, one row tells of the deletion and who asked for it. */
  lemma AnnouncementAfterDeletion(cfg: Config, s: Stores, a: string, actor: Actor)
    requires a in s.accounts && cfg.caps.deletes
    ensures var log, scrubs := Erased(cfg, s, a, actor).audit, cfg.caps.anonymizes;
      && |log| == |s.audit| + (if cfg.caps.audit then 1 else 0)
      && (!scrubs ==> log[..|s.audit|] == s.audit)
      && (cfg.caps.audit ==>
            var row := log[|s.audit|];
            && row.kind == "account.deleted" && row.metadata == actor.source
            && row.accountId == (if scrubs then Some(cfg.pseudonym(a)) else Some(a))
            && row.actorId == (if scrubs then Renamed(cfg, a, actor.actorId) else actor.actorId)
            && row.email == (if scrubs then None else Some(s.accounts[a].email))
            && row.ip == (if scrubs then None else actor.ip))
  {
  }

  lemma AnnouncedRows(cfg: Config, s: Stores, a: string, actor: Actor)
    requires a in s.accounts
    ensures var rows, said := s.audit + Announcement(cfg, s, a, actor), cfg.caps.audit;
      && |SubjectRows(rows, a)| == |SubjectRows(s.audit, a)| + (if said then 1 else 0)
      && |ActorRows(rows, a)| == |ActorRows(s.audit, a)| + (if said && actor.actorId == Some(a) then 1 else 0)
  {
    var rows := s.audit + Announcement(cfg, s, a, actor);
    if cfg.caps.audit {
      RowsGrow(rows, |s.audit|, a);
      assert rows[..|s.audit|] == s.audit;
    } else {
      assert rows == s.audit;
    }
  }

  /** `auditAnonymized` counts the rows with the account as subject and those with it as actor, the announcement included. */
  lemma AnonymizedCount(cfg: Config, s: Stores, a: string, actor: Actor, left: seq<AuditRow>, count: nat)
    requires a in s.accounts && cfg.caps.anonymizes
    requires AuditDone(cfg, s.audit + Announcement(cfg, s, a, actor), a, left, count)
    ensures count ==
      |SubjectRows(s.audit, a)| + |ActorRows(s.audit, a)|
      + (if cfg.caps.audit then 1 else 0) + (if cfg.caps.audit && actor.actorId == Some(a) then 1 else 0)
  {
    CountsAreCardinalities(s.audit + Announcement(cfg, s, a, actor), a);
    AnnouncedRows(cfg, s, a, actor);
  }

  /** A row keeps an email address exactly when it had it and the account is not its subject. */
  lemma RowKeepsEmailIff(cfg: Config, s: Stores, a: string, actor: Actor, email: string, i: nat)
    requires a in s.accounts && cfg.caps.deletes && cfg.caps.anonymizes && i < |s.audit|
    ensures Erased(cfg, s, a, actor).audit[i].email == Some(email)
       <==> s.audit[i].email == Some(email) && s.audit[i].accountId != Some(a)
  {
  }

  /** The log holds the address no more exactly when every row that held it has the account as its subject. */
  lemma EmailLeavesTheLogIff(cfg: Config, s: Stores, a: string, actor: Actor)
    requires Sane(cfg, a) && a in s.accounts && cfg.caps.deletes && cfg.caps.anonymizes
    ensures var email := Some(s.accounts[a].email);
      (forall row :: row in Erased(cfg, s, a, actor).audit ==> row.email != email)
        <==> forall row :: row in s.audit && row.email == email ==> row.accountId == Some(a)
  {
    var email, after := s.accounts[a].email, Erased(cfg, s, a, actor).audit;
    forall i | 0 <= i < |s.audit| ensures after[i].email == Some(email) <==> s.audit[i].email == Some(email) && s.audit[i].accountId != Some(a) {
      RowKeepsEmailIff(cfg, s, a, actor, email, i);
    }
    if forall row :: row in s.audit && row.email == Some(email) ==> row.accountId == Some(a) {
      forall row | row in after ensures row.email != Some(email) {
        var i :| 0 <= i < |after| && after[i] == row;
        assert i < |s.audit| ==> s.audit[i] in s.audit;
      }
    }
    if row :| row in s.audit && row.email == Some(email) && row.accountId != Some(a) {
      var i :| 0 <= i < |s.audit| && s.audit[i] == row;
      assert after[i] in after;
    }
  }

  /**
   * The failing input: a failed login and a lock are recorded with the address and without an
   * account, and come out of the deletion unchanged.
   */
  lemma FailedLoginKeepsTheAddress(cfg: Config, s: Stores, a: string, actor: Actor, ip: Option<string>, kind: string, metadata: string)
    requires Sane(cfg, a) && a in s.accounts && cfg.caps.deletes
    requires AuditRow(kind, None, Some(s.accounts[a].email), None, ip, metadata) in s.audit
    ensures AuditRow(kind, None, Some(s.accounts[a].email), None, ip, metadata) in Erased(cfg, s, a, actor).audit
  {
    var row := AuditRow(kind, None, Some(s.accounts[a].email), None, ip, metadata);
    var i :| 0 <= i < |s.audit| && s.audit[i] == row;
    assert Erased(cfg, s, a, actor).audit[i] == row;
  }

  /** No invitation to the address is left exactly when none was accepted. */
  lemma NoInvitationRemainsIff(cfg: Config, s: Stores, a: string, actor: Actor)
    requires a in s.accounts && cfg.caps.deletes && cfg.caps.orgs
    ensures var email, left := s.accounts[a].email, Erased(cfg, s, a, actor).orgs.invitations;
      (forall i :: i in left ==> left[i].email != email)
        <==> forall i :: i in s.orgs.invitations && s.orgs.invitations[i].email == email ==> !s.orgs.invitations[i].accepted
  {
    var email, all, left := s.accounts[a].email, s.orgs.invitations, Erased(cfg, s, a, actor).orgs.invitations;
    assert left == InvitationsWithout(all, email);
    if forall i :: i in left ==> left[i].email != email {
      forall i | i in all && all[i].email == email ensures !all[i].accepted {
        assert i !in left;
      }
    }
  }

  /** No file of the account is left exactly when the backend goes by the owner, or each is the one that the URL names. */
  lemma NoFileRemainsIff(cfg: Config, s: Stores, a: string, actor: Actor)
    requires a in s.accounts && cfg.caps.deletes && cfg.caps.uploads
    ensures Owned(Erased(cfg, s, a, actor).files, a) == {}
       <==> cfg.caps.byOwner || forall k :: k in Owned(s.files, a) ==> NamedKey(cfg, s.accounts[a]) == Some(k)
  {
    var left := Erased(cfg, s, a, actor).files;
    assert left == FilesErased(cfg, s.files, a, s.accounts[a]);
    if cfg.caps.byOwner || forall k :: k in Owned(s.files, a) ==> NamedKey(cfg, s.accounts[a]) == Some(k) {
      forall k ensures k !in Owned(left, a) {
        assert k in Owned(left, a) ==> k in Owned(s.files, a);
      }
    }
    if Owned(left, a) == {} && !cfg.caps.byOwner {
      forall k | k in Owned(s.files, a) ensures NamedKey(cfg, s.accounts[a]) == Some(k) {
        assert k !in Owned(left, a);
      }
    }
  }

  /**
   * Scrubbing takes the ip address off a row that names the account exactly when the account is the
   * row's subject (or no address was stored): a row it only acted in keeps the address it acted from.
   */
  lemma AddressGoesIff(cfg: Config, a: string, row: AuditRow)
    requires Sane(cfg, a) && cfg.caps.anonymizes
    requires row.accountId == Some(a) || row.actorId == Some(a)
    ensures Scrubbed(cfg, a, row).ip == None <==> row.accountId == Some(a) || row.ip == None
  {
  }
}
