/** The idempotent importers of users and of clients, real run against dry run. */
module Importers {
  import opened Wrappers
  import AdminClients

  // ---- Counting ----------------------------------------------------------------------

  /** How many of the keys are not in the store: what a dry run counts. */
  function NotStored<K(==)>(keys: seq<K>, store: set<K>): nat {
    if keys == [] then 0
    else NotStored(keys[..|keys| - 1], store) + (if keys[|keys| - 1] in store then 0 else 1)
  }

  /** No key that is missing from the store occurs twice. */
  ghost predicate NewKeysDistinct<K>(keys: seq<K>, store: set<K>) {
    forall i, j :: 0 <= i < j < |keys| && keys[i] == keys[j] ==> keys[i] in store
  }

  /** How many different keys are not in the store, counted in order; `NewCountIsCardinality` says what it comes to. */
  function NewCount<K(==)>(keys: seq<K>, store: set<K>): nat {
    if keys == [] then 0
    else
      var k, before := keys[|keys| - 1], keys[..|keys| - 1];
      NewCount(before, store) + (if k in store || k in before then 0 else 1)
  }

  lemma OneMoreKey<K>(keys: seq<K>, k: K, store: set<K>)
    ensures NotStored(keys + [k], store) == NotStored(keys, store) + (if k in store then 0 else 1)
    ensures NewCount(keys + [k], store) == NewCount(keys, store) + (if k in store || k in keys then 0 else 1)
  {
  }

  lemma {:induction false} NewCountIsCardinality<K>(keys: seq<K>, store: set<K>)
    ensures NewCount(keys, store) == |SetOf(keys) - store|
  {
    if keys != [] {
      var k, before := keys[|keys| - 1], keys[..|keys| - 1];
      NewCountIsCardinality(before, store);
      var news := SetOf(before) - store;
      assert keys == before + [k];
      if k in store || k in before {
        assert SetOf(keys) - store == news;
      } else {
        assert SetOf(keys) - store == news + {k} && k !in news;
      }
    }
  }

  lemma NothingNew<K>(keys: seq<K>, store: set<K>)
    requires forall k :: k in keys ==> k in store
    ensures NewCount(keys, store) == 0
  {
    NewCountIsCardinality(keys, store);
    assert SetOf(keys) - store == {};
  }

  lemma OneMoreDistinct<K>(keys: seq<K>, k: K, store: set<K>)
    ensures NewKeysDistinct(keys + [k], store) <==> NewKeysDistinct(keys, store) && (k in store || k !in keys)
  {
    var longer := keys + [k];
    if NewKeysDistinct(longer, store) {
      forall i, j | 0 <= i < j < |keys| && keys[i] == keys[j] ensures keys[i] in store {
        assert longer[i] == longer[j];
      }
      if k in keys {
        var i :| 0 <= i < |keys| && keys[i] == k;
        assert longer[i] == longer[|keys|];
      }
    }
  }

  /** The dry count is the number of new keys exactly when no new key repeats; otherwise it is higher. */
  lemma {:induction false} DryCountExactIff<K>(keys: seq<K>, store: set<K>)
    ensures |SetOf(keys) - store| == NewCount(keys, store) <= NotStored(keys, store)
    ensures NewCount(keys, store) == NotStored(keys, store) <==> NewKeysDistinct(keys, store)
  {
    NewCountIsCardinality(keys, store);
    if keys != [] {
      var n := |keys| - 1;
      assert keys == keys[..n] + [keys[n]];
      DryCountExactIff(keys[..n], store);
      OneMoreKey(keys[..n], keys[n], store);
      OneMoreDistinct(keys[..n], keys[n], store);
    }
  }

  // ---- Users -------------------------------------------------------------------------

  /** A trimmed, non-empty address. */
  datatype Email = Email(text: string)

  datatype UserRecord = UserRecord(
    line: nat, email: Option<string>, passwordHash: Option<string>,
    name: Option<string>, globalRoles: Option<seq<string>>, emailVerified: Option<bool>)

  /** What an imported account keeps of its record. */
  datatype Profile = Profile(
    passwordHash: Option<string>, fullName: Option<string>, globalRoles: Option<seq<string>>, emailVerified: bool)

  function ProfileOf(r: UserRecord): Profile {
    Profile(r.passwordHash, r.name, r.globalRoles, r.emailVerified == Some(true))
  }

  /** The profile says what the record says, field by field; an address counts as verified only if the record says so. */
  predicate Keeps(p: Profile, r: UserRecord) {
    && p.passwordHash == r.passwordHash && p.fullName == r.name && p.globalRoles == r.globalRoles
    && (p.emailVerified <==> r.emailVerified.Some? && r.emailVerified.value)
  }

  datatype UserReport = UserReport(created: nat, skippedDuplicate: nat, errors: seq<nat>)

  /** The emails of the records that have one, trimmed. */
  function EmailOf(trim: string -> string, r: UserRecord): Option<Email> {
    if r.email.Some? && trim(r.email.value) != "" then Some(Email(trim(r.email.value))) else None
  }

  function EmailsOf(trim: string -> string, records: seq<UserRecord>): seq<Email> {
    if records == [] then []
    else
      var email := EmailOf(trim, records[|records| - 1]);
      EmailsOf(trim, records[..|records| - 1]) + (if email.Some? then [email.value] else [])
  }

  class UserStore {
    var accounts: map<Email, Profile>

    constructor ()
      ensures accounts == map[]
    {
      accounts := map[];
    }

    /** None of the existing accounts changes; an existing email is refused. */
    method ImportAccount(email: Email, profile: Profile) returns (created: bool)
      modifies this
      ensures created <==> email !in old(accounts)
      ensures accounts == if created then old(accounts)[email := profile] else old(accounts)
    {
      created := email !in accounts;
      if created {
        accounts := accounts[email := profile];
      }
    }
  }

  /** The i-th record is the first with its email. */
  predicate FirstWith(trim: string -> string, records: seq<UserRecord>, i: nat, email: Email)
    requires i < |records|
  {
    EmailOf(trim, records[i]) == Some(email) && forall j :: 0 <= j < i ==> EmailOf(trim, records[j]) != Some(email)
  }

  /** What an import of the given emails into `before` has done and counted. */
  ghost predicate Imported(emails: seq<Email>, before: map<Email, Profile>, after: map<Email, Profile>, created: nat, dryRun: bool)
  {
    && before.Keys <= after.Keys && (forall e :: e in before ==> after[e] == before[e])
    && after.Keys == (if dryRun then before.Keys else before.Keys + SetOf(emails))
    && created == (if dryRun then NotStored(emails, before.Keys) else NewCount(emails, before.Keys))
  }

  /** Every new account has the profile of the first record with its email. */
  ghost predicate FirstRecordDecides(trim: string -> string, records: seq<UserRecord>, before: map<Email, Profile>,
      after: map<Email, Profile>)
  {
    forall e :: e in after && e !in before ==>
      exists i :: 0 <= i < |records| && FirstWith(trim, records, i, e) && Keeps(after[e], records[i])
  }

  lemma DuplicateIsSkipped(emails: seq<Email>, email: Email, before: map<Email, Profile>, after: map<Email, Profile>,
      created: nat, dryRun: bool)
    requires Imported(emails, before, after, created, dryRun) && email in after
    ensures Imported(emails + [email], before, after, created, dryRun)
  {
  }

  lemma NewIsCountedDry(emails: seq<Email>, email: Email, before: map<Email, Profile>, after: map<Email, Profile>, created: nat)
    requires Imported(emails, before, after, created, true) && email !in after
    ensures Imported(emails + [email], before, after, created + 1, true)
  {
  }

  lemma NewIsStored(emails: seq<Email>, email: Email, profile: Profile, before: map<Email, Profile>,
      after: map<Email, Profile>, created: nat)
    requires Imported(emails, before, after, created, false) && email !in after
    ensures Imported(emails + [email], before, after[email := profile], created + 1, false)
  {
  }

  /** The records that give an account its profile stay the first ones when the file goes on. */
  lemma FirstStaysFirst(trim: string -> string, records: seq<UserRecord>, r: UserRecord, before: map<Email, Profile>,
      after: map<Email, Profile>)
    requires FirstRecordDecides(trim, records, before, after)
    ensures FirstRecordDecides(trim, records + [r], before, after)
  {
    var longer := records + [r];
    forall e | e in after && e !in before
      ensures exists i :: 0 <= i < |longer| && FirstWith(trim, longer, i, e) && Keeps(after[e], longer[i])
    {
      var i :| 0 <= i < |records| && FirstWith(trim, records, i, e) && Keeps(after[e], records[i]);
      assert FirstWith(trim, longer, i, e) && longer[i] == records[i];
    }
  }

  lemma {:induction false} EmailIsListed(trim: string -> string, records: seq<UserRecord>, i: nat)
    requires i < |records| && EmailOf(trim, records[i]).Some?
    ensures EmailOf(trim, records[i]).value in EmailsOf(trim, records)
  {
    if i < |records| - 1 {
      EmailIsListed(trim, records[..|records| - 1], i);
    }
  }

  /** A record whose email is not in the store yet is the first one with it. */
  lemma NewIsFirst(trim: string -> string, records: seq<UserRecord>, r: UserRecord, before: map<Email, Profile>,
      after: map<Email, Profile>)
    requires FirstRecordDecides(trim, records, before, after) && SetOf(EmailsOf(trim, records)) <= after.Keys
    requires EmailOf(trim, r).Some? && EmailOf(trim, r).value !in after
    ensures FirstRecordDecides(trim, records + [r], before, after[EmailOf(trim, r).value := ProfileOf(r)])
  {
    var email, longer := EmailOf(trim, r).value, records + [r];
    FirstStaysFirst(trim, records, r, before, after);
    forall j | 0 <= j < |records| ensures EmailOf(trim, records[j]) != Some(email) {
      if EmailOf(trim, records[j]) == Some(email) {
        EmailIsListed(trim, records, j);
        assert false;
      }
    }
    assert FirstWith(trim, longer, |records|, email) && longer[|records|] == r;
  }

  datatype ImportState = ImportState(accounts: map<Email, Profile>, report: UserReport)

  /** One record: without an email an error, with a known one a duplicate, else a new account, which a dry run only counts. */
  function AfterRecord(trim: string -> string, st: ImportState, r: UserRecord, dryRun: bool): ImportState {
    var email := EmailOf(trim, r);
    if email.None? then st.(report := st.report.(errors := st.report.errors + [r.line]))
    else if email.value in st.accounts then st.(report := st.report.(skippedDuplicate := st.report.skippedDuplicate + 1))
    else ImportState(
      if dryRun then st.accounts else st.accounts[email.value := ProfileOf(r)],
      st.report.(created := st.report.created + 1))
  }

  function AfterRecords(trim: string -> string, before: map<Email, Profile>, records: seq<UserRecord>, dryRun: bool): ImportState {
    if records == [] then ImportState(before, UserReport(0, 0, []))
    else AfterRecord(trim, AfterRecords(trim, before, records[..|records| - 1], dryRun), records[|records| - 1], dryRun)
  }

  lemma {:induction false} CountsAddUp(trim: string -> string, before: map<Email, Profile>, records: seq<UserRecord>, dryRun: bool)
    ensures var report := AfterRecords(trim, before, records, dryRun).report;
      && report.created + report.skippedDuplicate + |report.errors| == |records|
      && |report.errors| + |EmailsOf(trim, records)| == |records|
  {
    if records != [] {
      CountsAddUp(trim, before, records[..|records| - 1], dryRun);
    }
  }

  lemma {:induction false} RecordsAreImported(trim: string -> string, before: map<Email, Profile>, records: seq<UserRecord>, dryRun: bool)
    ensures var st := AfterRecords(trim, before, records, dryRun);
      Imported(EmailsOf(trim, records), before, st.accounts, st.report.created, dryRun)
  {
    if records != [] {
      var n := |records| - 1;
      var st, r := AfterRecords(trim, before, records[..n], dryRun), records[n];
      var emails, email := EmailsOf(trim, records[..n]), EmailOf(trim, r);
      RecordsAreImported(trim, before, records[..n], dryRun);
      assert EmailsOf(trim, records) == if email.Some? then emails + [email.value] else emails;
      if email.Some? {
        EmailIsImported(emails, email.value, ProfileOf(r), before, st, dryRun);
      }
    }
  }

  lemma EmailIsImported(emails: seq<Email>, email: Email, profile: Profile, before: map<Email, Profile>, st: ImportState, dryRun: bool)
    requires Imported(emails, before, st.accounts, st.report.created, dryRun)
    ensures email in st.accounts ==> Imported(emails + [email], before, st.accounts, st.report.created, dryRun)
    ensures email !in st.accounts && dryRun ==> Imported(emails + [email], before, st.accounts, st.report.created + 1, dryRun)
    ensures email !in st.accounts && !dryRun ==>
      Imported(emails + [email], before, st.accounts[email := profile], st.report.created + 1, dryRun)
  {
    if email in st.accounts {
      DuplicateIsSkipped(emails, email, before, st.accounts, st.report.created, dryRun);
    } else if dryRun {
      NewIsCountedDry(emails, email, before, st.accounts, st.report.created);
    } else {
      NewIsStored(emails, email, profile, before, st.accounts, st.report.created);
    }
  }

  lemma {:induction false} FirstRecordsDecide(trim: string -> string, before: map<Email, Profile>, records: seq<UserRecord>, dryRun: bool)
    ensures FirstRecordDecides(trim, records, before, AfterRecords(trim, before, records, dryRun).accounts)
  {
    if records != [] {
      var n := |records| - 1;
      var accounts, r := AfterRecords(trim, before, records[..n], dryRun).accounts, records[n];
      var email := EmailOf(trim, r);
      assert records == records[..n] + [r];
      RecordsAreImported(trim, before, records[..n], dryRun);
      FirstRecordsDecide(trim, before, records[..n], dryRun);
      FirstStaysFirst(trim, records[..n], r, before, accounts);
      if email.Some? && email.value !in accounts && !dryRun {
        NewIsFirst(trim, records[..n], r, before, accounts);
      }
    }
  }

  /** A record has an email exactly when trimming leaves something of it, and that is its email. */
  lemma EmailIsTrimmedText(trim: string -> string, r: UserRecord, text: string)
    ensures EmailOf(trim, r) == Some(Email(text)) <==> r.email.Some? && text == trim(r.email.value) && text != ""
  {
  }

  /** `at` holds the positions of the records without an email, in order, and `lines` their line numbers. */
  ghost predicate NamesTheFaulty(trim: string -> string, records: seq<UserRecord>, lines: seq<nat>, at: seq<nat>) {
    && |at| == |lines|
    && (forall i, j :: 0 <= i < j < |at| ==> at[i] < at[j])
    && (forall i :: 0 <= i < |at| ==> at[i] < |records| && EmailOf(trim, records[at[i]]).None? && lines[i] == records[at[i]].line)
    && (forall j :: 0 <= j < |records| && EmailOf(trim, records[j]).None? ==> j in at)
  }

  lemma OneMoreFaulty(trim: string -> string, records: seq<UserRecord>, r: UserRecord, lines: seq<nat>, at: seq<nat>)
    requires NamesTheFaulty(trim, records, lines, at)
    ensures EmailOf(trim, r).Some? ==> NamesTheFaulty(trim, records + [r], lines, at)
    ensures EmailOf(trim, r).None? ==> NamesTheFaulty(trim, records + [r], lines + [r.line], at + [|records|])
  {
    var longer, at' := records + [r], at + [|records|];
    assert forall i :: 0 <= i < |records| ==> longer[i] == records[i];
    forall j | 0 <= j < |records| && EmailOf(trim, longer[j]).None? ensures j in at && j in at' {
      assert longer[j] == records[j];
    }
    assert at'[|at|] == |records|;
  }

  /** The errors of a run are the lines of the records without an email. */
  lemma {:induction false} ErrorsNameTheFaulty(trim: string -> string, before: map<Email, Profile>, records: seq<UserRecord>, dryRun: bool)
    returns (at: seq<nat>)
    ensures NamesTheFaulty(trim, records, AfterRecords(trim, before, records, dryRun).report.errors, at)
  {
    at := [];
    if records != [] {
      var n := |records| - 1;
      at := ErrorsNameTheFaulty(trim, before, records[..n], dryRun);
      OneMoreFaulty(trim, records[..n], records[n], AfterRecords(trim, before, records[..n], dryRun).report.errors, at);
      assert records[..n] + [records[n]] == records;
      at := if EmailOf(trim, records[n]).None? then at + [n] else at;
    }
  }

  /** The import over a store that can import and does not fail. */
  method ImportUsers(store: UserStore, trim: string -> string, records: seq<UserRecord>, dryRun: bool)
    returns (report: UserReport)
    modifies store
    ensures report.created + report.skippedDuplicate + |report.errors| == |records|
    ensures |report.errors| + |EmailsOf(trim, records)| == |records|
    ensures Imported(EmailsOf(trim, records), old(store.accounts), store.accounts, report.created, dryRun)
    ensures !dryRun ==> report.created == |SetOf(EmailsOf(trim, records)) - old(store.accounts).Keys|
    ensures FirstRecordDecides(trim, records, old(store.accounts), store.accounts)
    ensures exists at :: NamesTheFaulty(trim, records, report.errors, at)
  {
    report := UserReport(0, 0, []);
    ghost var before := store.accounts;
    for i := 0 to |records|
      invariant ImportState(store.accounts, report) == AfterRecords(trim, before, records[..i], dryRun)
    {
      var record := records[i];
      assert records[..i + 1][..i] == records[..i];
      var text := if record.email.Some? then trim(record.email.value) else "";
      if text == "" {
        report := report.(errors := report.errors + [record.line]);
        continue;
      }
      var email := Email(text);
      if email in store.accounts {
        report := report.(skippedDuplicate := report.skippedDuplicate + 1);
        continue;
      }
      if dryRun {
        report := report.(created := report.created + 1);
        continue;
      }
      var created := store.ImportAccount(email,
        Profile(record.passwordHash, record.name, record.globalRoles, if record.emailVerified.Some? then record.emailVerified.value else false));
      report := report.(
        created := report.created + (if created then 1 else 0),
        skippedDuplicate := report.skippedDuplicate + (if created then 0 else 1));
    }
    assert records[..|records|] == records;
    CountsAddUp(trim, before, records, dryRun);
    RecordsAreImported(trim, before, records, dryRun);
    FirstRecordsDecide(trim, before, records, dryRun);
    ghost var at := ErrorsNameTheFaulty(trim, before, records, dryRun);
    NewCountIsCardinality(EmailsOf(trim, records), before.Keys);
  }

  /** Dry run, real run, real run again: the first two agree exactly when no new email repeats, the last creates nothing. */
  method DryThenRealThenAgain(store: UserStore, trim: string -> string, records: seq<UserRecord>)
    returns (dry: UserReport, first: UserReport, second: UserReport)
    modifies store
    ensures dry.created == NotStored(EmailsOf(trim, records), old(store.accounts).Keys)
    ensures first.created == |SetOf(EmailsOf(trim, records)) - old(store.accounts).Keys|
    ensures dry.created == first.created <==> NewKeysDistinct(EmailsOf(trim, records), old(store.accounts).Keys)
    ensures dry.created >= first.created && second.created == 0
    ensures store.accounts.Keys == old(store.accounts).Keys + SetOf(EmailsOf(trim, records))
  {
    ghost var emails, before := EmailsOf(trim, records), store.accounts.Keys;
    dry := ImportUsers(store, trim, records, true);
    first := ImportUsers(store, trim, records, false);
    DryCountExactIff(emails, before);
    second := ImportUsers(store, trim, records, false);
    NothingNew(emails, before + SetOf(emails));
  }

  // ---- Clients -----------------------------------------------------------------------

  datatype ClientConfig = ClientConfig(clientId: string, secret: Option<string>, authMethod: Option<string>,
    redirectUris: Option<seq<string>>, postLogoutRedirectUris: Option<seq<string>>, grants: Option<seq<string>>,
    logoutUri: Option<string>, sessionRequired: Option<bool>)

  datatype ClientsReport = ClientsReport(created: nat, skipped: nat)

  function InputFor(c: ClientConfig): AdminClients.ClientInput {
    AdminClients.ClientInput(
      Some(c.clientId),
      AdminClients.OrElse(c.redirectUris, []),
      AdminClients.OrElse(c.postLogoutRedirectUris, []),
      AdminClients.OrElse(c.grants, AdminClients.DEFAULT_GRANTS),
      AdminClients.OrElse(c.authMethod,
        if Truthy(c.secret) then AdminClients.DEFAULT_AUTH_METHOD else AdminClients.PUBLIC_AUTH_METHOD),
      c.logoutUri,
      c.sessionRequired)
  }

  function Ids(clients: seq<ClientConfig>): seq<string> {
    if clients == [] then [] else Ids(clients[..|clients| - 1]) + [clients[|clients| - 1].clientId]
  }

  /** One record of a real import. */
  function ImportedOne(trim: string -> string, store: map<string, AdminClients.Payload>, c: ClientConfig, random: string):
    map<string, AdminClients.Payload>
  {
    if c.clientId in store then store
    else store[AdminClients.IdFor(trim, Some(c.clientId), random) := AdminClients.Created(InputFor(c), c.secret, random)]
  }

  predicate Trimmed(trim: string -> string, id: string) {
    trim(id) == id && id != ""
  }

  /** Importing one record leaves every stored client as it is exactly unless its untrimmed id hides a stored one that differs. */
  lemma ImportOverwritesIff(trim: string -> string, store: map<string, AdminClients.Payload>, c: ClientConfig, random: string)
    requires random !in store
    ensures (forall id :: id in store ==>
        id in ImportedOne(trim, store, c, random) && ImportedOne(trim, store, c, random)[id] == store[id])
       <==> c.clientId in store || trim(c.clientId) == "" || trim(c.clientId) !in store
            || store[trim(c.clientId)] == AdminClients.Created(InputFor(c), c.secret, random)
  {
  }

  /** The auth method a record gets: its own, or the one that fits its having a secret. */
  function MethodOf(c: ClientConfig): string {
    match c.authMethod
    case Some(m) => m
    case None => if c.secret.Some? && c.secret.value != "" then "client_secret_basic" else "none"
  }

  /** What an imported record stores, field by field, its secret included. */
  predicate StoresRecord(p: AdminClients.Payload, c: ClientConfig, random: string) {
    && p.redirectUris == (if c.redirectUris.Some? then c.redirectUris else Some([]))
    && p.postLogoutRedirectUris == (if c.postLogoutRedirectUris.Some? then c.postLogoutRedirectUris else Some([]))
    && p.grantTypes == (if c.grants in {None, Some([])} then Some(["authorization_code", "refresh_token"]) else c.grants)
    && p.authMethod == Some(MethodOf(c))
    && p.secret == (if MethodOf(c) == "none" || c.secret == Some("") then None else if c.secret.Some? then c.secret else Some(random))
    && p.logoutUri == (if c.logoutUri == Some("") then None else c.logoutUri)
    && p.sessionRequired == (if p.logoutUri.Some? then c.sessionRequired else None)
  }

  /** A record that is not known under its id as written is stored under its trimmed id, or else a drawn one. */
  lemma ImportStoresTheRecord(trim: string -> string, store: map<string, AdminClients.Payload>, c: ClientConfig, random: string)
    requires c.clientId !in store && random != ""
    ensures var id := if trim(c.clientId) != "" then trim(c.clientId) else random;
      var after := ImportedOne(trim, store, c, random);
      && id in after && StoresRecord(after[id], c, random)
      && after == store[id := after[id]]
  {
    AdminClients.CreatedStores(InputFor(c), c.secret, random);
  }

  /** A real import: record after record, `random(i)` being what the service draws for the i-th. */
  function ImportedAll(trim: string -> string, store: map<string, AdminClients.Payload>, clients: seq<ClientConfig>,
      random: nat -> string): map<string, AdminClients.Payload>
  {
    if clients == [] then store
    else
      var n := |clients| - 1;
      ImportedOne(trim, ImportedAll(trim, store, clients[..n], random), clients[n], random(n))
  }

  function CreatedCount(trim: string -> string, store: map<string, AdminClients.Payload>, clients: seq<ClientConfig>,
      random: nat -> string): nat
  {
    if clients == [] then 0
    else
      var n := |clients| - 1;
      CreatedCount(trim, store, clients[..n], random)
        + (if clients[n].clientId in ImportedAll(trim, store, clients[..n], random) then 0 else 1)
  }

  method ImportClients(clients: seq<ClientConfig>, svc: AdminClients.AdminClientsService, dryRun: bool, random: nat -> string)
    returns (report: ClientsReport)
    modifies svc
    ensures report.created + report.skipped == |clients|
    ensures dryRun ==> svc.clients == old(svc.clients) && report.created == NotStored(Ids(clients), old(svc.clients).Keys)
    ensures !dryRun ==> svc.clients == ImportedAll(svc.trim, old(svc.clients), clients, random)
    ensures !dryRun ==> report.created == CreatedCount(svc.trim, old(svc.clients), clients, random)
  {
    report := ClientsReport(0, 0);
    ghost var before := svc.clients;
    for i := 0 to |clients|
      invariant report.created + report.skipped == i
      invariant dryRun ==> svc.clients == before && report.created == NotStored(Ids(clients[..i]), before.Keys)
      invariant !dryRun ==> svc.clients == ImportedAll(svc.trim, before, clients[..i], random)
      invariant !dryRun ==> report.created == CreatedCount(svc.trim, before, clients[..i], random)
    {
      var client := clients[i];
      assert clients[..i + 1][..i] == clients[..i];
      if dryRun {
        OneMoreKey(Ids(clients[..i]), client.clientId, before.Keys);
      }
      var found := svc.Find(client.clientId);
      if found.Some? {
        report := report.(skipped := report.skipped + 1);
        continue;
      }
      if dryRun {
        report := report.(created := report.created + 1);
        continue;
      }
      var authMethod := if client.authMethod.Some? then client.authMethod.value
        else if Truthy(client.secret) then "client_secret_basic" else "none";
      var input := AdminClients.ClientInput(
        Some(client.clientId),
        if client.redirectUris.Some? then client.redirectUris.value else [],
        if client.postLogoutRedirectUris.Some? then client.postLogoutRedirectUris.value else [],
        if client.grants.Some? then client.grants.value else ["authorization_code", "refresh_token"],
        authMethod, client.logoutUri, client.sessionRequired);
      assert input == InputFor(client);
      var _, _ := svc.CreateWithSecret(input, client.secret, random(i), random(i));
      report := report.(created := report.created + 1);
    }
    assert clients[..|clients|] == clients;
  }

  lemma TrimmedOne(trim: string -> string, store: map<string, AdminClients.Payload>, c: ClientConfig, random: string)
    requires Trimmed(trim, c.clientId)
    ensures ImportedOne(trim, store, c, random).Keys == store.Keys + {c.clientId}
    ensures forall id :: id in store ==> ImportedOne(trim, store, c, random)[id] == store[id]
  {
  }

  /** With trimmed ids a real import creates each new id once, keeps every stored client, and repeats as a no-op. */
  lemma {:induction false} TrimmedImport(trim: string -> string, store: map<string, AdminClients.Payload>,
      clients: seq<ClientConfig>, random: nat -> string)
    requires forall i :: 0 <= i < |clients| ==> Trimmed(trim, clients[i].clientId)
    ensures var after := ImportedAll(trim, store, clients, random);
      && after.Keys == store.Keys + SetOf(Ids(clients))
      && (forall id :: id in store ==> after[id] == store[id])
      && CreatedCount(trim, store, clients, random) == NewCount(Ids(clients), store.Keys)
  {
    if clients != [] {
      var n := |clients| - 1;
      var ids, id := Ids(clients[..n]), clients[n].clientId;
      var before := ImportedAll(trim, store, clients[..n], random);
      TrimmedImport(trim, store, clients[..n], random);
      OneMoreKey(ids, id, store.Keys);
      TrimmedOne(trim, before, clients[n], random(n));
      assert SetOf(ids + [id]) == SetOf(ids) + {id};
      assert id in before <==> id in store || id in ids;
    }
  }

  /** With trimmed ids, every client that an import adds stores the first record with its id. */
  lemma {:induction false} FirstClientDecides(trim: string -> string, store: map<string, AdminClients.Payload>,
      clients: seq<ClientConfig>, random: nat -> string, id: string) returns (i: nat)
    requires forall j :: 0 <= j < |clients| ==> Trimmed(trim, clients[j].clientId) && random(j) != ""
    requires id !in store && id in ImportedAll(trim, store, clients, random)
    ensures i < |clients| && clients[i].clientId == id && forall j :: 0 <= j < i ==> clients[j].clientId != id
    ensures StoresRecord(ImportedAll(trim, store, clients, random)[id], clients[i], random(i))
  {
    var n := |clients| - 1;
    var before := ImportedAll(trim, store, clients[..n], random);
    TrimmedImport(trim, store, clients[..n], random);
    if id in before {
      i := FirstClientDecides(trim, store, clients[..n], random, id);
      TrimmedOne(trim, before, clients[n], random(n));
    } else {
      i := n;
      ImportStoresTheRecord(trim, before, clients[n], random(n));
      forall j | 0 <= j < n ensures clients[j].clientId != id {
        IdIsListed(clients[..n], j);
        assert Ids(clients[..n])[j] in SetOf(Ids(clients[..n]));
      }
    }
  }

  lemma {:induction false} IdIsListed(clients: seq<ClientConfig>, j: nat)
    requires j < |clients|
    ensures |Ids(clients)| == |clients| && Ids(clients)[j] == clients[j].clientId
  {
    if |clients| > 1 {
      IdIsListed(clients[..|clients| - 1], if j < |clients| - 1 then j else 0);
    }
  }

  /** A real run creates one client per new id; the dry count agrees exactly when none repeats; a second real run creates nothing. */
  lemma DryAndRealClientsAgreeIff(trim: string -> string, store: map<string, AdminClients.Payload>,
      clients: seq<ClientConfig>, random: nat -> string, again: nat -> string)
    requires forall i :: 0 <= i < |clients| ==> Trimmed(trim, clients[i].clientId)
    ensures CreatedCount(trim, store, clients, random) == |SetOf(Ids(clients)) - store.Keys|
    ensures NotStored(Ids(clients), store.Keys) == CreatedCount(trim, store, clients, random)
       <==> NewKeysDistinct(Ids(clients), store.Keys)
    ensures CreatedCount(trim, ImportedAll(trim, store, clients, random), clients, again) == 0
  {
    var after := ImportedAll(trim, store, clients, random);
    TrimmedImport(trim, store, clients, random);
    DryCountExactIff(Ids(clients), store.Keys);
    TrimmedImport(trim, after, clients, again);
    assert forall k :: k in Ids(clients) ==> k in SetOf(Ids(clients));
    NothingNew(Ids(clients), after.Keys);
  }
}
