/**
 * The inactivity scan: pages through the accounts, sorts out the expired and the soon-expiring
 * ones, and warns at most once per warning window, with its own audit records as memory.
 */
module ExpireScan {
  import opened Wrappers

  const DAY_MS := 86400000
  const PAGE_LIMIT := 100

  datatype Account = Account(id: string, email: string)

  datatype Settings = Settings(inactiveDays: int, warnDays: int)

  predicate Valid(cfg: Settings) {
    cfg.inactiveDays >= 1 && cfg.warnDays >= 0
  }

  /** An `account.expiration_warned` record. */
  datatype Warning = Warning(accountId: string, at: int)

  datatype Expired = Expired(accountId: string, email: string, daysAgo: int)

  datatype Expiring = Expiring(accountId: string, email: string, expiresInDays: int)

  datatype Verdict = Active | IsExpired(daysAgo: int) | ExpiresSoon(inDays: int)

  /** The quotient rounded up. */
  function CeilDiv(a: int, b: int): int
    requires b > 0
  {
    -((-a) / b)
  }

  /** `last` is the newest login, None for an account that never logged in. */
  function Judge(cfg: Settings, now: int, last: Option<int>): Verdict {
    if last.None? then Active
    else if last.value < now - cfg.inactiveDays * DAY_MS then IsExpired((now - last.value) / DAY_MS)
    else if cfg.warnDays > 0 && last.value < now - (cfg.inactiveDays - cfg.warnDays) * DAY_MS
    then ExpiresSoon(CeilDiv(last.value + cfg.inactiveDays * DAY_MS - now, DAY_MS))
    else Active
  }

  /** What the numbers in the report mean. */
  lemma VerdictMeaning(cfg: Settings, now: int, last: int)
    requires Valid(cfg)
    ensures var v := Judge(cfg, now, Some(last));
      && (v.IsExpired? <==> now - last > cfg.inactiveDays * DAY_MS)
      && (v.IsExpired? ==> v.daysAgo >= cfg.inactiveDays && v.daysAgo * DAY_MS <= now - last < (v.daysAgo + 1) * DAY_MS)
      && (v.ExpiresSoon? <==>
            cfg.warnDays > 0 && cfg.inactiveDays * DAY_MS >= now - last > (cfg.inactiveDays - cfg.warnDays) * DAY_MS)
      && (v.ExpiresSoon? ==>
            && 0 <= v.inDays <= cfg.warnDays
            && var left := cfg.inactiveDays * DAY_MS - (now - last); (v.inDays - 1) * DAY_MS < left <= v.inDays * DAY_MS)
    ensures Judge(cfg, now, None) == Active
  {
  }

  // ---- The audit log as memory -------------------------------------------------------

  /** The newest warning of the account, however the log breaks ties. */
  function LastWarned(log: seq<Warning>, accountId: string): Option<int> {
    if log == [] then None
    else
      var w, earlier := log[|log| - 1], LastWarned(log[..|log| - 1], accountId);
      if w.accountId != accountId then earlier
      else if earlier.Some? && earlier.value > w.at then earlier else Some(w.at)
  }

  predicate WarnedRecently(log: seq<Warning>, accountId: string, warnDays: int, now: int) {
    var last := LastWarned(log, accountId);
    last.Some? && now - last.value < warnDays * DAY_MS
  }

  class Audit {
    var warnings: seq<Warning>
    var lastLogin: string -> Option<int>

    constructor (lastLogin: string -> Option<int>)
      ensures this.lastLogin == lastLogin && warnings == []
    {
      this.lastLogin, warnings := lastLogin, [];
    }

    method Record(accountId: string, now: int)
      modifies this`warnings
      ensures warnings == old(warnings) + [Warning(accountId, now)]
    {
      warnings := warnings + [Warning(accountId, now)];
    }
  }

  // ---- One scan ----------------------------------------------------------------------

  datatype ScanResult = ScanResult(expired: seq<Expired>, warnSoon: seq<Expiring>, warned: nat, deduped: nat, scanned: nat)

  /** The specification of the two lists: the accounts of each verdict, in list order. */
  function ExpiredOf(cfg: Settings, now: int, accounts: seq<Account>, lastLogin: string -> Option<int>): seq<Expired> {
    if accounts == [] then []
    else
      var a := accounts[|accounts| - 1];
      var v := Judge(cfg, now, lastLogin(a.id));
      ExpiredOf(cfg, now, accounts[..|accounts| - 1], lastLogin) + (if v.IsExpired? then [Expired(a.id, a.email, v.daysAgo)] else [])
  }

  function ExpiringOf(cfg: Settings, now: int, accounts: seq<Account>, lastLogin: string -> Option<int>): seq<Expiring> {
    if accounts == [] then []
    else
      var a := accounts[|accounts| - 1];
      var v := Judge(cfg, now, lastLogin(a.id));
      ExpiringOf(cfg, now, accounts[..|accounts| - 1], lastLogin) + (if v.ExpiresSoon? then [Expiring(a.id, a.email, v.inDays)] else [])
  }

  /** Last seen too long ago. */
  predicate Lapsed(cfg: Settings, now: int, last: Option<int>) {
    last.Some? && now - last.value > cfg.inactiveDays * 86400000
  }

  /** Still active, but not for longer than the warning time. */
  predicate LapsesSoon(cfg: Settings, now: int, last: Option<int>) {
    && last.Some? && cfg.warnDays > 0
    && cfg.inactiveDays * 86400000 >= now - last.value > (cfg.inactiveDays - cfg.warnDays) * 86400000
  }

  /** The entry names the account and gives the full days since its last login. */
  predicate TellsLapse(e: Expired, a: Account, now: int, last: Option<int>) {
    && e.accountId == a.id && e.email == a.email
    && last.Some? && e.daysAgo * 86400000 <= now - last.value < (e.daysAgo + 1) * 86400000
  }

  /** The entry names the account and gives the days it has left, rounded up. */
  predicate TellsDaysLeft(cfg: Settings, e: Expiring, a: Account, now: int, last: Option<int>) {
    && e.accountId == a.id && e.email == a.email && last.Some?
    && var left := cfg.inactiveDays * 86400000 - (now - last.value); (e.expiresInDays - 1) * 86400000 < left <= e.expiresInDays * 86400000
  }

  predicate Increasing(at: seq<nat>) {
    forall i, j :: 0 <= i < j < |at| ==> at[i] < at[j]
  }

  /** `at` holds the list positions of the entries: in order, and every lapsed account once. */
  ghost predicate NamesTheLapsed(list: seq<Expired>, at: seq<nat>, cfg: Settings, now: int, accounts: seq<Account>, lastLogin: string -> Option<int>) {
    && |at| == |list| && Increasing(at)
    && (forall i :: 0 <= i < |at| ==> at[i] < |accounts| && Lapsed(cfg, now, lastLogin(accounts[at[i]].id)))
    && (forall i :: 0 <= i < |at| ==> at[i] < |accounts| && TellsLapse(list[i], accounts[at[i]], now, lastLogin(accounts[at[i]].id)))
    && (forall j :: 0 <= j < |accounts| && Lapsed(cfg, now, lastLogin(accounts[j].id)) ==> j in at)
  }

  ghost predicate NamesTheSoonLapsed(list: seq<Expiring>, at: seq<nat>, cfg: Settings, now: int, accounts: seq<Account>,
      lastLogin: string -> Option<int>)
  {
    && |at| == |list| && Increasing(at)
    && (forall i :: 0 <= i < |at| ==> at[i] < |accounts| && LapsesSoon(cfg, now, lastLogin(accounts[at[i]].id)))
    && (forall i :: 0 <= i < |at| ==> at[i] < |accounts| && TellsDaysLeft(cfg, list[i], accounts[at[i]], now, lastLogin(accounts[at[i]].id)))
    && (forall j :: 0 <= j < |accounts| && LapsesSoon(cfg, now, lastLogin(accounts[j].id)) ==> j in at)
  }

  lemma OneMoreLapsed(list: seq<Expired>, at: seq<nat>, cfg: Settings, now: int, accounts: seq<Account>, a: Account,
      lastLogin: string -> Option<int>, e: Expired)
    requires NamesTheLapsed(list, at, cfg, now, accounts, lastLogin)
    ensures !Lapsed(cfg, now, lastLogin(a.id)) ==> NamesTheLapsed(list, at, cfg, now, accounts + [a], lastLogin)
    ensures Lapsed(cfg, now, lastLogin(a.id)) && TellsLapse(e, a, now, lastLogin(a.id)) ==>
      NamesTheLapsed(list + [e], at + [|accounts|], cfg, now, accounts + [a], lastLogin)
  {
    var longer, at' := accounts + [a], at + [|accounts|];
    assert forall i :: 0 <= i < |accounts| ==> longer[i] == accounts[i];
    forall j | 0 <= j < |longer| && Lapsed(cfg, now, lastLogin(longer[j].id)) && j < |accounts| ensures j in at && j in at' {
      assert longer[j] == accounts[j];
    }
    assert at'[|at|] == |accounts|;
  }

  lemma OneMoreSoonLapsed(list: seq<Expiring>, at: seq<nat>, cfg: Settings, now: int, accounts: seq<Account>, a: Account,
      lastLogin: string -> Option<int>, e: Expiring)
    requires NamesTheSoonLapsed(list, at, cfg, now, accounts, lastLogin)
    ensures !LapsesSoon(cfg, now, lastLogin(a.id)) ==> NamesTheSoonLapsed(list, at, cfg, now, accounts + [a], lastLogin)
    ensures LapsesSoon(cfg, now, lastLogin(a.id)) && TellsDaysLeft(cfg, e, a, now, lastLogin(a.id)) ==>
      NamesTheSoonLapsed(list + [e], at + [|accounts|], cfg, now, accounts + [a], lastLogin)
  {
    var longer, at' := accounts + [a], at + [|accounts|];
    assert forall i :: 0 <= i < |accounts| ==> longer[i] == accounts[i];
    forall j | 0 <= j < |longer| && LapsesSoon(cfg, now, lastLogin(longer[j].id)) && j < |accounts| ensures j in at && j in at' {
      assert longer[j] == accounts[j];
    }
    assert at'[|at|] == |accounts|;
  }

  lemma LapsedVerdict(cfg: Settings, now: int, a: Account, last: Option<int>)
    requires Valid(cfg)
    ensures var v := Judge(cfg, now, last);
      && (v.IsExpired? <==> Lapsed(cfg, now, last))
      && (v.IsExpired? ==> TellsLapse(Expired(a.id, a.email, v.daysAgo), a, now, last))
      && (v.ExpiresSoon? <==> LapsesSoon(cfg, now, last))
      && (v.ExpiresSoon? ==> TellsDaysLeft(cfg, Expiring(a.id, a.email, v.inDays), a, now, last))
  {
    if last.Some? {
      VerdictMeaning(cfg, now, last.value);
    }
  }

  lemma ListsExtend(cfg: Settings, now: int, accounts: seq<Account>, a: Account, lastLogin: string -> Option<int>)
    ensures var v := Judge(cfg, now, lastLogin(a.id));
      && ExpiredOf(cfg, now, accounts + [a], lastLogin)
           == ExpiredOf(cfg, now, accounts, lastLogin) + (if v.IsExpired? then [Expired(a.id, a.email, v.daysAgo)] else [])
      && ExpiringOf(cfg, now, accounts + [a], lastLogin)
           == ExpiringOf(cfg, now, accounts, lastLogin) + (if v.ExpiresSoon? then [Expiring(a.id, a.email, v.inDays)] else [])
  {
    assert (accounts + [a])[..|accounts|] == accounts;
  }

  /** The expired list names exactly the lapsed accounts, in list order, with their address and the full days since. */
  lemma {:induction false} ExpiredAreTheLapsed(cfg: Settings, now: int, accounts: seq<Account>, lastLogin: string -> Option<int>)
    returns (at: seq<nat>)
    requires Valid(cfg)
    ensures NamesTheLapsed(ExpiredOf(cfg, now, accounts, lastLogin), at, cfg, now, accounts, lastLogin)
  {
    at := [];
    if accounts != [] {
      var n := |accounts| - 1;
      var a, last := accounts[n], lastLogin(accounts[n].id);
      at := ExpiredAreTheLapsed(cfg, now, accounts[..n], lastLogin);
      var v := Judge(cfg, now, last);
      var e := Expired(a.id, a.email, if v.IsExpired? then v.daysAgo else 0);
      LapsedVerdict(cfg, now, a, last);
      OneMoreLapsed(ExpiredOf(cfg, now, accounts[..n], lastLogin), at, cfg, now, accounts[..n], a, lastLogin, e);
      ListsExtend(cfg, now, accounts[..n], a, lastLogin);
      assert accounts[..n] + [a] == accounts;
      at := if v.IsExpired? then at + [n] else at;
    }
  }

  /** The warning list names exactly the accounts that lapse soon, in list order, with the days left rounded up. */
  lemma {:induction false} ExpiringAreTheSoonLapsed(cfg: Settings, now: int, accounts: seq<Account>, lastLogin: string -> Option<int>)
    returns (at: seq<nat>)
    requires Valid(cfg)
    ensures NamesTheSoonLapsed(ExpiringOf(cfg, now, accounts, lastLogin), at, cfg, now, accounts, lastLogin)
  {
    at := [];
    if accounts != [] {
      var n := |accounts| - 1;
      var a, last := accounts[n], lastLogin(accounts[n].id);
      at := ExpiringAreTheSoonLapsed(cfg, now, accounts[..n], lastLogin);
      var v := Judge(cfg, now, last);
      var e := Expiring(a.id, a.email, if v.ExpiresSoon? then v.inDays else 0);
      LapsedVerdict(cfg, now, a, last);
      OneMoreSoonLapsed(ExpiringOf(cfg, now, accounts[..n], lastLogin), at, cfg, now, accounts[..n], a, lastLogin, e);
      ListsExtend(cfg, now, accounts[..n], a, lastLogin);
      assert accounts[..n] + [a] == accounts;
      at := if v.ExpiresSoon? then at + [n] else at;
    }
  }

  /** Every warning of the log comes at least a window after the account's earlier ones. */
  ghost predicate Spaced(log: seq<Warning>, warnDays: int) {
    forall i, j :: 0 <= i < j < |log| && log[i].accountId == log[j].accountId ==> log[j].at - log[i].at >= warnDays * 86400000
  }

  predicate NotAfter(log: seq<Warning>, now: int) {
    forall i :: 0 <= i < |log| ==> log[i].at <= now
  }

  lemma {:induction false} LastWarnedIsNewest(log: seq<Warning>, accountId: string)
    ensures forall i :: 0 <= i < |log| && log[i].accountId == accountId ==>
      LastWarned(log, accountId).Some? && log[i].at <= LastWarned(log, accountId).value
  {
    if log != [] {
      LastWarnedIsNewest(log[..|log| - 1], accountId);
    }
  }

  /** A record written after a check that found no recent warning keeps the log spaced. */
  lemma RecordKeepsSpacing(log: seq<Warning>, accountId: string, warnDays: int, checkedAt: int, recordedAt: int)
    requires Spaced(log, warnDays) && !WarnedRecently(log, accountId, warnDays, checkedAt) && checkedAt <= recordedAt
    ensures Spaced(log + [Warning(accountId, recordedAt)], warnDays)
  {
    LastWarnedIsNewest(log, accountId);
  }

  /** Some warning of the account is newer than `since`. */
  ghost predicate WarnedSince(log: seq<Warning>, accountId: string, since: int) {
    exists i :: 0 <= i < |log| && log[i].accountId == accountId && log[i].at > since
  }

  lemma {:induction false} LastWarnedExists(log: seq<Warning>, accountId: string)
    requires LastWarned(log, accountId).Some?
    ensures exists i :: 0 <= i < |log| && log[i] == Warning(accountId, LastWarned(log, accountId).value)
  {
    if log[|log| - 1] != Warning(accountId, LastWarned(log, accountId).value) {
      LastWarnedExists(log[..|log| - 1], accountId);
    }
  }

  /** A longer log remembers what the shorter one did. */
  lemma StillWarned(log: seq<Warning>, longer: seq<Warning>, accountId: string, since: int)
    requires log <= longer && WarnedSince(log, accountId, since)
    ensures WarnedSince(longer, accountId, since)
  {
  }

  /** A clock that never runs backwards, read by number. */
  type Clock = nat -> int

  ghost predicate Monotone(clock: Clock) {
    forall i, j :: i <= j ==> clock(i) <= clock(j)
  }

  class Scanner {
    const cfg: Settings
    const audit: Audit
    const clock: Clock
    var ticks: nat

    constructor (cfg: Settings, audit: Audit, clock: Clock)
      ensures this.cfg == cfg && this.audit == audit && this.clock == clock && ticks == 0
    {
      this.cfg, this.audit, this.clock, ticks := cfg, audit, clock, 0;
    }

    method Now() returns (t: int)
      modifies this`ticks
      ensures ticks == old(ticks) + 1 && t == clock(old(ticks))
    {
      t := clock(ticks);
      ticks := ticks + 1;
    }

    /** The memory is sound: spaced, and not from the future. */
    ghost predicate Sound()
      reads this, audit
    {
      Valid(cfg) && Monotone(clock) && Spaced(audit.warnings, cfg.warnDays) && NotAfter(audit.warnings, clock(ticks))
    }

    /** Warns unless warned recently; mail that fails is silent, the record is written all the same. */
    method WarnOnce(accountId: string, ghost start: int) returns (warned: bool)
      requires Sound() && start <= clock(ticks) && cfg.warnDays > 0
      modifies this`ticks, audit`warnings
      ensures Sound()
      ensures start <= clock(ticks)
      ensures warned ==> |audit.warnings| == |old(audit.warnings)| + 1 && old(audit.warnings) <= audit.warnings
      ensures warned ==> audit.warnings[|old(audit.warnings)|].accountId == accountId
      ensures !warned ==> audit.warnings == old(audit.warnings)
      ensures WarnedSince(audit.warnings, accountId, start - cfg.warnDays * DAY_MS)
    {
      ghost var log := audit.warnings;
      var checkedAt := Now();
      if WarnedRecently(audit.warnings, accountId, cfg.warnDays, checkedAt) {
        LastWarnedExists(log, accountId);
        return false;
      }
      var recordedAt := Now();
      audit.Record(accountId, recordedAt);
      RecordKeepsSpacing(log, accountId, cfg.warnDays, checkedAt, recordedAt);
      assert audit.warnings[|log|] == Warning(accountId, recordedAt);
      return true;
    }

    /** `list` answers `listAccounts`; `accounts` is the stable list behind it. */
    ghost predicate Lists(list: nat -> seq<Account>, accounts: seq<Account>) {
      forall p: nat :: p >= 1 ==> list(p) == Page(accounts, p)
    }

    method RunExpireScan(warn: bool, dryRun: bool, list: nat -> seq<Account>, ghost accounts: seq<Account>)
      returns (result: ScanResult, ghost now: int)
      requires Sound() && Lists(list, accounts)
      modifies this`ticks, audit`warnings
      ensures Sound() && now == clock(old(ticks))
      ensures result.scanned == |accounts|
      ensures result.expired == ExpiredOf(cfg, now, accounts, audit.lastLogin)
      ensures result.warnSoon == ExpiringOf(cfg, now, accounts, audit.lastLogin)
      ensures result.warned + result.deduped == if warn && !dryRun then |result.warnSoon| else 0
      ensures |audit.warnings| == |old(audit.warnings)| + result.warned
      ensures old(audit.warnings) <= audit.warnings
      ensures warn && !dryRun ==> AllWarned(result.warnSoon, now)
    {
      var nowMs := Now();
      now := nowMs;
      result := ScanResult([], [], 0, 0, 0);
      var page := 1;
      ghost var done := 0;
      ghost var log := audit.warnings;
      while true
        invariant page >= 1 && done == (page - 1) * PAGE_LIMIT <= |accounts|
        invariant ScannedSoFar(result, nowMs, accounts[..done], warn && !dryRun, log)
        decreases |accounts| - done
      {
        var batch := list(page);
        PageContinues(accounts, page);
        if |batch| == 0 {
          break;
        }
        result := ScanBatch(result, batch, nowMs, warn && !dryRun, accounts[..done], log);
        done := done + |batch|;
        if |batch| < PAGE_LIMIT {
          break;
        }
        page := page + 1;
      }
    }

    method ScanBatch(before: ScanResult, batch: seq<Account>, nowMs: int, warn: bool,
        ghost scanned: seq<Account>, ghost log: seq<Warning>) returns (result: ScanResult)
      requires ScannedSoFar(before, nowMs, scanned, warn, log)
      modifies this`ticks, audit`warnings
      ensures ScannedSoFar(result, nowMs, scanned + batch, warn, log)
    {
      result := before;
      assert scanned + batch[..0] == scanned;
      for i := 0 to |batch|
        invariant ScannedSoFar(result, nowMs, scanned + batch[..i], warn, log)
      {
        ghost var next := scanned + batch[..i + 1];
        assert next[..|next| - 1] == scanned + batch[..i] && next[|next| - 1] == batch[i];
        result := ScanOne(result, batch[i], nowMs, warn);
      }
      assert batch[..|batch|] == batch;
    }

    /** Everyone on the list has a warning from the window before the scan, or from the scan itself. */
    ghost predicate AllWarned(warnSoon: seq<Expiring>, now: int)
      reads audit
    {
      forall e :: e in warnSoon ==> WarnedSince(audit.warnings, e.accountId, now - cfg.warnDays * DAY_MS)
    }

    /** The state of a scan, begun at `now` with the warnings `log`, after the given accounts. */
    ghost predicate ScannedSoFar(result: ScanResult, now: int, accounts: seq<Account>, warn: bool, log: seq<Warning>)
      reads this, audit
    {
      && Sound() && now <= clock(ticks)
      && result.scanned == |accounts|
      && result.expired == ExpiredOf(cfg, now, accounts, audit.lastLogin)
      && result.warnSoon == ExpiringOf(cfg, now, accounts, audit.lastLogin)
      && result.warned + result.deduped == (if warn then |result.warnSoon| else 0)
      && (warn ==> AllWarned(result.warnSoon, now))
      && log <= audit.warnings && |audit.warnings| == |log| + result.warned
    }

    method ScanOne(before: ScanResult, account: Account, nowMs: int, warn: bool) returns (result: ScanResult)
      requires Sound() && nowMs <= clock(ticks) && (warn ==> AllWarned(before.warnSoon, nowMs))
      modifies this`ticks, audit`warnings
      ensures Sound() && nowMs <= clock(ticks) && (warn ==> AllWarned(result.warnSoon, nowMs))
      ensures var v := Judge(cfg, nowMs, audit.lastLogin(account.id));
        && result.scanned == before.scanned + 1
        && result.expired == before.expired + (if v.IsExpired? then [Expired(account.id, account.email, v.daysAgo)] else [])
        && result.warnSoon == before.warnSoon + (if v.ExpiresSoon? then [Expiring(account.id, account.email, v.inDays)] else [])
        && result.warned + result.deduped == before.warned + before.deduped + (if v.ExpiresSoon? && warn then 1 else 0)
        && result.warned >= before.warned && result.deduped >= before.deduped
      ensures |audit.warnings| == |old(audit.warnings)| + result.warned - before.warned
      ensures old(audit.warnings) <= audit.warnings
    {
      result := before.(scanned := before.scanned + 1);
      var lastMs := audit.lastLogin(account.id);
      if lastMs.None? {
        return;
      }
      if lastMs.value < nowMs - cfg.inactiveDays * DAY_MS {
        result := result.(expired := result.expired + [Expired(account.id, account.email, (nowMs - lastMs.value) / DAY_MS)]);
      } else if cfg.warnDays > 0 && lastMs.value < nowMs - (cfg.inactiveDays - cfg.warnDays) * DAY_MS {
        var days := CeilDiv(lastMs.value + cfg.inactiveDays * DAY_MS - nowMs, DAY_MS);
        result := result.(warnSoon := result.warnSoon + [Expiring(account.id, account.email, days)]);
        if warn {
          ghost var log := audit.warnings;
          var warned := WarnOnce(account.id, nowMs);
          forall e | e in before.warnSoon ensures WarnedSince(audit.warnings, e.accountId, nowMs - cfg.warnDays * DAY_MS) {
            StillWarned(log, audit.warnings, e.accountId, nowMs - cfg.warnDays * DAY_MS);
          }
          if warned {
            result := result.(warned := result.warned + 1);
          } else {
            result := result.(deduped := result.deduped + 1);
          }
        }
      }
    }
  }

  datatype Round = Round(warn: bool, dryRun: bool, list: nat -> seq<Account>, accounts: seq<Account>,
    lastLogin: string -> Option<int>)

  /**
   * Any number of scans, one after the other, over account lists and logins that change in between:
   * two warnings of one account are never closer than the warning window, and after a real warning
   * run everyone on its list has been warned within the window before it or by it.
   */
  method RunScans(cfg: Settings, clock: Clock, rounds: seq<Round>) returns (log: seq<Warning>, last: ScanResult, ghost now: int)
    requires Valid(cfg) && Monotone(clock)
    requires forall r, p: nat :: r in rounds && p >= 1 ==> r.list(p) == Page(r.accounts, p)
    ensures Spaced(log, cfg.warnDays)
    ensures rounds != [] ==> var r := rounds[|rounds| - 1];
      && last.scanned == |r.accounts|
      && last.expired == ExpiredOf(cfg, now, r.accounts, r.lastLogin)
      && last.warnSoon == ExpiringOf(cfg, now, r.accounts, r.lastLogin)
      && (r.warn && !r.dryRun ==> forall e :: e in last.warnSoon ==> WarnedSince(log, e.accountId, now - cfg.warnDays * DAY_MS))
  {
    var audit := new Audit(_ => None);
    var scanner := new Scanner(cfg, audit, clock);
    last, now := ScanResult([], [], 0, 0, 0), 0;
    for i := 0 to |rounds|
      invariant scanner.Sound() && fresh(scanner) && fresh(audit)
      invariant i > 0 ==> var r := rounds[i - 1];
        && last.scanned == |r.accounts|
        && last.expired == ExpiredOf(cfg, now, r.accounts, r.lastLogin)
        && last.warnSoon == ExpiringOf(cfg, now, r.accounts, r.lastLogin)
        && (r.warn && !r.dryRun ==> scanner.AllWarned(last.warnSoon, now))
    {
      var r := rounds[i];
      audit.lastLogin := r.lastLogin;
      last, now := scanner.RunExpireScan(r.warn, r.dryRun, r.list, r.accounts);
    }
    log := audit.warnings;
  }

  function Page(accounts: seq<Account>, p: nat): seq<Account>
    requires p >= 1
  {
    var from := (p - 1) * PAGE_LIMIT;
    if from >= |accounts| then [] else if from + PAGE_LIMIT >= |accounts| then accounts[from..] else accounts[from..from + PAGE_LIMIT]
  }

  /** A page continues the list where the pages before it end; one that is not full ends the list. */
  lemma PageContinues(accounts: seq<Account>, p: nat)
    requires p >= 1 && (p - 1) * PAGE_LIMIT <= |accounts|
    ensures var done, batch := (p - 1) * PAGE_LIMIT, Page(accounts, p);
      && done + |batch| <= |accounts| && |batch| <= PAGE_LIMIT
      && accounts[..done + |batch|] == accounts[..done] + batch
      && (|batch| < PAGE_LIMIT ==> accounts[..done + |batch|] == accounts)
  {
  }
}
