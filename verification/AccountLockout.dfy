/**
 * Progressive account lockout over an assumed limiter: fixed-window counters that `increment`
 * starts and `delete` drops, and keys that `block` holds for a time.
 */
module AccountLockout {
  import opened Wrappers

  datatype LockoutConfig = LockoutConfig(
    enabled: bool, maxAttempts: int, windowSec: int, baseLockoutSec: int, maxLockoutSec: int)

  predicate Sane(cfg: LockoutConfig) {
    cfg.maxAttempts >= 1 && cfg.windowSec >= 1 && 1 <= cfg.baseLockoutSec && 1 <= cfg.maxLockoutSec
  }

  function Pow2(n: nat): (r: nat)
    ensures r >= 1
  {
    if n == 0 then 1 else 2 * Pow2(n - 1)
  }

  function Min(a: int, b: int): int {
    if a <= b then a else b
  }

  /** `computeLockoutSec`: doubles with every lock, up to the cap; a count below 1 reads as 1. */
  function LockoutSec(lockCount: int, cfg: LockoutConfig): int {
    var n := if lockCount < 1 then 1 else lockCount;
    Min(cfg.baseLockoutSec * Pow2(n - 1), cfg.maxLockoutSec)
  }

  // ---- The limiter -------------------------------------------------------------------

  /** `consumed` points in the window that ends at `resetsAt`. */
  datatype Counter = Counter(consumed: nat, resetsAt: int)

  const NO_COUNT := Counter(0, 0)

  /** A live window counts on; otherwise a new window starts now. */
  function Bump(c: Counter, now: int, duration: int): Counter {
    if c.consumed > 0 && now < c.resetsAt then Counter(c.consumed + 1, c.resetsAt) else Counter(1, now + duration)
  }

  class Limiter {
    var now: int
    var counters: map<string, Counter>
    var blocks: map<string, int>

    constructor (now: int)
      ensures this.now == now && counters == map[] && blocks == map[]
    {
      this.now, counters, blocks := now, map[], map[];
    }

    function Count(key: string): Counter
      reads this
    {
      if key in counters then counters[key] else NO_COUNT
    }

    predicate IsBlocked(key: string)
      reads this
    {
      key in blocks && now < blocks[key]
    }

    method Increment(key: string, duration: int) returns (consumed: nat)
      modifies this`counters
      ensures counters == old(counters)[key := Bump(old(Count(key)), now, duration)]
      ensures consumed == counters[key].consumed
    {
      counters := counters[key := Bump(Count(key), now, duration)];
      consumed := counters[key].consumed;
    }

    method Block(key: string, seconds: int)
      modifies this`blocks
      ensures blocks == old(blocks)[key := now + seconds]
    {
      blocks := blocks[key := now + seconds];
    }

    method Delete(key: string)
      modifies this`counters, this`blocks
      ensures counters == old(counters) - {key} && blocks == old(blocks) - {key}
    {
      counters, blocks := counters - {key}, blocks - {key};
    }
  }

  // ---- One account's automaton ---------------------------------------------------------

  datatype Automaton = Automaton(fails: Counter, lockedUntil: Option<int>, locks: Counter)

  const FRESH := Automaton(NO_COUNT, None, NO_COUNT)

  predicate LockedAt(a: Automaton, t: int) {
    a.lockedUntil.Some? && t < a.lockedUntil.value
  }

  /** A failed login at time t. */
  function Failed(cfg: LockoutConfig, a: Automaton, t: int): Automaton {
    if LockedAt(a, t) then a
    else
      var fails := Bump(a.fails, t, cfg.windowSec);
      if fails.consumed < cfg.maxAttempts then a.(fails := fails)
      else
        var locks := Bump(a.locks, t, cfg.maxLockoutSec * 4);
        Automaton(NO_COUNT, Some(t + LockoutSec(locks.consumed, cfg)), locks)
  }

  /** Whether a failed login at time t is the one that locks the account. */
  predicate Locks(cfg: LockoutConfig, a: Automaton, t: int) {
    !LockedAt(a, t) && Bump(a.fails, t, cfg.windowSec).consumed >= cfg.maxAttempts
  }

  function FailKey(email: string): string { "authkit_lockout_fail:" + email }
  function LockKey(email: string): string { "authkit_lockout:" + email }
  function CountKey(email: string): string { "authkit_lockout_count:" + email }

  /** The nine pairings of the three prefixes: a key tells its kind and its account. */
  lemma KeysDistinct(a: string, b: string)
    ensures FailKey(a) != LockKey(b) && FailKey(a) != CountKey(b) && LockKey(a) != CountKey(b)
    ensures a != b ==> FailKey(a) != FailKey(b) && LockKey(a) != LockKey(b) && CountKey(a) != CountKey(b)
  {
    assert LockKey(b)[15] == ':' && LockKey(a)[15] == ':' && FailKey(a)[15] == '_' && CountKey(b)[15] == '_';
    assert FailKey(a)[16] == 'f' && CountKey(b)[16] == 'c';
    assert FailKey(a)[21..] == a && FailKey(b)[21..] == b;
    assert LockKey(a)[16..] == a && LockKey(b)[16..] == b;
    assert CountKey(a)[22..] == a && CountKey(b)[22..] == b;
  }

  lemma KeysOfOthersDiffer(key: string)
    ensures FailKey(key) != LockKey(key) && FailKey(key) != CountKey(key) && LockKey(key) != CountKey(key)
    ensures forall other {:trigger FailKey(other)} {:trigger LockKey(other)} {:trigger CountKey(other)} :: other != key ==>
      FailKey(other) !in {FailKey(key), LockKey(key), CountKey(key)}
      && LockKey(other) !in {FailKey(key), LockKey(key), CountKey(key)}
      && CountKey(other) !in {FailKey(key), LockKey(key), CountKey(key)}
  {
    KeysDistinct(key, key);
    forall other | other != key
      ensures FailKey(other) !in {FailKey(key), LockKey(key), CountKey(key)}
      ensures LockKey(other) !in {FailKey(key), LockKey(key), CountKey(key)}
      ensures CountKey(other) !in {FailKey(key), LockKey(key), CountKey(key)}
    {
      KeysDistinct(key, other);
      KeysDistinct(other, key);
    }
  }

  class AccountLockout {
    const cfg: LockoutConfig
    const limiter: Limiter?
    const normalize: string -> string

    /** `limiter` is null when the host has none; `normalize` trims and lower-cases. */
    constructor (cfg: LockoutConfig, limiter: Limiter?, normalize: string -> string)
      ensures this.cfg == cfg && this.limiter == limiter && this.normalize == normalize
    {
      this.cfg, this.limiter, this.normalize := cfg, limiter, normalize;
    }

    predicate Active(email: string) {
      normalize(email) != "" && cfg.enabled && limiter != null
    }

    /** The three keys of one account, read together. */
    function View(key: string): Automaton
      requires limiter != null
      reads limiter
    {
      Automaton(
        limiter.Count(FailKey(key)),
        if LockKey(key) in limiter.blocks then Some(limiter.blocks[LockKey(key)]) else None,
        limiter.Count(CountKey(key)))
    }

    method IsLocked(email: string) returns (locked: bool, retryAfterSec: int)
      ensures locked <==> Active(email) && LockedAt(View(normalize(email)), limiter.now)
      ensures locked ==> retryAfterSec == View(normalize(email)).lockedUntil.value - limiter.now > 0
    {
      var key := normalize(email);
      if key == "" || !cfg.enabled || limiter == null {
        return false, 0;
      }
      if !limiter.IsBlocked(LockKey(key)) {
        return false, 0;
      }
      return true, limiter.blocks[LockKey(key)] - limiter.now;
    }

    /** `event` is the lock count of the `account.locked` audit event, if this failure locks the account. */
    method RecordFailure(email: string) returns (event: Option<nat>)
      modifies limiter
      ensures !Active(email) ==> event.None? && (limiter != null ==> unchanged(limiter))
      ensures Active(email) ==> limiter.now == old(limiter.now)
      ensures Active(email) ==>
        View(normalize(email)) == Failed(cfg, old(View(normalize(email))), limiter.now)
      ensures Active(email) ==> forall other :: other != normalize(email) ==> View(other) == old(View(other))
      ensures Active(email) ==>
        event == if Locks(cfg, old(View(normalize(email))), limiter.now) then Some(View(normalize(email)).locks.consumed) else None
    {
      var key := normalize(email);
      event := None;
      if key == "" || !cfg.enabled || limiter == null {
        return;
      }
      KeysOfOthersDiffer(key);
      if limiter.IsBlocked(LockKey(key)) {
        return;
      }
      var consumed := limiter.Increment(FailKey(key), cfg.windowSec);
      if consumed < cfg.maxAttempts {
        return;
      }
      var lockCount := limiter.Increment(CountKey(key), cfg.maxLockoutSec * 4);
      limiter.Block(LockKey(key), LockoutSec(lockCount, cfg));
      limiter.Delete(FailKey(key));
      event := Some(lockCount);
    }

    /** Clears the failures and the lock, and keeps the number of past locks. */
    method ClearFailures(email: string)
      modifies limiter
      ensures !Active(email) ==> (limiter != null ==> unchanged(limiter))
      ensures Active(email) ==> limiter.now == old(limiter.now)
      ensures Active(email) ==>
        View(normalize(email)) == Automaton(NO_COUNT, None, old(View(normalize(email))).locks)
      ensures Active(email) ==> forall other :: other != normalize(email) ==> View(other) == old(View(other))
    {
      var key := normalize(email);
      if key == "" || !cfg.enabled || limiter == null {
        return;
      }
      KeysOfOthersDiffer(key);
      limiter.Delete(FailKey(key));
      limiter.Delete(LockKey(key));
    }
  }
}
