/** How much guessing the lockout allows over a run of failed logins of one account. */
module LockoutBounds {
  import opened Wrappers
  import opened AccountLockout

  /** The automaton, with its history: counted failures, lock times, and failure windows that lapsed. */
  datatype History = History(a: Automaton, counted: nat, locks: seq<int>, lapsed: nat)

  function Extend(cfg: LockoutConfig, h: History, t: int): History {
    if LockedAt(h.a, t) then h
    else History(
      Failed(cfg, h.a, t),
      h.counted + 1,
      if Locks(cfg, h.a, t) then h.locks + [t] else h.locks,
      if h.a.fails.consumed > 0 && h.a.fails.resetsAt <= t then h.lapsed + 1 else h.lapsed)
  }

  /** Failed logins at the given times, from a fresh start and without `clearFailures`. */
  function Replay(cfg: LockoutConfig, times: seq<int>): History {
    if times == [] then History(FRESH, 0, [], 0)
    else Extend(cfg, Replay(cfg, times[..|times| - 1]), times[|times| - 1])
  }

  predicate Ordered(times: seq<int>) {
    forall i, j :: 0 <= i < j < |times| ==> times[i] <= times[j]
  }

  /**
   * The history is what the lockout does: failures of one account recorded at the given times, from
   * a fresh start, leave its keys in the replayed state and announce exactly the replayed locks.
   */
  method RecordFailures(lockout: AccountLockout, email: string, times: seq<int>) returns (announced: seq<int>)
    requires lockout.Active(email) && lockout.View(lockout.normalize(email)) == FRESH
    modifies lockout.limiter
    ensures lockout.View(lockout.normalize(email)) == Replay(lockout.cfg, times).a
    ensures announced == Replay(lockout.cfg, times).locks
    ensures forall other :: other != lockout.normalize(email) ==> lockout.View(other) == old(lockout.View(other))
  {
    announced := [];
    var key := lockout.normalize(email);
    for i := 0 to |times|
      invariant lockout.View(key) == Replay(lockout.cfg, times[..i]).a
      invariant announced == Replay(lockout.cfg, times[..i]).locks
      invariant forall other :: other != key ==> lockout.View(other) == old(lockout.View(other))
    {
      assert times[..i + 1][..i] == times[..i];
      lockout.limiter.now := times[i];
      var event := lockout.RecordFailure(email);
      if event.Some? {
        announced := announced + [times[i]];
      }
    }
    assert times[..|times|] == times;
  }

  // ---- When the first lock comes ---------------------------------------------------------

  /** Within one failure window the account locks with failure number maxAttempts, and not before. */
  lemma {:induction false} FirstLockAtTheLimit(cfg: LockoutConfig, times: seq<int>)
    requires Sane(cfg) && Ordered(times) && times != []
    requires times[|times| - 1] < times[0] + cfg.windowSec
    ensures var h := Replay(cfg, times);
      && (|times| < cfg.maxAttempts ==>
            h.locks == [] && h.a == Automaton(Counter(|times|, times[0] + cfg.windowSec), None, NO_COUNT))
      && (|times| >= cfg.maxAttempts ==> h.locks != [] && h.locks[0] == times[cfg.maxAttempts - 1])
  {
    var n := |times| - 1;
    if n == 0 {
      assert Replay(cfg, times[..0]) == History(FRESH, 0, [], 0);
    } else {
      FirstLockAtTheLimit(cfg, times[..n]);
    }
  }

  // ---- How far apart locks are ---------------------------------------------------------

  /** LockoutSec(1) + ... + LockoutSec(n). */
  function TotalLockout(cfg: LockoutConfig, n: nat): int {
    if n == 0 then 0 else TotalLockout(cfg, n - 1) + LockoutSec(n, cfg)
  }

  /** While no lock reaches the cap, the total is the geometric sum. */
  lemma {:induction false} UncappedTotal(cfg: LockoutConfig, n: nat)
    requires Sane(cfg)
    requires n > 0 ==> cfg.baseLockoutSec * Pow2(n - 1) <= cfg.maxLockoutSec
    ensures TotalLockout(cfg, n) == cfg.baseLockoutSec * (Pow2(n) - 1)
  {
    if n > 1 {
      assert cfg.baseLockoutSec * Pow2(n - 2) <= cfg.baseLockoutSec * Pow2(n - 1) by {
        Scaled(cfg.baseLockoutSec, Pow2(n - 2));
      }
      UncappedTotal(cfg, n - 1);
    }
    if n > 0 {
      Geometric(cfg.baseLockoutSec, Pow2(n - 1));
    }
  }

  lemma Scaled(b: int, p: nat)
    requires b >= 0
    ensures b * p <= b * (2 * p)
  {
  }

  lemma Geometric(b: int, p: nat)
    ensures b * (p - 1) + b * p == b * (2 * p - 1)
  {
  }

  /** Locks never shrink and never exceed the cap. */
  lemma LockoutGrows(cfg: LockoutConfig, n: int)
    requires Sane(cfg)
    ensures 1 <= LockoutSec(n, cfg) <= LockoutSec(n + 1, cfg) <= cfg.maxLockoutSec
  {
  }

  /** Below one counts as one; each further lock lasts twice as long as the one before, up to the cap. */
  lemma LockoutDoublesUpToTheCap(cfg: LockoutConfig, n: int)
    requires Sane(cfg)
    ensures n <= 1 ==> LockoutSec(n, cfg) == Min(cfg.baseLockoutSec, cfg.maxLockoutSec)
    ensures n >= 1 ==> LockoutSec(n + 1, cfg) == Min(2 * LockoutSec(n, cfg), cfg.maxLockoutSec)
  {
  }

  /** A lock lasts exactly as long as the uncapped doubling while that is below the cap, and exactly the cap from there on. */
  lemma CappedExactly(cfg: LockoutConfig, n: nat)
    requires Sane(cfg) && n >= 1
    ensures cfg.baseLockoutSec * Pow2(n - 1) <= cfg.maxLockoutSec ==> LockoutSec(n, cfg) == cfg.baseLockoutSec * Pow2(n - 1)
    ensures cfg.baseLockoutSec * Pow2(n - 1) >= cfg.maxLockoutSec ==> LockoutSec(n, cfg) == cfg.maxLockoutSec
  {
  }

  /**
   * The failure that locks is the one that brings its window to the limit while no lock is on; from
   * then on the account is locked exactly for the duration of its new lock count.
   */
  lemma LockLasts(cfg: LockoutConfig, a: Automaton, t: int, later: int)
    requires Sane(cfg) && Locks(cfg, a, t) && t <= later
    ensures var after := Failed(cfg, a, t);
      && (LockedAt(after, later) <==> later < t + LockoutSec(after.locks.consumed, cfg))
      && after.locks.consumed == (if a.locks.consumed > 0 && t < a.locks.resetsAt then a.locks.consumed + 1 else 1)
      && after.fails.consumed == 0
  {
  }

  /** All of the run lies within the window in which the first lock is remembered. */
  ghost predicate OneCountWindow(cfg: LockoutConfig, times: seq<int>) {
    var locks := Replay(cfg, times).locks;
    locks != [] ==> forall i :: 0 <= i < |times| ==> times[i] < locks[0] + cfg.maxLockoutSec * 4
  }

  /** Within the window, each lock is counted and the next one waits for it to end. */
  ghost predicate LocksSpaced(cfg: LockoutConfig, h: History) {
    && h.a.locks.consumed == |h.locks|
    && (h.locks == [] ==> h.a.lockedUntil.None?)
    && (h.locks != [] ==>
          && h.a.locks.resetsAt == h.locks[0] + cfg.maxLockoutSec * 4
          && h.a.lockedUntil == Some(h.locks[|h.locks| - 1] + LockoutSec(|h.locks|, cfg)))
    && (forall j :: 0 <= j < |h.locks| ==> h.locks[j] - h.locks[0] >= TotalLockout(cfg, j))
  }

  lemma LocksOnlyGrow(cfg: LockoutConfig, times: seq<int>)
    requires times != []
    ensures Replay(cfg, times[..|times| - 1]).locks <= Replay(cfg, times).locks
  {
  }

  lemma {:induction false} LocksAreSpaced(cfg: LockoutConfig, times: seq<int>)
    requires Sane(cfg) && Ordered(times) && OneCountWindow(cfg, times)
    ensures LocksSpaced(cfg, Replay(cfg, times))
  {
    if times != [] {
      var before, t := times[..|times| - 1], times[|times| - 1];
      LocksOnlyGrow(cfg, times);
      LocksAreSpaced(cfg, before);
      var h, h' := Replay(cfg, before), Replay(cfg, times);
      if Locks(cfg, h.a, t) {
        assert h'.locks == h.locks + [t];
        forall j | 0 <= j < |h'.locks| ensures h'.locks[j] - h'.locks[0] >= TotalLockout(cfg, j) {
          if j == |h.locks| && j > 0 {
            assert h.locks[j - 1] - h.locks[0] >= TotalLockout(cfg, j - 1);
          }
        }
      }
    }
  }

  /**
   * Inside one lock-count window the k-th lock comes at least the first k-1 lock durations after
   * the first; that is base * (2^(k-1) - 1) seconds while the cap is not reached.
   */
  lemma KthLockIsLate(cfg: LockoutConfig, times: seq<int>, k: nat)
    requires Sane(cfg) && Ordered(times) && OneCountWindow(cfg, times)
    requires 0 < k <= |Replay(cfg, times).locks|
    ensures var locks := Replay(cfg, times).locks;
      && locks[k - 1] - locks[0] >= TotalLockout(cfg, k - 1)
      && (k > 1 && cfg.baseLockoutSec * Pow2(k - 2) <= cfg.maxLockoutSec ==>
            locks[k - 1] - locks[0] >= cfg.baseLockoutSec * (Pow2(k - 1) - 1))
  {
    LocksAreSpaced(cfg, times);
    if k > 1 && cfg.baseLockoutSec * Pow2(k - 2) <= cfg.maxLockoutSec {
      UncappedTotal(cfg, k - 1);
    }
  }

  // ---- How many failures are counted -----------------------------------------------------

  /** Every closed failure window counted at most maxAttempts failures, and lapsed windows take their time. */
  ghost predicate Accounted(cfg: LockoutConfig, h: History, first: int, last: int) {
    && h.a.fails.consumed < cfg.maxAttempts
    && h.counted <= cfg.maxAttempts * (|h.locks| + h.lapsed) + h.a.fails.consumed
    && cfg.windowSec * h.lapsed <= last - first
    && (h.a.fails.consumed > 0 ==>
          && h.a.fails.resetsAt <= last + cfg.windowSec
          && cfg.windowSec * h.lapsed <= h.a.fails.resetsAt - cfg.windowSec - first)
  }

  lemma ExtendAccounts(cfg: LockoutConfig, h: History, first: int, last: int, t: int)
    requires Sane(cfg) && first <= last <= t && Accounted(cfg, h, first, last)
    ensures Accounted(cfg, Extend(cfg, h, t), first, t)
  {
  }

  lemma OneMore(w: int, n: int)
    ensures w * (n + 1) == w * n + w
  {
  }

  lemma {:induction false} ReplayAccounts(cfg: LockoutConfig, times: seq<int>)
    requires Sane(cfg) && Ordered(times) && times != []
    ensures Accounted(cfg, Replay(cfg, times), times[0], times[|times| - 1])
  {
    var n := |times| - 1;
    if n == 0 {
      assert times[..0] == [];
      assert Accounted(cfg, Replay(cfg, []), times[0], times[0]);
      ExtendAccounts(cfg, Replay(cfg, []), times[0], times[0], times[0]);
    } else {
      ReplayAccounts(cfg, times[..n]);
      ExtendAccounts(cfg, Replay(cfg, times[..n]), times[0], times[n - 1], times[n]);
    }
  }

  /** In T seconds with k locks at most maxAttempts * (k + T/windowSec + 1) failures are counted. */
  lemma CountedFailuresBounded(cfg: LockoutConfig, times: seq<int>)
    requires Sane(cfg) && Ordered(times) && times != []
    ensures var h, T := Replay(cfg, times), times[|times| - 1] - times[0];
      h.counted <= cfg.maxAttempts * (|h.locks| + T / cfg.windowSec + 1)
  {
    ReplayAccounts(cfg, times);
    var h, T := Replay(cfg, times), times[|times| - 1] - times[0];
    AtMostQuotient(cfg.windowSec, h.lapsed, T);
    OneMore(cfg.maxAttempts, |h.locks| + h.lapsed);
    MonotoneProduct(cfg.maxAttempts, |h.locks| + h.lapsed + 1, |h.locks| + T / cfg.windowSec + 1);
  }

  lemma AtMostQuotient(w: int, n: nat, T: int)
    requires w >= 1 && w * n <= T
    ensures n <= T / w
  {
    OneMore(w, T / w);
    if n > T / w {
      MonotoneProduct(w, T / w + 1, n);
    }
  }

  lemma MonotoneProduct(m: int, a: int, b: int)
    requires m >= 0 && a <= b
    ensures m * a <= m * b
  {
  }
}
