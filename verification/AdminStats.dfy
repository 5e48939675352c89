/** The dashboard statistics: a paginated reader that stops early, and daily buckets over 30 days. */
module AdminStats {
  import opened Wrappers

  const WINDOW_DAYS := 30
  const MAX_EVENTS := 10000
  const PAGE_LIMIT := 200
  const DAY_MS := 86400000

  /** `createdAt` in ms; None when it is absent or does not parse. */
  datatype AuditEvent = AuditEvent(accountId: Option<string>, createdAt: Option<int>)

  datatype WindowEvent = WindowEvent(accountId: Option<string>, tsMs: int)

  // ---- The reader --------------------------------------------------------------------

  /** The specification: the events of the window, in log order. */
  function InWindow(events: seq<AuditEvent>, start: int): seq<WindowEvent> {
    if events == [] then []
    else
      var e := events[|events| - 1];
      InWindow(events[..|events| - 1], start) +
      (if e.createdAt.Some? && e.createdAt.value >= start then [WindowEvent(e.accountId, e.createdAt.value)] else [])
  }

  function Take<T>(s: seq<T>, n: nat): seq<T> {
    if |s| <= n then s else s[..n]
  }

  /** Pages 1 to n, one after the other. */
  function Pages(list: nat -> seq<AuditEvent>, n: nat): seq<AuditEvent> {
    if n == 0 then [] else Pages(list, n - 1) + list(n)
  }

  /** Page n, if there is one, is a full page with events of the window. */
  predicate FullPage(list: nat -> seq<AuditEvent>, start: int, n: nat) {
    n > 0 ==> InWindow(list(n), start) != [] && |list(n)| >= PAGE_LIMIT
  }

  /** The reasons to stop after page n. */
  predicate StopsAt(list: nat -> seq<AuditEvent>, start: int, n: nat) {
    |InWindow(Pages(list, n), start)| >= MAX_EVENTS || list(n + 1) == [] || !FullPage(list, start, n)
  }

  lemma {:induction false} InWindowConcat(a: seq<AuditEvent>, b: seq<AuditEvent>, start: int)
    ensures InWindow(a + b, start) == InWindow(a, start) + InWindow(b, start)
  {
    if b == [] {
      assert a + b == a;
    } else {
      var n := |b| - 1;
      assert (a + b)[..|a + b| - 1] == a + b[..n];
      InWindowConcat(a, b[..n], start);
    }
  }

  /** One page, read until there is no more room. */
  method ReadPage(data: seq<AuditEvent>, start: int, room: nat) returns (added: seq<WindowEvent>, allBelowWindow: bool)
    requires room > 0
    ensures added == Take(InWindow(data, start), room)
    ensures allBelowWindow <==> InWindow(data, start) == []
  {
    added, allBelowWindow := [], true;
    for i := 0 to |data|
      invariant |added| < room && added == InWindow(data[..i], start)
      invariant allBelowWindow <==> added == []
    {
      assert data[..i + 1][..i] == data[..i];
      var tsMs := data[i].createdAt;
      if tsMs.None? {
        continue;
      }
      if tsMs.value >= start {
        allBelowWindow := false;
        added := added + [WindowEvent(data[i].accountId, tsMs.value)];
        if |added| >= room {
          assert data == data[..i + 1] + data[i + 1..];
          InWindowConcat(data[..i + 1], data[i + 1..], start);
          return;
        }
      }
    }
    assert data[..|data|] == data;
  }

  /** There is no reason to stop before page n. */
  ghost predicate GoesOnTo(list: nat -> seq<AuditEvent>, start: int, n: nat) {
    forall m :: 0 <= m < n ==> !StopsAt(list, start, m)
  }

  /** The reader stops at n and at no earlier page. */
  ghost predicate FirstStop(list: nat -> seq<AuditEvent>, start: int, n: nat) {
    StopsAt(list, start, n) && GoesOnTo(list, start, n)
  }

  /** The result after n pages. */
  function Kept(list: nat -> seq<AuditEvent>, start: int, n: nat): seq<WindowEvent> {
    Take(InWindow(Pages(list, n), start), MAX_EVENTS)
  }

  /** The next page goes in as far as there is room. */
  lemma OnePageMore(list: nat -> seq<AuditEvent>, start: int, n: nat, out: seq<WindowEvent>, added: seq<WindowEvent>)
    requires GoesOnTo(list, start, n) && FullPage(list, start, n) && list(n + 1) != []
    requires out == Kept(list, start, n) && |out| < MAX_EVENTS
    requires added == Take(InWindow(list(n + 1), start), MAX_EVENTS - |out|)
    ensures out + added == Kept(list, start, n + 1)
    ensures GoesOnTo(list, start, n + 1)
  {
    InWindowConcat(Pages(list, n), list(n + 1), start);
  }

  /**
   * Reads page after page from any sink and terminates, because every round that goes on has added
   * an event; `n` is the number of pages that went into the result: the first at which there is a
   * reason to stop.
   */
  method LoadEventsInWindow(list: nat -> seq<AuditEvent>, start: int) returns (out: seq<WindowEvent>, ghost n: nat)
    ensures out == Kept(list, start, n)
    ensures FirstStop(list, start, n)
  {
    out, n := [], 0;
    var page := 1;
    while |out| < MAX_EVENTS
      invariant page == n + 1
      invariant out == Kept(list, start, n)
      invariant GoesOnTo(list, start, n) && FullPage(list, start, n)
      decreases MAX_EVENTS - |out|
    {
      var data := list(page);
      if |data| == 0 {
        break;
      }
      var added, allBelowWindow := ReadPage(data, start, MAX_EVENTS - |out|);
      OnePageMore(list, start, n, out, added);
      out := out + added;
      n := n + 1;
      if allBelowWindow {
        break;
      }
      if |data| < PAGE_LIMIT {
        break;
      }
      page := page + 1;
    }
  }

  /** The sink lists a stable log in pages of the limit. */
  ghost predicate IsPagination(list: nat -> seq<AuditEvent>, log: seq<AuditEvent>) {
    forall p: nat :: p >= 1 ==> list(p) == Slice(log, (p - 1) * PAGE_LIMIT, p * PAGE_LIMIT)
  }

  function Slice(log: seq<AuditEvent>, from: nat, to: nat): seq<AuditEvent>
    requires from <= to
  {
    if from >= |log| then [] else if to >= |log| then log[from..] else log[from..to]
  }

  predicate Parsable(log: seq<AuditEvent>) {
    forall i :: 0 <= i < |log| ==> log[i].createdAt.Some?
  }

  predicate NewestFirst(log: seq<AuditEvent>) {
    forall i, j :: 0 <= i < j < |log| && log[i].createdAt.Some? && log[j].createdAt.Some? ==>
      log[i].createdAt.value >= log[j].createdAt.value
  }

  lemma {:induction false} PagesArePrefixes(list: nat -> seq<AuditEvent>, log: seq<AuditEvent>, n: nat)
    requires IsPagination(list, log)
    ensures Pages(list, n) == Slice(log, 0, n * PAGE_LIMIT)
  {
    if n > 0 {
      PagesArePrefixes(list, log, n - 1);
    }
  }

  lemma {:induction false} NoneInWindow(events: seq<AuditEvent>, start: int)
    requires forall i :: 0 <= i < |events| && events[i].createdAt.Some? ==> events[i].createdAt.value < start
    ensures InWindow(events, start) == []
  {
    if events != [] {
      NoneInWindow(events[..|events| - 1], start);
    }
  }

  lemma {:induction false} SomeInWindow(events: seq<AuditEvent>, start: int, i: nat)
    requires i < |events| && events[i].createdAt.Some? && events[i].createdAt.value >= start
    ensures InWindow(events, start) != []
  {
    if i < |events| - 1 {
      SomeInWindow(events[..|events| - 1], start, i);
    }
  }

  /** What n pages leave unread. */
  function Unread(log: seq<AuditEvent>, n: nat): seq<AuditEvent> {
    if n * PAGE_LIMIT <= |log| then log[n * PAGE_LIMIT..] else []
  }

  /** Stopping after n pages loses nothing exactly when the cap is reached or nothing more is in the window. */
  lemma StopIsExactIff(list: nat -> seq<AuditEvent>, log: seq<AuditEvent>, start: int, n: nat)
    requires IsPagination(list, log)
    ensures Kept(list, start, n) == Take(InWindow(log, start), MAX_EVENTS)
       <==> |InWindow(Pages(list, n), start)| >= MAX_EVENTS || InWindow(Unread(log, n), start) == []
  {
    PagesArePrefixes(list, log, n);
    var done, rest := Pages(list, n), Unread(log, n);
    assert log == done + rest;
    InWindowConcat(done, rest, start);
    TakeOfSumIff(InWindow(done, start), InWindow(rest, start), MAX_EVENTS);
  }

  lemma TakeOfSumIff<T>(s: seq<T>, more: seq<T>, n: nat)
    ensures Take(s, n) == Take(s + more, n) <==> |s| >= n || more == []
  {
  }

  /** Page p of the log is full and has nothing in the window, and the pages up to it do not reach the cap. */
  predicate BarrenPage(log: seq<AuditEvent>, start: int, p: nat) {
    && p > 0 && p * PAGE_LIMIT <= |log|
    && InWindow(Slice(log, (p - 1) * PAGE_LIMIT, p * PAGE_LIMIT), start) == []
    && |InWindow(Slice(log, 0, p * PAGE_LIMIT), start)| < MAX_EVENTS
  }

  /** Nothing of the window lies behind a barren page. */
  ghost predicate NothingHidden(log: seq<AuditEvent>, start: int) {
    forall p :: BarrenPage(log, start, p) ==> InWindow(Unread(log, p), start) == []
  }

  /** Behind a later page there is at most what is behind an earlier one. */
  lemma UnreadShrinks(log: seq<AuditEvent>, start: int, n: nat, p: nat)
    requires n <= p && p * PAGE_LIMIT <= |log|
    ensures InWindow(Unread(log, n), start) == [] ==> InWindow(Unread(log, p), start) == []
  {
    var mid := log[n * PAGE_LIMIT..p * PAGE_LIMIT];
    assert Unread(log, n) == mid + Unread(log, p);
    InWindowConcat(mid, Unread(log, p), start);
  }

  lemma {:induction false} ReadGrows(list: nat -> seq<AuditEvent>, start: int, n: nat, p: nat)
    requires n <= p
    ensures |InWindow(Pages(list, n), start)| <= |InWindow(Pages(list, p), start)|
  {
    if n < p {
      ReadGrows(list, start, n, p - 1);
      InWindowConcat(Pages(list, p - 1), list(p), start);
    }
  }

  /** Stopping after a page without window events, or where the log ends, loses nothing if nothing is hidden. */
  lemma StopLosesNothing(list: nat -> seq<AuditEvent>, log: seq<AuditEvent>, start: int, n: nat)
    requires IsPagination(list, log) && StopsAt(list, start, n) && NothingHidden(log, start)
    ensures |InWindow(Pages(list, n), start)| >= MAX_EVENTS || InWindow(Unread(log, n), start) == []
  {
    PagesArePrefixes(list, log, n);
    if |InWindow(Pages(list, n), start)| < MAX_EVENTS && Unread(log, n) != [] {
      assert list(n + 1) != [];
      assert n > 0 && |list(n)| == PAGE_LIMIT;
      assert BarrenPage(log, start, n);
    }
  }

  /** A barren page behind which something lies makes the reader stop too early, there or before. */
  lemma HiddenIsLost(list: nat -> seq<AuditEvent>, log: seq<AuditEvent>, start: int, n: nat, p: nat)
    requires IsPagination(list, log) && FirstStop(list, start, n)
    requires BarrenPage(log, start, p) && InWindow(Unread(log, p), start) != []
    ensures |InWindow(Pages(list, n), start)| < MAX_EVENTS && InWindow(Unread(log, n), start) != []
  {
    PagesArePrefixes(list, log, p);
    assert StopsAt(list, start, p);
    UnreadShrinks(log, start, n, p);
    ReadGrows(list, start, n, p);
  }

  /**
   * On any stable log, whatever its order and its timestamps: the reader returns the first 10000
   * events of the whole filter exactly when no full page without window events, met below the cap,
   * has events of the window behind it.
   */
  lemma ReaderIsExactIff(list: nat -> seq<AuditEvent>, log: seq<AuditEvent>, start: int, n: nat)
    requires IsPagination(list, log) && FirstStop(list, start, n)
    ensures Kept(list, start, n) == Take(InWindow(log, start), MAX_EVENTS)
       <==> NothingHidden(log, start)
  {
    StopIsExactIff(list, log, start, n);
    if NothingHidden(log, start) {
      StopLosesNothing(list, log, start, n);
    } else {
      var p :| BarrenPage(log, start, p) && InWindow(Unread(log, p), start) != [];
      HiddenIsLost(list, log, start, n, p);
    }
  }

  /** A newest-first log with parsable timestamps hides nothing. */
  lemma OrderlyLogHidesNothing(log: seq<AuditEvent>, start: int)
    requires Parsable(log) && NewestFirst(log)
    ensures NothingHidden(log, start)
  {
    forall p: nat | BarrenPage(log, start, p) ensures InWindow(Unread(log, p), start) == [] {
      NothingBehind(log, start, p);
    }
  }

  lemma NothingBehind(log: seq<AuditEvent>, start: int, p: nat)
    requires Parsable(log) && NewestFirst(log) && BarrenPage(log, start, p)
    ensures InWindow(Unread(log, p), start) == []
  {
    var from := (p - 1) * PAGE_LIMIT;
    var page, rest := Slice(log, from, p * PAGE_LIMIT), Unread(log, p);
    assert page[0] == log[from];
    if page[0].createdAt.value >= start {
      SomeInWindow(page, start, 0);
    }
    forall i | 0 <= i < |rest| ensures rest[i].createdAt.value < start {
      assert rest[i] == log[p * PAGE_LIMIT + i];
    }
    NoneInWindow(rest, start);
  }

  /** On a stable, newest-first log with parsable timestamps the early stops lose nothing. */
  lemma EarlyStopLosesNothing(list: nat -> seq<AuditEvent>, log: seq<AuditEvent>, start: int, n: nat)
    requires IsPagination(list, log) && Parsable(log) && NewestFirst(log) && FirstStop(list, start, n)
    ensures Kept(list, start, n) == Take(InWindow(log, start), MAX_EVENTS)
  {
    OrderlyLogHidesNothing(log, start);
    ReaderIsExactIff(list, log, start, n);
  }

  /** So one full page of unreadable timestamps at the front hides every event of the window behind it. */
  lemma UnreadablePageHidesTheRest(list: nat -> seq<AuditEvent>, log: seq<AuditEvent>, start: int, n: nat)
    requires IsPagination(list, log) && FirstStop(list, start, n)
    requires |log| >= PAGE_LIMIT && forall i :: 0 <= i < PAGE_LIMIT ==> log[i].createdAt.None?
    ensures InWindow(Pages(list, n), start) == []
  {
    PagesArePrefixes(list, log, 1);
    PagesArePrefixes(list, log, n);
    NoneInWindow(Slice(log, 0, PAGE_LIMIT), start);
    assert Pages(list, 0) == [] && list(1) == Slice(log, 0, PAGE_LIMIT) == Pages(list, 1);
    assert StopsAt(list, start, 1);
  }

  // ---- What the filter keeps, read off the log -------------------------------------------

  predicate Recent(e: AuditEvent, start: int) {
    e.createdAt.Some? && e.createdAt.value >= start
  }

  /** `at` lists the log positions of the selected events: in order, all of them, each with its own account and time. */
  ghost predicate Selects(selected: seq<WindowEvent>, log: seq<AuditEvent>, start: int, at: seq<nat>) {
    && |at| == |selected|
    && (forall i, j :: 0 <= i < j < |at| ==> at[i] < at[j])
    && (forall i :: 0 <= i < |at| ==>
          && at[i] < |log| && Recent(log[at[i]], start)
          && selected[i].accountId == log[at[i]].accountId && Some(selected[i].tsMs) == log[at[i]].createdAt)
    && (forall j :: 0 <= j < |log| && Recent(log[j], start) ==> j in at)
  }

  /** One more event is selected exactly when it is recent. */
  lemma SelectsOneMore(selected: seq<WindowEvent>, log: seq<AuditEvent>, e: AuditEvent, start: int, at: seq<nat>)
    requires Selects(selected, log, start, at)
    ensures !Recent(e, start) ==> Selects(selected, log + [e], start, at)
    ensures Recent(e, start) ==>
      Selects(selected + [WindowEvent(e.accountId, e.createdAt.value)], log + [e], start, at + [|log|])
  {
    var longer, at' := log + [e], at + [|log|];
    assert forall i :: 0 <= i < |log| ==> longer[i] == log[i];
    if Recent(e, start) {
      forall j | 0 <= j < |longer| && Recent(longer[j], start) ensures j in at' {
        if j < |log| {
          assert j in at;
        }
      }
    }
  }

  /** The filter keeps exactly the readable events at or after the start of the window, in order and unchanged. */
  lemma {:induction false} InWindowSelects(log: seq<AuditEvent>, start: int) returns (at: seq<nat>)
    ensures Selects(InWindow(log, start), log, start, at)
  {
    if log == [] {
      at := [];
    } else {
      var n := |log| - 1;
      at := InWindowSelects(log[..n], start);
      SelectsOneMore(InWindow(log[..n], start), log[..n], log[n], start, at);
      assert log[..n] + [log[n]] == log;
      if Recent(log[n], start) {
        at := at + [n];
      }
    }
  }

  /** The first events up to the cap are the earliest in the log: nothing recent lies before the last one and is missing. */
  lemma CapKeepsTheFirst(log: seq<AuditEvent>, start: int, cap: nat) returns (at: seq<nat>)
    ensures var kept := Take(InWindow(log, start), cap);
      && |at| == |kept| <= cap
      && (forall i, j :: 0 <= i < j < |at| ==> at[i] < at[j])
      && (forall i :: 0 <= i < |at| ==>
            && at[i] < |log| && Recent(log[at[i]], start)
            && kept[i].accountId == log[at[i]].accountId && Some(kept[i].tsMs) == log[at[i]].createdAt)
      && (forall j :: 0 <= j < |log| && Recent(log[j], start) && j !in at ==> |at| == cap && forall i :: 0 <= i < |at| ==> at[i] < j)
  {
    var all := InWindowSelects(log, start);
    at := Take(all, cap);
    forall j | 0 <= j < |log| && Recent(log[j], start) && j !in at
      ensures |at| == cap && forall i :: 0 <= i < |at| ==> at[i] < j
    {
      var k :| 0 <= k < |all| && all[k] == j;
      assert k >= |at|;
    }
  }

  /** The log positions of a UTC day, and those from a day on. */
  function OnDay(log: seq<AuditEvent>, day: int): set<nat> {
    set j: nat | j < |log| && log[j].createdAt.Some? && log[j].createdAt.value / 86400000 == day
  }

  function SinceDay(log: seq<AuditEvent>, day: int): set<nat> {
    set j: nat | j < |log| && log[j].createdAt.Some? && log[j].createdAt.value / 86400000 >= day
  }

  /** The accounts with an event from the day on. */
  function ActiveSince(log: seq<AuditEvent>, day: int): set<string> {
    set j | j in SinceDay(log, day) && log[j].accountId.Some? && log[j].accountId.value != "" :: log[j].accountId.value
  }

  lemma PositionsGrow(log: seq<AuditEvent>, e: AuditEvent, day: int)
    ensures var n, t := |log|, e.createdAt;
      && n !in SinceDay(log, day) && n !in OnDay(log, day)
      && SinceDay(log + [e], day) == SinceDay(log, day) + (if t.Some? && Day(t.value) >= day then {n} else {})
      && OnDay(log + [e], day) == OnDay(log, day) + (if t.Some? && Day(t.value) == day then {n} else {})
  {
    var longer := log + [e];
    assert forall i :: 0 <= i < |log| ==> longer[i] == log[i];
  }

  lemma WindowOneMore(log: seq<AuditEvent>, e: AuditEvent, first: int)
    ensures var start := first * DAY_MS;
      |InWindow(log + [e], start)| == |InWindow(log, start)| + (if e.createdAt.Some? && Day(e.createdAt.value) >= first then 1 else 0)
  {
    assert (log + [e])[..|log|] == log;
    assert e.createdAt.Some? ==> (Day(e.createdAt.value) >= first <==> e.createdAt.value >= first * DAY_MS);
  }

  lemma {:induction false} FilterCountsTheWindow(log: seq<AuditEvent>, first: int)
    ensures |InWindow(log, first * DAY_MS)| == |SinceDay(log, first)|
  {
    if log == [] {
      assert SinceDay(log, first) == {};
    } else {
      var n := |log| - 1;
      FilterCountsTheWindow(log[..n], first);
      PositionsGrow(log[..n], log[n], first);
      WindowOneMore(log[..n], log[n], first);
      assert log[..n] + [log[n]] == log;
    }
  }

  lemma CountOneMore(events: seq<WindowEvent>, w: WindowEvent, day: int)
    ensures CountOn(events + [w], day) == CountOn(events, day) + (if Day(w.tsMs) == day then 1 else 0)
  {
    assert (events + [w])[..|events|] == events;
  }

  lemma FilterOneMore(log: seq<AuditEvent>, e: AuditEvent, first: int, day: int)
    requires day >= first
    ensures var start := first * DAY_MS;
      CountOn(InWindow(log + [e], start), day)
        == CountOn(InWindow(log, start), day) + (if e.createdAt.Some? && Day(e.createdAt.value) == day then 1 else 0)
  {
    var start := first * DAY_MS;
    assert (log + [e])[..|log|] == log;
    if Recent(e, start) {
      CountOneMore(InWindow(log, start), WindowEvent(e.accountId, e.createdAt.value), day);
    } else {
      assert InWindow(log + [e], start) == InWindow(log, start);
      assert e.createdAt.Some? ==> Day(e.createdAt.value) < first;
    }
  }

  lemma {:induction false} FilterCountsTheDay(log: seq<AuditEvent>, first: int, day: int)
    requires day >= first
    ensures CountOn(InWindow(log, first * DAY_MS), day) == |OnDay(log, day)|
  {
    if log == [] {
      assert OnDay(log, day) == {};
    } else {
      var n := |log| - 1;
      FilterCountsTheDay(log[..n], first, day);
      PositionsGrow(log[..n], log[n], day);
      FilterOneMore(log[..n], log[n], first, day);
      assert log[..n] + [log[n]] == log;
    }
  }

  lemma FilterKeepsTheAccounts(log: seq<AuditEvent>, first: int)
    ensures ActiveAccounts(InWindow(log, first * DAY_MS)) == ActiveSince(log, first)
  {
    var start, events := first * DAY_MS, InWindow(log, first * DAY_MS);
    var at := InWindowSelects(log, start);
    forall id | id in ActiveAccounts(events) ensures id in ActiveSince(log, first) {
      var i :| 0 <= i < |events| && events[i].accountId == Some(id) && id != "";
      assert at[i] in SinceDay(log, first);
    }
    forall id | id in ActiveSince(log, first) ensures id in ActiveAccounts(events) {
      var j :| j in SinceDay(log, first) && log[j].accountId == Some(id) && id != "";
      assert Recent(log[j], start);
      var i :| 0 <= i < |at| && at[i] == j;
      assert events[i].accountId == Some(id);
    }
  }

  // ---- The buckets -------------------------------------------------------------------

  /** The UTC day of an instant. */
  function Day(ms: int): int {
    ms / DAY_MS
  }

  datatype DailyPoint = DailyPoint(day: int, count: nat)

  function StartOfWindowMs(now: int): int {
    (Day(now) - (WINDOW_DAYS - 1)) * DAY_MS
  }

  function CountOn(events: seq<WindowEvent>, day: int): nat {
    CountWithin(events, day, day + 1)
  }

  /** Events on the days from `from` to before `to`. */
  function CountWithin(events: seq<WindowEvent>, from: int, to: int): nat {
    if events == [] then 0
    else CountWithin(events[..|events| - 1], from, to) + (if from <= Day(events[|events| - 1].tsMs) < to then 1 else 0)
  }

  function Total(series: seq<DailyPoint>): nat {
    if series == [] then 0 else Total(series[..|series| - 1]) + series[|series| - 1].count
  }

  /** One bar for each of the 30 days up to `now`, with exactly the day's events. */
  ghost predicate Bars(series: seq<DailyPoint>, events: seq<WindowEvent>, now: int) {
    && |series| == WINDOW_DAYS
    && forall j :: 0 <= j < WINDOW_DAYS ==>
         series[j] == DailyPoint(Day(now) - (WINDOW_DAYS - 1) + j, CountOn(events, Day(now) - (WINDOW_DAYS - 1) + j))
  }

  /** The 30 days up to today, oldest first. */
  method SeriesDays(now: int) returns (days: seq<int>)
    ensures |days| == WINDOW_DAYS
    ensures forall j :: 0 <= j < WINDOW_DAYS ==> days[j] == Day(now) - (WINDOW_DAYS - 1) + j
  {
    days := [];
    var i := WINDOW_DAYS - 1;
    while i >= 0
      invariant -1 <= i < WINDOW_DAYS && |days| == WINDOW_DAYS - 1 - i
      invariant forall j :: 0 <= j < |days| ==> days[j] == Day(now) - (WINDOW_DAYS - 1) + j
    {
      days := days + [Day(now - i * DAY_MS)];
      i := i - 1;
    }
  }

  method WindowStart(now: int) returns (ms: int)
    ensures ms == StartOfWindowMs(now) && Day(ms) == Day(now) - (WINDOW_DAYS - 1)
    ensures forall ts :: ts >= ms <==> Day(ts) >= Day(now) - (WINDOW_DAYS - 1)
  {
    var days := SeriesDays(now);
    ms := days[0] * DAY_MS;
  }

  method BucketByDay(events: seq<WindowEvent>, now: int) returns (series: seq<DailyPoint>)
    ensures Bars(series, events, now)
  {
    var counts: map<int, nat> := map[];
    for i := 0 to |events|
      invariant forall day :: (if day in counts then counts[day] else 0) == CountOn(events[..i], day)
    {
      var day := Day(events[i].tsMs);
      assert events[..i + 1][..i] == events[..i];
      counts := counts[day := (if day in counts then counts[day] else 0) + 1];
    }
    assert events[..|events|] == events;
    var days := SeriesDays(now);
    series := seq(|days|, j requires 0 <= j < |days| => DailyPoint(days[j], if days[j] in counts then counts[days[j]] else 0));
  }

  lemma {:induction false} SplitDays(events: seq<WindowEvent>, from: int, mid: int, to: int)
    requires from <= mid <= to
    ensures CountWithin(events, from, to) == CountWithin(events, from, mid) + CountWithin(events, mid, to)
  {
    if events != [] {
      SplitDays(events[..|events| - 1], from, mid, to);
    }
  }

  lemma {:induction false} TotalCountsDays(events: seq<WindowEvent>, series: seq<DailyPoint>, from: int)
    requires forall j :: 0 <= j < |series| ==> series[j].count == CountOn(events, from + j)
    ensures Total(series) == CountWithin(events, from, from + |series|)
  {
    if series == [] {
      EmptyRange(events, from);
    } else {
      var n := |series| - 1;
      TotalCountsDays(events, series[..n], from);
      SplitDays(events, from, from + n, from + |series|);
    }
  }

  lemma {:induction false} EmptyRange(events: seq<WindowEvent>, from: int)
    ensures CountWithin(events, from, from) == 0
  {
    if events != [] {
      EmptyRange(events[..|events| - 1], from);
    }
  }

  lemma {:induction false} AllWithinIff(events: seq<WindowEvent>, from: int, to: int)
    ensures CountWithin(events, from, to) <= |events|
    ensures CountWithin(events, from, to) == |events| <==>
      forall i :: 0 <= i < |events| ==> from <= Day(events[i].tsMs) < to
  {
    if events != [] {
      AllWithinIff(events[..|events| - 1], from, to);
    }
  }

  /** The bars sum up to the events exactly when every event lies on one of the days shown. */
  lemma BarsSumToTotalIff(events: seq<WindowEvent>, series: seq<DailyPoint>, now: int)
    requires Bars(series, events, now)
    ensures Total(series) == |events| <==>
      forall i :: 0 <= i < |events| ==> Day(now) - WINDOW_DAYS < Day(events[i].tsMs) <= Day(now)
  {
    var from := Day(now) - (WINDOW_DAYS - 1);
    TotalCountsDays(events, series, from);
    AllWithinIff(events, from, from + WINDOW_DAYS);
  }

  /** An event on one of the days shown falls under one bar only, which counts it. */
  lemma OneBarEach(events: seq<WindowEvent>, series: seq<DailyPoint>, i: nat, now: int)
    requires i < |events| && Day(now) - WINDOW_DAYS < Day(events[i].tsMs) <= Day(now)
    requires Bars(series, events, now)
    ensures exists j :: 0 <= j < WINDOW_DAYS && series[j].day == Day(events[i].tsMs) && series[j].count > 0
    ensures forall j, k :: 0 <= j < k < WINDOW_DAYS ==> series[j].day != series[k].day
  {
    CountsItsEvent(events, i, Day(events[i].tsMs));
    var j := Day(events[i].tsMs) - (Day(now) - (WINDOW_DAYS - 1));
    assert series[j].day == Day(events[i].tsMs) && series[j].count > 0;
  }

  lemma {:induction false} CountsItsEvent(events: seq<WindowEvent>, i: nat, day: int)
    requires i < |events| && Day(events[i].tsMs) == day
    ensures CountOn(events, day) > 0
  {
    if i < |events| - 1 {
      CountsItsEvent(events[..|events| - 1], i, day);
    }
  }

  lemma {:induction false} WindowedEventsAreRecent(log: seq<AuditEvent>, start: int)
    ensures forall i :: 0 <= i < |InWindow(log, start)| ==> InWindow(log, start)[i].tsMs >= start
  {
    if log != [] {
      WindowedEventsAreRecent(log[..|log| - 1], start);
    }
  }

  // ---- The dashboard -----------------------------------------------------------------

  datatype Stats = Stats(
    mau: nat, signInsPerDay: seq<DailyPoint>, signUpsPerDay: seq<DailyPoint>,
    signInsTotal: nat, signUpsTotal: nat, auditSupported: bool)

  function ActiveAccounts(events: seq<WindowEvent>): set<string> {
    set i | 0 <= i < |events| && events[i].accountId.Some? && events[i].accountId.value != "" :: events[i].accountId.value
  }

  function Windowed(log: seq<AuditEvent>, now: int): seq<WindowEvent> {
    Take(InWindow(log, StartOfWindowMs(now)), MAX_EVENTS)
  }

  /** A stable log in which no page hides events of the window; one in order, with readable timestamps, is such a log. */
  ghost predicate Orderly(list: nat -> seq<AuditEvent>, log: seq<AuditEvent>, now: int) {
    IsPagination(list, log) && NothingHidden(log, StartOfWindowMs(now))
  }

  /** Both clock reads fall on one day and nothing in the window is dated after it. */
  ghost predicate OneDay(log: seq<AuditEvent>, now: int, later: int) {
    && Day(now) == Day(later)
    && forall i :: 0 <= i < |Windowed(log, now)| ==> Day(Windowed(log, now)[i].tsMs) <= Day(now)
  }

  /** Below the cap, the numbers are those of the log: its events since the first of the 30 days, and each day's. */
  ghost predicate CountsTheLog(log: seq<AuditEvent>, now: int, later: int, total: nat, series: seq<DailyPoint>) {
    |SinceDay(log, Day(now) - 29)| <= 10000 ==>
      && total == |SinceDay(log, Day(now) - 29)|
      && (Day(now) <= Day(later) ==> forall p :: p in series ==> p.count == |OnDay(log, p.day)|)
  }

  lemma WindowCountsTheLog(log: seq<AuditEvent>, now: int, later: int, series: seq<DailyPoint>)
    requires Bars(series, Windowed(log, now), later)
    ensures CountsTheLog(log, now, later, |Windowed(log, now)|, series)
    ensures |Windowed(log, now)| == if |SinceDay(log, Day(now) - 29)| <= 10000 then |SinceDay(log, Day(now) - 29)| else 10000
    ensures |SinceDay(log, Day(now) - 29)| <= 10000 ==>
      ActiveAccounts(Windowed(log, now)) == ActiveSince(log, Day(now) - 29)
  {
    var first := Day(now) - 29;
    assert StartOfWindowMs(now) == first * DAY_MS;
    FilterCountsTheWindow(log, first);
    FilterKeepsTheAccounts(log, first);
    if |SinceDay(log, first)| <= 10000 && Day(now) <= Day(later) {
      forall p | p in series ensures p.count == |OnDay(log, p.day)| {
        FilterCountsTheDay(log, first, p.day);
      }
    }
  }

  /** One event type: read at `now`, put into buckets at `later`. */
  method LoadSeries(list: nat -> seq<AuditEvent>, ghost log: seq<AuditEvent>, now: int, later: int)
    returns (events: seq<WindowEvent>, series: seq<DailyPoint>)
    ensures Bars(series, events, later)
    ensures IsPagination(list, log) ==> (events == Windowed(log, now) <==> NothingHidden(log, StartOfWindowMs(now)))
    ensures Orderly(list, log, now) && OneDay(log, now, later) ==> Total(series) == |events|
  {
    var start := WindowStart(now);
    ghost var n;
    events, n := LoadEventsInWindow(list, start);
    series := BucketByDay(events, later);
    BarsSumToTotalIff(events, series, later);
    if IsPagination(list, log) {
      ReaderIsExactIff(list, log, start, n);
      WindowedEventsAreRecent(log, start);
    }
  }

  method CountActive(events: seq<WindowEvent>) returns (mau: nat)
    ensures mau == |ActiveAccounts(events)|
  {
    var mauSet: set<string> := {};
    for i := 0 to |events|
      invariant mauSet == ActiveAccounts(events[..i])
    {
      assert ActiveAccounts(events[..i + 1]) == ActiveAccounts(events[..i]) +
        (if events[i].accountId.Some? && events[i].accountId.value != "" then {events[i].accountId.value} else {});
      if events[i].accountId.Some? && events[i].accountId.value != "" {
        mauSet := mauSet + {events[i].accountId.value};
      }
    }
    assert events[..|events|] == events;
    mau := |mauSet|;
  }

  /** `now0` to `now2` are the clock reads: for the window, and for each of the two series. */
  method ComputeAdminStats(supported: bool, listSignIns: nat -> seq<AuditEvent>, listSignUps: nat -> seq<AuditEvent>,
      ghost signIns: seq<AuditEvent>, ghost signUps: seq<AuditEvent>, now0: int, now1: int, now2: int) returns (stats: Stats)
    ensures stats.auditSupported == supported
    ensures supported && Orderly(listSignIns, signIns, now0) ==>
      && stats.signInsTotal == |Windowed(signIns, now0)| && stats.mau == |ActiveAccounts(Windowed(signIns, now0))|
      && Bars(stats.signInsPerDay, Windowed(signIns, now0), now1)
      && CountsTheLog(signIns, now0, now1, stats.signInsTotal, stats.signInsPerDay)
      && (|SinceDay(signIns, Day(now0) - 29)| <= 10000 ==> stats.mau == |ActiveSince(signIns, Day(now0) - 29)|)
    ensures supported && Orderly(listSignUps, signUps, now0) ==>
      && stats.signUpsTotal == |Windowed(signUps, now0)|
      && Bars(stats.signUpsPerDay, Windowed(signUps, now0), now2)
      && CountsTheLog(signUps, now0, now2, stats.signUpsTotal, stats.signUpsPerDay)
    ensures supported && Orderly(listSignIns, signIns, now0) && OneDay(signIns, now0, now1) ==>
      Total(stats.signInsPerDay) == stats.signInsTotal
    ensures supported && Orderly(listSignUps, signUps, now0) && OneDay(signUps, now0, now2) ==>
      Total(stats.signUpsPerDay) == stats.signUpsTotal
    ensures !supported ==> stats.mau == stats.signInsTotal == stats.signUpsTotal == 0
    ensures !supported ==> Bars(stats.signInsPerDay, [], now1) && Bars(stats.signUpsPerDay, [], now2)
  {
    if !supported {
      var empty1 := BucketByDay([], now1);
      var empty2 := BucketByDay([], now2);
      return Stats(0, empty1, empty2, 0, 0, false);
    }
    var ins, inSeries := LoadSeries(listSignIns, signIns, now0, now1);
    var ups, upSeries := LoadSeries(listSignUps, signUps, now0, now2);
    var mau := CountActive(ins);
    if Orderly(listSignIns, signIns, now0) {
      WindowCountsTheLog(signIns, now0, now1, inSeries);
    }
    if Orderly(listSignUps, signUps, now0) {
      WindowCountsTheLog(signUps, now0, now2, upSeries);
    }
    stats := Stats(mau, inSeries, upSeries, |ins|, |ups|, true);
  }
}
