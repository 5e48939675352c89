/**
 * The permission cache of the browser: answers by key, and at most one request per key in flight.
 * The event loop interleaves calls with the two continuations of each request.
 */
module PermissionCache {
  import opened Wrappers

  // ---- Keys --------------------------------------------------------------------------

  function Text(resource: Option<string>): string {
    if resource.Some? then resource.value else ""
  }

  function CacheKey(path: string, principal: string, permission: string, resource: Option<string>): string {
    principal + "|" + path + "|" + permission + "|" + Text(resource)
  }

  /** Two checks ask the same: no resource and the empty one are both "no resource". */
  predicate SameCheck(path: string, principal: string, permission: string, resource: Option<string>,
      path': string, principal': string, permission': string, resource': Option<string>)
  {
    && path == path' && principal == principal' && permission == permission'
    && (resource == resource' || (resource in {None, Some("")} && resource' in {None, Some("")}))
  }

  lemma BarSplitsOnce(a: string, x: string, b: string, y: string)
    requires '|' !in a && '|' !in b
    requires a + "|" + x == b + "|" + y
    ensures a == b && x == y
  {
    var s := a + "|" + x;
    assert s[|a|] == '|' && s[|b|] == '|';
    assert forall i :: 0 <= i < |a| ==> s[i] == a[i];
    assert forall i :: 0 <= i < |b| ==> s[i] == b[i];
    assert |a| == |b|;
    assert a == s[..|a|] == s[..|b|] == b;
    assert x == s[|a| + 1..] == y;
  }

  lemma KeyNests(path: string, principal: string, permission: string, resource: Option<string>)
    ensures CacheKey(path, principal, permission, resource)
      == principal + "|" + (path + "|" + (permission + "|" + Text(resource)))
  {
  }

  /** Without the separator in principal, path and permission of either, a key tells all four components. */
  lemma KeyTellsItsComponents(path: string, principal: string, permission: string, resource: Option<string>,
      path': string, principal': string, permission': string, resource': Option<string>)
    requires '|' !in path && '|' !in principal && '|' !in permission
    requires '|' !in path' && '|' !in principal' && '|' !in permission'
    requires CacheKey(path, principal, permission, resource) == CacheKey(path', principal', permission', resource')
    ensures SameCheck(path, principal, permission, resource, path', principal', permission', resource')
  {
    var r, r' := Text(resource), Text(resource');
    KeyNests(path, principal, permission, resource);
    KeyNests(path', principal', permission', resource');
    BarSplitsOnce(principal, path + "|" + (permission + "|" + r), principal', path' + "|" + (permission' + "|" + r'));
    BarSplitsOnce(path, permission + "|" + r, path', permission' + "|" + r');
    BarSplitsOnce(permission, r, permission', r');
  }

  function Bars(s: string): nat {
    if s == "" then 0 else Bars(s[..|s| - 1]) + (if s[|s| - 1] == '|' then 1 else 0)
  }

  lemma {:induction false} BarsAdd(s: string, t: string)
    ensures Bars(s + t) == Bars(s) + Bars(t)
  {
    if t == "" {
      assert s + t == s;
    } else {
      assert (s + t)[..|s + t| - 1] == s + t[..|t| - 1];
      BarsAdd(s, t[..|t| - 1]);
    }
  }

  lemma {:induction false} NoBarsIff(s: string)
    ensures Bars(s) == 0 <==> '|' !in s
  {
    if s != "" {
      NoBarsIff(s[..|s| - 1]);
      assert s == s[..|s| - 1] + [s[|s| - 1]];
    }
  }

  lemma BarsOfKey(path: string, principal: string, permission: string, resource: Option<string>)
    ensures Bars(CacheKey(path, principal, permission, resource))
      == Bars(principal) + Bars(path) + Bars(permission) + Bars(Text(resource)) + 3
  {
    var inner := permission + "|" + Text(resource);
    KeyNests(path, principal, permission, resource);
    assert Bars("|") == 1 by { assert "|"[..0] == ""; }
    BarsAdd(principal + "|", path + "|" + inner);
    BarsAdd(principal, "|");
    BarsAdd(path + "|", inner);
    BarsAdd(path, "|");
    BarsAdd(permission + "|", Text(resource));
    BarsAdd(permission, "|");
  }

  /** No component of the check holds the separator. */
  predicate Separable(path: string, principal: string, permission: string, resource: Option<string>) {
    '|' !in path && '|' !in principal && '|' !in permission && '|' !in Text(resource)
  }

  /** No other check has the key of this one. */
  ghost predicate KeyIsOwn(path: string, principal: string, permission: string, resource: Option<string>) {
    forall path', principal', permission', resource' ::
      CacheKey(path, principal, permission, resource) == CacheKey(path', principal', permission', resource') ==>
        SameCheck(path, principal, permission, resource, path', principal', permission', resource')
  }

  /** A separable check shares its key with separable checks only, for the key then has three bars. */
  lemma SeparableKeysAreSeparable(path: string, principal: string, permission: string, resource: Option<string>,
      path': string, principal': string, permission': string, resource': Option<string>)
    requires Separable(path, principal, permission, resource)
    requires CacheKey(path, principal, permission, resource) == CacheKey(path', principal', permission', resource')
    ensures Separable(path', principal', permission', resource')
  {
    BarsOfKey(path, principal, permission, resource);
    BarsOfKey(path', principal', permission', resource');
    forall s ensures Bars(s) == 0 <==> '|' !in s {
      NoBarsIff(s);
    }
  }

  lemma SplitAtBar(s: string) returns (a: string, b: string)
    requires '|' in s
    ensures s == a + "|" + b
  {
    var i :| 0 <= i < |s| && s[i] == '|';
    a, b := s[..i], s[i + 1..];
  }

  /** A component with a bar in it can be split there, its neighbours moving up, without changing the key. */
  lemma BarCollides(path: string, principal: string, permission: string, resource: Option<string>)
    requires !Separable(path, principal, permission, resource)
    ensures !KeyIsOwn(path, principal, permission, resource)
  {
    var key, r := CacheKey(path, principal, permission, resource), Text(resource);
    if '|' in principal {
      var a, b := SplitAtBar(principal);
      assert key == CacheKey(b, a, path, Some(permission + "|" + r));
    } else if '|' in path {
      var a, b := SplitAtBar(path);
      assert key == CacheKey(a, principal, b, Some(permission + "|" + r));
    } else if '|' in permission {
      var a, b := SplitAtBar(permission);
      assert key == CacheKey(path, principal, a, Some(b + "|" + r));
    } else {
      var a, b := SplitAtBar(r);
      assert key == CacheKey(path, principal, permission + "|" + a, Some(b));
    }
  }

  /** A check has its key for itself exactly when none of its four components holds the separator. */
  lemma KeyIsOwnIff(path: string, principal: string, permission: string, resource: Option<string>)
    ensures KeyIsOwn(path, principal, permission, resource) <==> Separable(path, principal, permission, resource)
  {
    if Separable(path, principal, permission, resource) {
      forall path', principal', permission', resource' |
        CacheKey(path, principal, permission, resource) == CacheKey(path', principal', permission', resource')
        ensures SameCheck(path, principal, permission, resource, path', principal', permission', resource')
      {
        SeparableKeysAreSeparable(path, principal, permission, resource, path', principal', permission', resource');
        KeyTellsItsComponents(path, principal, permission, resource, path', principal', permission', resource');
      }
    } else {
      BarCollides(path, principal, permission, resource);
    }
  }

  // ---- The event loop ----------------------------------------------------------------

  /** A request's life: sent, then answered or rejected, then its `finally` runs. */
  datatype Status = Pending | Answered(allowed: bool) | Rejected

  datatype Request = Request(key: string, status: Status, settled: bool)

  /** `source` says which request an answer came from. */
  datatype Loop = Loop(resolved: map<string, bool>, inflight: map<string, nat>, requests: seq<Request>, source: map<string, nat>)

  const START := Loop(map[], map[], [], map[])

  datatype Event =
    | Call(key: string)
    | Respond(id: nat, allowed: bool)
    | Fail(id: nat)
    | Finally(id: nat)
    | Clear

  /** What can happen next: a pending request gets one response, and `finally` follows it once. */
  predicate Enabled(l: Loop, e: Event) {
    match e
    case Respond(id, _) => id < |l.requests| && l.requests[id].status.Pending?
    case Fail(id) => id < |l.requests| && l.requests[id].status.Pending?
    case Finally(id) => id < |l.requests| && !l.requests[id].status.Pending? && !l.requests[id].settled
    case _ => true
  }

  function Called(l: Loop, key: string): Loop {
    if key in l.resolved || key in l.inflight then l
    else l.(requests := l.requests + [Request(key, Pending, false)], inflight := l.inflight[key := |l.requests|])
  }

  function Step(l: Loop, e: Event): Loop
    requires Enabled(l, e)
  {
    match e
    case Call(key) => Called(l, key)
    case Respond(id, allowed) =>
      var key := l.requests[id].key;
      l.(resolved := l.resolved[key := allowed], source := l.source[key := id],
         requests := l.requests[id := l.requests[id].(status := Answered(allowed))])
    case Fail(id) => l.(requests := l.requests[id := l.requests[id].(status := Rejected)])
    case Finally(id) =>
      l.(inflight := l.inflight - {l.requests[id].key}, requests := l.requests[id := l.requests[id].(settled := true)])
    case Clear => l.(resolved := map[], inflight := map[], source := map[])
  }

  datatype Outcome = Cached(allowed: bool) | Shared(id: nat) | Sent(id: nat)

  /** The cache object, with the requests the page has made. */
  class CanCache {
    var resolved: map<string, bool>
    var inflight: map<string, nat>
    var requests: seq<Request>
    ghost var source: map<string, nat>

    constructor ()
      ensures Contents() == START
    {
      resolved, inflight, requests, source := map[], map[], [], map[];
    }

    ghost function Contents(): Loop
      reads this
    {
      Loop(resolved, inflight, requests, source)
    }

    /** The synchronous part of `checkCan`. */
    method CheckCan(path: string, permission: string, resource: Option<string>, principal: string) returns (r: Outcome)
      modifies this
      ensures Contents() == Called(old(Contents()), CacheKey(path, principal, permission, resource))
      ensures var key, before := CacheKey(path, principal, permission, resource), old(Contents());
        && (r.Cached? <==> key in before.resolved) && (r.Cached? ==> r.allowed == before.resolved[key])
        && (r.Shared? <==> key !in before.resolved && key in before.inflight) && (r.Shared? ==> r.id == before.inflight[key])
        && (r.Sent? ==> r.id == |before.requests|)
    {
      var key := CacheKey(path, principal, permission, resource);
      if key in resolved {
        return Cached(resolved[key]);
      }
      if key in inflight {
        return Shared(inflight[key]);
      }
      var id := |requests|;
      requests := requests + [Request(key, Pending, false)];
      inflight := inflight[key := id];
      return Sent(id);
    }

    /** The `then` continuation. */
    method OnResponse(id: nat, allowed: bool)
      requires Enabled(Contents(), Respond(id, allowed))
      modifies this
      ensures Contents() == Step(old(Contents()), Respond(id, allowed))
    {
      var key := requests[id].key;
      resolved := resolved[key := allowed];
      source := source[key := id];
      requests := requests[id := requests[id].(status := Answered(allowed))];
    }

    /** A rejection skips `then`. */
    method OnFailure(id: nat)
      requires Enabled(Contents(), Fail(id))
      modifies this
      ensures Contents() == Step(old(Contents()), Fail(id))
    {
      requests := requests[id := requests[id].(status := Rejected)];
    }

    /** The `finally` continuation. */
    method OnSettled(id: nat)
      requires Enabled(Contents(), Finally(id))
      modifies this
      ensures Contents() == Step(old(Contents()), Finally(id))
    {
      inflight := inflight - {requests[id].key};
      requests := requests[id := requests[id].(settled := true)];
    }

    method ClearAll()
      modifies this
      ensures Contents() == Step(old(Contents()), Clear)
    {
      resolved, inflight, source := map[], map[], map[];
    }
  }

  // ---- Runs --------------------------------------------------------------------------

  predicate Feasible(l: Loop, events: seq<Event>)
    decreases |events|
  {
    events == [] || (Enabled(l, events[0]) && Feasible(Step(l, events[0]), events[1..]))
  }

  function Exec(l: Loop, events: seq<Event>): Loop
    requires Feasible(l, events)
    decreases |events|
  {
    if events == [] then l else Exec(Step(l, events[0]), events[1..])
  }

  predicate NoClear(events: seq<Event>) {
    forall i :: 0 <= i < |events| ==> !events[i].Clear?
  }

  /** Requests sent for a key. */
  function CountSent(requests: seq<Request>, key: string): nat {
    if requests == [] then 0
    else CountSent(requests[..|requests| - 1], key) + (if requests[|requests| - 1].key == key then 1 else 0)
  }

  function CountRejected(requests: seq<Request>, key: string): nat {
    if requests == [] then 0
    else
      var r := requests[|requests| - 1];
      CountRejected(requests[..|requests| - 1], key) + (if r.key == key && r.status.Rejected? then 1 else 0)
  }

  /** The request in flight for the key still waits for its response. */
  predicate Awaited(l: Loop, key: string) {
    key in l.inflight && l.inflight[key] < |l.requests| && l.requests[l.inflight[key]].status.Pending?
  }

  /** The in-flight map lists exactly the unsettled requests. */
  ghost predicate InflightIsUnsettled(l: Loop) {
    && (forall k :: k in l.inflight ==>
          l.inflight[k] < |l.requests| && l.requests[l.inflight[k]].key == k && !l.requests[l.inflight[k]].settled)
    && (forall i :: 0 <= i < |l.requests| && !l.requests[i].settled ==>
          l.requests[i].key in l.inflight && l.inflight[l.requests[i].key] == i)
    && (forall i :: 0 <= i < |l.requests| && l.requests[i].status.Pending? ==> !l.requests[i].settled)
  }

  /** Each stored answer is the response to its own key's request, and no answer is lost or asked for again. */
  ghost predicate AnswersAreResponses(l: Loop) {
    && (forall k :: k in l.resolved ==> HasSource(l, k))
    && (forall i :: 0 <= i < |l.requests| && l.requests[i].status.Answered? ==> l.requests[i].key in l.resolved)
    && (forall k :: k in l.resolved ==> !Awaited(l, k))
  }

  predicate HasSource(l: Loop, k: string)
    requires k in l.resolved
  {
    && k in l.source && l.source[k] < |l.requests|
    && l.requests[l.source[k]] == Request(k, Answered(l.resolved[k]), l.requests[l.source[k]].settled)
  }

  lemma {:induction false} CountsAfterUpdate(requests: seq<Request>, id: nat, r: Request, key: string)
    requires id < |requests| && r.key == requests[id].key && !requests[id].status.Rejected?
    ensures CountSent(requests[id := r], key) == CountSent(requests, key)
    ensures CountRejected(requests[id := r], key)
      == CountRejected(requests, key) + (if r.status.Rejected? && r.key == key then 1 else 0)
  {
    var n := |requests| - 1;
    if id == n {
      assert requests[id := r][..n] == requests[..n];
    } else {
      assert requests[id := r][..n] == requests[..n][id := r];
      CountsAfterUpdate(requests[..n], id, r, key);
    }
  }

  lemma {:induction false} CountsAfterSettling(requests: seq<Request>, id: nat, key: string)
    requires id < |requests|
    ensures CountSent(requests[id := requests[id].(settled := true)], key) == CountSent(requests, key)
    ensures CountRejected(requests[id := requests[id].(settled := true)], key) == CountRejected(requests, key)
  {
    var n, r := |requests| - 1, requests[id].(settled := true);
    if id == n {
      assert requests[id := r][..n] == requests[..n];
    } else {
      assert requests[id := r][..n] == requests[..n][id := r];
      CountsAfterSettling(requests[..n], id, key);
    }
  }

  lemma CallKeepsInflight(l: Loop, key: string)
    requires InflightIsUnsettled(l)
    ensures InflightIsUnsettled(Called(l, key))
  {
  }

  lemma SettlingKeepsInflight(l: Loop, id: nat)
    requires Enabled(l, Finally(id)) && InflightIsUnsettled(l)
    ensures InflightIsUnsettled(Step(l, Finally(id)))
  {
  }

  lemma StepKeepsInflight(l: Loop, e: Event)
    requires Enabled(l, e) && !e.Clear? && InflightIsUnsettled(l)
    ensures InflightIsUnsettled(Step(l, e))
  {
    match e
    case Call(key) => CallKeepsInflight(l, key);
    case Respond(_, _) =>
    case Fail(_) =>
    case Finally(id) => SettlingKeepsInflight(l, id);
  }

  /** A response settles the question of its key: nothing else is awaited for it. */
  lemma StepKeepsAnswers(l: Loop, e: Event)
    requires Enabled(l, e) && !e.Clear? && InflightIsUnsettled(l) && AnswersAreResponses(l)
    ensures AnswersAreResponses(Step(l, e))
  {
    var l' := Step(l, e);
    forall k | k in l'.resolved ensures HasSource(l', k) && !Awaited(l', k) {
      if k in l.resolved {
        assert HasSource(l, k) && !Awaited(l, k);
      }
      if !e.Call? {
        assert l.requests[e.id].status.Pending? ==> l.inflight[l.requests[e.id].key] == e.id;
      }
    }
  }

  ghost predicate CountedFor(l: Loop, k: string) {
    CountSent(l.requests, k) == CountRejected(l.requests, k) + (if k in l.resolved || Awaited(l, k) then 1 else 0)
  }

  lemma CallKeepsCount(l: Loop, key: string, k: string)
    requires InflightIsUnsettled(l) && CountedFor(l, k)
    ensures CountedFor(Called(l, key), k)
  {
  }

  lemma ResponseKeepsCount(l: Loop, id: nat, allowed: bool, k: string)
    requires Enabled(l, Respond(id, allowed)) && InflightIsUnsettled(l) && CountedFor(l, k)
    requires l.requests[id].key !in l.resolved
    ensures CountedFor(Step(l, Respond(id, allowed)), k)
  {
    assert l.inflight[l.requests[id].key] == id;
    CountsAfterUpdate(l.requests, id, l.requests[id].(status := Answered(allowed)), k);
  }

  lemma FailureKeepsCount(l: Loop, id: nat, k: string)
    requires Enabled(l, Fail(id)) && InflightIsUnsettled(l) && CountedFor(l, k)
    requires l.requests[id].key !in l.resolved
    ensures CountedFor(Step(l, Fail(id)), k)
  {
    assert l.inflight[l.requests[id].key] == id;
    CountsAfterUpdate(l.requests, id, l.requests[id].(status := Rejected), k);
  }

  lemma SettlingKeepsCount(l: Loop, id: nat, k: string)
    requires Enabled(l, Finally(id)) && InflightIsUnsettled(l) && CountedFor(l, k)
    ensures CountedFor(Step(l, Finally(id)), k)
  {
    assert l.inflight[l.requests[id].key] == id;
    CountsAfterSettling(l.requests, id, k);
  }

  lemma StepKeepsCount(l: Loop, e: Event, k: string)
    requires Enabled(l, e) && !e.Clear? && InflightIsUnsettled(l) && AnswersAreResponses(l) && CountedFor(l, k)
    ensures CountedFor(Step(l, e), k)
  {
    match e
    case Call(key) => CallKeepsCount(l, key, k);
    case Respond(id, allowed) =>
      assert Awaited(l, l.requests[id].key);
      ResponseKeepsCount(l, id, allowed, k);
    case Fail(id) =>
      assert Awaited(l, l.requests[id].key);
      FailureKeepsCount(l, id, k);
    case Finally(id) => SettlingKeepsCount(l, id, k);
  }

  ghost predicate Sound(l: Loop) {
    InflightIsUnsettled(l) && AnswersAreResponses(l) && forall k :: CountedFor(l, k)
  }

  lemma {:induction false} ExecKeepsSound(l: Loop, events: seq<Event>)
    requires Feasible(l, events) && NoClear(events) && Sound(l)
    ensures Sound(Exec(l, events))
    decreases |events|
  {
    if events != [] {
      var e := events[0];
      StepKeepsInflight(l, e);
      StepKeepsAnswers(l, e);
      forall k ensures CountedFor(Step(l, e), k) {
        StepKeepsCount(l, e, k);
      }
      ExecKeepsSound(Step(l, e), events[1..]);
    }
  }

  /**
   * In every interleaving without `clear`: one unsettled request per key at most; a stored answer is
   * the response to a request for that key; and the requests sent for a key are its rejections, plus
   * one if it is resolved or awaited.
   */
  lemma CacheDeduplicates(events: seq<Event>)
    requires Feasible(START, events) && NoClear(events)
    ensures var l := Exec(START, events);
      && (forall i, j :: 0 <= i < j < |l.requests| && l.requests[i].key == l.requests[j].key ==>
            l.requests[i].settled || l.requests[j].settled)
      && (forall k :: k in l.resolved ==>
            exists i :: 0 <= i < |l.requests| && l.requests[i].key == k && l.requests[i].status == Answered(l.resolved[k]))
      && (forall k :: CountSent(l.requests, k)
            == CountRejected(l.requests, k) + (if k in l.resolved || Awaited(l, k) then 1 else 0))
  {
    ExecKeepsSound(START, events);
    var l := Exec(START, events);
    forall k ensures CountSent(l.requests, k) == CountRejected(l.requests, k) + (if k in l.resolved || Awaited(l, k) then 1 else 0) {
      assert CountedFor(l, k);
    }
    forall k | k in l.resolved
      ensures exists i :: 0 <= i < |l.requests| && l.requests[i].key == k && l.requests[i].status == Answered(l.resolved[k])
    {
      assert HasSource(l, k);
    }
  }

  // ---- Where a stored answer comes from ----------------------------------------------------

  /** The event answers a request for the key; `end` is a later state, in which requests keep their number and key. */
  predicate RespondsFor(end: Loop, e: Event, k: string) {
    e.Respond? && e.id < |end.requests| && end.requests[e.id].key == k
  }

  /** From event number `from` on nothing is cleared and no request for the key is answered. */
  ghost predicate NoneSince(end: Loop, events: seq<Event>, from: int, k: string) {
    forall j :: from <= j < |events| && j >= 0 ==> !events[j].Clear? && !RespondsFor(end, events[j], k)
  }

  /** Event i is the latest answer for the key, and nothing was cleared after it. */
  ghost predicate LatestAnswer(end: Loop, events: seq<Event>, i: nat, k: string)
    requires i < |events|
  {
    RespondsFor(end, events[i], k) && NoneSince(end, events, i + 1, k)
  }

  lemma {:induction false} RequestsKeepTheirKeys(l: Loop, events: seq<Event>)
    requires Feasible(l, events)
    ensures |l.requests| <= |Exec(l, events).requests|
    ensures forall i :: 0 <= i < |l.requests| ==> Exec(l, events).requests[i].key == l.requests[i].key
    decreases |events|
  {
    if events != [] {
      RequestsKeepTheirKeys(Step(l, events[0]), events[1..]);
    }
  }

  /** A later answer, or a later clear, counts for the longer run as it does for the shorter one. */
  lemma EventsShift(end: Loop, events: seq<Event>, k: string)
    requires events != []
    ensures forall i :: 0 <= i < |events| - 1 ==>
      (LatestAnswer(end, events[1..], i, k) <==> LatestAnswer(end, events, i + 1, k))
    ensures NoneSince(end, events, 0, k) <==> NoneSince(end, events[1..], 0, k) && !events[0].Clear? && !RespondsFor(end, events[0], k)
    ensures NoneSince(end, events[1..], 0, k) <==> NoneSince(end, events, 1, k)
  {
    var rest := events[1..];
    forall from: nat ensures NoneSince(end, rest, from, k) <==> NoneSince(end, events, from + 1, k) {
      if NoneSince(end, rest, from, k) {
        forall j | from + 1 <= j < |events| ensures !events[j].Clear? && !RespondsFor(end, events[j], k) {
          assert rest[j - 1] == events[j];
        }
      }
      if NoneSince(end, events, from + 1, k) {
        forall j | from <= j < |rest| ensures !rest[j].Clear? && !RespondsFor(end, rest[j], k) {
          assert rest[j] == events[j + 1];
        }
      }
    }
  }

  /** What is stored for a key is the latest answer, or else what was stored at the beginning. */
  lemma {:induction false} StoredIsLatest(l: Loop, events: seq<Event>, k: string)
    requires Feasible(l, events)
    ensures var end := Exec(l, events);
      && (forall i :: 0 <= i < |events| && LatestAnswer(end, events, i, k) ==>
            k in end.resolved && end.resolved[k] == events[i].allowed)
      && (NoneSince(end, events, 0, k) ==>
            (k in end.resolved <==> k in l.resolved) && (k in l.resolved ==> end.resolved[k] == l.resolved[k]))
      && (k in end.resolved ==> NoneSince(end, events, 0, k) || exists i :: 0 <= i < |events| && LatestAnswer(end, events, i, k))
    decreases |events|
  {
    if events != [] {
      var next, rest, end := Step(l, events[0]), events[1..], Exec(l, events);
      StoredIsLatest(next, rest, k);
      RequestsKeepTheirKeys(next, rest);
      EventsShift(end, events, k);
      FirstEvent(l, events[0], end, k);
      forall i | 0 <= i < |events| && LatestAnswer(end, events, i, k)
        ensures k in end.resolved && end.resolved[k] == events[i].allowed
      {
        if i > 0 {
          assert LatestAnswer(end, rest, i - 1, k) && rest[i - 1] == events[i];
        }
      }
      if k in end.resolved && !NoneSince(end, events, 0, k) {
        if NoneSince(end, rest, 0, k) {
          assert LatestAnswer(end, events, 0, k);
        } else {
          var i :| 0 <= i < |rest| && LatestAnswer(end, rest, i, k);
          assert LatestAnswer(end, events, i + 1, k);
        }
      }
    }
  }

  /** What one event does to the answer stored for a key. */
  lemma FirstEvent(l: Loop, e: Event, end: Loop, k: string)
    requires Enabled(l, e)
    requires |Step(l, e).requests| <= |end.requests|
    requires forall i :: 0 <= i < |Step(l, e).requests| ==> end.requests[i].key == Step(l, e).requests[i].key
    ensures RespondsFor(end, e, k) ==> k in Step(l, e).resolved && Step(l, e).resolved[k] == e.allowed
    ensures e.Clear? ==> k !in Step(l, e).resolved
    ensures !RespondsFor(end, e, k) && !e.Clear? ==>
      (k in Step(l, e).resolved <==> k in l.resolved) && (k in l.resolved ==> Step(l, e).resolved[k] == l.resolved[k])
  {
  }

  /**
   * Over every interleaving: an answer is stored for a key exactly when a request for it was answered
   * since the last clear, and it is what the latest such response said.
   */
  lemma AnswerIsLatestResponse(events: seq<Event>, k: string)
    requires Feasible(START, events)
    ensures var end := Exec(START, events);
      && (k in end.resolved <==> exists i :: 0 <= i < |events| && LatestAnswer(end, events, i, k))
      && (forall i :: 0 <= i < |events| && LatestAnswer(end, events, i, k) ==> end.resolved[k] == events[i].allowed)
  {
    StoredIsLatest(START, events, k);
  }

  /** So asking again is answered by the latest response, when there is one, and without a new request. */
  method AskAgain(cache: CanCache, ghost events: seq<Event>, path: string, permission: string, resource: Option<string>,
      principal: string) returns (r: Outcome)
    requires Feasible(START, events) && cache.Contents() == Exec(START, events)
    modifies cache
    ensures var end, k := old(cache.Contents()), CacheKey(path, principal, permission, resource);
      && (r.Cached? <==> exists i :: 0 <= i < |events| && LatestAnswer(end, events, i, k))
      && (forall i :: 0 <= i < |events| && LatestAnswer(end, events, i, k) ==> r == Cached(events[i].allowed))
      && (r.Cached? ==> cache.Contents() == end)
  {
    AnswerIsLatestResponse(events, CacheKey(path, principal, permission, resource));
    r := cache.CheckCan(path, permission, resource, principal);
  }

  // ---- Invalidation --------------------------------------------------------------------

  /** Every stored answer came from a request made at or after number n. */
  ghost predicate AnswersFrom(l: Loop, n: nat) {
    forall k :: k in l.resolved ==> k in l.source && l.source[k] >= n
  }

  /** No request before number n is pending. */
  predicate QuietBefore(l: Loop, n: nat) {
    n <= |l.requests| && forall i :: 0 <= i < n ==> !l.requests[i].status.Pending?
  }

  lemma {:induction false} QuietStaysFresh(l: Loop, events: seq<Event>, n: nat)
    requires Feasible(l, events) && AnswersFrom(l, n) && QuietBefore(l, n)
    ensures AnswersFrom(Exec(l, events), n)
    decreases |events|
  {
    if events != [] {
      QuietStaysFresh(Step(l, events[0]), events[1..], n);
    }
  }

  /**
   * `clear` really forces fresh answers exactly when no request is pending: otherwise the late
   * response of an old request is stored again.
   */
  lemma ClearForcesFreshAnswersIff(l: Loop)
    ensures (forall events :: Feasible(Step(l, Clear), events) ==> AnswersFrom(Exec(Step(l, Clear), events), |l.requests|))
       <==> QuietBefore(l, |l.requests|)
  {
    var c, n := Step(l, Clear), |l.requests|;
    if QuietBefore(l, n) {
      forall events | Feasible(c, events) ensures AnswersFrom(Exec(c, events), n) {
        QuietStaysFresh(c, events, n);
      }
    } else {
      var i :| 0 <= i < n && l.requests[i].status.Pending?;
      LateResponseIsStored(c, i, n);
      assert Feasible(c, [Respond(i, true)]) && !AnswersFrom(Exec(c, [Respond(i, true)]), n);
    }
  }

  lemma LateResponseIsStored(c: Loop, i: nat, n: nat)
    requires i < n <= |c.requests| && c.requests[i].status.Pending?
    ensures Feasible(c, [Respond(i, true)]) && !AnswersFrom(Exec(c, [Respond(i, true)]), n)
  {
    var late := [Respond(i, true)];
    assert late[1..] == [] && Enabled(c, late[0]) && Feasible(Step(c, late[0]), []);
    var end := Step(c, late[0]);
    assert Exec(c, late) == Exec(end, []) == end;
    assert c.requests[i].key in end.resolved && end.source[c.requests[i].key] == i;
  }

  // ---- Deduplication across a clear ------------------------------------------------------

  /** Requests made since number n: no two unsettled ones for the same key. */
  ghost predicate OneUnsettledFrom(l: Loop, n: nat) {
    forall i, j :: n <= i < j < |l.requests| && l.requests[i].key == l.requests[j].key ==>
      l.requests[i].settled || l.requests[j].settled
  }

  predicate AllSettled(l: Loop) {
    forall i :: 0 <= i < |l.requests| ==> l.requests[i].settled
  }

  /** A settled request has its answer; this holds of every reachable loop. */
  predicate SettledAreDone(l: Loop) {
    forall i :: 0 <= i < |l.requests| && l.requests[i].settled ==> !l.requests[i].status.Pending?
  }

  lemma {:induction false} ReachableSettledAreDone(l: Loop, events: seq<Event>)
    requires SettledAreDone(l) && Feasible(l, events)
    ensures SettledAreDone(Exec(l, events))
    decreases |events|
  {
    if events != [] {
      ReachableSettledAreDone(Step(l, events[0]), events[1..]);
    }
  }

  lemma {:induction false} ExecKeepsInflight(l: Loop, events: seq<Event>)
    requires Feasible(l, events) && NoClear(events) && InflightIsUnsettled(l)
    ensures InflightIsUnsettled(Exec(l, events))
    decreases |events|
  {
    if events != [] {
      StepKeepsInflight(l, events[0]);
      ExecKeepsInflight(Step(l, events[0]), events[1..]);
    }
  }

  /** Every clear of the run comes when all requests have settled. */
  predicate QuietClears(l: Loop, events: seq<Event>)
    requires Feasible(l, events)
    decreases |events|
  {
    events == [] || ((events[0].Clear? ==> AllSettled(l)) && QuietClears(Step(l, events[0]), events[1..]))
  }

  /** With such clears only, every run keeps one unsettled request per key at most. */
  lemma {:induction false} QuietClearsDeduplicate(l: Loop, events: seq<Event>)
    requires Feasible(l, events) && QuietClears(l, events) && InflightIsUnsettled(l)
    ensures InflightIsUnsettled(Exec(l, events)) && OneUnsettledFrom(Exec(l, events), 0)
    decreases |events|
  {
    if events != [] {
      if !events[0].Clear? {
        StepKeepsInflight(l, events[0]);
      }
      QuietClearsDeduplicate(Step(l, events[0]), events[1..]);
    }
  }

  /**
   * After a clear at most one request per key is unsettled among the new ones, in every continuation
   * without another clear, exactly when every request made before it had settled: otherwise the late
   * `finally` of an old request takes the new one for its key out of flight.
   */
  lemma ClearKeepsDeduplicationIff(l: Loop)
    requires SettledAreDone(l)
    ensures (forall events :: Feasible(Step(l, Clear), events) && NoClear(events) ==>
        OneUnsettledFrom(Exec(Step(l, Clear), events), |l.requests|))
       <==> AllSettled(l)
  {
    var c, n := Step(l, Clear), |l.requests|;
    if AllSettled(l) {
      forall events | Feasible(c, events) && NoClear(events) ensures OneUnsettledFrom(Exec(c, events), n) {
        ExecKeepsInflight(c, events);
      }
    } else {
      var i :| 0 <= i < n && !l.requests[i].settled;
      var events := LateFinallyForgets(c, i);
      assert Feasible(c, events) && NoClear(events) && !OneUnsettledFrom(Exec(c, events), n);
    }
  }

  /** Call, the late end of the old request, call again: two requests for the key are pending. */
  lemma LateFinallyForgets(c: Loop, i: nat) returns (events: seq<Event>)
    requires c.resolved == map[] && c.inflight == map[] && i < |c.requests| && !c.requests[i].settled
    ensures Feasible(c, events) && NoClear(events) && !OneUnsettledFrom(Exec(c, events), |c.requests|)
  {
    var n, key := |c.requests|, c.requests[i].key;
    var c1 := Step(c, Call(key));
    var end := if c1.requests[i].status.Pending? then [Fail(i)] else [];
    var c2 := if c1.requests[i].status.Pending? then Step(c1, Fail(i)) else c1;
    var c3 := Step(c2, Finally(i));
    var c4 := Step(c3, Call(key));
    assert c1.requests[n] == Request(key, Pending, false) && c1.inflight == map[key := n];
    assert c3.inflight == map[] && c3.resolved == map[] && c3.requests[n] == Request(key, Pending, false);
    assert c4.requests[n + 1] == Request(key, Pending, false) && c4.requests[n] == c3.requests[n];
    events := [Call(key)] + end + [Finally(i), Call(key)];
    TwoSteps(c2, Finally(i), Call(key));
    if c1.requests[i].status.Pending? {
      OneStep(c1, Fail(i), [Finally(i), Call(key)]);
      assert [Call(key)] + end + [Finally(i), Call(key)] == [Call(key)] + ([Fail(i)] + [Finally(i), Call(key)]);
      OneStep(c, Call(key), [Fail(i)] + [Finally(i), Call(key)]);
    } else {
      assert events == [Call(key)] + [Finally(i), Call(key)];
      OneStep(c, Call(key), [Finally(i), Call(key)]);
    }
    assert Exec(c, events) == c4;
  }

  lemma OneStep(l: Loop, e: Event, rest: seq<Event>)
    requires Enabled(l, e) && Feasible(Step(l, e), rest)
    ensures Feasible(l, [e] + rest) && Exec(l, [e] + rest) == Exec(Step(l, e), rest)
  {
    assert ([e] + rest)[1..] == rest;
  }

  lemma TwoSteps(l: Loop, e: Event, f: Event)
    requires Enabled(l, e) && Enabled(Step(l, e), f)
    ensures Feasible(l, [e, f]) && Exec(l, [e, f]) == Step(Step(l, e), f)
  {
    var end := Step(Step(l, e), f);
    assert [e, f] == [e] + [f] && [f] == [f] + [];
    OneStep(Step(l, e), f, []);
    OneStep(l, e, [f]);
    assert Exec(end, []) == end;
  }
}
