/** The in-memory index from the provider's sid and sub to local session ids. */
module SessionIndex {
  import opened Wrappers

  /** The two maps of the index. */
  datatype Maps = Maps(bySid: map<string, string>, bySub: map<string, set<string>>)

  function Registered(m: Maps, sid: Option<string>, sub: string, sessionId: string): Maps {
    Maps(
      if Truthy(sid) then m.bySid[sid.value := sessionId] else m.bySid,
      m.bySub[sub := (if sub in m.bySub then m.bySub[sub] else {}) + {sessionId}])
  }

  /** The buckets when all but those of `todo` have lost one session; a bucket that this empties goes away. */
  function ScrubbedBut(bySub: map<string, set<string>>, todo: set<string>, sessionId: string): map<string, set<string>> {
    map u | u in bySub && (u in todo || bySub[u] != {sessionId}) :: if u in todo then bySub[u] else bySub[u] - {sessionId}
  }

  function Scrub(bySub: map<string, set<string>>, sessionId: string): map<string, set<string>> {
    ScrubbedBut(bySub, {}, sessionId)
  }

  function SidRevoked(m: Maps, sid: string): Maps {
    if sid !in m.bySid || m.bySid[sid] == "" then m
    else Maps(m.bySid - {sid}, Scrub(m.bySub, m.bySid[sid]))
  }

  function SidAnswer(m: Maps, sid: string): set<string> {
    if sid !in m.bySid || m.bySid[sid] == "" then {} else {m.bySid[sid]}
  }

  function SubRevoked(m: Maps, sub: string): Maps {
    if sub !in m.bySub then m
    else Maps(map s | s in m.bySid && m.bySid[s] !in m.bySub[sub] :: m.bySid[s], m.bySub - {sub})
  }

  function SubAnswer(m: Maps, sub: string): set<string> {
    if sub !in m.bySub then {} else m.bySub[sub]
  }

  lemma ScrubOneMore(bySub: map<string, set<string>>, todo: set<string>, u: string, sessionId: string)
    requires u in todo && todo <= bySub.Keys
    ensures ScrubbedBut(bySub, todo - {u}, sessionId) ==
      if sessionId !in bySub[u] then ScrubbedBut(bySub, todo, sessionId)
      else if bySub[u] - {sessionId} == {} then ScrubbedBut(bySub, todo, sessionId) - {u}
      else ScrubbedBut(bySub, todo, sessionId)[u := bySub[u] - {sessionId}]
  {
    if sessionId in bySub[u] {
      assert (bySub[u] - {sessionId}) + {sessionId} == bySub[u];
    } else {
      assert bySub[u] - {sessionId} == bySub[u];
    }
  }

  class InMemorySessionIndex {
    var bySid: map<string, string>
    var bySub: map<string, set<string>>

    constructor ()
      ensures Contents() == Maps(map[], map[])
    {
      bySid, bySub := map[], map[];
    }

    function Contents(): Maps
      reads this
    {
      Maps(bySid, bySub)
    }

    method Register(sid: Option<string>, sub: string, sessionId: string)
      modifies this
      ensures Contents() == Registered(old(Contents()), sid, sub, sessionId)
    {
      if Truthy(sid) {
        bySid := bySid[sid.value := sessionId];
      }
      var bucket := if sub in bySub then bySub[sub] else {};
      bucket := bucket + {sessionId};
      bySub := bySub[sub := bucket];
    }

    /** Also takes the session out of every sub bucket. */
    method RevokeBySid(sid: string) returns (sessionIds: set<string>)
      modifies this
      ensures Contents() == SidRevoked(old(Contents()), sid)
      ensures sessionIds == SidAnswer(old(Contents()), sid)
    {
      if sid !in bySid || bySid[sid] == "" {
        return {};
      }
      var sessionId := bySid[sid];
      bySid := bySid - {sid};
      ScrubBuckets(sessionId);
      return {sessionId};
    }

    /** The loop over the sub buckets. */
    method ScrubBuckets(sessionId: string)
      modifies this`bySub
      ensures bySub == Scrub(old(bySub), sessionId)
    {
      ghost var before := bySub;
      var todo := bySub.Keys;
      while todo != {}
        invariant todo <= before.Keys
        invariant bySub == ScrubbedBut(before, todo, sessionId)
        decreases |todo|
      {
        var u :| u in todo;
        ScrubOneMore(before, todo, u, sessionId);
        if sessionId in bySub[u] {
          var rest := bySub[u] - {sessionId};
          if rest == {} {
            bySub := bySub - {u};
          } else {
            bySub := bySub[u := rest];
          }
        }
        todo := todo - {u};
      }
    }

    /** Also takes out the sid entries that point at the bucket's sessions. */
    method RevokeBySub(sub: string) returns (sessionIds: set<string>)
      modifies this
      ensures Contents() == SubRevoked(old(Contents()), sub)
      ensures sessionIds == SubAnswer(old(Contents()), sub)
    {
      if sub !in bySub {
        return {};
      }
      var bucket := bySub[sub];
      bySub := bySub - {sub};
      ghost var before := bySid;
      var todo := bySid.Keys;
      while todo != {}
        invariant todo <= before.Keys
        invariant bySub == old(bySub) - {sub}
        invariant bySid == map s | s in before && (s in todo || before[s] !in bucket) :: before[s]
        decreases |todo|
      {
        var s :| s in todo;
        if bySid[s] in bucket {
          bySid := bySid - {s};
        }
        todo := todo - {s};
      }
      return bucket;
    }
  }

  // ---- Runs --------------------------------------------------------------------------

  datatype Op =
    | Register(sid: Option<string>, sub: string, sessionId: string)
    | RevokeBySid(key: string)
    | RevokeBySub(key: string)

  function Step(m: Maps, op: Op): Maps {
    match op
    case Register(sid, sub, id) => Registered(m, sid, sub, id)
    case RevokeBySid(sid) => SidRevoked(m, sid)
    case RevokeBySub(sub) => SubRevoked(m, sub)
  }

  function Answer(m: Maps, op: Op): set<string> {
    match op
    case Register(_, _, _) => {}
    case RevokeBySid(sid) => SidAnswer(m, sid)
    case RevokeBySub(sub) => SubAnswer(m, sub)
  }

  function Run(ops: seq<Op>): Maps {
    if ops == [] then Maps(map[], map[]) else Step(Run(ops[..|ops| - 1]), ops[|ops| - 1])
  }

  /** The provider's sid and sub of a local session. */
  datatype Home = Home(sid: Option<string>, sub: string)

  type Directory = string -> Home

  /** A sid names one session. */
  ghost predicate SidsAreUnique(dir: Directory) {
    forall a, b :: Truthy(dir(a).sid) && dir(a).sid == dir(b).sid ==> a == b
  }

  predicate Fits(dir: Directory, op: Op) {
    op.Register? ==> op.sessionId != "" && dir(op.sessionId) == Home(op.sid, op.sub)
  }

  /** The simple form: one set of sessions, each standing for its (sid, sub, session) triple. */
  function Matching(dir: Directory, live: set<string>, op: Op): set<string> {
    match op
    case Register(_, _, _) => {}
    case RevokeBySid(sid) => set s | s in live && sid != "" && dir(s).sid == Some(sid)
    case RevokeBySub(sub) => set s | s in live && dir(s).sub == sub
  }

  function LiveStep(dir: Directory, live: set<string>, op: Op): set<string> {
    if op.Register? then live + {op.sessionId} else live - Matching(dir, live, op)
  }

  function LiveRun(dir: Directory, ops: seq<Op>): set<string> {
    if ops == [] then {} else LiveStep(dir, LiveRun(dir, ops[..|ops| - 1]), ops[|ops| - 1])
  }

  ghost predicate ProjectsSids(dir: Directory, bySid: map<string, string>, live: set<string>) {
    && (forall sid :: sid in bySid ==> sid != "" && bySid[sid] in live && dir(bySid[sid]).sid == Some(sid))
    && (forall s :: s in live && Truthy(dir(s).sid) ==> dir(s).sid.value in bySid && bySid[dir(s).sid.value] == s)
  }

  ghost predicate ProjectsSubs(dir: Directory, bySub: map<string, set<string>>, live: set<string>) {
    && (forall u :: u in bySub ==> bySub[u] != {} && forall s :: s in bySub[u] ==> s in live && dir(s).sub == u)
    && (forall s :: s in live ==> dir(s).sub in bySub && s in bySub[dir(s).sub])
  }

  /** Both maps are the projections of the set of triples. */
  ghost predicate Projects(dir: Directory, m: Maps, live: set<string>) {
    (forall s :: s in live ==> s != "") && ProjectsSids(dir, m.bySid, live) && ProjectsSubs(dir, m.bySub, live)
  }

  lemma ScrubLeavesNoEmptyBucket(bySub: map<string, set<string>>, sessionId: string)
    requires forall u :: u in bySub ==> bySub[u] != {}
    ensures forall u :: u in Scrub(bySub, sessionId) ==> Scrub(bySub, sessionId)[u] != {}
  {
  }

  /**
   * The guard of a registration: the session has no sid, or the sid is not held by another session.
   * Signing in again under the same provider session, with a new local one, fails it.
   */
  predicate SidIsFree(dir: Directory, m: Maps, id: string) {
    !Truthy(dir(id).sid) || dir(id).sid.value !in m.bySid || m.bySid[dir(id).sid.value] == id
  }

  /** Every call is answered with exactly the matching sessions. */
  ghost predicate AnswersExactly(dir: Directory, m: Maps, live: set<string>) {
    forall op :: Fits(dir, op) ==> Answer(m, op) == Matching(dir, live, op)
  }

  function RegisteredAs(dir: Directory, m: Maps, id: string): Maps {
    Registered(m, dir(id).sid, dir(id).sub, id)
  }

  lemma RegisterProjectsSubs(dir: Directory, m: Maps, live: set<string>, id: string)
    requires ProjectsSubs(dir, m.bySub, live)
    ensures ProjectsSubs(dir, RegisteredAs(dir, m, id).bySub, live + {id})
  {
  }

  lemma SidRevocationProjects(dir: Directory, m: Maps, live: set<string>, sid: string)
    requires Projects(dir, m, live)
    ensures SidAnswer(m, sid) == Matching(dir, live, RevokeBySid(sid))
    ensures Projects(dir, SidRevoked(m, sid), live - SidAnswer(m, sid))
  {
    if sid in m.bySid {
      assert Matching(dir, live, RevokeBySid(sid)) == {m.bySid[sid]};
      ScrubLeavesNoEmptyBucket(m.bySub, m.bySid[sid]);
    } else {
      assert Matching(dir, live, RevokeBySid(sid)) == {};
    }
  }

  lemma SubRevocationProjects(dir: Directory, m: Maps, live: set<string>, sub: string)
    requires Projects(dir, m, live)
    ensures SubAnswer(m, sub) == Matching(dir, live, RevokeBySub(sub))
    ensures Projects(dir, SubRevoked(m, sub), live - SubAnswer(m, sub))
  {
  }

  /** Projections answer every revocation with exactly the matching sessions. */
  lemma ProjectionAnswers(dir: Directory, m: Maps, live: set<string>)
    requires Projects(dir, m, live)
    ensures AnswersExactly(dir, m, live)
  {
    forall op | Fits(dir, op) ensures Answer(m, op) == Matching(dir, live, op) {
      match op
      case Register(_, _, _) =>
      case RevokeBySid(sid) => SidRevocationProjects(dir, m, live, sid);
      case RevokeBySub(sub) => SubRevocationProjects(dir, m, live, sub);
    }
  }

  /** Registering over another session's sid loses that session: its sid now answers with the new one alone. */
  lemma TakenSidLosesItsSession(dir: Directory, m: Maps, live: set<string>, id: string)
    requires Projects(dir, m, live) && !SidIsFree(dir, m, id)
    ensures var sid, m' := dir(id).sid.value, RegisteredAs(dir, m, id);
      && m.bySid[sid] in live && m.bySid[sid] != id
      && Answer(m', RevokeBySid(sid)) == (if id == "" then {} else {id})
      && m.bySid[sid] in Matching(dir, live + {id}, RevokeBySid(sid))
      && m.bySid[sid] in SubAnswer(SidRevoked(m', sid), dir(m.bySid[sid]).sub)
  {
    var sid := dir(id).sid.value;
    var lost := m.bySid[sid];
    assert lost in m.bySub[dir(lost).sub];
  }

  lemma FreeSidProjects(dir: Directory, m: Maps, live: set<string>, id: string)
    requires id != "" && Projects(dir, m, live) && SidIsFree(dir, m, id)
    ensures Projects(dir, RegisteredAs(dir, m, id), live + {id})
  {
    RegisterProjectsSubs(dir, m, live, id);
  }

  lemma TakenSidAnswersWrong(dir: Directory, m: Maps, live: set<string>, id: string)
    requires id != "" && Projects(dir, m, live) && !SidIsFree(dir, m, id)
    ensures !AnswersExactly(dir, RegisteredAs(dir, m, id), live + {id})
  {
    TakenSidLosesItsSession(dir, m, live, id);
    var call := RevokeBySid(dir(id).sid.value);
    assert Fits(dir, call) && Answer(RegisteredAs(dir, m, id), call) != Matching(dir, live + {id}, call);
  }

  /** One registration keeps the index exact, as projections and in its answers, exactly when the sid is free. */
  lemma RegistrationIsExactIff(dir: Directory, m: Maps, live: set<string>, id: string)
    requires id != "" && Projects(dir, m, live)
    ensures Projects(dir, RegisteredAs(dir, m, id), live + {id}) <==> SidIsFree(dir, m, id)
    ensures AnswersExactly(dir, RegisteredAs(dir, m, id), live + {id}) <==> SidIsFree(dir, m, id)
  {
    var m', live' := RegisteredAs(dir, m, id), live + {id};
    if SidIsFree(dir, m, id) {
      FreeSidProjects(dir, m, live, id);
    } else {
      TakenSidAnswersWrong(dir, m, live, id);
    }
    if Projects(dir, m', live') {
      ProjectionAnswers(dir, m', live');
    }
  }

  /** The operation, if it registers a session, does so under a free sid. */
  predicate KeepsSids(dir: Directory, m: Maps, op: Op) {
    op.Register? ==> SidIsFree(dir, m, op.sessionId)
  }

  lemma StepIsExactIff(dir: Directory, m: Maps, live: set<string>, op: Op)
    requires Fits(dir, op) && Projects(dir, m, live)
    ensures Projects(dir, Step(m, op), LiveStep(dir, live, op)) <==> KeepsSids(dir, m, op)
    ensures AnswersExactly(dir, Step(m, op), LiveStep(dir, live, op)) <==> KeepsSids(dir, m, op)
  {
    match op
    case Register(_, _, id) => RegistrationIsExactIff(dir, m, live, id);
    case RevokeBySid(sid) =>
      SidRevocationProjects(dir, m, live, sid);
      ProjectionAnswers(dir, Step(m, op), LiveStep(dir, live, op));
    case RevokeBySub(sub) =>
      SubRevocationProjects(dir, m, live, sub);
      ProjectionAnswers(dir, Step(m, op), LiveStep(dir, live, op));
  }

  // ---- Over whole runs ------------------------------------------------------------------

  ghost predicate FitsAll(dir: Directory, ops: seq<Op>) {
    forall i :: 0 <= i < |ops| ==> Fits(dir, ops[i])
  }

  /** No registration of the run takes a sid away from another session. */
  ghost predicate SidsStayFree(dir: Directory, ops: seq<Op>) {
    forall i :: 0 <= i < |ops| ==> KeepsSids(dir, Run(ops[..i]), ops[i])
  }

  /** At this point of the run the maps are the projections, and so answer exactly. */
  ghost predicate ExactAt(dir: Directory, ops: seq<Op>, n: nat)
    requires n <= |ops|
  {
    Projects(dir, Run(ops[..n]), LiveRun(dir, ops[..n])) && AnswersExactly(dir, Run(ops[..n]), LiveRun(dir, ops[..n]))
  }

  lemma Prefixes(dir: Directory, ops: seq<Op>, n: nat)
    requires n <= |ops| && FitsAll(dir, ops)
    ensures FitsAll(dir, ops[..n]) && (SidsStayFree(dir, ops) ==> SidsStayFree(dir, ops[..n]))
    ensures forall i :: 0 <= i <= n ==> ops[..n][..i] == ops[..i]
  {
    assert forall i :: 0 <= i <= n ==> ops[..n][..i] == ops[..i];
  }

  lemma {:induction false} FreeSidsProject(dir: Directory, ops: seq<Op>)
    requires FitsAll(dir, ops) && SidsStayFree(dir, ops)
    ensures Projects(dir, Run(ops), LiveRun(dir, ops)) && AnswersExactly(dir, Run(ops), LiveRun(dir, ops))
  {
    if ops != [] {
      var n := |ops| - 1;
      Prefixes(dir, ops, n);
      FreeSidsProject(dir, ops[..n]);
      StepIsExactIff(dir, Run(ops[..n]), LiveRun(dir, ops[..n]), ops[n]);
    } else {
      ProjectionAnswers(dir, Run(ops), LiveRun(dir, ops));
    }
  }

  /** The first registration under a taken sid makes an answer wrong. */
  lemma {:induction false} TakenSidShows(dir: Directory, ops: seq<Op>) returns (n: nat)
    requires FitsAll(dir, ops) && !SidsStayFree(dir, ops)
    ensures n <= |ops| && !AnswersExactly(dir, Run(ops[..n]), LiveRun(dir, ops[..n]))
  {
    var last := |ops| - 1;
    Prefixes(dir, ops, last);
    if SidsStayFree(dir, ops[..last]) {
      n := |ops|;
      assert ops[..n] == ops;
      FreeSidsProject(dir, ops[..last]);
      StepIsExactIff(dir, Run(ops[..last]), LiveRun(dir, ops[..last]), ops[last]);
    } else {
      n := TakenSidShows(dir, ops[..last]);
    }
  }

  /**
   * If each session is always registered with the same sid and sub, the maps are the projections of
   * one set of triples at every point of a run, and every revocation returns and removes exactly the
   * matching triples, if and only if no registration takes a sid away from another session.
   */
  lemma IndexIsExactIff(dir: Directory, ops: seq<Op>)
    requires FitsAll(dir, ops)
    ensures (forall n :: 0 <= n <= |ops| ==> ExactAt(dir, ops, n)) <==> SidsStayFree(dir, ops)
  {
    if SidsStayFree(dir, ops) {
      forall n | 0 <= n <= |ops| ensures ExactAt(dir, ops, n) {
        Prefixes(dir, ops, n);
        FreeSidsProject(dir, ops[..n]);
      }
    } else {
      var n := TakenSidShows(dir, ops);
      assert !ExactAt(dir, ops, n);
    }
  }

  /** In particular the index stays exact when a sid names one session. */
  lemma {:induction false} IndexIsProjection(dir: Directory, ops: seq<Op>)
    requires SidsAreUnique(dir) && FitsAll(dir, ops)
    ensures SidsStayFree(dir, ops)
    ensures Projects(dir, Run(ops), LiveRun(dir, ops)) && AnswersExactly(dir, Run(ops), LiveRun(dir, ops))
  {
    if ops != [] {
      var n := |ops| - 1;
      Prefixes(dir, ops, n);
      IndexIsProjection(dir, ops[..n]);
      assert KeepsSids(dir, Run(ops[..n]), ops[n]);
      forall i | 0 <= i < |ops| ensures KeepsSids(dir, Run(ops[..i]), ops[i]) {
        if i < n {
          assert KeepsSids(dir, Run(ops[..n][..i]), ops[..n][i]);
        }
      }
    }
    FreeSidsProject(dir, ops);
  }

  /** With no premise at all, no bucket is ever empty. */
  lemma {:induction false} NoEmptyBucket(ops: seq<Op>)
    ensures forall u :: u in Run(ops).bySub ==> Run(ops).bySub[u] != {}
  {
    if ops != [] {
      var m, op := Run(ops[..|ops| - 1]), ops[|ops| - 1];
      NoEmptyBucket(ops[..|ops| - 1]);
      if op.RevokeBySid? && op.key in m.bySid {
        ScrubLeavesNoEmptyBucket(m.bySub, m.bySid[op.key]);
      }
    }
  }
}
