/**
 * When `revokeByGrantId` on the indexed store kills every token of the grant, as the row store's
 * DELETE does: exactly when the grant's list outlives every artefact it must reach.
 */
module GrantRevocation {
  import opened Wrappers
  import opened OidcArtifacts
  import opened RedisStore
  import opened DatabaseStore
  import opened AdapterRefinement

  /** The grant list is alive, holds every live artefact of the grant, and outlives each of them. */
  ghost predicate Covered(cat: Catalogue, st: RedisState, g: string) {
    forall k :: cat(k).grantId == Some(g) && k in st.artifacts && Live(st.artifacts[k].deadline, st.now) ==>
      && g in st.grants && k in st.grants[g].value
      && (st.grants[g].deadline.None?
          || (st.artifacts[k].deadline.Some? && st.artifacts[k].deadline.value <= st.grants[g].deadline.value))
  }

  /** The grant has a name, and only artefacts of the grantable models carry it. */
  ghost predicate OnGrantables(cat: Catalogue, g: string) {
    g != "" && forall k: Ident :: cat(k).grantId == Some(g) ==> k.model in GRANTABLE
  }

  /** No artefact of the grant is alive. */
  ghost predicate AllDead(cat: Catalogue, st: RedisState, g: string) {
    forall k :: cat(k).grantId == Some(g) ==> st.Find(k).None?
  }

  /** Revocation is complete at every later instant exactly when the list covers the grant now. */
  lemma CoverageIsRevocability(cat: Catalogue, st: RedisState, g: string)
    ensures Covered(cat, st, g) <==> forall d: nat :: AllDead(cat, st.Ticked(d).Revoked(g), g)
  {
    if Covered(cat, st, g) {
      forall d: nat ensures AllDead(cat, st.Ticked(d).Revoked(g), g) {}
    } else {
      var k :| cat(k).grantId == Some(g) && k in st.artifacts && Live(st.artifacts[k].deadline, st.now)
        && !(g in st.grants && k in st.grants[g].value
             && (st.grants[g].deadline.None?
                 || (st.artifacts[k].deadline.Some? && st.artifacts[k].deadline.value <= st.grants[g].deadline.value)));
      var listed := k in RedisState.LRange(st.grants, g, st.now);
      var d: nat := if listed then st.grants[g].deadline.value - st.now else 0;
      var late := st.Ticked(d);
      assert k !in RedisState.LRange(late.grants, g, late.now);
      assert late.Revoked(g).Find(k).Some?;
      assert !AllDead(cat, st.Ticked(d).Revoked(g), g);
    }
  }

  // ---- The guard of one upsert ---------------------------------------------------------

  /** `l` is another live artefact of `k`'s grant. */
  ghost predicate LiveSibling(cat: Catalogue, st: RedisState, k: Ident, l: Ident) {
    l != k && cat(l).grantId == cat(k).grantId && l in st.artifacts && Live(st.artifacts[l].deadline, st.now)
  }

  /** The lifetime about to be written does not cut the grant list shorter than a live sibling. */
  ghost predicate LifetimeSuffices(cat: Catalogue, st: RedisState, k: Ident, expiresIn: int)
    requires cat(k).grantId.Some?
  {
    if expiresIn > 0 then
      forall l :: LiveSibling(cat, st, k, l) ==>
        st.artifacts[l].deadline.Some? && st.artifacts[l].deadline.value <= st.now + expiresIn
    else if expiresIn < 0 then
      forall l :: !LiveSibling(cat, st, k, l)
    else
      var list := Lookup(st.grants, cat(k).grantId.value, st.now);
      list.None? || list.value.deadline.None?
  }

  /** An upsert keeps its grant revocable exactly when its lifetime suffices. */
  lemma UpsertKeepsCoverageIff(cat: Catalogue, st: RedisState, k: Ident, payload: Payload, expiresIn: int)
    requires Fits(cat, k, payload) && cat(k).grantId.Some? && OnGrantables(cat, cat(k).grantId.value)
    requires Covered(cat, st, cat(k).grantId.value)
    ensures Covered(cat, st.Upserted(k, payload, expiresIn), cat(k).grantId.value)
       <==> LifetimeSuffices(cat, st, k, expiresIn)
  {
    var g := cat(k).grantId.value;
    var st' := st.Upserted(k, payload, expiresIn);
    if LifetimeSuffices(cat, st, k, expiresIn) {
      forall l | cat(l).grantId == Some(g) && l in st'.artifacts && Live(st'.artifacts[l].deadline, st'.now)
        ensures g in st'.grants && l in st'.grants[g].value
        ensures st'.grants[g].deadline.None?
          || (st'.artifacts[l].deadline.Some? && st'.artifacts[l].deadline.value <= st'.grants[g].deadline.value)
      {
        if l != k {
          assert LiveSibling(cat, st, k, l);
        }
      }
    } else if expiresIn == 0 {
      assert k in st'.artifacts && st'.artifacts[k].deadline.None?;
    } else {
      var l :| LiveSibling(cat, st, k, l) && (expiresIn < 0
        || !(st.artifacts[l].deadline.Some? && st.artifacts[l].deadline.value <= st.now + expiresIn));
      assert l in st'.artifacts && st'.artifacts[l] == st.artifacts[l];
    }
  }

  /** An upsert of another grant does not touch this one's artefacts or list. */
  lemma OtherUpsertKeepsCoverage(cat: Catalogue, st: RedisState, k: Ident, payload: Payload, expiresIn: int, g: string)
    requires Fits(cat, k, payload) && cat(k).grantId != Some(g) && Covered(cat, st, g)
    ensures Covered(cat, st.Upserted(k, payload, expiresIn), g)
  {
  }

  lemma RevokeKeepsCoverage(cat: Catalogue, st: RedisState, revoked: string, g: string)
    requires SoundIndexes(cat, st) && Covered(cat, st, g)
    ensures Covered(cat, st.Revoked(revoked), g)
  {
  }

  lemma TickKeepsCoverage(cat: Catalogue, st: RedisState, seconds: nat, g: string)
    requires Covered(cat, st, g)
    ensures Covered(cat, st.Ticked(seconds), g)
  {
  }

  lemma ConsumeKeepsCoverage(cat: Catalogue, st: RedisState, k: Ident, g: string)
    requires Covered(cat, st, g)
    ensures Covered(cat, st.Consumed(k), g)
  {
  }

  /** Nothing else can uncover a grant. */
  lemma OtherStepsKeepCoverage(cat: Catalogue, st: RedisState, op: Op, g: string)
    requires WellFormed(cat) && Legal(cat, op) && SoundIndexes(cat, st) && Covered(cat, st, g)
    requires op.Upsert? ==> cat(op.k).grantId != Some(g)
    ensures Covered(cat, RedisStep(st, op), g)
  {
    match op
    case Upsert(k, payload, e) => OtherUpsertKeepsCoverage(cat, st, k, payload, e, g);
    case Consume(k) => ConsumeKeepsCoverage(cat, st, k, g);
    case Destroy(_) =>
    case Revoke(revoked) => RevokeKeepsCoverage(cat, st, revoked, g);
    case Tick(d) => TickKeepsCoverage(cat, st, d, g);
  }

  /** Every upsert of the grant in the run finds no live sibling that outlasts the lifetime it writes. */
  ghost predicate LifetimesSuffice(cat: Catalogue, start: int, ops: seq<Op>, g: string) {
    forall i :: 0 <= i < |ops| && UpsertOf(cat, ops[i], g) ==>
      LifetimeSuffices(cat, RedisRun(start, ops[..i]), ops[i].k, ops[i].expiresIn)
  }

  lemma SufficePrefix(cat: Catalogue, start: int, ops: seq<Op>, g: string, n: nat)
    requires n <= |ops| && LegalRun(cat, ops)
    ensures LegalRun(cat, ops[..n]) && (LifetimesSuffice(cat, start, ops, g) ==> LifetimesSuffice(cat, start, ops[..n], g))
    ensures forall i :: 0 <= i <= n ==> ops[..n][..i] == ops[..i]
  {
    assert forall i :: 0 <= i <= n ==> ops[..n][..i] == ops[..i];
  }

  lemma StepKeepsCoverageIff(cat: Catalogue, st: RedisState, op: Op, g: string)
    requires WellFormed(cat) && Legal(cat, op) && OnGrantables(cat, g) && SoundIndexes(cat, st) && Covered(cat, st, g)
    ensures Covered(cat, RedisStep(st, op), g) <==> (UpsertOf(cat, op, g) ==> LifetimeSuffices(cat, st, op.k, op.expiresIn))
  {
    if UpsertOf(cat, op, g) {
      UpsertKeepsCoverageIff(cat, st, op.k, op.payload, op.expiresIn);
    } else {
      OtherStepsKeepCoverage(cat, st, op, g);
    }
  }

  lemma {:induction false} SufficingRunCovers(cat: Catalogue, start: int, ops: seq<Op>, g: string)
    requires WellFormed(cat) && LegalRun(cat, ops) && OnGrantables(cat, g) && LifetimesSuffice(cat, start, ops, g)
    ensures Covered(cat, RedisRun(start, ops), g) && SoundIndexes(cat, RedisRun(start, ops))
  {
    if ops != [] {
      var n := |ops| - 1;
      SufficePrefix(cat, start, ops, g, n);
      SufficingRunCovers(cat, start, ops[..n], g);
      StepKeepsCoverageIff(cat, RedisRun(start, ops[..n]), ops[n], g);
      StepKeepsSoundIndexes(cat, RedisRun(start, ops[..n]), ops[n]);
    }
  }

  /** The first upsert with too short a lifetime uncovers the grant. */
  lemma {:induction false} ShortLifetimeShows(cat: Catalogue, start: int, ops: seq<Op>, g: string) returns (n: nat)
    requires WellFormed(cat) && LegalRun(cat, ops) && OnGrantables(cat, g) && !LifetimesSuffice(cat, start, ops, g)
    ensures n <= |ops| && !Covered(cat, RedisRun(start, ops[..n]), g)
  {
    var last := |ops| - 1;
    SufficePrefix(cat, start, ops, g, last);
    if LifetimesSuffice(cat, start, ops[..last], g) {
      n := |ops|;
      assert ops[..n] == ops;
      SufficingRunCovers(cat, start, ops[..last], g);
      StepKeepsCoverageIff(cat, RedisRun(start, ops[..last]), ops[last], g);
    } else {
      n := ShortLifetimeShows(cat, start, ops[..last], g);
    }
  }

  /** Over every run the grant is revocable at every point exactly when each of its upserts writes a lifetime that suffices. */
  lemma AlwaysCoveredIff(cat: Catalogue, start: int, ops: seq<Op>, g: string)
    requires WellFormed(cat) && LegalRun(cat, ops) && OnGrantables(cat, g)
    ensures (forall n :: 0 <= n <= |ops| ==> Covered(cat, RedisRun(start, ops[..n]), g)) <==> LifetimesSuffice(cat, start, ops, g)
  {
    if LifetimesSuffice(cat, start, ops, g) {
      forall n | 0 <= n <= |ops| ensures Covered(cat, RedisRun(start, ops[..n]), g) {
        SufficePrefix(cat, start, ops, g, n);
        SufficingRunCovers(cat, start, ops[..n], g);
      }
    } else {
      var n := ShortLifetimeShows(cat, start, ops, g);
    }
  }

  // ---- Runs whose deadlines never decrease ---------------------------------------------

  predicate UpsertOf(cat: Catalogue, op: Op, g: string) {
    op.Upsert? && cat(op.k).grantId == Some(g)
  }

  /** The absolute deadline that the i-th operation, an upsert, writes. */
  function WrittenDeadline(start: int, ops: seq<Op>, i: nat): int
    requires i < |ops| && ops[i].Upsert?
  {
    RedisRun(start, ops[..i]).now + ops[i].expiresIn
  }

  /** Every upsert of the grant has a positive lifetime, and its absolute deadlines never decrease. */
  ghost predicate Ascending(cat: Catalogue, start: int, ops: seq<Op>, g: string) {
    && (forall i :: 0 <= i < |ops| && UpsertOf(cat, ops[i], g) ==> ops[i].expiresIn > 0)
    && (forall i, j :: 0 <= i < j < |ops| && UpsertOf(cat, ops[i], g) && UpsertOf(cat, ops[j], g) ==>
          WrittenDeadline(start, ops, i) <= WrittenDeadline(start, ops, j))
  }

  /** The deadline of every stored artefact of the grant was written by some upsert of the run. */
  ghost predicate DeadlinesWritten(cat: Catalogue, start: int, ops: seq<Op>, g: string) {
    var st := RedisRun(start, ops);
    forall k :: k in st.artifacts && cat(k).grantId == Some(g) ==>
      exists i :: 0 <= i < |ops| && UpsertOf(cat, ops[i], g) && st.artifacts[k].deadline == Some(WrittenDeadline(start, ops, i))
  }

  lemma AscendingPrefix(cat: Catalogue, start: int, ops: seq<Op>, g: string)
    requires ops != [] && Ascending(cat, start, ops, g)
    ensures Ascending(cat, start, ops[..|ops| - 1], g)
    ensures forall i :: 0 <= i < |ops| - 1 && ops[i].Upsert? ==>
      WrittenDeadline(start, ops[..|ops| - 1], i) == WrittenDeadline(start, ops, i)
  {
    assert forall i :: 0 <= i < |ops| - 1 ==> ops[..|ops| - 1][..i] == ops[..i];
  }

  /** The run's last upsert of the grant outlasts what is alive. */
  lemma LastUpsertSuffices(cat: Catalogue, start: int, ops: seq<Op>, g: string)
    requires ops != [] && UpsertOf(cat, ops[|ops| - 1], g) && Ascending(cat, start, ops, g)
    requires DeadlinesWritten(cat, start, ops[..|ops| - 1], g)
    ensures var st, op := RedisRun(start, ops[..|ops| - 1]), ops[|ops| - 1];
      LifetimeSuffices(cat, st, op.k, op.expiresIn)
  {
    var n := |ops| - 1;
    var st, op := RedisRun(start, ops[..n]), ops[n];
    AscendingPrefix(cat, start, ops, g);
    assert WrittenDeadline(start, ops, n) == st.now + op.expiresIn;
    forall l | LiveSibling(cat, st, op.k, l)
      ensures st.artifacts[l].deadline.Some? && st.artifacts[l].deadline.value <= st.now + op.expiresIn
    {
      var i :| 0 <= i < n && UpsertOf(cat, ops[..n][i], g) && st.artifacts[l].deadline == Some(WrittenDeadline(start, ops[..n], i));
      assert WrittenDeadline(start, ops, i) <= WrittenDeadline(start, ops, n);
    }
  }

  /** In every reachable state each live artefact of the grant is on the grant's live list. */
  lemma {:induction false} AscendingRunCovers(cat: Catalogue, start: int, ops: seq<Op>, g: string)
    requires WellFormed(cat) && LegalRun(cat, ops) && OnGrantables(cat, g) && Ascending(cat, start, ops, g)
    ensures Covered(cat, RedisRun(start, ops), g)
    ensures DeadlinesWritten(cat, start, ops, g)
    ensures SoundIndexes(cat, RedisRun(start, ops))
  {
    if ops != [] {
      var st, op := RedisRun(start, ops[..|ops| - 1]), ops[|ops| - 1];
      AscendingPrefix(cat, start, ops, g);
      AscendingRunCovers(cat, start, ops[..|ops| - 1], g);
      StepKeepsSoundIndexes(cat, st, op);
      if UpsertOf(cat, op, g) {
        LastUpsertSuffices(cat, start, ops, g);
        UpsertKeepsCoverageIff(cat, st, op.k, op.payload, op.expiresIn);
      } else {
        OtherStepsKeepCoverage(cat, st, op, g);
      }
      DeadlinesStayWritten(cat, start, ops, g);
    }
  }

  /** A step writes at most the deadline of its own upsert. */
  lemma StepKeepsDeadlines(st: RedisState, op: Op, k: Ident)
    requires k in RedisStep(st, op).artifacts && !(op.Upsert? && op.k == k)
    ensures k in st.artifacts && RedisStep(st, op).artifacts[k].deadline == st.artifacts[k].deadline
  {
  }

  lemma DeadlinesStayWritten(cat: Catalogue, start: int, ops: seq<Op>, g: string)
    requires ops != [] && LegalRun(cat, ops) && Ascending(cat, start, ops, g)
    requires DeadlinesWritten(cat, start, ops[..|ops| - 1], g)
    ensures DeadlinesWritten(cat, start, ops, g)
  {
    var n := |ops| - 1;
    var before, op := ops[..n], ops[n];
    var st, st' := RedisRun(start, before), RedisRun(start, ops);
    AscendingPrefix(cat, start, ops, g);
    forall k | k in st'.artifacts && cat(k).grantId == Some(g)
      ensures exists i :: 0 <= i < |ops| && UpsertOf(cat, ops[i], g) && st'.artifacts[k].deadline == Some(WrittenDeadline(start, ops, i))
    {
      if op.Upsert? && op.k == k {
        assert UpsertOf(cat, ops[n], g) && op.expiresIn > 0;
        assert st'.artifacts[k].deadline == Some(WrittenDeadline(start, ops, n));
      } else {
        StepKeepsDeadlines(st, op, k);
        var i :| 0 <= i < n && UpsertOf(cat, before[i], g) && st.artifacts[k].deadline == Some(WrittenDeadline(start, before, i));
        assert UpsertOf(cat, ops[i], g) && st'.artifacts[k].deadline == Some(WrittenDeadline(start, ops, i));
      }
    }
  }

  /** After such a run a revocation leaves nothing of the grant alive, exactly as the row store does. */
  lemma RevocationComplete(cat: Catalogue, start: int, ops: seq<Op>, g: string)
    requires WellFormed(cat) && LegalRun(cat, ops) && OnGrantables(cat, g) && Ascending(cat, start, ops, g)
    ensures AllDead(cat, RedisRun(start, ops).Revoked(g), g)
    ensures forall k :: cat(k).grantId == Some(g) ==> DbRun(start, ops + [Revoke(g)]).Parsed(k).None?
  {
    AscendingRunCovers(cat, start, ops, g);
    var st := RedisRun(start, ops);
    assert st.Ticked(0) == st;
    CoverageIsRevocability(cat, st, g);
    RowsFit(cat, start, ops);
    assert (ops + [Revoke(g)])[..|ops|] == ops;
  }

  lemma {:induction false} RowsFit(cat: Catalogue, start: int, ops: seq<Op>)
    requires LegalRun(cat, ops)
    ensures SoundRows(cat, DbRun(start, ops))
  {
    if ops != [] {
      RowsFit(cat, start, ops[..|ops| - 1]);
    }
  }

  /** If every grant has such deadlines up to its revocation, the two stores agree over runs that revoke as well. */
  lemma StoresAgreeUnderRevocation(cat: Catalogue, start: int, ops: seq<Op>)
    requires WellFormed(cat) && LegalRun(cat, ops)
    requires forall i :: 0 <= i < |ops| && ops[i].Revoke? ==>
      OnGrantables(cat, ops[i].grantId) && Ascending(cat, start, ops[..i], ops[i].grantId)
    ensures SameAnswers(RedisRun(start, ops), DbRun(start, ops))
  {
    forall i | 0 <= i < |ops| && ops[i].Revoke?
      ensures Reaches(cat, RedisRun(start, ops[..i]), ops[i].grantId)
    {
      AscendingRunCovers(cat, start, ops[..i], ops[i].grantId);
    }
    RunSimulates(cat, start, ops);
    SimulationAnswers(cat, RedisRun(start, ops), DbRun(start, ops));
  }

  // ---- What revocation reaches -----------------------------------------------------------

  /** Grant lists name grantable artefacts only. */
  ghost predicate ListsGrantable(st: RedisState) {
    forall g, k :: g in st.grants && k in st.grants[g].value ==> k.model in GRANTABLE
  }

  lemma {:induction false} RunListsGrantable(start: int, ops: seq<Op>)
    ensures ListsGrantable(RedisRun(start, ops))
  {
    if ops != [] {
      var st, op := RedisRun(start, ops[..|ops| - 1]), ops[|ops| - 1];
      RunListsGrantable(start, ops[..|ops| - 1]);
      if op.Upsert? && op.k.model in GRANTABLE && Truthy(op.payload.grantId) {
        var keys := RedisState.LRange(st.grants, op.payload.grantId.value, st.now) + [op.k];
        assert forall k :: k in keys ==> k.model in GRANTABLE;
      }
    }
  }

  /**
   * Over any run at all: an artefact outside the grantable models survives every revocation on Redis,
   * while the row store deletes it if its row names the grant.
   */
  lemma RevocationSparesOtherModels(start: int, ops: seq<Op>, g: string, k: Ident)
    requires k.model !in GRANTABLE
    ensures RedisRun(start, ops).Revoked(g).Find(k) == RedisRun(start, ops).Find(k)
    ensures var db := DbRun(start, ops);
      db.Revoked(g).Parsed(k) == if k in db.rows && db.rows[k].grantId == Some(g) then None else db.Parsed(k)
  {
    RunListsGrantable(start, ops);
  }

  // ---- The premise is needed -------------------------------------------------------------

  const ACCESS_TOKEN_TTL := 900
  const REFRESH_TOKEN_TTL := 2592000

  /** One refresh token and one access token of the same grant. */
  function PairCatalogue(k: Ident): Attributes {
    if k == REFRESH_TOKEN || k == ACCESS_TOKEN
    then Attributes(Some("g"), None, None) else Attributes(None, None, None)
  }

  const PAIR_PAYLOAD := Payload(Some("g"), None, None, None, "")
  const REFRESH_TOKEN := Ident("RefreshToken", "rt")
  const ACCESS_TOKEN := Ident("AccessToken", "at")

  /** The default lifetimes in the order refresh token, access token; then a revocation after the shorter one. */
  const DEFAULT_PAIR := [
    Upsert(REFRESH_TOKEN, PAIR_PAYLOAD, REFRESH_TOKEN_TTL),
    Upsert(ACCESS_TOKEN, PAIR_PAYLOAD, ACCESS_TOKEN_TTL),
    Tick(ACCESS_TOKEN_TTL),
    Revoke("g")]

  lemma DefaultPairIsLegal()
    ensures WellFormed(PairCatalogue) && LegalRun(PairCatalogue, DEFAULT_PAIR) && OnGrantables(PairCatalogue, "g")
  {
  }

  lemma FourSteps(start: int, o0: Op, o1: Op, o2: Op, o3: Op)
    ensures RedisRun(start, [o0, o1, o2, o3])
      == RedisStep(RedisStep(RedisStep(RedisStep(RedisState(start, map[], map[], map[], map[]), o0), o1), o2), o3)
    ensures DbRun(start, [o0, o1, o2, o3]) == DbStep(DbStep(DbStep(DbStep(DbState(start, map[]), o0), o1), o2), o3)
  {
    assert [o0][..0] == [] && [o0, o1][..1] == [o0] && [o0, o1, o2][..2] == [o0, o1];
    assert [o0, o1, o2, o3][..3] == [o0, o1, o2];
    assert RedisRun(start, [o0]) == RedisStep(RedisState(start, map[], map[], map[], map[]), o0);
    assert RedisRun(start, [o0, o1]) == RedisStep(RedisRun(start, [o0]), o1);
    assert DbRun(start, [o0]) == DbStep(DbState(start, map[]), o0);
    assert DbRun(start, [o0, o1]) == DbStep(DbRun(start, [o0]), o1);
  }

  /** A second artefact with a shorter life takes the first one off the reach of a later revocation. */
  lemma ShorterSecondLosesFirst(start: int, g: string, first: Ident, second: Ident, p: Payload, long: nat, short: nat)
    requires first != second && first.model in GRANTABLE && second.model in GRANTABLE
    requires p.grantId == Some(g) && g != "" && 0 < short < long
    ensures RedisState(start, map[], map[], map[], map[])
      .Upserted(first, p, long).Upserted(second, p, short).Ticked(short).Revoked(g).Find(first) == Some(p)
    ensures DbState(start, map[])
      .Upserted(first, p, long).Upserted(second, p, short).Ticked(short).Revoked(g).Parsed(first) == None
  {
  }

  /**
   * Once the access token's lifetime is over, revoking the grant leaves the refresh token usable on
   * Redis and not in the row store, in a run that meets every premise but the one on deadlines.
   */
  lemma DefaultLifetimesLoseTheRefreshToken(start: int)
    ensures WellFormed(PairCatalogue) && LegalRun(PairCatalogue, DEFAULT_PAIR) && OnGrantables(PairCatalogue, "g")
    ensures RedisRun(start, DEFAULT_PAIR).Find(REFRESH_TOKEN) == Some(PAIR_PAYLOAD)
    ensures DbRun(start, DEFAULT_PAIR).Parsed(REFRESH_TOKEN) == None
  {
    DefaultPairIsLegal();
    FourSteps(start, DEFAULT_PAIR[0], DEFAULT_PAIR[1], DEFAULT_PAIR[2], DEFAULT_PAIR[3]);
    ShorterSecondLosesFirst(start, "g", REFRESH_TOKEN, ACCESS_TOKEN, PAIR_PAYLOAD, REFRESH_TOKEN_TTL, ACCESS_TOKEN_TTL);
  }
}
