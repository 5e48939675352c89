/**
 * The indexed TTL store refines the row store: over every run in which an id keeps its grant, uid
 * and user code, both answer every lookup alike.
 */
module AdapterRefinement {
  import opened Wrappers
  import opened OidcArtifacts
  import opened RedisStore
  import opened DatabaseStore

  /** The attributes an artefact keeps for life. */
  datatype Attributes = Attributes(grantId: Option<string>, userCode: Option<string>, uid: Option<string>)

  type Catalogue = Ident -> Attributes

  /** User codes belong to device codes and name one of them, a session uid names one session, and no id is empty. */
  ghost predicate WellFormed(cat: Catalogue) {
    && (forall k: Ident :: Truthy(cat(k).userCode) ==> k.model == "DeviceCode" && k.id != "")
    && (forall k: Ident :: k.model == "Session" && Truthy(cat(k).uid) ==> k.id != "")
    && (forall k: Ident, l: Ident :: Truthy(cat(k).userCode) && cat(k).userCode == cat(l).userCode ==> k == l)
    && (forall k: Ident, l: Ident :: k.model == l.model == "Session" && Truthy(cat(k).uid) && cat(k).uid == cat(l).uid ==> k == l)
  }

  predicate Fits(cat: Catalogue, k: Ident, payload: Payload) {
    Attributes(payload.grantId, payload.userCode, payload.uid) == cat(k)
  }

  datatype Op =
    | Upsert(k: Ident, payload: Payload, expiresIn: int)
    | Consume(k: Ident)
    | Destroy(k: Ident)
    | Revoke(grantId: string)
    | Tick(seconds: nat)

  predicate Legal(cat: Catalogue, op: Op) {
    op.Upsert? ==> Fits(cat, op.k, op.payload)
  }

  function RedisStep(st: RedisState, op: Op): RedisState {
    match op
    case Upsert(k, payload, e) => st.Upserted(k, payload, e)
    case Consume(k) => st.Consumed(k)
    case Destroy(k) => st.Destroyed(k)
    case Revoke(g) => st.Revoked(g)
    case Tick(d) => st.Ticked(d)
  }

  function DbStep(st: DbState, op: Op): DbState {
    match op
    case Upsert(k, payload, e) => st.Upserted(k, payload, e)
    case Consume(k) => st.Consumed(k)
    case Destroy(k) => st.Destroyed(k)
    case Revoke(g) => st.Revoked(g)
    case Tick(d) => st.Ticked(d)
  }

  function RedisRun(start: int, ops: seq<Op>): RedisState {
    if ops == [] then RedisState(start, map[], map[], map[], map[])
    else RedisStep(RedisRun(start, ops[..|ops| - 1]), ops[|ops| - 1])
  }

  function DbRun(start: int, ops: seq<Op>): DbState {
    if ops == [] then DbState(start, map[])
    else DbStep(DbRun(start, ops[..|ops| - 1]), ops[|ops| - 1])
  }

  // ---- The invariants ---------------------------------------------------------------

  /** What the index keys mean: they point at their owner, and lists hold only their own grant's keys. */
  ghost predicate SoundIndexes(cat: Catalogue, st: RedisState) {
    && (forall c :: c in st.codes ==> c != "" && cat(Ident("DeviceCode", st.codes[c].value)).userCode == Some(c))
    && (forall u :: u in st.uids ==> u != "" && cat(Ident("Session", st.uids[u].value)).uid == Some(u))
    && SoundLists(cat, st)
  }

  ghost predicate SoundLists(cat: Catalogue, st: RedisState) {
    forall g, k :: g in st.grants && k in st.grants[g].value ==> cat(k).grantId == Some(g)
  }

  /** Every live artefact fits the catalogue and has its index keys, alive exactly as long as itself. */
  ghost predicate CompleteIndexes(cat: Catalogue, st: RedisState) {
    forall k :: k in st.artifacts && Live(st.artifacts[k].deadline, st.now) ==>
      && Fits(cat, k, st.artifacts[k].value)
      && (Truthy(cat(k).userCode) ==>
            cat(k).userCode.value in st.codes && st.codes[cat(k).userCode.value] == Timed(k.id, st.artifacts[k].deadline))
      && (k.model == "Session" && Truthy(cat(k).uid) ==>
            cat(k).uid.value in st.uids && st.uids[cat(k).uid.value] == Timed(k.id, st.artifacts[k].deadline))
  }

  ghost predicate SoundRows(cat: Catalogue, db: DbState) {
    forall k :: k in db.rows ==>
      Attributes(db.rows[k].grantId, db.rows[k].userCode, db.rows[k].uid) == cat(k)
  }

  /** Both stores have the same live entries with the same deadlines. */
  ghost predicate SameEntries(st: RedisState, db: DbState) {
    st.now == db.now && forall k :: Lookup(st.artifacts, k, st.now) == db.Entry(k)
  }

  ghost predicate Simulates(cat: Catalogue, st: RedisState, db: DbState) {
    SoundIndexes(cat, st) && CompleteIndexes(cat, st) && SoundRows(cat, db) && SameEntries(st, db)
  }

  /** Every live artefact of the grant is on the grant's live list. */
  ghost predicate Reaches(cat: Catalogue, st: RedisState, g: string) {
    forall k :: cat(k).grantId == Some(g) && k in st.artifacts && Live(st.artifacts[k].deadline, st.now) ==>
      k in RedisState.LRange(st.grants, g, st.now)
  }

  // ---- One step ----------------------------------------------------------------------

  lemma UpsertKeepsSoundLists(cat: Catalogue, st: RedisState, op: Op)
    requires Legal(cat, op) && SoundLists(cat, st) && op.Upsert?
    ensures SoundLists(cat, RedisStep(st, op))
  {
    if op.k.model in GRANTABLE && Truthy(op.payload.grantId) {
      var g := op.payload.grantId.value;
      var keys := RedisState.LRange(st.grants, g, st.now) + [op.k];
      assert forall k :: k in keys ==> cat(k).grantId == Some(g);
    }
  }

  lemma StepKeepsSoundIndexes(cat: Catalogue, st: RedisState, op: Op)
    requires WellFormed(cat) && Legal(cat, op) && SoundIndexes(cat, st)
    ensures SoundIndexes(cat, RedisStep(st, op))
  {
    if op.Upsert? {
      UpsertKeepsSoundLists(cat, st, op);
    }
  }

  lemma StepKeepsCompleteIndexes(cat: Catalogue, st: RedisState, op: Op)
    requires WellFormed(cat) && Legal(cat, op) && CompleteIndexes(cat, st)
    ensures CompleteIndexes(cat, RedisStep(st, op))
  {
  }

  lemma UpsertKeepsSameEntries(st: RedisState, db: DbState, k: Ident, payload: Payload, expiresIn: int)
    requires SameEntries(st, db)
    ensures SameEntries(st.Upserted(k, payload, expiresIn), db.Upserted(k, payload, expiresIn))
  {
    var st', db' := st.Upserted(k, payload, expiresIn), db.Upserted(k, payload, expiresIn);
    forall l ensures Lookup(st'.artifacts, l, st'.now) == db'.Entry(l) {
      assert Lookup(st.artifacts, l, st.now) == db.Entry(l);
    }
  }

  lemma ConsumeKeepsSameEntries(st: RedisState, db: DbState, k: Ident)
    requires SameEntries(st, db)
    ensures SameEntries(st.Consumed(k), db.Consumed(k))
  {
    var st', db' := st.Consumed(k), db.Consumed(k);
    assert Lookup(st.artifacts, k, st.now) == db.Entry(k);
    forall l ensures Lookup(st'.artifacts, l, st'.now) == db'.Entry(l) {
      assert Lookup(st.artifacts, l, st.now) == db.Entry(l);
    }
  }

  lemma DestroyKeepsSameEntries(st: RedisState, db: DbState, k: Ident)
    requires SameEntries(st, db)
    ensures SameEntries(st.Destroyed(k), db.Destroyed(k))
  {
    var st', db' := st.Destroyed(k), db.Destroyed(k);
    forall l ensures Lookup(st'.artifacts, l, st'.now) == db'.Entry(l) {
      assert Lookup(st.artifacts, l, st.now) == db.Entry(l);
    }
  }

  lemma TickKeepsSameEntries(st: RedisState, db: DbState, seconds: nat)
    requires SameEntries(st, db)
    ensures SameEntries(st.Ticked(seconds), db.Ticked(seconds))
  {
    var st', db' := st.Ticked(seconds), db.Ticked(seconds);
    forall l ensures Lookup(st'.artifacts, l, st'.now) == db'.Entry(l) {
      assert Lookup(st.artifacts, l, st.now) == db.Entry(l);
    }
  }

  /** A revocation does the same to both stores exactly when the grant's list reaches every live artefact. */
  lemma RevokeKeepsSameEntriesIff(cat: Catalogue, st: RedisState, db: DbState, g: string)
    requires Simulates(cat, st, db)
    ensures SameEntries(st.Revoked(g), db.Revoked(g)) <==> Reaches(cat, st, g)
    ensures !Reaches(cat, st, g) ==> exists k :: st.Revoked(g).Find(k) != db.Revoked(g).Parsed(k)
  {
    var st', db' := st.Revoked(g), db.Revoked(g);
    var keys := RedisState.LRange(st.grants, g, st.now);
    if Reaches(cat, st, g) {
      forall l ensures Lookup(st'.artifacts, l, st'.now) == db'.Entry(l) {
        assert Lookup(st.artifacts, l, st.now) == db.Entry(l);
        if l in db.rows && db.rows[l].grantId == Some(g) {
          assert cat(l).grantId == Some(g);
        } else if l in db.rows {
          assert l !in keys;
        }
      }
    } else {
      var k :| cat(k).grantId == Some(g) && k in st.artifacts && Live(st.artifacts[k].deadline, st.now) && k !in keys;
      assert Lookup(st.artifacts, k, st.now) == db.Entry(k);
      assert db.rows[k].grantId == Some(g) && db'.Parsed(k) == None;
      assert st'.Find(k).Some? && Lookup(st'.artifacts, k, st'.now) != db'.Entry(k);
    }
  }

  lemma StepKeepsSameEntries(cat: Catalogue, st: RedisState, db: DbState, op: Op)
    requires Simulates(cat, st, db)
    requires op.Revoke? ==> Reaches(cat, st, op.grantId)
    ensures SameEntries(RedisStep(st, op), DbStep(db, op))
  {
    match op
    case Upsert(k, payload, e) => UpsertKeepsSameEntries(st, db, k, payload, e);
    case Consume(k) => ConsumeKeepsSameEntries(st, db, k);
    case Destroy(k) => DestroyKeepsSameEntries(st, db, k);
    case Revoke(g) => RevokeKeepsSameEntriesIff(cat, st, db, g);
    case Tick(d) => TickKeepsSameEntries(st, db, d);
  }

  lemma StepKeepsSoundRows(cat: Catalogue, db: DbState, op: Op)
    requires Legal(cat, op) && SoundRows(cat, db)
    ensures SoundRows(cat, DbStep(db, op))
  {
  }

  lemma StepSimulates(cat: Catalogue, st: RedisState, db: DbState, op: Op)
    requires WellFormed(cat) && Legal(cat, op) && Simulates(cat, st, db)
    requires op.Revoke? ==> Reaches(cat, st, op.grantId)
    ensures Simulates(cat, RedisStep(st, op), DbStep(db, op))
  {
    StepKeepsSoundIndexes(cat, st, op);
    StepKeepsCompleteIndexes(cat, st, op);
    StepKeepsSameEntries(cat, st, db, op);
    StepKeepsSoundRows(cat, db, op);
  }

  // ---- Answers -----------------------------------------------------------------------

  /** Every answer the row store may give is the answer of the indexed store. */
  ghost predicate SameAnswers(st: RedisState, db: DbState) {
    && (forall k :: st.Find(k) == db.Parsed(k))
    && (forall code, r :: code != "" && db.FindByUserCode("DeviceCode", code, r) ==> r == st.FindByUserCode("DeviceCode", code))
    && (forall uid, r :: uid != "" && db.FindByUid("Session", uid, r) ==> r == st.FindByUid("Session", uid))
    && (forall model :: st.Enumerated(model) == db.Enumerated(model))
  }

  lemma SimulationAnswers(cat: Catalogue, st: RedisState, db: DbState)
    requires WellFormed(cat) && Simulates(cat, st, db)
    ensures SameAnswers(st, db)
  {
    forall k ensures st.Find(k) == db.Parsed(k) {
      assert Lookup(st.artifacts, k, st.now) == db.Entry(k);
    }
    forall code, r | code != "" && db.FindByUserCode("DeviceCode", code, r)
      ensures r == st.FindByUserCode("DeviceCode", code)
    {
      UserCodeAnswer(cat, st, db, code, r);
    }
    forall uid, r | uid != "" && db.FindByUid("Session", uid, r)
      ensures r == st.FindByUid("Session", uid)
    {
      UidAnswer(cat, st, db, uid, r);
    }
    forall model ensures st.Enumerated(model) == db.Enumerated(model) {
      SameEnumeration(st, db, model);
    }
  }

  lemma UserCodeAnswer(cat: Catalogue, st: RedisState, db: DbState, code: string, r: Option<Payload>)
    requires WellFormed(cat) && Simulates(cat, st, db)
    requires code != "" && db.FindByUserCode("DeviceCode", code, r)
    ensures r == st.FindByUserCode("DeviceCode", code)
  {
    if st.FindByUserCode("DeviceCode", code).Some? {
      var k := Ident("DeviceCode", st.codes[code].value);
      assert Lookup(st.artifacts, k, st.now) == db.Entry(k);
      assert k in db.rows && db.rows[k].userCode == Some(code) && cat(k).userCode == Some(code);
      var l :| l in db.rows && l.model == "DeviceCode" && db.rows[l].userCode == Some(code) && r == db.Parsed(l);
      assert l == k;
    }
    if r.Some? {
      var k :| k in db.rows && k.model == "DeviceCode" && db.rows[k].userCode == Some(code) && r == db.Parsed(k);
      assert db.Entry(k).Some? && Lookup(st.artifacts, k, st.now) == db.Entry(k);
      assert st.codes[code] == Timed(k.id, st.artifacts[k].deadline);
      assert k == Ident("DeviceCode", k.id);
    }
  }

  lemma UidAnswer(cat: Catalogue, st: RedisState, db: DbState, uid: string, r: Option<Payload>)
    requires WellFormed(cat) && Simulates(cat, st, db)
    requires uid != "" && db.FindByUid("Session", uid, r)
    ensures r == st.FindByUid("Session", uid)
  {
    if st.FindByUid("Session", uid).Some? {
      var k := Ident("Session", st.uids[uid].value);
      assert Lookup(st.artifacts, k, st.now) == db.Entry(k);
      assert k in db.rows && db.rows[k].uid == Some(uid) && cat(k).uid == Some(uid);
      var l :| l in db.rows && l.model == "Session" && db.rows[l].uid == Some(uid) && r == db.Parsed(l);
      assert l == k;
    }
    if r.Some? {
      var k :| k in db.rows && k.model == "Session" && db.rows[k].uid == Some(uid) && r == db.Parsed(k);
      assert db.Entry(k).Some? && Lookup(st.artifacts, k, st.now) == db.Entry(k);
      assert st.uids[uid] == Timed(k.id, st.artifacts[k].deadline);
      assert k == Ident("Session", k.id);
    }
  }

  lemma SameEnumeration(st: RedisState, db: DbState, model: string)
    requires SameEntries(st, db)
    ensures st.Enumerated(model) == db.Enumerated(model)
  {
    forall e | e in st.Enumerated(model) ensures e in db.Enumerated(model) {
      var k := Ident(model, e.0);
      assert Lookup(st.artifacts, k, st.now) == db.Entry(k);
    }
    forall e | e in db.Enumerated(model) ensures e in st.Enumerated(model) {
      var k := Ident(model, e.0);
      assert Lookup(st.artifacts, k, st.now) == db.Entry(k);
    }
  }

  // ---- Runs --------------------------------------------------------------------------

  ghost predicate LegalRun(cat: Catalogue, ops: seq<Op>) {
    forall i :: 0 <= i < |ops| ==> Legal(cat, ops[i])
  }

  /** Each revocation of the run finds every live artefact of its grant on the grant's list. */
  ghost predicate RevocationsReach(cat: Catalogue, start: int, ops: seq<Op>) {
    forall i :: 0 <= i < |ops| && ops[i].Revoke? ==> Reaches(cat, RedisRun(start, ops[..i]), ops[i].grantId)
  }

  lemma RunPrefix(cat: Catalogue, start: int, ops: seq<Op>, n: nat)
    requires n <= |ops| && LegalRun(cat, ops)
    ensures LegalRun(cat, ops[..n]) && (RevocationsReach(cat, start, ops) ==> RevocationsReach(cat, start, ops[..n]))
    ensures forall i :: 0 <= i <= n ==> ops[..n][..i] == ops[..i]
  {
    assert forall i :: 0 <= i <= n ==> ops[..n][..i] == ops[..i];
  }

  lemma {:induction false} RunSimulates(cat: Catalogue, start: int, ops: seq<Op>)
    requires WellFormed(cat) && LegalRun(cat, ops) && RevocationsReach(cat, start, ops)
    ensures Simulates(cat, RedisRun(start, ops), DbRun(start, ops))
  {
    if ops != [] {
      var n := |ops| - 1;
      RunPrefix(cat, start, ops, n);
      RunSimulates(cat, start, ops[..n]);
      StepSimulates(cat, RedisRun(start, ops[..n]), DbRun(start, ops[..n]), ops[n]);
    }
  }

  lemma MissedRevocation(cat: Catalogue, st: RedisState, db: DbState, g: string)
    requires Simulates(cat, st, db) && !Reaches(cat, st, g)
    ensures !SameAnswers(RedisStep(st, Revoke(g)), DbStep(db, Revoke(g)))
  {
    RevokeKeepsSameEntriesIff(cat, st, db, g);
  }

  /** The first revocation that misses an artefact leaves it findable in one store only. */
  lemma {:induction false} MissedRevocationShows(cat: Catalogue, start: int, ops: seq<Op>) returns (n: nat)
    requires WellFormed(cat) && LegalRun(cat, ops) && !RevocationsReach(cat, start, ops)
    ensures n <= |ops| && !SameAnswers(RedisRun(start, ops[..n]), DbRun(start, ops[..n]))
  {
    var last := |ops| - 1;
    RunPrefix(cat, start, ops, last);
    if RevocationsReach(cat, start, ops[..last]) {
      n := |ops|;
      assert ops[..n] == ops;
      RunSimulates(cat, start, ops[..last]);
      MissedRevocation(cat, RedisRun(start, ops[..last]), DbRun(start, ops[..last]), ops[last].grantId);
    } else {
      n := MissedRevocationShows(cat, start, ops[..last]);
    }
  }

  /**
   * Over every run of upsert, consume, destroy, revocation and clock ticks: the stores answer alike
   * at every point if and only if each revocation finds every live artefact of its grant on the list.
   */
  lemma StoresAgreeIff(cat: Catalogue, start: int, ops: seq<Op>)
    requires WellFormed(cat) && LegalRun(cat, ops)
    ensures (forall n :: 0 <= n <= |ops| ==> SameAnswers(RedisRun(start, ops[..n]), DbRun(start, ops[..n])))
       <==> RevocationsReach(cat, start, ops)
  {
    if RevocationsReach(cat, start, ops) {
      forall n | 0 <= n <= |ops| ensures SameAnswers(RedisRun(start, ops[..n]), DbRun(start, ops[..n])) {
        RunPrefix(cat, start, ops, n);
        RunSimulates(cat, start, ops[..n]);
        SimulationAnswers(cat, RedisRun(start, ops[..n]), DbRun(start, ops[..n]));
      }
    } else {
      var n := MissedRevocationShows(cat, start, ops);
    }
  }

  /** Over every run of upsert, consume, destroy and clock ticks, both stores answer alike. */
  lemma StoresAgree(cat: Catalogue, start: int, ops: seq<Op>)
    requires WellFormed(cat) && LegalRun(cat, ops)
    requires forall i :: 0 <= i < |ops| ==> !ops[i].Revoke?
    ensures SameAnswers(RedisRun(start, ops), DbRun(start, ops))
  {
    RunSimulates(cat, start, ops);
    SimulationAnswers(cat, RedisRun(start, ops), DbRun(start, ops));
  }
}
