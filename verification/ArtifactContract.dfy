/**
 * What a caller of either artefact store may rely on, stated by what is found afterwards: that what
 * was written is read back for its lifetime, and which artefacts each call touches.
 */
module ArtifactContract {
  import opened Wrappers
  import opened OidcArtifacts
  import opened RedisStore
  import opened DatabaseStore
  import opened AdapterRefinement
  import opened GrantRevocation

  /** A lifetime of 0 has no end; any other ends after as many seconds. */
  predicate StillLives(expiresIn: int, elapsed: nat) {
    expiresIn == 0 || elapsed < expiresIn
  }

  /** An upsert is read back exactly for its lifetime, in both stores. */
  lemma UpsertIsReadBack(st: RedisState, db: DbState, k: Ident, payload: Payload, expiresIn: int, elapsed: nat)
    ensures st.Upserted(k, payload, expiresIn).Ticked(elapsed).Find(k)
      == if StillLives(expiresIn, elapsed) then Some(payload) else None
    ensures db.Upserted(k, payload, expiresIn).Ticked(elapsed).Parsed(k)
      == if StillLives(expiresIn, elapsed) then Some(payload) else None
  {
  }

  /** And just as long through its user code and, for a session, its uid. */
  lemma UpsertIsFoundByIndex(st: RedisState, k: Ident, payload: Payload, expiresIn: int, elapsed: nat)
    requires k.id != ""
    ensures var after := st.Upserted(k, payload, expiresIn).Ticked(elapsed);
      var found := if StillLives(expiresIn, elapsed) then Some(payload) else None;
      && (payload.userCode.Some? && payload.userCode.value != "" ==>
            after.FindByUserCode(k.model, payload.userCode.value) == found)
      && (k.model == "Session" && payload.uid.Some? && payload.uid.value != "" ==>
            after.FindByUid(k.model, payload.uid.value) == found)
  {
  }

  /** Writing, consuming or destroying one artefact leaves every other one as it is. */
  lemma OthersStay(st: RedisState, db: DbState, k: Ident, l: Ident, payload: Payload, expiresIn: int)
    requires l != k
    ensures st.Upserted(k, payload, expiresIn).Find(l) == st.Consumed(k).Find(l) == st.Destroyed(k).Find(l) == st.Find(l)
    ensures db.Upserted(k, payload, expiresIn).Parsed(l) == db.Consumed(k).Parsed(l) == db.Destroyed(k).Parsed(l) == db.Parsed(l)
  {
  }

  /** The payload with the instant of its consumption, and nothing else changed. */
  predicate StampedFrom(before: Option<Payload>, after: Option<Payload>, now: int) {
    && (after.Some? <==> before.Some?)
    && (before.Some? ==>
          var p, q := before.value, after.value;
          q.consumed == Some(now) && q.grantId == p.grantId && q.userCode == p.userCode && q.uid == p.uid && q.body == p.body)
  }

  /** Consuming stamps a live artefact with the current instant, and it lives exactly as long as before. */
  lemma ConsumeStamps(st: RedisState, db: DbState, k: Ident, elapsed: nat)
    ensures StampedFrom(st.Ticked(elapsed).Find(k), st.Consumed(k).Ticked(elapsed).Find(k), st.now)
    ensures StampedFrom(db.Ticked(elapsed).Parsed(k), db.Consumed(k).Ticked(elapsed).Parsed(k), db.now)
  {
  }

  /** A destroyed artefact is found no more, not by its indexes either. */
  lemma DestroyedIsGone(st: RedisState, db: DbState, k: Ident, payload: Payload, expiresIn: int)
    requires k.id != ""
    ensures st.Destroyed(k).Find(k) == None && db.Destroyed(k).Parsed(k) == None
    ensures var after := st.Upserted(k, payload, expiresIn).Destroyed(k);
      && (payload.userCode.Some? && payload.userCode.value != "" ==>
            after.FindByUserCode(k.model, payload.userCode.value) == None)
      && (k.model == "Session" && payload.uid.Some? && payload.uid.value != "" ==>
            after.FindByUid(k.model, payload.uid.value) == None)
  {
  }

  /** The enumeration of a model lists exactly what can be found under it. */
  lemma EnumerationIsFinding(st: RedisState, db: DbState, model: string, id: string, payload: Payload)
    ensures (id, payload) in st.Enumerated(model) <==> st.Find(Ident(model, id)) == Some(payload)
    ensures (id, payload) in db.Enumerated(model) <==> db.Parsed(Ident(model, id)) == Some(payload)
  {
    var k := Ident(model, id);
    if st.Find(k) == Some(payload) {
      assert k in st.artifacts && (k.id, st.artifacts[k].value) == (id, payload);
    }
    if db.Parsed(k) == Some(payload) {
      assert k in db.rows && (k.id, db.rows[k].payload) == (id, payload);
    }
  }

  // ---- Which models a revocation reaches ---------------------------------------------------

  /** After any run: an artefact just written under a grant dies with it exactly in these five models. */
  lemma RevocationReachesModelIff(start: int, ops: seq<Op>, k: Ident, payload: Payload, expiresIn: int, g: string)
    requires payload.grantId == Some(g) && g != "" && expiresIn >= 0
    ensures var st := RedisRun(start, ops).Upserted(k, payload, expiresIn);
      && st.Find(k) == Some(payload)
      && (st.Revoked(g).Find(k) == None <==>
            k.model in {"AccessToken", "AuthorizationCode", "RefreshToken", "DeviceCode", "BackchannelAuthenticationRequest"})
      && (st.Revoked(g).Find(k) != None ==> st.Revoked(g).Find(k) == Some(payload))
  {
    RunListsGrantable(start, ops);
    var before := RedisRun(start, ops);
    var st := before.Upserted(k, payload, expiresIn);
    if k.model in GRANTABLE {
      var list := RedisState.LRange(st.grants, g, st.now);
      assert list == RedisState.LRange(before.grants, g, before.now) + [k];
      assert list[|list| - 1] == k;
    } else {
      assert st.grants == before.grants && k !in RedisState.LRange(st.grants, g, st.now);
    }
  }

  /** The same reach in every state at all. */
  lemma RevocationReachesFromAnyState(st: RedisState, k: Ident, payload: Payload, expiresIn: int, g: string)
    requires payload.grantId == Some(g) && g != "" && expiresIn >= 0
    requires k.model in {"AccessToken", "AuthorizationCode", "RefreshToken", "DeviceCode", "BackchannelAuthenticationRequest"}
    ensures st.Upserted(k, payload, expiresIn).Revoked(g).Find(k) == None
  {
    var after := st.Upserted(k, payload, expiresIn);
    var list := RedisState.LRange(after.grants, g, after.now);
    assert list == RedisState.LRange(st.grants, g, st.now) + [k];
    assert list[|list| - 1] == k;
  }

  /** The row store deletes by the grant column, whatever the model. */
  lemma RowRevocationIff(db: DbState, k: Ident, payload: Payload, expiresIn: int, g: string)
    requires expiresIn >= 0
    ensures var after := db.Upserted(k, payload, expiresIn).Revoked(g);
      after.Parsed(k) == if payload.grantId == Some(g) then None else Some(payload)
  {
  }
}
