/**
 * The relational artefact store: one row per (model, id); lookups, expiry and grant revocation
 * are direct queries over the rows. Expired rows stay in the table and are filtered on reading.
 */
module DatabaseStore {
  import opened Wrappers
  import opened OidcArtifacts

  datatype Row = Row(
    payload: Payload,
    grantId: Option<string>,
    userCode: Option<string>,
    uid: Option<string>,
    expiresAt: Option<int>)

  datatype DbState = DbState(now: int, rows: map<Ident, Row>) {

    /** `#parse`: a row counts only before its expiry. */
    function Parsed(k: Ident): Option<Payload> {
      if k in rows && Live(rows[k].expiresAt, now) then Some(rows[k].payload) else None
    }

    /** The live entry of `k`, with its deadline. */
    function Entry(k: Ident): Option<Timed<Payload>> {
      if k in rows && Live(rows[k].expiresAt, now) then Some(Timed(rows[k].payload, rows[k].expiresAt)) else None
    }

    function Upserted(k: Ident, payload: Payload, expiresIn: int): DbState {
      this.(rows := rows[k := Row(payload, payload.grantId, payload.userCode, payload.uid, DeadlineFor(now, expiresIn))])
    }

    function Consumed(k: Ident): DbState {
      if Parsed(k).None? then this
      else this.(rows := rows[k := rows[k].(payload := rows[k].payload.(consumed := Some(now)))])
    }

    function Destroyed(k: Ident): DbState {
      this.(rows := rows - {k})
    }

    /** DELETE ... WHERE grant_id = g, over every model. */
    function Revoked(g: string): DbState {
      this.(rows := map k | k in rows && rows[k].grantId != Some(g) :: rows[k])
    }

    function Ticked(seconds: nat): DbState {
      this.(now := now + seconds)
    }

    /** `r` answers a query that takes the first row of `model` satisfying `hit`, in any row order. */
    ghost predicate FirstAnswer(model: string, hit: Row -> bool, r: Option<Payload>) {
      if exists k :: k in rows && k.model == model && hit(rows[k])
      then exists k :: k in rows && k.model == model && hit(rows[k]) && r == Parsed(k)
      else r == None
    }

    ghost predicate FindByUid(model: string, uid: string, r: Option<Payload>) {
      FirstAnswer(model, (row: Row) => row.uid == Some(uid), r)
    }

    ghost predicate FindByUserCode(model: string, userCode: string, r: Option<Payload>) {
      FirstAnswer(model, (row: Row) => row.userCode == Some(userCode), r)
    }

    function Enumerated(model: string): set<(string, Payload)> {
      set k | k in rows && k.model == model && Live(rows[k].expiresAt, now) :: (k.id, rows[k].payload)
    }
  }

  class Database {
    var state: DbState

    constructor (now: int)
      ensures state == DbState(now, map[])
    {
      state := DbState(now, map[]);
    }
  }

  class DatabaseAdapter {
    const name: string
    const db: Database

    constructor (name: string, db: Database)
      ensures this.name == name && this.db == db
    {
      this.name, this.db := name, db;
    }

    method Upsert(id: string, payload: Payload, expiresIn: int)
      modifies db
      ensures db.state == old(db.state).Upserted(Ident(name, id), payload, expiresIn)
    {
      var k, rows := Ident(name, id), db.state.rows;
      var expiresAt := if expiresIn != 0 then Some(db.state.now + expiresIn) else None;
      var row := Row(payload, payload.grantId, payload.userCode, payload.uid, expiresAt);
      if k in rows {
        rows := rows - {k} + map[k := row]; // UPDATE
      } else {
        rows := rows + map[k := row]; // INSERT
      }
      assert rows == old(db.state.rows)[k := row];
      db.state := db.state.(rows := rows);
    }

    method Find(id: string) returns (r: Option<Payload>)
      ensures r == db.state.Parsed(Ident(name, id))
    {
      r := db.state.Parsed(Ident(name, id));
    }

    method FindByUid(uid: string) returns (r: Option<Payload>)
      ensures db.state.FindByUid(name, uid, r)
    {
      if k :| k in db.state.rows && k.model == name && db.state.rows[k].uid == Some(uid) {
        r := db.state.Parsed(k);
      } else {
        r := None;
      }
    }

    method FindByUserCode(userCode: string) returns (r: Option<Payload>)
      ensures db.state.FindByUserCode(name, userCode, r)
    {
      if k :| k in db.state.rows && k.model == name && db.state.rows[k].userCode == Some(userCode) {
        r := db.state.Parsed(k);
      } else {
        r := None;
      }
    }

    method Consume(id: string)
      modifies db
      ensures db.state == old(db.state).Consumed(Ident(name, id))
    {
      var k := Ident(name, id);
      var found := Find(id);
      if found.None? {
        return;
      }
      var payload := found.value.(consumed := Some(db.state.now));
      db.state := db.state.(rows := db.state.rows[k := db.state.rows[k].(payload := payload)]);
    }

    method Destroy(id: string)
      modifies db
      ensures db.state == old(db.state).Destroyed(Ident(name, id))
    {
      db.state := db.state.(rows := db.state.rows - {Ident(name, id)});
    }

    method RevokeByGrantId(grantId: string)
      modifies db
      ensures db.state == old(db.state).Revoked(grantId)
    {
      db.state := db.state.(rows := map k | k in db.state.rows && db.state.rows[k].grantId != Some(grantId) :: db.state.rows[k]);
    }

    /** `ids` is the query's answer: the ids of this model's rows, each before the next in the column's order. */
    method List(ids: seq<string>, ghost before: (string, string) -> bool) returns (result: seq<(string, Payload)>)
      requires forall id :: id in ids <==> Ident(name, id) in db.state.rows
      requires forall i, j :: 0 <= i < j < |ids| ==> before(ids[i], ids[j])
      ensures (set e | e in result) == db.state.Enumerated(name)
      ensures forall i, j :: 0 <= i < j < |result| ==> before(result[i].0, result[j].0)
    {
      result := [];
      for i := 0 to |ids|
        invariant forall e :: e in result ==> e in db.state.Enumerated(name)
        invariant forall j :: 0 <= j < |result| ==> result[j].0 in ids[..i]
        invariant forall j, k :: 0 <= j < k < |result| ==> before(result[j].0, result[k].0)
        invariant forall j :: 0 <= j < i && db.state.Parsed(Ident(name, ids[j])).Some? ==>
                    (ids[j], db.state.Parsed(Ident(name, ids[j])).value) in result
      {
        var row := db.state.rows[Ident(name, ids[i])];
        if row.expiresAt.Some? && row.expiresAt.value <= db.state.now {
          continue;
        }
        result := result + [(ids[i], row.payload)];
      }
      forall e | e in db.state.Enumerated(name) ensures e in result {
        assert Ident(name, e.0) in db.state.rows;
        assert db.state.Parsed(Ident(name, e.0)) == Some(e.1);
      }
    }
  }
}
