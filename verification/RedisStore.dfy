/**
 * The Redis artefact store: one key per artefact, plus a per-grant list, a uid index and a
 * user-code index, all with their own deadlines. The server's commands are the functions of
 * `RedisState`; the adapter's methods apply them one by one.
 */
module RedisStore {
  import opened Wrappers
  import opened OidcArtifacts

  // ---- The server: keys with deadlines, and the commands the adapter sends --------------

  datatype RedisState = RedisState(
    now: int,
    artifacts: map<Ident, Timed<Payload>>,
    grants: map<string, Timed<seq<Ident>>>,
    codes: map<string, Timed<string>>,
    uids: map<string, Timed<string>>)
  {
    /** SET discards any deadline the key had. */
    static function Set<K(==), V>(m: map<K, Timed<V>>, k: K, v: V): map<K, Timed<V>> {
      m[k := Timed(v, None)]
    }

    /** EXPIRE with a lifetime that is not positive removes the key; on an absent key it does nothing. */
    static function Expire<K(==), V>(m: map<K, Timed<V>>, k: K, now: int, seconds: int): map<K, Timed<V>> {
      if Lookup(m, k, now).None? then m
      else if seconds <= 0 then m - {k}
      else m[k := Timed(m[k].value, Some(now + seconds))]
    }

    /** RPUSH keeps the deadline of a live list and starts a new list without one otherwise. */
    static function RPush<K(==), V>(m: map<K, Timed<seq<V>>>, k: K, now: int, v: V): map<K, Timed<seq<V>>> {
      if Lookup(m, k, now).Some? then m[k := Timed(m[k].value + [v], m[k].deadline)] else m[k := Timed([v], None)]
    }

    /** LRANGE 0 -1. */
    static function LRange<K(==), V>(m: map<K, Timed<seq<V>>>, k: K, now: int): seq<V> {
      var entry := Lookup(m, k, now);
      if entry.Some? then entry.value.value else []
    }

    /** TTL: -2 for an absent key, -1 for a key without deadline. */
    static function Ttl<K(==), V>(m: map<K, Timed<V>>, k: K, now: int): int {
      var entry := Lookup(m, k, now);
      if entry.None? then -2 else if entry.value.deadline.None? then -1 else entry.value.deadline.value - now
    }

    // ---- What each adapter call means as one state change ------------------------------

    /** SET followed by EXPIRE when a lifetime is given. */
    static function Put<K(==), V>(m: map<K, Timed<V>>, k: K, v: V, now: int, expiresIn: int): map<K, Timed<V>> {
      if expiresIn < 0 then m - {k} else m[k := Timed(v, DeadlineFor(now, expiresIn))]
    }

    /** The grant list after an upsert: the lifetime of the pushed artefact replaces the list's deadline. */
    static function Enlist(m: map<string, Timed<seq<Ident>>>, g: string, k: Ident, now: int, expiresIn: int):
      map<string, Timed<seq<Ident>>>
    {
      var keys := LRange(m, g, now) + [k];
      if expiresIn < 0 then m - {g}
      else if expiresIn > 0 then m[g := Timed(keys, Some(now + expiresIn))]
      else m[g := Timed(keys, if Lookup(m, g, now).Some? then m[g].deadline else None)]
    }

    /** The two commands of an upsert amount to one `Put`. */
    static lemma SetThenExpire<K, V>(m: map<K, Timed<V>>, k: K, v: V, now: int, expiresIn: int)
      ensures Put(m, k, v, now, expiresIn) ==
        if expiresIn != 0 then Expire(Set(m, k, v), k, now, expiresIn) else Set(m, k, v)
    {
    }

    static lemma PushThenExpire(m: map<string, Timed<seq<Ident>>>, g: string, k: Ident, now: int, expiresIn: int)
      ensures Enlist(m, g, k, now, expiresIn) ==
        if expiresIn != 0 then Expire(RPush(m, g, now, k), g, now, expiresIn) else RPush(m, g, now, k)
    {
      if expiresIn < 0 {
        assert RPush(m, g, now, k) - {g} == m - {g};
      }
      assert LRange(m, g, now) + [k] == RPush(m, g, now, k)[g].value;
    }

    function Upserted(k: Ident, payload: Payload, expiresIn: int): RedisState {
      this.(
        artifacts := Put(artifacts, k, payload, now, expiresIn),
        grants := if k.model in GRANTABLE && Truthy(payload.grantId)
                  then Enlist(grants, payload.grantId.value, k, now, expiresIn) else grants,
        codes := if Truthy(payload.userCode) then Put(codes, payload.userCode.value, k.id, now, expiresIn) else codes,
        uids := if k.model == "Session" && Truthy(payload.uid)
                then Put(uids, payload.uid.value, k.id, now, expiresIn) else uids)
    }

    function Find(k: Ident): Option<Payload> {
      PayloadOf(Lookup(artifacts, k, now))
    }

    function FindByUid(model: string, uid: string): Option<Payload> {
      var entry := Lookup(uids, uid, now);
      if entry.None? || entry.value.value == "" then None else Find(Ident(model, entry.value.value))
    }

    function FindByUserCode(model: string, userCode: string): Option<Payload> {
      var entry := Lookup(codes, userCode, now);
      if entry.None? || entry.value.value == "" then None else Find(Ident(model, entry.value.value))
    }

    function Consumed(k: Ident): RedisState {
      if Lookup(artifacts, k, now).None? then this
      else this.(artifacts := artifacts[k := Timed(artifacts[k].value.(consumed := Some(now)), artifacts[k].deadline)])
    }

    function Destroyed(k: Ident): RedisState {
      this.(artifacts := artifacts - {k})
    }

    function Revoked(g: string): RedisState {
      var keys := LRange(grants, g, now);
      this.(artifacts := artifacts - (set k | k in keys), grants := grants - {g})
    }

    function Ticked(seconds: nat): RedisState {
      this.(now := now + seconds)
    }

    /** The live artefacts of one model, as the enumeration reports them. */
    function Enumerated(model: string): set<(string, Payload)> {
      set k | k in artifacts && k.model == model && Live(artifacts[k].deadline, now) :: (k.id, artifacts[k].value)
    }
  }

  class RedisServer {
    var state: RedisState

    constructor (now: int)
      ensures state == RedisState(now, map[], map[], map[], map[])
    {
      state := RedisState(now, map[], map[], map[], map[]);
    }
  }

  class RedisAdapter {
    const name: string
    const redis: RedisServer
    const prefix: string

    constructor (name: string, redis: RedisServer, prefix: string)
      ensures this.name == name && this.redis == redis && this.prefix == prefix
    {
      this.name, this.redis, this.prefix := name, redis, prefix;
    }

    /** One MULTI transaction: the commands run in order and take effect together. */
    method Upsert(id: string, payload: Payload, expiresIn: int)
      modifies redis
      ensures redis.state == old(redis.state).Upserted(Ident(name, id), payload, expiresIn)
    {
      var k, now, tx := Ident(name, id), redis.state.now, redis.state;
      tx := tx.(artifacts := RedisState.Set(tx.artifacts, k, payload));
      if name in GRANTABLE && Truthy(payload.grantId) {
        var g := payload.grantId.value;
        tx := tx.(grants := RedisState.RPush(tx.grants, g, now, k));
        if expiresIn != 0 {
          tx := tx.(grants := RedisState.Expire(tx.grants, g, now, expiresIn));
        }
      }
      if Truthy(payload.userCode) {
        var c := payload.userCode.value;
        tx := tx.(codes := RedisState.Set(tx.codes, c, id));
        if expiresIn != 0 {
          tx := tx.(codes := RedisState.Expire(tx.codes, c, now, expiresIn));
        }
      }
      if name == "Session" && Truthy(payload.uid) {
        var u := payload.uid.value;
        tx := tx.(uids := RedisState.Set(tx.uids, u, id));
        if expiresIn != 0 {
          tx := tx.(uids := RedisState.Expire(tx.uids, u, now, expiresIn));
        }
      }
      if expiresIn != 0 {
        tx := tx.(artifacts := RedisState.Expire(tx.artifacts, k, now, expiresIn));
      }
      RedisState.SetThenExpire(redis.state.artifacts, k, payload, now, expiresIn);
      if Truthy(payload.grantId) {
        RedisState.PushThenExpire(redis.state.grants, payload.grantId.value, k, now, expiresIn);
      }
      if Truthy(payload.userCode) {
        RedisState.SetThenExpire(redis.state.codes, payload.userCode.value, id, now, expiresIn);
      }
      if Truthy(payload.uid) {
        RedisState.SetThenExpire(redis.state.uids, payload.uid.value, id, now, expiresIn);
      }
      redis.state := tx;
    }

    method Find(id: string) returns (r: Option<Payload>)
      ensures r == redis.state.Find(Ident(name, id))
    {
      var data := Lookup(redis.state.artifacts, Ident(name, id), redis.state.now);
      if data.None? {
        return None;
      }
      return Some(data.value.value);
    }

    method FindByUid(uid: string) returns (r: Option<Payload>)
      ensures r == redis.state.FindByUid(name, uid)
    {
      var id := Lookup(redis.state.uids, uid, redis.state.now);
      if id.None? || id.value.value == "" {
        return None;
      }
      r := Find(id.value.value);
    }

    method FindByUserCode(userCode: string) returns (r: Option<Payload>)
      ensures r == redis.state.FindByUserCode(name, userCode)
    {
      var id := Lookup(redis.state.codes, userCode, redis.state.now);
      if id.None? || id.value.value == "" {
        return None;
      }
      r := Find(id.value.value);
    }

    /** Rewrites the payload and gives the key its remaining lifetime again. */
    method Consume(id: string)
      modifies redis
      ensures redis.state == old(redis.state).Consumed(Ident(name, id))
    {
      var k := Ident(name, id);
      var found := Find(id);
      if found.None? {
        return;
      }
      var payload := found.value.(consumed := Some(redis.state.now));
      var ttl := RedisState.Ttl(redis.state.artifacts, k, redis.state.now);
      var written := RedisState.Set(redis.state.artifacts, k, payload);
      if ttl > 0 {
        written := RedisState.Expire(written, k, redis.state.now, ttl);
      }
      redis.state := redis.state.(artifacts := written);
    }

    method Destroy(id: string)
      modifies redis
      ensures redis.state == old(redis.state).Destroyed(Ident(name, id))
    {
      redis.state := redis.state.(artifacts := redis.state.artifacts - {Ident(name, id)});
    }

    method RevokeByGrantId(grantId: string)
      modifies redis
      ensures redis.state == old(redis.state).Revoked(grantId)
    {
      var keys := RedisState.LRange(redis.state.grants, grantId, redis.state.now);
      var tx := redis.state;
      for i := 0 to |keys|
        invariant tx == redis.state.(artifacts := redis.state.artifacts - (set k | k in keys[..i]))
      {
        tx := tx.(artifacts := tx.artifacts - {keys[i]});
        assert keys[..i + 1] == keys[..i] + [keys[i]];
      }
      assert keys[..|keys|] == keys;
      tx := tx.(grants := tx.grants - {grantId});
      redis.state := tx;
    }

    /** The entries that reading the given key names yields. */
    ghost function Hits(keys: set<string>): set<(string, Payload)>
      reads redis
    {
      set k | k in redis.state.artifacts && k.model == name && Live(redis.state.artifacts[k].deadline, redis.state.now)
        && Render(prefix, ArtifactKey(k)) in keys :: (k.id, redis.state.artifacts[k].value)
    }

    ghost predicate OfThisModel(key: string) {
      exists id :: key == Render(prefix, ArtifactKey(Ident(name, id)))
    }

    static ghost function Names(keys: seq<string>): set<string> {
      SetOf(keys)
    }

    static ghost function KeysOf(pages: seq<seq<string>>): set<string> {
      set p, key | 0 <= p < |pages| && key in pages[p] :: key
    }

    /**
     * SCAN's answer, page by page: only keys that match the pattern, and every live one at least
     * once (SCAN may report a key more than once).
     */
    ghost predicate ScanAnswer(pages: seq<seq<string>>)
      reads redis
    {
      && (forall key :: key in KeysOf(pages) ==> OfThisModel(key))
      && (forall k :: k in redis.state.artifacts && k.model == name && Live(redis.state.artifacts[k].deadline, redis.state.now)
            ==> Render(prefix, ArtifactKey(k)) in KeysOf(pages))
    }

    /** SCAN reported no key twice. */
    static ghost predicate NoKeyTwice(pages: seq<seq<string>>) {
      && (forall p :: 0 <= p < |pages| ==> NoRepeats(pages[p]))
      && (forall p, q :: 0 <= p < q < |pages| ==> Names(pages[p]) !! Names(pages[q]))
    }

    /** An entry was read under its own key name. */
    lemma HitHasKey(keys: set<string>, e: (string, Payload))
      requires e in Hits(keys)
      ensures Render(prefix, ArtifactKey(Ident(name, e.0))) in keys
    {
      var k :| k in redis.state.artifacts && k.model == name && Render(prefix, ArtifactKey(k)) in keys && k.id == e.0;
      assert k == Ident(name, e.0);
    }

    /** The next key name of a page without repeats yields a new entry. */
    lemma HitIsNew(keys: seq<string>, j: nat, found: seq<(string, Payload)>, e: (string, Payload))
      requires j < |keys| && NoRepeats(keys) && keys[j] == Render(prefix, ArtifactKey(Ident(name, e.0)))
      requires SetOf(found) == Hits(Names(keys[..j])) && NoRepeats(found)
      ensures NoRepeats(found + [e])
    {
      if e in SetOf(found) {
        HitHasKey(Names(keys[..j]), e);
      }
    }

    /** Different key names yield different entries. */
    lemma HitsApart(seen: set<string>, more: set<string>)
      requires seen !! more
      ensures Hits(seen) !! Hits(more)
    {
      forall e | e in Hits(seen) && e in Hits(more) ensures false {
        HitHasKey(seen, e);
        HitHasKey(more, e);
      }
    }

    /** Reading one more key name adds at most that artefact. */
    lemma OneHit(keys: set<string>, id: string)
      requires ProperModel(name)
      ensures var k := Ident(name, id);
        Hits(keys + {Render(prefix, ArtifactKey(k))}) ==
        Hits(keys) + (if redis.state.Find(k).Some? then {(id, redis.state.Find(k).value)} else {})
    {
      var k := Ident(name, id);
      var key := Render(prefix, ArtifactKey(k));
      var extra := if redis.state.Find(k).Some? then {(id, redis.state.Find(k).value)} else {};
      forall e | e in Hits(keys + {key}) ensures e in Hits(keys) + extra {
        var l :| l in redis.state.artifacts && l.model == name && Live(redis.state.artifacts[l].deadline, redis.state.now)
          && Render(prefix, ArtifactKey(l)) in keys + {key} && e == (l.id, redis.state.artifacts[l].value);
        if Render(prefix, ArtifactKey(l)) == key {
          RenderInjective(prefix, ArtifactKey(k), ArtifactKey(l));
        }
      }
    }

    /** Slicing the next key name of a page gives its id, and reading it adds at most that artefact. */
    lemma NextHit(keys: seq<string>, j: nat)
      requires ProperModel(name) && j < |keys| && OfThisModel(keys[j])
      ensures |ModelPrefix(prefix, name)| <= |keys[j]|
      ensures var id := keys[j][|ModelPrefix(prefix, name)|..];
        var k := Ident(name, id);
        && keys[j] == Render(prefix, ArtifactKey(k))
        && Hits(Names(keys[..j + 1])) ==
             Hits(Names(keys[..j])) + (if redis.state.Find(k).Some? then {(id, redis.state.Find(k).value)} else {})
    {
      var id :| keys[j] == Render(prefix, ArtifactKey(Ident(name, id)));
      ScanMatchesOneModel(prefix, name, ArtifactKey(Ident(name, id)));
      OneHit(Names(keys[..j]), id);
      assert keys[..j + 1] == keys[..j] + [keys[j]];
      assert Names(keys[..j + 1]) == Names(keys[..j]) + {keys[j]};
    }

    /** The inner loop: fetch every key of one page and keep the ones still there. */
    method ReadPage(keys: seq<string>) returns (found: seq<(string, Payload)>)
      requires ProperModel(name)
      requires forall key :: key in keys ==> OfThisModel(key)
      ensures SetOf(found) == Hits(Names(keys))
      ensures NoRepeats(keys) ==> NoRepeats(found)
    {
      var head := ModelPrefix(prefix, name);
      found := [];
      for j := 0 to |keys|
        invariant SetOf(found) == Hits(Names(keys[..j]))
        invariant NoRepeats(keys) ==> NoRepeats(found)
      {
        NextHit(keys, j);
        var id := keys[j][|head|..];
        var data := Find(id);
        if data.Some? {
          if NoRepeats(keys) {
            HitIsNew(keys, j, found, (id, data.value));
          }
          found := found + [(id, data.value)];
        }
      }
      assert keys[..|keys|] == keys;
    }

    /** The cursor loop over the pages of SCAN, and the final sort; `leq` is the locale's order of ids. */
    method List(pages: seq<seq<string>>, leq: (string, string) -> bool) returns (result: seq<(string, Payload)>)
      requires ProperModel(name)
      requires ScanAnswer(pages) && TotalOrder(leq)
      ensures SetOf(result) == redis.state.Enumerated(name)
      ensures Ordered(result, leq)
      ensures NoKeyTwice(pages) ==> NoRepeats(result)
    {
      result := [];
      for cursor := 0 to |pages|
        invariant SetOf(result) == Hits(KeysOf(pages[..cursor]))
        invariant NoKeyTwice(pages) ==> NoRepeats(result)
      {
        forall key | key in pages[cursor] ensures OfThisModel(key) {
          assert key in KeysOf(pages);
        }
        var found := ReadPage(pages[cursor]);
        ghost var seen, page := KeysOf(pages[..cursor]), Names(pages[cursor]);
        assert KeysOf(pages[..cursor + 1]) == seen + page;
        assert Hits(seen + page) == Hits(seen) + Hits(page);
        if NoKeyTwice(pages) {
          HitsApart(seen, page);
          NoRepeatsTogether(result, found);
        }
        SetOfTogether(result, found);
        result := result + found;
      }
      assert pages[..|pages|] == pages;
      result := SortById(result, leq);
    }
  }

  // ---- Sorting the enumeration -----------------------------------------------------------

  ghost predicate TotalOrder(leq: (string, string) -> bool) {
    && (forall a, b :: leq(a, b) || leq(b, a))
    && (forall a, b, c :: leq(a, b) && leq(b, c) ==> leq(a, c))
  }

  ghost predicate Ordered(s: seq<(string, Payload)>, leq: (string, string) -> bool) {
    forall i, j :: 0 <= i < j < |s| ==> leq(s[i].0, s[j].0)
  }

  ghost predicate NoRepeats<T>(s: seq<T>) {
    forall i, j :: 0 <= i < j < |s| ==> s[i] != s[j]
  }

  lemma SetOfTogether<T>(s: seq<T>, t: seq<T>)
    ensures SetOf(s + t) == SetOf(s) + SetOf(t)
  {
  }

  lemma NoRepeatsTogether<T>(s: seq<T>, t: seq<T>)
    requires NoRepeats(s) && NoRepeats(t) && SetOf(s) !! SetOf(t)
    ensures NoRepeats(s + t)
  {
    forall i, j | 0 <= i < j < |s + t| ensures (s + t)[i] != (s + t)[j] {
      if i < |s| <= j {
        assert s[i] in SetOf(s) && t[j - |s|] in SetOf(t);
      }
    }
  }

  function Inserted(s: seq<(string, Payload)>, e: (string, Payload), leq: (string, string) -> bool): seq<(string, Payload)> {
    if s != [] && leq(s[0].0, e.0) then [s[0]] + Inserted(s[1..], e, leq) else [e] + s
  }

  /** Insertion puts one element between the others. */
  lemma {:induction false} InsertionAdds(s: seq<(string, Payload)>, e: (string, Payload), leq: (string, string) -> bool)
    returns (i: nat)
    ensures i <= |s| && Inserted(s, e, leq) == s[..i] + [e] + s[i..]
    ensures forall j :: 0 <= j < i ==> leq(s[j].0, e.0)
    ensures i < |s| ==> !leq(s[i].0, e.0)
  {
    if s != [] && leq(s[0].0, e.0) {
      var k := InsertionAdds(s[1..], e, leq);
      i := k + 1;
      assert [s[0]] + s[1..][..k] == s[..i] && s[1..][k..] == s[i..];
    } else {
      i := 0;
    }
  }

  lemma InsertionSorts(s: seq<(string, Payload)>, e: (string, Payload), leq: (string, string) -> bool)
    requires TotalOrder(leq) && Ordered(s, leq)
    ensures Ordered(Inserted(s, e, leq), leq)
  {
    var i := InsertionAdds(s, e, leq);
    forall j | i <= j < |s| ensures leq(e.0, s[j].0) {
      assert leq(e.0, s[i].0);
    }
  }

  lemma InsertionKeeps(s: seq<(string, Payload)>, e: (string, Payload), leq: (string, string) -> bool)
    ensures SetOf(Inserted(s, e, leq)) == SetOf(s) + {e}
    ensures NoRepeats(s) && e !in s ==> NoRepeats(Inserted(s, e, leq))
  {
    var i := InsertionAdds(s, e, leq);
    PutIn(s, e, i);
  }

  lemma PutIn<T>(s: seq<T>, e: T, i: nat)
    requires i <= |s|
    ensures SetOf(s[..i] + [e] + s[i..]) == SetOf(s) + {e}
    ensures NoRepeats(s) && e !in s ==> NoRepeats(s[..i] + [e] + s[i..])
  {
    var r := s[..i] + [e] + s[i..];
    assert forall j :: 0 <= j < |r| ==> r[j] == if j < i then s[j] else if j == i then e else s[j - 1];
    forall x | x in s ensures x in r {
      var j :| 0 <= j < |s| && s[j] == x;
      assert r[if j < i then j else j + 1] == x;
    }
  }

  /** The library's sort, as an assumed contract with a simple body. */
  method SortById(s: seq<(string, Payload)>, leq: (string, string) -> bool) returns (r: seq<(string, Payload)>)
    requires TotalOrder(leq)
    ensures SetOf(r) == SetOf(s) && Ordered(r, leq)
    ensures NoRepeats(s) ==> NoRepeats(r)
  {
    r := [];
    for i := 0 to |s|
      invariant SetOf(r) == SetOf(s[..i]) && Ordered(r, leq)
      invariant NoRepeats(s) ==> NoRepeats(r)
    {
      InsertionSorts(r, s[i], leq);
      InsertionKeeps(r, s[i], leq);
      assert s[..i + 1] == s[..i] + [s[i]];
      SetOfTogether(s[..i], [s[i]]);
      assert s[i] in r ==> s[i] in SetOf(s[..i]);
      r := Inserted(r, s[i], leq);
    }
    assert s[..|s|] == s;
  }
}
