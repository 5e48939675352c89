/**
 * The client session: a live token set, a parked actor during impersonation, and the PKCE slot of a
 * login in progress. `AuthkitClientManager` and the OIDC routes change the slots in place.
 */
module ClientSession {
  import opened Wrappers

  datatype TokenSet = TokenSet(
    idToken: string,
    accessToken: string,
    refreshToken: Option<string>,
    expiresAt: Option<int>,
    binding: Option<string>)

  /** Whatever sits in the impersonator slot; a record of the old format has no binding. */
  datatype ParkedValue = Other | Record(tokenSet: Option<TokenSet>, binding: Option<string>)

  /** What the middleware reads from an id token; nothing at all when it cannot be decoded. */
  datatype Claims = Claims(sid: Option<string>, sub: Option<string>, issuedAt: Option<int>)

  datatype Pkce = Pkce(verifier: string, state: string)

  datatype Slots = Slots(live: Option<TokenSet>, parked: Option<ParkedValue>, pkce: Option<Pkce>)

  const EMPTY_SLOTS := Slots(None, None, None)
  const REFRESH_SKEW_MS := 60000

  /** `readParked`: only a record with a binding and a token set counts. */
  predicate Readable(v: ParkedValue) {
    v.Record? && Truthy(v.binding) && v.tokenSet.Some?
  }

  /** The live slot carries the nonce of the parked record. */
  predicate Matches(s: Slots) {
    s.live.Some? && s.parked.Some? && Readable(s.parked.value) && s.live.value.binding == s.parked.value.binding
  }

  predicate RefreshDue(s: Slots, now: int) {
    && s.live.Some?
    && Truthy(s.live.value.refreshToken)
    && s.live.value.expiresAt.Some? && s.live.value.expiresAt.value != 0
    && s.live.value.expiresAt.value - now <= REFRESH_SKEW_MS
  }

  function Refreshed(s: Slots, now: int, response: Option<TokenSet>): Slots {
    if !RefreshDue(s, now) || response.None? then s
    else
      var prior, next := s.live.value, response.value;
      s.(live := Some(TokenSet(
        if next.idToken != "" then next.idToken else prior.idToken,
        next.accessToken,
        if next.refreshToken.Some? then next.refreshToken else prior.refreshToken,
        next.expiresAt,
        prior.binding)))
  }

  predicate CanImpersonate(s: Slots, exchange: Option<TokenSet>) {
    s.live.Some? && s.live.value.accessToken != "" && exchange.Some?
  }

  function Impersonated(s: Slots, exchange: Option<TokenSet>, nonce: string): Slots {
    if !CanImpersonate(s, exchange) then s
    else s.(parked := Some(Record(s.live, Some(nonce))), live := Some(exchange.value.(binding := Some(nonce))))
  }

  function Stopped(s: Slots): Slots {
    if s.parked.None? then s
    else if Matches(s) then s.(live := Some(s.parked.value.tokenSet.value.(binding := None)), parked := None)
    else s.(live := None, parked := None)
  }

  function Started(s: Slots, tokenSet: TokenSet): Slots {
    s.(live := Some(tokenSet), parked := None)
  }

  function Ended(s: Slots): Slots {
    s.(live := None, parked := None)
  }

  /** The callback goes on only with the state and the code of the login it belongs to. */
  predicate CallbackAccepted(s: Slots, state: string, code: string) {
    s.pkce.Some? && s.pkce.value.state == state && code != ""
  }

  function CalledBack(s: Slots, state: string, code: string, exchange: Option<TokenSet>): Slots {
    if !CallbackAccepted(s, state, code) then s.(pkce := None)
    else if exchange.None? then s
    else Started(s, exchange.value).(pkce := None)
  }

  /** The claims of the live id token ask the revocation store a question. */
  predicate RevocationAsked(s: Slots, storeConfigured: bool, decode: string -> Claims) {
    storeConfigured && s.live.Some? && s.live.value.idToken != "" &&
    (Truthy(decode(s.live.value.idToken).sid) || Truthy(decode(s.live.value.idToken).sub))
  }

  class Session {
    var slots: Slots

    constructor ()
      ensures slots == EMPTY_SLOTS
    {
      slots := EMPTY_SLOTS;
    }

    method PutLive(tokenSet: TokenSet)
      modifies this
      ensures slots == old(slots).(live := Some(tokenSet))
    {
      slots := slots.(live := Some(tokenSet));
    }

    method PutParked(v: ParkedValue)
      modifies this
      ensures slots == old(slots).(parked := Some(v))
    {
      slots := slots.(parked := Some(v));
    }

    method ForgetLive()
      modifies this
      ensures slots == old(slots).(live := None)
    {
      slots := slots.(live := None);
    }

    method ForgetParked()
      modifies this
      ensures slots == old(slots).(parked := None)
    {
      slots := slots.(parked := None);
    }

    method PutPkce(pkce: Option<Pkce>)
      modifies this
      ensures slots == old(slots).(pkce := pkce)
    {
      slots := slots.(pkce := pkce);
    }
  }

  /** Every method takes the request's session, or null when the request has none. */
  class AuthkitClientManager {
    constructor () {}

    method GetIdToken(session: Session?) returns (idToken: Option<string>)
      ensures idToken.Some? <==> session != null && session.slots.live.Some? && session.slots.live.value.idToken != ""
      ensures idToken.Some? ==> idToken.value == session.slots.live.value.idToken
    {
      if session == null || session.slots.live.None? || session.slots.live.value.idToken == "" {
        return None;
      }
      return Some(session.slots.live.value.idToken);
    }

    /** `response` is the token endpoint's answer if it is asked, None when the request fails. */
    method MaybeRefresh(session: Session?, now: int, response: Option<TokenSet>)
      modifies session
      ensures session != null ==> session.slots == Refreshed(old(session.slots), now, response)
    {
      if session == null {
        return;
      }
      var tokenSet := session.slots.live;
      if tokenSet.None? || !Truthy(tokenSet.value.refreshToken) {
        return;
      }
      var expiresAt := tokenSet.value.expiresAt;
      if expiresAt.None? || expiresAt.value == 0 || expiresAt.value - now > REFRESH_SKEW_MS {
        return;
      }
      if response.Some? {
        var next := response.value;
        session.PutLive(TokenSet(
          if next.idToken != "" then next.idToken else tokenSet.value.idToken,
          next.accessToken,
          if next.refreshToken.Some? then next.refreshToken else tokenSet.value.refreshToken,
          next.expiresAt,
          tokenSet.value.binding));
      }
    }

    /** `ok` is false where the original throws: no session, no access token, or a failed exchange. */
    method Impersonate(session: Session?, exchange: Option<TokenSet>, nonce: string) returns (ok: bool)
      modifies session
      ensures session != null ==> session.slots == Impersonated(old(session.slots), exchange, nonce)
      ensures ok <==> session != null && CanImpersonate(old(session.slots), exchange)
    {
      if session == null {
        return false;
      }
      var current := session.slots.live;
      if current.None? || current.value.accessToken == "" {
        return false;
      }
      if exchange.None? {
        return false;
      }
      session.PutParked(Record(current, Some(nonce)));
      session.PutLive(exchange.value.(binding := Some(nonce)));
      return true;
    }

    /** Restores the actor, or fails closed: with something parked a refusal leaves neither slot. */
    method StopImpersonating(session: Session?) returns (restored: bool)
      modifies session
      ensures session != null ==> session.slots == Stopped(old(session.slots))
      ensures restored <==> session != null && Matches(old(session.slots))
    {
      if session == null {
        return false;
      }
      var raw := session.slots.parked;
      if raw.None? {
        return false;
      }
      var live := session.slots.live;
      if !Readable(raw.value) || live.None? || !Truthy(live.value.binding) || live.value.binding != raw.value.binding {
        session.ForgetParked();
        session.ForgetLive();
        return false;
      }
      session.PutLive(raw.value.tokenSet.value.(binding := None));
      session.ForgetParked();
      return true;
    }

    method IsImpersonating(session: Session?) returns (r: bool)
      ensures r <==> session != null && Matches(session.slots)
    {
      if session == null || session.slots.parked.None? || !Readable(session.slots.parked.value) {
        return false;
      }
      return session.slots.live.Some? && session.slots.live.value.binding == session.slots.parked.value.binding;
    }

    method EndSession(session: Session?)
      modifies session
      ensures session != null ==> session.slots == Ended(old(session.slots))
    {
      if session != null {
        session.ForgetLive();
        session.ForgetParked();
      }
    }

    method StartSession(session: Session?, tokenSet: TokenSet)
      modifies session
      ensures session != null ==> session.slots == Started(old(session.slots), tokenSet)
    {
      if session != null {
        session.ForgetParked();
        session.PutLive(tokenSet);
      }
    }

    // ---- The routes and the middleware that drive the manager -----------------------------

    method HandleLogin(session: Session, pkce: Pkce)
      modifies session
      ensures session.slots == old(session.slots).(pkce := Some(pkce))
    {
      session.PutPkce(Some(pkce));
    }

    /** `loggedIn` is false when the login starts over or the code exchange throws. */
    method HandleCallback(session: Session, state: string, code: string, exchange: Option<TokenSet>) returns (loggedIn: bool)
      modifies session
      ensures session.slots == CalledBack(old(session.slots), state, code, exchange)
      ensures loggedIn <==> CallbackAccepted(old(session.slots), state, code) && exchange.Some?
    {
      var pkce := session.slots.pkce;
      if pkce.None? || pkce.value.state != state || code == "" {
        session.PutPkce(None);
        return false;
      }
      if exchange.None? {
        return false;
      }
      StartSession(session, exchange.value);
      session.PutPkce(None);
      return true;
    }

    /** Returns the id token hint for the end-session redirect. */
    method HandleLogout(session: Session) returns (idToken: Option<string>)
      modifies session
      ensures session.slots == Ended(old(session.slots))
      ensures idToken.Some? <==> old(session.slots).live.Some? && old(session.slots).live.value.idToken != ""
      ensures idToken.Some? ==> idToken.value == old(session.slots).live.value.idToken
    {
      idToken := GetIdToken(session);
      EndSession(session);
    }

    /** `decode` reads sid and sub from an id token; `isRevoked` is the revocation store. */
    method HandleRevocation(session: Session, storeConfigured: bool,
        decode: string -> Claims,
        isRevoked: Claims -> bool)
      modifies session
      ensures session.slots ==
        if RevocationAsked(old(session.slots), storeConfigured, decode)
           && isRevoked(decode(old(session.slots).live.value.idToken))
        then Ended(old(session.slots)) else old(session.slots)
    {
      if !storeConfigured {
        return;
      }
      var idToken := GetIdToken(session);
      if idToken.Some? {
        var claims := decode(idToken.value);
        if (Truthy(claims.sid) || Truthy(claims.sub)) && isRevoked(claims) {
          EndSession(session);
        }
      }
    }
  }
}
