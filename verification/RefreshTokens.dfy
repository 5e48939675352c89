/**
 * The session against an identity provider that rotates or keeps refresh tokens: the slots always
 * hold the tokens that the provider accepts now. The provider itself is an assumed contract.
 */
module RefreshTokens {
  import opened Wrappers
  import opened ClientSession
  import opened SessionRuns

  /** What a client knows of an authorization after its latest answer; an empty id token repeats the one before. */
  datatype Latest = Latest(idToken: string, accessToken: string, expiresAt: Option<int>)

  /**
   * The provider: for each authorization the refresh token it accepts now, if it gave one out, and
   * its latest answer; and all refresh tokens it ever issued.
   */
  datatype Provider = Provider(current: seq<Option<string>>, latest: seq<Latest>, issued: set<string>)

  /** `live` and `parked` say which authorization each slot should be able to use. */
  datatype World = World(slots: Slots, provider: Provider, live: Option<nat>, parked: Option<nat>)

  const START := World(EMPTY_SLOTS, Provider([], [], {}), None, None)

  /** A token that the provider hands out for the first time, or none. */
  predicate Fresh(p: Provider, token: Option<string>) {
    token.Some? ==> token.value != "" && token.value !in p.issued
  }

  /**
   * The provider answers a refresh for `used`: it fails, keeps the token and says so in one of three
   * ways, or rotates it.
   */
  predicate HonestRefresh(p: Provider, used: string, response: Option<TokenSet>) {
    response.Some? ==>
      && Some(used) in p.current
      && (response.value.refreshToken in {None, Some(""), Some(used)} || Fresh(p, response.value.refreshToken))
  }

  /** The event is a library call, and the provider's answer in it follows the contract. */
  predicate Honest(w: World, e: Event) {
    match e
    case Callback(_, _, exchange) => exchange.Some? ==> Fresh(w.provider, exchange.value.refreshToken)
    case Impersonate(exchange, nonce) =>
      nonce != "" && (exchange.Some? ==> Fresh(w.provider, exchange.value.refreshToken))
    case Refresh(now, response) =>
      RefreshDue(w.slots, now) ==> HonestRefresh(w.provider, w.slots.live.value.refreshToken.value, response)
    case HostWrite(_) => false
    case _ => true
  }

  /** A new authorization, with or without a refresh token. */
  function Issue(p: Provider, answer: TokenSet): Provider {
    Provider(
      p.current + [answer.refreshToken],
      p.latest + [Latest(answer.idToken, answer.accessToken, answer.expiresAt)],
      if answer.refreshToken.None? then p.issued else p.issued + {answer.refreshToken.value})
  }

  /**
   * A refresh answers for the authorization of the used token: a new token takes the place of the
   * used one, an absent or empty one leaves it in place.
   */
  function Answered(p: Provider, used: string, answer: TokenSet): Provider
    requires |p.latest| == |p.current|
  {
    Provider(
      seq(|p.current|, i requires 0 <= i < |p.current| =>
        if p.current[i] == Some(used) && Truthy(answer.refreshToken) then answer.refreshToken else p.current[i]),
      seq(|p.latest|, i requires 0 <= i < |p.latest| =>
        if p.current[i] == Some(used)
        then Latest(if answer.idToken == "" then p.latest[i].idToken else answer.idToken, answer.accessToken, answer.expiresAt)
        else p.latest[i]),
      if Truthy(answer.refreshToken) then p.issued + {answer.refreshToken.value} else p.issued)
  }

  /** What each event means for the provider and for who is behind which slot. */
  function WorldStep(w: World, e: Event): (r: World)
    requires |w.provider.latest| == |w.provider.current|
    ensures |r.provider.latest| == |r.provider.current|
  {
    var next, slots := |w.provider.current|, Step(w.slots, e);
    match e
    case Callback(state, code, exchange) =>
      if CallbackAccepted(w.slots, state, code) && exchange.Some?
      then World(slots, Issue(w.provider, exchange.value), Some(next), None) else w.(slots := slots)
    case Impersonate(exchange, _) =>
      if CanImpersonate(w.slots, exchange)
      then World(slots, Issue(w.provider, exchange.value), Some(next), w.live) else w.(slots := slots)
    case Refresh(now, response) =>
      if RefreshDue(w.slots, now) && response.Some?
      then w.(slots := slots, provider := Answered(w.provider, w.slots.live.value.refreshToken.value, response.value))
      else w.(slots := slots)
    case Stop => if w.parked.Some? then World(slots, w.provider, w.parked, None) else w.(slots := slots)
    case Logout => World(slots, w.provider, None, None)
    case Revocation(configured, decode, isRevoked) =>
      if RevocationAsked(w.slots, configured, decode) && isRevoked(decode(w.slots.live.value.idToken))
      then World(slots, w.provider, None, None) else w.(slots := slots)
    case _ => w.(slots := slots)
  }

  function WorldRun(events: seq<Event>): (r: World)
    ensures |r.provider.latest| == |r.provider.current|
  {
    if events == [] then START else WorldStep(WorldRun(events[..|events| - 1]), events[|events| - 1])
  }

  ghost predicate HonestRun(events: seq<Event>) {
    forall i :: 0 <= i < |events| ==> Honest(WorldRun(events[..i]), events[i])
  }

  function LiveToken(s: Slots): Option<string> {
    if s.live.None? then None else s.live.value.refreshToken
  }

  function ParkedToken(s: Slots): Option<string> {
    if s.parked.Some? && s.parked.value.Record? && s.parked.value.tokenSet.Some?
    then s.parked.value.tokenSet.value.refreshToken else None
  }

  /** The token that the provider accepts now for an authorization. */
  function Current(p: Provider, authorization: Option<nat>): Option<string> {
    if authorization.Some? && authorization.value < |p.current| then p.current[authorization.value] else None
  }

  /** The latest answer for an authorization. */
  function LatestOf(p: Provider, authorization: Option<nat>): Option<Latest> {
    if authorization.Some? && authorization.value < |p.latest| then Some(p.latest[authorization.value]) else None
  }

  function LatestIn(s: TokenSet): Latest {
    Latest(s.idToken, s.accessToken, s.expiresAt)
  }

  function LiveLatest(s: Slots): Option<Latest> {
    if s.live.None? then None else Some(LatestIn(s.live.value))
  }

  function ParkedLatest(s: Slots): Option<Latest> {
    if s.parked.Some? && s.parked.value.Record? && s.parked.value.tokenSet.Some?
    then Some(LatestIn(s.parked.value.tokenSet.value)) else None
  }

  /** Tokens are issued once, are not empty, and stand for one authorization. */
  ghost predicate SaneProvider(p: Provider) {
    && |p.latest| == |p.current|
    && (forall i :: 0 <= i < |p.current| && p.current[i].Some? ==> p.current[i].value != "" && p.current[i].value in p.issued)
    && (forall i, j :: 0 <= i < j < |p.current| && p.current[i].Some? ==> p.current[i] != p.current[j])
  }

  /**
   * Each slot holds exactly the provider's current refresh token of the authorization behind it, and
   * the id token, access token and expiry of its latest answer.
   */
  ghost predicate HoldsCurrentTokens(w: World) {
    && LiveToken(w.slots) == Current(w.provider, w.live)
    && ParkedToken(w.slots) == Current(w.provider, w.parked)
    && LiveLatest(w.slots) == LatestOf(w.provider, w.live)
    && ParkedLatest(w.slots) == LatestOf(w.provider, w.parked)
    && (w.slots.live.Some? <==> w.live.Some?)
    && (w.slots.parked.Some? <==> w.parked.Some?)
  }

  /** What the invariant needs beside it: the slots match, and two slots never share an authorization. */
  ghost predicate Consistent(w: World) {
    && SaneProvider(w.provider)
    && (w.live.Some? ==> w.live.value < |w.provider.current|)
    && (w.parked.Some? ==> w.parked.value < |w.provider.current| && w.parked != w.live)
    && (w.slots.parked.Some? ==> Matches(w.slots))
  }

  /** A due refresh is answered with an empty `refresh_token`. */
  predicate EmptyAnswer(w: World, e: Event) {
    e.Refresh? && RefreshDue(w.slots, e.now) && e.response.Some? && e.response.value.refreshToken == Some("")
  }

  lemma AnsweredStaysSane(p: Provider, used: string, answer: TokenSet)
    requires SaneProvider(p) && Some(used) in p.current
    requires var token := answer.refreshToken; token == Some(used) || !Truthy(token) || Fresh(p, token)
    ensures SaneProvider(Answered(p, used, answer))
  {
    var i :| 0 <= i < |p.current| && p.current[i] == Some(used);
    assert forall j :: 0 <= j < |p.current| && j != i ==> Answered(p, used, answer).current[j] == p.current[j];
  }

  lemma RefreshStaysConsistent(w: World, e: Event)
    requires HoldsCurrentTokens(w) && Consistent(w) && Honest(w, e) && e.Refresh?
    ensures Consistent(WorldStep(w, e))
  {
    if RefreshDue(w.slots, e.now) && e.response.Some? {
      AnsweredStaysSane(w.provider, w.slots.live.value.refreshToken.value, e.response.value);
    }
  }

  lemma IssueStaysSane(p: Provider, answer: TokenSet)
    requires SaneProvider(p) && Fresh(p, answer.refreshToken)
    ensures SaneProvider(Issue(p, answer))
  {
  }

  lemma StepStaysConsistent(w: World, e: Event)
    requires HoldsCurrentTokens(w) && Consistent(w) && Honest(w, e)
    ensures Consistent(WorldStep(w, e))
  {
    match e
    case Refresh(_, _) => RefreshStaysConsistent(w, e);
    case Callback(_, _, exchange) =>
      if exchange.Some? {
        IssueStaysSane(w.provider, exchange.value);
      }
    case Impersonate(exchange, _) =>
      if exchange.Some? {
        IssueStaysSane(w.provider, exchange.value);
      }
    case _ =>
  }

  /** An event keeps the current tokens in the slots exactly unless it is a refresh with an empty answer. */
  lemma StepHoldsCurrentTokensIff(w: World, e: Event)
    requires HoldsCurrentTokens(w) && Consistent(w) && Honest(w, e)
    ensures HoldsCurrentTokens(WorldStep(w, e)) <==> !EmptyAnswer(w, e)
  {
  }

  ghost predicate NoEmptyAnswer(events: seq<Event>) {
    forall i :: 0 <= i < |events| ==> !EmptyAnswer(WorldRun(events[..i]), events[i])
  }

  /**
   * Every run of library calls keeps the provider's current token of the live authorization in the
   * live slot and the actor's still current one in the parked slot, each with the id token, access
   * token and expiry of the latest answer, as long as no refresh is answered with an empty token.
   */
  lemma {:induction false} RunHoldsCurrentTokens(events: seq<Event>)
    requires HonestRun(events) && NoEmptyAnswer(events)
    ensures HoldsCurrentTokens(WorldRun(events)) && Consistent(WorldRun(events)) && WorldRun(events).slots == Run(events)
  {
    if events != [] {
      var before := events[..|events| - 1];
      assert forall i :: 0 <= i < |before| ==> before[..i] == events[..i];
      RunHoldsCurrentTokens(before);
      StepHoldsCurrentTokensIff(WorldRun(before), events[|events| - 1]);
      StepStaysConsistent(WorldRun(before), events[|events| - 1]);
    }
  }

  lemma HonestPrefix(events: seq<Event>, n: nat)
    requires HonestRun(events) && n <= |events|
    ensures HonestRun(events[..n]) && (NoEmptyAnswer(events) ==> NoEmptyAnswer(events[..n]))
    ensures forall i :: 0 <= i < n ==> events[..n][..i] == events[..i] && events[..n][i] == events[i]
  {
    assert forall i :: 0 <= i < n ==> events[..n][..i] == events[..i];
  }

  lemma EmptyStepShows(events: seq<Event>, last: nat)
    requires |events| == last + 1
    requires var w := WorldRun(events[..last]);
      HoldsCurrentTokens(w) && Consistent(w) && Honest(w, events[last]) && EmptyAnswer(w, events[last])
    ensures !HoldsCurrentTokens(WorldRun(events))
  {
    StepHoldsCurrentTokensIff(WorldRun(events[..last]), events[last]);
  }

  lemma NoEmptyAnswerExtends(events: seq<Event>, last: nat)
    requires |events| == last + 1 && NoEmptyAnswer(events[..last])
    requires !EmptyAnswer(WorldRun(events[..last]), events[last])
    ensures NoEmptyAnswer(events)
  {
    forall i | 0 <= i < |events| ensures !EmptyAnswer(WorldRun(events[..i]), events[i]) {
      if i < last {
        assert events[..last][..i] == events[..i] && events[..last][i] == events[i];
      }
    }
  }

  lemma LastEmptyAnswerShows(events: seq<Event>)
    requires events != [] && HonestRun(events) && NoEmptyAnswer(events[..|events| - 1]) && !NoEmptyAnswer(events)
    ensures !HoldsCurrentTokens(WorldRun(events))
  {
    var last := |events| - 1;
    if EmptyAnswer(WorldRun(events[..last]), events[last]) {
      HonestPrefix(events, last);
      RunHoldsCurrentTokens(events[..last]);
      EmptyStepShows(events, last);
    } else {
      NoEmptyAnswerExtends(events, last);
    }
  }

  /** The first empty answer of a run shows in the slots. */
  lemma {:induction false} EmptyAnswerShows(events: seq<Event>) returns (n: nat)
    requires HonestRun(events) && !NoEmptyAnswer(events)
    ensures n <= |events| && !HoldsCurrentTokens(WorldRun(events[..n]))
  {
    var last := |events| - 1;
    HonestPrefix(events, last);
    if NoEmptyAnswer(events[..last]) {
      n := |events|;
      assert events[..n] == events;
      LastEmptyAnswerShows(events);
    } else {
      n := EmptyAnswerShows(events[..last]);
      assert events[..last][..n] == events[..n];
    }
  }

  /** The slots hold the current tokens at every point of a run exactly when no refresh is answered with an empty one. */
  lemma AlwaysHoldsCurrentTokensIff(events: seq<Event>)
    requires HonestRun(events)
    ensures (forall n :: 0 <= n <= |events| ==> HoldsCurrentTokens(WorldRun(events[..n]))) <==> NoEmptyAnswer(events)
  {
    if NoEmptyAnswer(events) {
      forall n | 0 <= n <= |events| ensures HoldsCurrentTokens(WorldRun(events[..n])) {
        HonestPrefix(events, n);
        RunHoldsCurrentTokens(events[..n]);
      }
    } else {
      var n := EmptyAnswerShows(events);
    }
  }

  /** A refresh is due within a minute of the expiry, for a session with a refresh token and an expiry. */
  predicate ExpiresWithinAMinute(s: Slots, now: int) {
    match s.live
    case None => false
    case Some(t) => t.refreshToken.Some? && t.refreshToken.value != "" && t.expiresAt.Some? && t.expiresAt.value != 0
                    && now + 60000 >= t.expiresAt.value
  }

  /** A due and answered refresh stores the answer, keeping what it leaves out; any other changes nothing. */
  lemma RefreshStoresTheAnswer(s: Slots, now: int, response: Option<TokenSet>)
    ensures var s' := Refreshed(s, now, response);
      if !ExpiresWithinAMinute(s, now) || response.None? then s' == s
      else
        var before, answer := s.live.value, response.value;
        && s'.live.Some? && s'.parked == s.parked && s'.pkce == s.pkce
        && s'.live.value.accessToken == answer.accessToken
        && s'.live.value.expiresAt == answer.expiresAt
        && s'.live.value.binding == before.binding
        && (answer.idToken != "" ==> s'.live.value.idToken == answer.idToken)
        && (answer.idToken == "" ==> s'.live.value.idToken == before.idToken)
        && (answer.refreshToken.Some? ==> s'.live.value.refreshToken == answer.refreshToken)
        && (answer.refreshToken.None? ==> s'.live.value.refreshToken == before.refreshToken)
  {
  }

  /** Refreshing never loses the id token, and never touches the binding or the parked record. */
  lemma RefreshKeepsIdentity(s: Slots, now: int, response: Option<TokenSet>)
    ensures var s' := Refreshed(s, now, response);
      && s'.parked == s.parked && s'.pkce == s.pkce && (s'.live.Some? <==> s.live.Some?)
      && (s.live.Some? ==> s'.live.value.binding == s.live.value.binding)
      && (s.live.Some? && s.live.value.idToken != "" ==> s'.live.value.idToken != "")
  {
  }

  /**
   * Against a provider that keeps the refresh token, a refresh keeps it in the session exactly when
   * the answer does not carry an empty `refresh_token`: the fallback looks for an absent field only.
   */
  lemma KeptTokenSurvivesIff(s: Slots, now: int, answer: TokenSet)
    requires RefreshDue(s, now)
    requires answer.refreshToken in {None, Some(""), s.live.value.refreshToken}
    ensures Refreshed(s, now, Some(answer)).live.value.refreshToken == s.live.value.refreshToken
       <==> answer.refreshToken != Some("")
    ensures answer.refreshToken == Some("") ==>
      forall later, response :: Refreshed(Refreshed(s, now, Some(answer)), later, response) == Refreshed(s, now, Some(answer))
  {
  }
}
