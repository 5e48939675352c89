/** What the two session slots guarantee over whole runs. */
module SessionRuns {
  import opened Wrappers
  import opened ClientSession

  datatype Event =
    | Login(pkce: Pkce)
    | Callback(state: string, code: string, exchange: Option<TokenSet>)
    | Logout
    | Refresh(now: int, response: Option<TokenSet>)
    | Impersonate(exchange: Option<TokenSet>, nonce: string)
    | Stop
    | Revocation(storeConfigured: bool, decode: string -> Claims, isRevoked: Claims -> bool)
    | HostWrite(live: Option<TokenSet>)

  function Step(s: Slots, e: Event): Slots {
    match e
    case Login(pkce) => s.(pkce := Some(pkce))
    case Callback(state, code, exchange) => CalledBack(s, state, code, exchange)
    case Logout => Ended(s)
    case Refresh(now, response) => Refreshed(s, now, response)
    case Impersonate(exchange, nonce) => Impersonated(s, exchange, nonce)
    case Stop => Stopped(s)
    case Revocation(configured, decode, isRevoked) =>
      if RevocationAsked(s, configured, decode) && isRevoked(decode(s.live.value.idToken)) then Ended(s) else s
    case HostWrite(live) => s.(live := live)
  }

  function Run(events: seq<Event>): Slots {
    if events == [] then EMPTY_SLOTS else Step(Run(events[..|events| - 1]), events[|events| - 1])
  }

  // ---- Assumptions on a run ----------------------------------------------------------

  /** No token endpoint answer carries a binding. */
  predicate Unbound(answer: Option<TokenSet>) {
    answer.Some? ==> answer.value.binding.None?
  }

  /** `nonce` was minted by one of the events. */
  ghost predicate Minted(events: seq<Event>, nonce: string) {
    exists i :: 0 <= i < |events| && events[i].Impersonate? && events[i].nonce == nonce
  }

  /** Nonces are new and never empty; the host never writes a minted one into the live slot. */
  ghost predicate LegalRun(events: seq<Event>) {
    forall i :: 0 <= i < |events| ==>
      && (events[i].Callback? ==> Unbound(events[i].exchange))
      && (events[i].Impersonate? ==> events[i].nonce != "" && !Minted(events[..i], events[i].nonce))
      && (events[i].HostWrite? && events[i].live.Some? && events[i].live.value.binding.Some? ==>
            !Minted(events[..i], events[i].live.value.binding.value))
  }

  /** The i-th event is the `impersonate` that put the live token set into the parked record. */
  ghost predicate Parks(events: seq<Event>, i: nat)
    requires i < |events|
  {
    events[i].Impersonate? && CanImpersonate(Run(events[..i]), events[i].exchange)
  }

  /** The j-th event refreshes the live token set, or leaves both slots alone. */
  ghost predicate Carries(events: seq<Event>, j: nat)
    requires j < |events|
  {
    var before, after := Run(events[..j]), Run(events[..j + 1]);
    before.parked == after.parked && (events[j].Refresh? || before.live == after.live)
  }

  /** Event i parked the token set live at that moment, and since then there were only refreshes. */
  ghost predicate Origin(events: seq<Event>, i: nat)
    requires i < |events|
  {
    && Parks(events, i)
    && (forall j :: i < j < |events| ==> Carries(events, j))
    && Run(events).parked == Some(Record(Run(events[..i]).live, Some(events[i].nonce)))
  }

  // ---- Main results ------------------------------------------------------------------

  lemma PrefixFacts(events: seq<Event>)
    requires events != []
    ensures var n := |events| - 1;
      && (forall i :: 0 <= i <= n ==> events[..n][..i] == events[..i])
      && events[..n + 1] == events
      && (LegalRun(events) ==> LegalRun(events[..n]))
  {
  }

  /** A binding in the parked slot was minted by this run. */
  lemma {:induction false} ParkedIsMinted(events: seq<Event>)
    requires LegalRun(events)
    ensures var s := Run(events);
      s.parked.Some? ==> s.parked.value.Record? && s.parked.value.binding.Some? && Minted(events, s.parked.value.binding.value)
  {
    if events != [] {
      var n := |events| - 1;
      PrefixFacts(events);
      ParkedIsMinted(events[..n]);
      var s := Run(events);
      if s.parked.Some? {
        if events[n].Impersonate? && CanImpersonate(Run(events[..n]), events[n].exchange) {
          assert Minted(events, events[n].nonce);
        } else {
          var i :| 0 <= i < n && events[..n][i].Impersonate? && events[..n][i].nonce == s.parked.value.binding.value;
          assert events[i].Impersonate? && events[i].nonce == s.parked.value.binding.value;
        }
      }
    }
  }

  /** A step that leaves the parked record and the match alone extends the origin. */
  lemma OriginExtends(events: seq<Event>, i: nat)
    requires events != [] && i < |events| - 1 && Origin(events[..|events| - 1], i) && Carries(events, |events| - 1)
    ensures Origin(events, i)
  {
    var n := |events| - 1;
    PrefixFacts(events);
    assert Parks(events[..n], i) && events[..n][i] == events[i];
    forall j | i < j < |events| ensures Carries(events, j) {
      if j < n {
        assert Carries(events[..n], j) && events[..n][j] == events[j];
        assert events[..n][..j + 1] == events[..j + 1];
      }
    }
  }

  /** Only refreshes and steps that touch neither slot keep an existing match. */
  lemma MatchIsKept(s: Slots, e: Event)
    requires Matches(Step(s, e))
    requires !(e.Impersonate? && CanImpersonate(s, e.exchange))
    requires e.HostWrite? && e.live.Some? && s.parked.Some? && Readable(s.parked.value) ==>
      e.live.value.binding != s.parked.value.binding
    ensures Matches(s) && Step(s, e).parked == s.parked && (e.Refresh? || Step(s, e).live == s.live)
  {
  }

  lemma MatchIsCarried(events: seq<Event>)
    requires LegalRun(events) && events != [] && Matches(Run(events))
    requires var n := |events| - 1; !(events[n].Impersonate? && CanImpersonate(Run(events[..n]), events[n].exchange))
    ensures Matches(Run(events[..|events| - 1])) && Carries(events, |events| - 1)
  {
    var n := |events| - 1;
    PrefixFacts(events);
    ParkedIsMinted(events[..n]);
    MatchIsKept(Run(events[..n]), events[n]);
  }

  /** While the events since an impersonation only carry it, the slots keep matching. */
  lemma {:induction false} OriginMatches(events: seq<Event>, i: nat)
    requires LegalRun(events) && i < |events| && Origin(events, i)
    ensures Matches(Run(events))
  {
    CarriedLiveKeepsBinding(events, i, |events|);
    assert events[..|events|] == events;
  }

  lemma {:induction false} CarriedLiveKeepsBinding(events: seq<Event>, i: nat, n: nat)
    requires i < n <= |events| && Parks(events, i) && forall j :: i < j < |events| ==> Carries(events, j)
    ensures var s := Run(events[..n]); s.live.Some? && s.live.value.binding == Some(events[i].nonce)
  {
    assert events[..n][..n - 1] == events[..n - 1] && events[..n][n - 1] == events[n - 1];
    if i < n - 1 {
      CarriedLiveKeepsBinding(events, i, n - 1);
      assert Carries(events, n - 1);
    }
  }

  /** The slots match exactly when the live one descends by refreshes from the impersonation that parked the other. */
  lemma {:induction false} MatchesIffOrigin(events: seq<Event>)
    requires LegalRun(events)
    ensures Matches(Run(events)) <==> exists i :: 0 <= i < |events| && Origin(events, i)
  {
    if i :| 0 <= i < |events| && Origin(events, i) {
      OriginMatches(events, i);
    }
    if events != [] && Matches(Run(events)) {
      var n := |events| - 1;
      PrefixFacts(events);
      if events[n].Impersonate? && CanImpersonate(Run(events[..n]), events[n].exchange) {
        assert Origin(events, n);
      } else {
        MatchIsCarried(events);
        MatchesIffOrigin(events[..n]);
        var i :| 0 <= i < n && Origin(events[..n], i);
        OriginExtends(events, i);
      }
    }
  }

  /**
   * `stopImpersonating` returns true exactly while the live token set descends by refreshes alone
   * from the latest `impersonate`, and what comes back is the token set that was live when it was
   * called, without its binding. Any other call leaves both slots empty when something is parked,
   * and changes nothing when nothing is.
   */
  lemma StopRestoresItsOwnActor(events: seq<Event>)
    requires LegalRun(events)
    ensures var s := Run(events);
      && (Matches(s) <== exists i :: 0 <= i < |events| && Origin(events, i))
      && (Matches(s) ==>
            exists i :: 0 <= i < |events| && Origin(events, i)
              && Stopped(s) == s.(live := Some(Run(events[..i]).live.value.(binding := None)), parked := None))
      && (!Matches(s) ==> Stopped(s) == if s.parked.Some? then s.(live := None, parked := None) else s)
  {
    MatchesIffOrigin(events);
    var s := Run(events);
    if Matches(s) {
      var i :| 0 <= i < |events| && Origin(events, i);
      assert Stopped(s) == s.(live := Some(Run(events[..i]).live.value.(binding := None)), parked := None);
    }
  }

  /** When only the library touches the session, something is parked exactly while a stop would succeed. */
  lemma {:induction false} ParkedMeansImpersonating(events: seq<Event>)
    requires forall i :: 0 <= i < |events| ==> !events[i].HostWrite?
    requires forall i :: 0 <= i < |events| && events[i].Impersonate? ==> events[i].nonce != ""
    ensures Run(events).parked.Some? <==> Matches(Run(events))
  {
    if events != [] {
      ParkedMeansImpersonating(events[..|events| - 1]);
    }
  }

  /** A host write always separates the two: after it a stop is refused, and empties both slots. */
  lemma HostWriteOrphansTheParkedRecord(events: seq<Event>, live: Option<TokenSet>)
    requires LegalRun(events + [HostWrite(live)]) && Run(events).parked.Some?
    ensures var s := Run(events + [HostWrite(live)]);
      && s == Run(events).(live := live)
      && !Matches(s) && Stopped(s) == s.(live := None, parked := None)
  {
    var longer := events + [HostWrite(live)];
    PrefixFacts(longer);
    assert longer[..|events|] == events;
    ParkedIsMinted(events);
  }

  /** Impersonation does not stack: stopping a nested one lands on the first target, and the actor is gone. */
  lemma NestedImpersonationForgetsTheActor(s: Slots, first: TokenSet, second: TokenSet, n1: string, n2: string)
    requires s.live.Some? && s.live.value.accessToken != "" && first.accessToken != "" && n1 != "" && n2 != ""
    ensures var nested := Impersonated(Impersonated(s, Some(first), n1), Some(second), n2);
      && Stopped(nested) == s.(live := Some(first.(binding := None)), parked := None)
      && Stopped(Stopped(nested)) == Stopped(nested)
  {
  }

  /** Impersonation is on exactly when one non-empty nonce stands in both slots, the parked one being a full record. */
  lemma MatchesIffSameNonce(s: Slots)
    ensures Matches(s) <==> exists nonce, actor ::
      nonce != "" && s.parked == Some(Record(Some(actor), Some(nonce))) && s.live.Some? && s.live.value.binding == Some(nonce)
  {
    if Matches(s) {
      var nonce, actor := s.parked.value.binding.value, s.parked.value.tokenSet.value;
      assert nonce != "" && s.parked == Some(Record(Some(actor), Some(nonce))) && s.live.value.binding == Some(nonce);
    }
  }

  /**
   * Impersonation needs a live access token and an answer; it then parks the live token set and
   * installs the answer, both under the nonce. Else nothing changes.
   */
  lemma ImpersonationIff(s: Slots, exchange: Option<TokenSet>, nonce: string)
    ensures Step(s, Impersonate(exchange, nonce)) ==
      if s.live.Some? && s.live.value.accessToken != "" && exchange.Some? then
        var t := exchange.value;
        Slots(Some(TokenSet(t.idToken, t.accessToken, t.refreshToken, t.expiresAt, Some(nonce))),
          Some(Record(s.live, Some(nonce))), s.pkce)
      else s
  {
  }

  /** The central revocation ends the session exactly when the store names the sid or sub of its id token. */
  lemma RevocationEndsIff(s: Slots, configured: bool, decode: string -> Claims, isRevoked: Claims -> bool)
    ensures Step(s, Revocation(configured, decode, isRevoked)) ==
      if configured && s.live.Some? && s.live.value.idToken != "" &&
         var claims := decode(s.live.value.idToken);
         (claims.sid !in {None, Some("")} || claims.sub !in {None, Some("")}) && isRevoked(claims)
      then Slots(None, None, s.pkce) else s
  {
  }

  // ---- Which callbacks log in ------------------------------------------------------------

  /**
   * Event i is the latest login, and every callback since then belonged to it and failed in the code
   * exchange, so that none of them consumed it.
   */
  ghost predicate Pending(events: seq<Event>, i: nat)
    requires i < |events|
  {
    && events[i].Login?
    && forall j :: i < j < |events| ==>
         && !events[j].Login?
         && (events[j].Callback? ==> events[j].state == events[i].pkce.state && events[j].code != "" && events[j].exchange.None?)
  }

  /** The PKCE slot holds the pending login. */
  lemma {:induction false} PkceIsPendingLogin(events: seq<Event>)
    ensures forall i :: 0 <= i < |events| && Pending(events, i) ==> Run(events).pkce == Some(events[i].pkce)
    ensures Run(events).pkce.Some? ==> exists i :: 0 <= i < |events| && Pending(events, i)
  {
    if events != [] {
      var n := |events| - 1;
      var before := events[..n];
      PkceIsPendingLogin(before);
      forall i | 0 <= i < |events| && Pending(events, i) ensures Run(events).pkce == Some(events[i].pkce) {
        if i < n {
          assert Pending(before, i) && before[i] == events[i];
        }
      }
      if Run(events).pkce.Some? {
        if events[n].Login? {
          assert Pending(events, n);
        } else {
          var i :| 0 <= i < n && Pending(before, i);
          assert Run(before).pkce == Some(before[i].pkce) && before[i] == events[i];
          assert Pending(events, i);
        }
      }
    }
  }

  /** A callback that answers the login still pending, with a code. */
  ghost predicate Answers(events: seq<Event>, state: string, code: string) {
    code != "" && exists i :: 0 <= i < |events| && Pending(events, i) && events[i].pkce.state == state
  }

  /**
   * Over every run a callback installs a session exactly when it carries a code and the state of the
   * pending login; any other callback leaves both session slots as they are and drops that login.
   */
  lemma CallbackLogsInIff(events: seq<Event>, state: string, code: string, tokenSet: TokenSet)
    ensures Run(events + [Callback(state, code, Some(tokenSet))]) ==
      if Answers(events, state, code) then Slots(Some(tokenSet), None, None) else Run(events).(pkce := None)
  {
    PkceIsPendingLogin(events);
    assert (events + [Callback(state, code, Some(tokenSet))])[..|events|] == events;
  }
}
