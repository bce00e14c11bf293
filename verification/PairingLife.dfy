/** The life of a challenge and of a session in a run of the pairing manager, from the events alone. */
module PairingLife {
  import opened Text
  import opened Pairing
  import opened PairingRuns

  // ---- sessions resolve until they expire ----------------------------------

  /** The session is there, or the clock is past its expiry and it is gone. */
  predicate SessionHolds(st: State, token: string, session: Session, now: int) {
    if token in st.sessions then st.sessions[token] == session else now > session.expiresAt
  }

  lemma NextSessionHolds(s: Settings, events: seq<Event>, states: seq<State>, k: nat, token: string, session: Session)
    requires Behaviour(s, events, states) && FreshRun(events) && Ordered(events) && k < |events|
    requires token in Used(events, k) && SessionHolds(states[k], token, session, Clock(events, k))
    ensures SessionHolds(states[k + 1], token, session, Clock(events, k + 1))
  {
    assert Stepped(s, events, states, k) && FreshAt(events, k) && OrderedAt(events, k);
    assert events[k].Observe? && events[k].sessionToken.Some? ==> events[k].sessionToken.value in Tokens(events[k]);
  }

  lemma {:induction false} SessionHoldsOn(s: Settings, events: seq<Event>, states: seq<State>, i: nat, k: nat,
                                          token: string, session: Session)
    requires Behaviour(s, events, states) && FreshRun(events) && Ordered(events) && i <= k <= |events| && events != []
    requires token in Used(events, i) && SessionHolds(states[i], token, session, Clock(events, i))
    ensures token in Used(events, k) && SessionHolds(states[k], token, session, Clock(events, k))
  {
    hide Step, SessionHolds;
    if i < k {
      SessionHoldsOn(s, events, states, i, k - 1, token, session);
      NextSessionHolds(s, events, states, k - 1, token, session);
    }
  }

  /** The session an observation mints resolves to the observing profile until the session's life, counted from the
      observation, is over, and never after. */
  lemma SessionResolvesUntilExpiry(s: Settings, events: seq<Event>, states: seq<State>, i: nat, now: int)
    requires Behaviour(s, events, states) && FreshRun(events) && Ordered(events) && i < |events|
    requires Mints(states[i], events[i]).Some? && AtOrAfter(events, now)
    ensures events[i].sessionToken.Some?
    ensures ProfileOf(Cleaned(states[|events|], now), events[i].sessionToken.value) ==
            if now <= events[i].t1 + s.sessionTTL then Some(events[i].profileId) else None
  {
    var e := events[i];
    assert Stepped(s, events, states, i);
    assert e.sessionToken.value in Used(events, i + 1);
    SessionHoldsOn(s, events, states, i + 1, |events|, e.sessionToken.value,
                   Session(e.profileId, e.t1 + s.sessionTTL));
  }

  /** Event `i` mints the session of that token. */
  predicate MintedBy(s: Settings, events: seq<Event>, states: seq<State>, i: nat, token: string, session: Session)
    requires i < |events| && |states| == |events| + 1
  {
    && Mints(states[i], events[i]).Some? && events[i].sessionToken == Some(token)
    && session == Session(events[i].profileId, events[i].t1 + s.sessionTTL)
  }

  ghost predicate AllMinted(s: Settings, events: seq<Event>, states: seq<State>, k: nat)
    requires k <= |events| && |states| == |events| + 1
  {
    forall t | t in states[k].sessions ::
      exists i | 0 <= i < k :: MintedBy(s, events, states, i, t, states[k].sessions[t])
  }

  lemma {:induction false} SessionsAreMinted(s: Settings, events: seq<Event>, states: seq<State>, k: nat)
    requires Behaviour(s, events, states) && k <= |events|
    ensures AllMinted(s, events, states, k)
  {
    if k > 0 {
      SessionsAreMinted(s, events, states, k - 1);
      assert Stepped(s, events, states, k - 1);
      var before, after := states[k - 1].sessions, states[k].sessions;
      forall t | t in after
        ensures exists i | 0 <= i < k :: MintedBy(s, events, states, i, t, after[t])
      {
        if t in before && before[t] == after[t] {
          var i :| 0 <= i < k - 1 && MintedBy(s, events, states, i, t, before[t]);
        } else {
          assert MintedBy(s, events, states, k - 1, t, after[t]);
        }
      }
    }
  }

  /** A token resolves to a profile only if some observation by that profile minted it and its life is not over. */
  lemma ResolvedWasMinted(s: Settings, events: seq<Event>, states: seq<State>, token: string, now: int)
    returns (i: nat)
    requires Behaviour(s, events, states)
    requires ProfileOf(Cleaned(states[|events|], now), token).Some?
    ensures i < |events| && Mints(states[i], events[i]).Some? && events[i].sessionToken == Some(token)
    ensures ProfileOf(Cleaned(states[|events|], now), token) == Some(events[i].profileId)
    ensures now <= events[i].t1 + s.sessionTTL
  {
    SessionsAreMinted(s, events, states, |events|);
    i :| 0 <= i < |events| && MintedBy(s, events, states, i, token, states[|events|].sessions[token]);
  }

  // ---- the life of a challenge ----------------------------------------------

  /** Event `j` creates a challenge. */
  predicate Creates(events: seq<Event>, states: seq<State>, j: int) {
    && 0 <= j < |events| && j < |states|
    && events[j].Create? && events[j].id.Some? && events[j].dnsToken.Some?
    && |Cleaned(states[j], events[j].t0).challenges| < 10000
  }

  /** Event `i` observes the query name of the challenge made by event `j` while it lives, and can draw a token. */
  predicate Sees(s: Settings, events: seq<Event>, j: int, i: int)
    requires 0 <= j < |events| && events[j].Create?
  {
    && j < i < |events| && events[i].Observe? && events[i].dnsToken == events[j].dnsToken
    && events[i].sessionToken.Some? && events[i].t0 <= events[j].t1 + s.challengeTTL
  }

  /** And the profile that observes it has an id. */
  predicate Binds(s: Settings, events: seq<Event>, j: int, i: int)
    requires 0 <= j < |events| && events[j].Create?
  {
    Sees(s, events, j, i) && events[i].profileId != ""
  }

  /** No event between `j` and `k` binds the challenge made by event `j`. */
  ghost predicate Unbound(s: Settings, events: seq<Event>, j: int, k: int)
    requires 0 <= j < |events| && events[j].Create?
  {
    forall i | j < i < k :: !Binds(s, events, j, i)
  }

  /** Event `i` is the first one that binds it, and lies before `k`. */
  ghost predicate FirstBinds(s: Settings, events: seq<Event>, j: int, i: int, k: int)
    requires 0 <= j < |events| && events[j].Create?
  {
    j < i < k && Binds(s, events, j, i) && Unbound(s, events, j, i)
  }

  /** What the challenge made by event `j` holds after `k` events if it is still there. */
  ghost predicate AsObserved(s: Settings, events: seq<Event>, j: int, k: int, c: Challenge)
    requires 0 <= j < |events| && events[j].Create?
  {
    && Some(c.dnsToken) == events[j].dnsToken && c.expiresAt == events[j].t1 + s.challengeTTL
    && (Unbound(s, events, j, k) ==> c.profileId == "")
    && forall i | FirstBinds(s, events, j, i, k) ::
         && c.profileId == events[i].profileId && Some(c.sessionToken) == events[i].sessionToken
         && c.sessionExpiry == events[i].t1 + s.sessionTTL
  }

  /** The challenge made by event `j` after `k` events: there as observed, or gone because it has expired. */
  ghost predicate LivesOn(s: Settings, events: seq<Event>, states: seq<State>, j: int, k: int)
    requires Creates(events, states, j) && 0 < k <= |events| && |states| == |events| + 1
  {
    var id, st := events[j].id.value, states[k];
    if id in st.challenges then AsObserved(s, events, j, k, st.challenges[id])
    else events[j].dnsToken.value !in st.dnsTokens && Clock(events, k) > events[j].t1 + s.challengeTTL
  }

  lemma StartsLiving(s: Settings, events: seq<Event>, states: seq<State>, j: nat)
    requires Behaviour(s, events, states) && Creates(events, states, j)
    ensures LivesOn(s, events, states, j, j + 1)
    ensures events[j].id.value in Used(events, j + 1) && events[j].dnsToken.value in Used(events, j + 1)
  {
    assert Stepped(s, events, states, j);
  }

  /** An expired challenge stays gone. */
  lemma GoneStaysGone(s: Settings, events: seq<Event>, states: seq<State>, j: nat, k: nat)
    requires Behaviour(s, events, states) && FreshRun(events) && Ordered(events)
    requires Creates(events, states, j) && j < k < |events|
    requires events[j].id.value in Used(events, k) && events[j].dnsToken.value in Used(events, k)
    requires events[j].id.value !in Cleaned(states[k], events[k].t0).challenges
    requires events[j].dnsToken.value !in Cleaned(states[k], events[k].t0).dnsTokens
    requires events[k].t0 > events[j].t1 + s.challengeTTL
    ensures LivesOn(s, events, states, j, k + 1)
  {
    hide Cleaned;
    assert Stepped(s, events, states, k) && FreshAt(events, k) && OrderedAt(events, k);
    var e := events[k];
    assert e.Create? && e.id.Some? ==> e.id.value in Tokens(e);
    assert e.Create? && e.dnsToken.Some? ==> e.dnsToken.value in Tokens(e);
  }

  /** Cleaning up removes a challenge with its DNS token, or neither. */
  lemma CleanedChallenge(st: State, used: set<string>, id: string, now: int)
    requires Sound(st, used) && id in st.challenges
    ensures var clean, c := Cleaned(st, now), st.challenges[id];
            if now <= c.expiresAt then id in clean.challenges && clean.challenges[id] == c
            else id !in clean.challenges && c.dnsToken !in clean.dnsTokens
  {
    var clean, c := Cleaned(st, now), st.challenges[id];
    if now > c.expiresAt {
      assert c.dnsToken in ExpiredTokens(st.challenges, now);
    }
  }

  /** An operation leaves a live challenge alone, but for the observation that pairs it. */
  lemma ActOnChallenge(s: Settings, st: State, used: set<string>, e: Event, id: string)
    requires Sound(st, used) && FreshEvent(used, e) && id in st.challenges
    ensures var c, next := st.challenges[id], Act(s, st, e);
            && id in next.challenges
            && next.challenges[id] ==
               if e.Observe? && e.dnsToken == Some(c.dnsToken) && e.sessionToken.Some? && c.profileId == ""
               then c.(profileId := e.profileId, sessionToken := e.sessionToken.value,
                       sessionExpiry := e.t1 + s.sessionTTL)
               else c
  {
    assert e.Create? && e.id.Some? ==> e.id.value in Tokens(e);
    assert id in used;
  }

  lemma NextObserved(s: Settings, events: seq<Event>, j: nat, k: nat, c: Challenge, next: Challenge)
    requires j < k < |events| && events[j].Create? && AsObserved(s, events, j, k, c) && events[k].t0 <= c.expiresAt
    requires var e := events[k];
             next == if e.Observe? && e.dnsToken == Some(c.dnsToken) && e.sessionToken.Some? && c.profileId == ""
                     then c.(profileId := e.profileId, sessionToken := e.sessionToken.value,
                             sessionExpiry := e.t1 + s.sessionTTL)
                     else c
    ensures AsObserved(s, events, j, k + 1, next)
  {
    var e := events[k];
    assert Sees(s, events, j, k) <==> e.Observe? && e.dnsToken == Some(c.dnsToken) && e.sessionToken.Some?;
    if Unbound(s, events, j, k + 1) {
      assert !Binds(s, events, j, k) && Unbound(s, events, j, k);
    }
    forall i | FirstBinds(s, events, j, i, k + 1)
      ensures next.profileId == events[i].profileId && Some(next.sessionToken) == events[i].sessionToken
      ensures next.sessionExpiry == events[i].t1 + s.sessionTTL
    {
      if i < k {
        assert FirstBinds(s, events, j, i, k);
      }
    }
  }

  lemma NextLives(s: Settings, events: seq<Event>, states: seq<State>, j: nat, k: nat)
    requires Behaviour(s, events, states) && FreshRun(events) && Ordered(events)
    requires Creates(events, states, j) && j < k < |events| && LivesOn(s, events, states, j, k)
    requires Sound(states[k], Used(events, k))
    requires events[j].id.value in Used(events, k) && events[j].dnsToken.value in Used(events, k)
    ensures LivesOn(s, events, states, j, k + 1)
  {
    hide AsObserved, Cleaned, Act, Inverse;
    var id, st, e := events[j].id.value, states[k], events[k];
    assert Stepped(s, events, states, k) && FreshAt(events, k) && OrderedAt(events, k);
    CleanedSound(st, Used(events, k), e.t0);
    if id in st.challenges {
      CleanedChallenge(st, Used(events, k), id, e.t0);
      ObservedFields(s, events, j, k, st.challenges[id]);
      if e.t0 <= st.challenges[id].expiresAt {
        ActOnChallenge(s, Cleaned(st, e.t0), Used(events, k), e, id);
        NextObserved(s, events, j, k, st.challenges[id], states[k + 1].challenges[id]);
      } else {
        GoneStaysGone(s, events, states, j, k);
      }
    } else {
      CleanedFewer(st, e.t0);
      GoneStaysGone(s, events, states, j, k);
    }
  }

  lemma CleanedFewer(st: State, now: int)
    ensures Cleaned(st, now).challenges.Keys <= st.challenges.Keys
    ensures Cleaned(st, now).dnsTokens.Keys <= st.dnsTokens.Keys
  {
  }

  lemma ObservedFields(s: Settings, events: seq<Event>, j: nat, k: nat, c: Challenge)
    requires j < |events| && events[j].Create? && AsObserved(s, events, j, k, c)
    ensures Some(c.dnsToken) == events[j].dnsToken && c.expiresAt == events[j].t1 + s.challengeTTL
  {
  }

  lemma {:induction false} LivesThrough(s: Settings, events: seq<Event>, states: seq<State>, j: nat, k: nat)
    requires Behaviour(s, events, states) && FreshRun(events) && Ordered(events)
    requires Creates(events, states, j) && j < k <= |events|
    ensures LivesOn(s, events, states, j, k)
    ensures events[j].id.value in Used(events, k) && events[j].dnsToken.value in Used(events, k)
  {
    hide LivesOn, Creates;
    if k == j + 1 {
      StartsLiving(s, events, states, j);
    } else {
      LivesThrough(s, events, states, j, k - 1);
      MapsStayInverse(s, events, states, k - 1);
      NextLives(s, events, states, j, k - 1);
      UsedGrows(events, k - 1);
    }
  }

  lemma UsedGrows(events: seq<Event>, k: nat)
    requires k < |events|
    ensures Used(events, k) <= Used(events, k + 1)
  {
  }

  lemma {:induction false} SomeFirst(s: Settings, events: seq<Event>, j: nat, k: nat) returns (i: nat)
    requires j < k <= |events| && events[j].Create? && !Unbound(s, events, j, k)
    ensures FirstBinds(s, events, j, i, k)
  {
    hide Binds;
    i :| j < i < k && Binds(s, events, j, i);
    if !Unbound(s, events, j, i) {
      i := SomeFirst(s, events, j, i);
    }
  }

  /** The status of a challenge at every instant from the end of a run on: none once its life, counted from its
      creation, is over; until then pending as long as no profile with an id has observed it, and after that paired,
      with the token drawn at the first such observation and a session that lasts its life from that observation on. */
  lemma StatusFollowsObservations(s: Settings, events: seq<Event>, states: seq<State>, j: nat, now: int)
    requires Behaviour(s, events, states) && FreshRun(events) && Ordered(events)
    requires Creates(events, states, j) && AtOrAfter(events, now)
    ensures var status := StatusOf(Cleaned(states[|events|], now), events[j].id.value);
            && (status == None <==> now > events[j].t1 + s.challengeTTL)
            && (status == Some(Pending) <==>
                now <= events[j].t1 + s.challengeTTL && Unbound(s, events, j, |events|))
            && forall i | FirstBinds(s, events, j, i, |events|) && now <= events[j].t1 + s.challengeTTL ::
                 && status == Some(Paired(events[i].sessionToken.value, events[i].t1 + s.sessionTTL))
                 && OutcomeOf(Cleaned(states[|events|], now), events[j].id.value) == Some(events[i].profileId)
  {
    hide Sees;
    LivesThrough(s, events, states, j, |events|);
    if !Unbound(s, events, j, |events|) {
      var i := SomeFirst(s, events, j, |events|);
    }
  }

  /** An event mints a session for a challenge exactly when it observes its query name while it lives, can draw a
      token, and no profile with an id has observed it before. */
  lemma MintsExactly(s: Settings, events: seq<Event>, states: seq<State>, j: nat, i: nat)
    requires Behaviour(s, events, states) && FreshRun(events) && Ordered(events)
    requires Creates(events, states, j) && j < i < |events|
    ensures Mints(states[i], events[i]) == events[j].id <==> Sees(s, events, j, i) && Unbound(s, events, j, i)
  {
    LivesThrough(s, events, states, j, i);
    MapsStayInverse(s, events, states, i);
    assert OrderedAt(events, i);
    var id, st, e := events[j].id.value, states[i], events[i];
    if id in st.challenges {
      CleanedChallenge(st, Used(events, i), id, e.t0);
      CleanedSound(st, Used(events, i), e.t0);
    }
    if !Unbound(s, events, j, i) {
      var first := SomeFirst(s, events, j, i);
    }
  }
}
