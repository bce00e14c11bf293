/** What holds in every run of the pairing manager. */
module PairingRuns {
  import opened Text
  import opened Pairing

  // ---- behaviours ----------------------------------------------------------

  predicate Stepped(s: Settings, events: seq<Event>, states: seq<State>, k: nat)
    requires k < |events| && |states| == |events| + 1
  {
    states[k + 1] == Step(s, states[k], events[k])
  }

  /** A run: `states[k]` is the state after the first `k` events, from the empty state. */
  predicate Behaviour(s: Settings, events: seq<Event>, states: seq<State>) {
    && |states| == |events| + 1 && states[0] == EMPTY
    && forall k | 0 <= k < |events| :: Stepped(s, events, states, k)
  }

  // ---- fresh tokens, ordered clocks ----------------------------------------

  function Single(token: Option<string>): set<string> {
    if token.Some? then {token.value} else {}
  }

  function Tokens(e: Event): set<string> {
    match e
    case Create(_, _, id, dnsToken) => Single(id) + Single(dnsToken)
    case Observe(_, _, _, _, sessionToken) => Single(sessionToken)
    case Look(_) => {}
  }

  /** The tokens generated by the first `k` events. */
  function Used(events: seq<Event>, k: nat): set<string>
    requires k <= |events|
  {
    if k == 0 then {} else Used(events, k - 1) + Tokens(events[k - 1])
  }

  predicate FreshEvent(used: set<string>, e: Event) {
    Tokens(e) !! used && (e.Create? && e.id.Some? ==> e.id != e.dnsToken)
  }

  predicate FreshAt(events: seq<Event>, k: nat)
    requires k < |events|
  {
    FreshEvent(Used(events, k), events[k])
  }

  /** No generated token repeats an earlier one. */
  predicate FreshRun(events: seq<Event>) {
    forall k | 0 <= k < |events| :: FreshAt(events, k)
  }

  function EndTime(e: Event): int {
    if e.Look? then e.t0 else e.t1
  }

  /** Event `k` ends no earlier than it starts, and starts no earlier than the one before ended. */
  predicate OrderedAt(events: seq<Event>, k: nat)
    requires k < |events|
  {
    events[k].t0 <= EndTime(events[k]) && (k > 0 ==> EndTime(events[k - 1]) <= events[k].t0)
  }

  /** The clock never goes back. */
  predicate Ordered(events: seq<Event>) {
    forall k | 0 <= k < |events| :: OrderedAt(events, k)
  }

  // ---- inverse maps, bounded challenges ------------------------------------

  /** `challenges` and `dnsTokens` are mutual inverses. */
  ghost predicate Inverse(st: State) {
    && (forall id | id in st.challenges ::
          st.challenges[id].dnsToken in st.dnsTokens && st.dnsTokens[st.challenges[id].dnsToken] == id)
    && (forall t | t in st.dnsTokens ::
          st.dnsTokens[t] in st.challenges && st.challenges[st.dnsTokens[t]].dnsToken == t)
  }

  /** Every key of the three maps is one of a set of tokens. */
  predicate KeysWithin(st: State, used: set<string>) {
    st.challenges.Keys <= used && st.dnsTokens.Keys <= used && st.sessions.Keys <= used
  }

  /** The invariant of a run with fresh tokens. */
  ghost predicate Sound(st: State, used: set<string>) {
    Inverse(st) && |st.challenges| <= 10000 && KeysWithin(st, used)
  }

  lemma CleanedSound(st: State, used: set<string>, now: int)
    requires Sound(st, used)
    ensures Sound(Cleaned(st, now), used)
  {
    var clean := Cleaned(st, now);
    forall t | t in clean.dnsTokens
      ensures clean.dnsTokens[t] in clean.challenges
    {
      assert t !in ExpiredTokens(st.challenges, now);
    }
    Smaller(clean.challenges.Keys, st.challenges.Keys);
  }

  lemma CreateSound(s: Settings, st: State, used: set<string>, t1: int, id: Option<string>, dnsToken: Option<string>)
    requires Sound(st, used)
    requires id.Some? ==> id.value !in used
    requires dnsToken.Some? ==> dnsToken.value !in used
    ensures Sound(AfterCreate(s, st, t1, id, dnsToken), used + (Single(id) + Single(dnsToken)))
  {
  }

  /** Rewriting a challenge without touching its DNS token. */
  lemma RebindInverse(st: State, id: string, c: Challenge, sessions: map<string, Session>)
    requires Inverse(st) && id in st.challenges && c.dnsToken == st.challenges[id].dnsToken
    ensures Inverse(st.(challenges := st.challenges[id := c], sessions := sessions))
    ensures st.challenges[id := c].Keys == st.challenges.Keys
  {
  }

  lemma ObserveSound(s: Settings, st: State, used: set<string>, t1: int, profileId: string, dnsToken: Option<string>,
                     token: Option<string>)
    requires Sound(st, used)
    ensures Sound(AfterObserve(s, st, t1, profileId, dnsToken, token), used + Single(token))
  {
    var next := AfterObserve(s, st, t1, profileId, dnsToken, token);
    var minted := MintsFor(st, dnsToken, token);
    if minted.Some? {
      RebindInverse(st, minted.value, next.challenges[minted.value], next.sessions);
    }
    assert |next.challenges| == |next.challenges.Keys| && |st.challenges| == |st.challenges.Keys|;
  }

  lemma ActSound(s: Settings, st: State, used: set<string>, e: Event)
    requires Sound(st, used) && FreshEvent(used, e)
    ensures Sound(Act(s, st, e), used + Tokens(e))
  {
    match e {
      case Create(_, t1, id, dnsToken) =>
        assert id.Some? ==> id.value in Tokens(e);
        assert dnsToken.Some? ==> dnsToken.value in Tokens(e);
        CreateSound(s, st, used, t1, id, dnsToken);
      case Observe(_, t1, profileId, dnsToken, token) =>
        ObserveSound(s, st, used, t1, profileId, dnsToken, token);
      case Look(_) =>
    }
  }

  lemma StepSound(s: Settings, st: State, used: set<string>, e: Event)
    requires Sound(st, used) && FreshEvent(used, e)
    ensures Sound(Step(s, st, e), used + Tokens(e))
  {
    CleanedSound(st, used, e.t0);
    ActSound(s, Cleaned(st, e.t0), used, e);
  }

  lemma EmptySound()
    ensures Sound(EMPTY, {})
  {
  }

  lemma NextSound(s: Settings, events: seq<Event>, states: seq<State>, k: nat)
    requires Behaviour(s, events, states) && FreshRun(events) && k < |events|
    requires Sound(states[k], Used(events, k))
    ensures Sound(states[k + 1], Used(events, k + 1))
  {
    assert Stepped(s, events, states, k) && FreshAt(events, k);
    StepSound(s, states[k], Used(events, k), events[k]);
  }

  /** In every run with fresh tokens the two maps stay mutual inverses and at most 10,000 challenges
      are pending. */
  lemma {:induction false} MapsStayInverse(s: Settings, events: seq<Event>, states: seq<State>, k: nat)
    requires Behaviour(s, events, states) && FreshRun(events) && k <= |events|
    ensures Sound(states[k], Used(events, k))
  {
    if k == 0 {
      EmptySound();
    } else {
      MapsStayInverse(s, events, states, k - 1);
      NextSound(s, events, states, k - 1);
    }
  }

  // ---- one session per challenge -------------------------------------------

  /** The challenge for which an event mints a session. */
  function Mints(st: State, e: Event): Option<string> {
    if e.Observe? then MintsFor(Cleaned(st, e.t0), e.dnsToken, e.sessionToken) else None
  }

  /** The challenge is gone, or still bound to that profile and session token. */
  predicate BoundTo(st: State, id: string, profileId: string, token: string) {
    id in st.challenges ==> st.challenges[id].profileId == profileId && st.challenges[id].sessionToken == token
  }

  lemma ActKeepsBinding(s: Settings, st: State, used: set<string>, e: Event, id: string, profileId: string,
                        token: string)
    requires BoundTo(st, id, profileId, token) && profileId != "" && id in used && FreshEvent(used, e)
    ensures BoundTo(Act(s, st, e), id, profileId, token)
  {
    assert e.Create? && e.id.Some? ==> e.id.value in Tokens(e);
  }

  lemma StepKeepsBinding(s: Settings, st: State, used: set<string>, e: Event, id: string, profileId: string,
                         token: string)
    requires BoundTo(st, id, profileId, token) && profileId != "" && id in used && FreshEvent(used, e)
    ensures BoundTo(Step(s, st, e), id, profileId, token)
  {
    ActKeepsBinding(s, Cleaned(st, e.t0), used, e, id, profileId, token);
  }

  /** A minting observation binds the challenge. */
  lemma MintBinds(s: Settings, st: State, e: Event)
    requires Mints(st, e).Some?
    ensures Mints(st, e).value in st.challenges
    ensures e.Observe? && e.sessionToken.Some?
    ensures BoundTo(Step(s, st, e), Mints(st, e).value, e.profileId, e.sessionToken.value)
  {
  }

  lemma BoundDoesNotMint(st: State, e: Event, id: string, profileId: string, token: string)
    requires BoundTo(st, id, profileId, token) && profileId != ""
    ensures Mints(st, e) != Some(id)
  {
  }

  lemma NextKeepsBinding(s: Settings, events: seq<Event>, states: seq<State>, k: nat, id: string, profileId: string,
                         token: string)
    requires Behaviour(s, events, states) && FreshRun(events) && k < |events|
    requires profileId != "" && id in Used(events, k) && BoundTo(states[k], id, profileId, token)
    ensures BoundTo(states[k + 1], id, profileId, token)
  {
    assert Stepped(s, events, states, k) && FreshAt(events, k);
    StepKeepsBinding(s, states[k], Used(events, k), events[k], id, profileId, token);
  }

  lemma {:induction false} BindingLasts(s: Settings, events: seq<Event>, states: seq<State>, i: nat, k: nat,
                                        id: string, profileId: string, token: string)
    requires Behaviour(s, events, states) && FreshRun(events) && i <= k <= |events|
    requires profileId != "" && id in Used(events, i) && BoundTo(states[i], id, profileId, token)
    ensures BoundTo(states[k], id, profileId, token) && id in Used(events, k)
  {
    if i < k {
      BindingLasts(s, events, states, i, k - 1, id, profileId, token);
      NextKeepsBinding(s, events, states, k - 1, id, profileId, token);
    }
  }

  /** Once a profile has observed a challenge, the challenge keeps that profile and token as long as it
      lives, whatever is observed later. */
  lemma FirstObserverStays(s: Settings, events: seq<Event>, states: seq<State>, i: nat, k: nat, id: string)
    requires Behaviour(s, events, states) && FreshRun(events) && i < k <= |events|
    requires Mints(states[i], events[i]) == Some(id) && events[i].profileId != ""
    ensures BoundTo(states[k], id, events[i].profileId, events[i].sessionToken.value)
  {
    MapsStayInverse(s, events, states, i);
    assert Stepped(s, events, states, i);
    MintBinds(s, states[i], events[i]);
    BindingLasts(s, events, states, i + 1, k, id, events[i].profileId, events[i].sessionToken.value);
  }

  /** Each challenge mints at most one session, when the profile that observes it has an id. */
  lemma MintsAtMostOnce(s: Settings, events: seq<Event>, states: seq<State>, i: nat, j: nat, id: string)
    requires Behaviour(s, events, states) && FreshRun(events) && i < j < |events|
    requires Mints(states[i], events[i]) == Some(id) && events[i].profileId != ""
    ensures Mints(states[j], events[j]) != Some(id)
  {
    FirstObserverStays(s, events, states, i, j, id);
    BoundDoesNotMint(states[j], events[j], id, events[i].profileId, events[i].sessionToken.value);
  }

  /** A profile with an empty id leaves the challenge looking unobserved, and it mints again. */
  lemma EmptyProfileMintsAgain(s: Settings, st: State, t: int, dnsToken: Option<string>, token: string, again: string)
    requires Mints(st, Observe(t, t, "", dnsToken, Some(token))).Some?
    ensures var next := Step(s, st, Observe(t, t, "", dnsToken, Some(token)));
            Mints(next, Observe(t, t, "", dnsToken, Some(again))) ==
            Mints(st, Observe(t, t, "", dnsToken, Some(token)))
  {
  }

  // ---- paired sessions resolve ---------------------------------------------

  /** A paired challenge expires no later than its session, and its session is there. */
  predicate Backed(s: Settings, c: Challenge, sessions: map<string, Session>, now: int) {
    && c.expiresAt <= now + s.challengeTTL
    && (c.profileId != "" ==>
          && c.expiresAt <= c.sessionExpiry
          && c.sessionToken in sessions && sessions[c.sessionToken] == Session(c.profileId, c.sessionExpiry))
  }

  ghost predicate AllBacked(s: Settings, st: State, now: int) {
    forall id | id in st.challenges :: Backed(s, st.challenges[id], st.sessions, now)
  }

  lemma CleanedBacked(s: Settings, st: State, now: int, then': int)
    requires AllBacked(s, st, now) && now <= then'
    ensures AllBacked(s, Cleaned(st, then'), then')
  {
    forall id | id in Cleaned(st, then').challenges
      ensures Backed(s, st.challenges[id], Cleaned(st, then').sessions, then')
    {
      assert Backed(s, st.challenges[id], st.sessions, now);
    }
  }

  lemma CreateBacked(s: Settings, st: State, now: int, t1: int, id: Option<string>, dnsToken: Option<string>)
    requires AllBacked(s, st, now) && now <= t1
    ensures AllBacked(s, AfterCreate(s, st, t1, id, dnsToken), t1)
  {
    forall i | i in st.challenges
      ensures Backed(s, st.challenges[i], st.sessions, t1)
    {
      assert Backed(s, st.challenges[i], st.sessions, now);
    }
  }

  lemma ObserveBacked(s: Settings, st: State, now: int, t1: int, profileId: string, dnsToken: Option<string>,
                      token: Option<string>)
    requires s.sessionTTL >= s.challengeTTL && AllBacked(s, st, now) && now <= t1
    requires token.Some? ==> token.value !in st.sessions
    ensures AllBacked(s, AfterObserve(s, st, t1, profileId, dnsToken, token), t1)
  {
    var next := AfterObserve(s, st, t1, profileId, dnsToken, token);
    forall id | id in next.challenges
      ensures Backed(s, next.challenges[id], next.sessions, t1)
    {
      assert Backed(s, st.challenges[id], st.sessions, now);
    }
  }

  lemma ActBacked(s: Settings, st: State, used: set<string>, e: Event)
    requires s.sessionTTL >= s.challengeTTL && AllBacked(s, st, e.t0) && KeysWithin(st, used) && FreshEvent(used, e)
    requires e.t0 <= EndTime(e)
    ensures AllBacked(s, Act(s, st, e), EndTime(e))
  {
    match e {
      case Create(t0, t1, id, dnsToken) =>
        CreateBacked(s, st, t0, t1, id, dnsToken);
      case Observe(t0, t1, profileId, dnsToken, token) =>
        assert token.Some? ==> token.value in Tokens(e);
        ObserveBacked(s, st, t0, t1, profileId, dnsToken, token);
      case Look(_) =>
    }
  }

  lemma StepBacked(s: Settings, st: State, used: set<string>, now: int, e: Event)
    requires s.sessionTTL >= s.challengeTTL && AllBacked(s, st, now) && Sound(st, used) && FreshEvent(used, e)
    requires now <= e.t0 <= EndTime(e)
    ensures AllBacked(s, Step(s, st, e), EndTime(e))
  {
    CleanedSound(st, used, e.t0);
    CleanedBacked(s, st, now, e.t0);
    ActBacked(s, Cleaned(st, e.t0), used, e);
  }

  /** The clock reading at which the first `k` events have ended. */
  function Clock(events: seq<Event>, k: nat): int
    requires k <= |events| && events != []
  {
    if k == 0 then events[0].t0 else EndTime(events[k - 1])
  }

  lemma NextBacked(s: Settings, events: seq<Event>, states: seq<State>, k: nat)
    requires s.sessionTTL >= s.challengeTTL && Behaviour(s, events, states) && FreshRun(events) && Ordered(events)
    requires k < |events| && AllBacked(s, states[k], Clock(events, k)) && Sound(states[k], Used(events, k))
    ensures AllBacked(s, states[k + 1], Clock(events, k + 1))
  {
    assert Stepped(s, events, states, k) && FreshAt(events, k) && OrderedAt(events, k);
    StepBacked(s, states[k], Used(events, k), Clock(events, k), events[k]);
  }

  lemma {:induction false} RunBacked(s: Settings, events: seq<Event>, states: seq<State>, k: nat)
    requires s.sessionTTL >= s.challengeTTL && Behaviour(s, events, states) && FreshRun(events) && Ordered(events)
    requires k <= |events| && events != []
    ensures AllBacked(s, states[k], Clock(events, k))
  {
    if k > 0 {
      RunBacked(s, events, states, k - 1);
      MapsStayInverse(s, events, states, k - 1);
      NextBacked(s, events, states, k - 1);
    }
  }

  /** At an instant: a status that reports a token is backed by a session of the outcome's profile. */
  ghost predicate PairingResolves(st: State, now: int, id: string) {
    var seen := Cleaned(st, now);
    StatusOf(seen, id).Some? && StatusOf(seen, id).value.Paired? ==>
      && ProfileOf(Cleaned(seen, now), StatusOf(seen, id).value.sessionToken).Some?
      && ProfileOf(Cleaned(seen, now), StatusOf(seen, id).value.sessionToken) == OutcomeOf(Cleaned(seen, now), id)
  }

  /** A clock reading at or after the end of a run. */
  predicate AtOrAfter(events: seq<Event>, now: int) {
    events != [] ==> EndTime(events[|events| - 1]) <= now
  }

  lemma BackedResolves(s: Settings, st: State, now: int, id: string)
    requires AllBacked(s, Cleaned(st, now), now)
    ensures PairingResolves(st, now, id)
  {
    CleanedBacked(s, Cleaned(st, now), now, now);
    assert id in Cleaned(Cleaned(st, now), now).challenges ==>
           Backed(s, st.challenges[id], Cleaned(Cleaned(st, now), now).sessions, now);
  }

  /** At every instant of every run, a status that reports a token is backed by a live session of the
      profile that the outcome names, if sessions live at least as long as challenges. */
  lemma PairedSessionsResolve(s: Settings, events: seq<Event>, states: seq<State>, now: int, id: string)
    requires s.sessionTTL >= s.challengeTTL && Behaviour(s, events, states)
    requires FreshRun(events) && Ordered(events) && AtOrAfter(events, now)
    ensures PairingResolves(states[|events|], now, id)
  {
    if events != [] {
      RunBacked(s, events, states, |events|);
      CleanedBacked(s, states[|events|], EndTime(events[|events| - 1]), now);
    }
    BackedResolves(s, states[|events|], now, id);
  }

  ghost predicate AlwaysResolves(s: Settings) {
    forall events, states, now, id |
      Behaviour(s, events, states) && FreshRun(events) && Ordered(events) && AtOrAfter(events, now) ::
      PairingResolves(states[|events|], now, id)
  }

  /** With challenges that live at all, every paired status is backed by a session in every run exactly
      when sessions live as long as challenges. */
  lemma ResolvesExactlyWhenSessionsOutlive(s: Settings)
    requires s.challengeTTL >= 0
    ensures AlwaysResolves(s) <==> s.sessionTTL >= s.challengeTTL
  {
    if s.sessionTTL >= s.challengeTTL {
      forall events, states, now, id |
        Behaviour(s, events, states) && FreshRun(events) && Ordered(events) && AtOrAfter(events, now)
        ensures PairingResolves(states[|events|], now, id)
      {
        PairedSessionsResolve(s, events, states, now, id);
      }
    } else {
      var events, states := ExampleRun(s);
      ExampleUnresolved(s, if s.sessionTTL < 0 then 0 else s.sessionTTL + 1);
    }
  }

  // ---- the example: create at 0, observe at 0, ask when only the session has expired ----

  function OneChallenge(s: Settings, profileId: string, token: string, expiry: int,
                        sessions: map<string, Session>): State {
    State(map["i" := Challenge("d", s.challengeTTL, profileId, token, expiry)], map["d" := "i"], sessions)
  }

  lemma ExampleUnresolved(s: Settings, now: int)
    requires 0 <= now <= s.challengeTTL && now > s.sessionTTL
    ensures !PairingResolves(OneChallenge(s, "p", "t", s.sessionTTL, map["t" := Session("p", s.sessionTTL)]), now, "i")
  {
  }

  lemma ExampleRun(s: Settings) returns (events: seq<Event>, states: seq<State>)
    requires s.challengeTTL >= 0
    ensures Behaviour(s, events, states) && FreshRun(events) && Ordered(events) && AtOrAfter(events, 0)
    ensures states[|events|] == OneChallenge(s, "p", "t", s.sessionTTL, map["t" := Session("p", s.sessionTTL)])
  {
    var one := OneChallenge(s, "", "", 0, map[]);
    var two := OneChallenge(s, "p", "t", s.sessionTTL, map["t" := Session("p", s.sessionTTL)]);
    events := [Create(0, 0, Some("i"), Some("d")), Observe(0, 0, "p", Some("d"), Some("t"))];
    states := [EMPTY, one, two];
    ExampleCreate(s);
    ExampleObserve(s);
    TwoSteps(s, events, states);
    ExampleFresh(events);
    assert OrderedAt(events, 0) && OrderedAt(events, 1);
  }

  lemma TwoSteps(s: Settings, events: seq<Event>, states: seq<State>)
    requires |events| == 2 && |states| == 3 && states[0] == EMPTY
    requires states[1] == Step(s, states[0], events[0]) && states[2] == Step(s, states[1], events[1])
    ensures Behaviour(s, events, states)
  {
    forall k | 0 <= k < |events|
      ensures Stepped(s, events, states, k)
    {
      assert k == 0 || k == 1;
    }
  }

  lemma ExampleFresh(events: seq<Event>)
    requires events == [Create(0, 0, Some("i"), Some("d")), Observe(0, 0, "p", Some("d"), Some("t"))]
    ensures FreshRun(events)
  {
    assert Used(events, 1) == {"i", "d"};
    assert FreshAt(events, 0) && FreshAt(events, 1);
  }

  lemma ExampleCreate(s: Settings)
    requires s.challengeTTL >= 0
    ensures Step(s, EMPTY, Create(0, 0, Some("i"), Some("d"))) == OneChallenge(s, "", "", 0, map[])
  {
    assert Cleaned(EMPTY, 0) == EMPTY;
  }

  lemma NothingExpired(st: State, now: int)
    requires forall id | id in st.challenges :: now <= st.challenges[id].expiresAt
    requires forall t | t in st.sessions :: now <= st.sessions[t].expiresAt
    ensures Cleaned(st, now) == st
  {
    assert ExpiredTokens(st.challenges, now) == {};
  }

  lemma ExampleObserve(s: Settings)
    requires s.challengeTTL >= 0
    ensures Step(s, OneChallenge(s, "", "", 0, map[]), Observe(0, 0, "p", Some("d"), Some("t"))) ==
            OneChallenge(s, "p", "t", s.sessionTTL, map["t" := Session("p", s.sessionTTL)])
  {
    var one := OneChallenge(s, "", "", 0, map[]);
    NothingExpired(one, 0);
  }
}
