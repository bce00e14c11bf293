/** Device pairing: one-time DNS challenges that mint session tokens. */
module Pairing {
  import opened Text
  import opened PairingNames

  const MAX_PENDING := 10000

  datatype Settings = Settings(suffix: string, challengeTTL: int, sessionTTL: int)

  datatype Challenge = Challenge(
    dnsToken: string, expiresAt: int, profileId: string, sessionToken: string, sessionExpiry: int)

  datatype Session = Session(profileId: string, expiresAt: int)

  datatype State = State(
    challenges: map<string, Challenge>, dnsTokens: map<string, string>, sessions: map<string, Session>)

  const EMPTY := State(map[], map[], map[])

  datatype Created = Created(id: string, dnsName: string, expiresAt: int)

  datatype Status = Pending | Paired(sessionToken: string, expiresAt: int)

  // ---- the operations on values --------------------------------------------

  function ExpiredTokens(challenges: map<string, Challenge>, now: int): set<string> {
    set id | id in challenges && now > challenges[id].expiresAt :: challenges[id].dnsToken
  }

  /** What `cleanup` leaves: nothing whose expiry lies before `now`. */
  function Cleaned(st: State, now: int): State {
    State(map id | id in st.challenges && now <= st.challenges[id].expiresAt :: st.challenges[id],
          st.dnsTokens - ExpiredTokens(st.challenges, now),
          map t | t in st.sessions && now <= st.sessions[t].expiresAt :: st.sessions[t])
  }

  /** Every operation reads the clock once to clean up, and `Create` and `Observe` once more. A random
      source that fails yields no token; a query name that is not a challenge's carries no DNS token. */
  datatype Event =
    | Create(t0: int, t1: int, id: Option<string>, dnsToken: Option<string>)
    | Observe(t0: int, t1: int, profileId: string, dnsToken: Option<string>, sessionToken: Option<string>)
    | Look(t0: int)

  function AfterCreate(s: Settings, st: State, t1: int, id: Option<string>, dnsToken: Option<string>): State {
    if |st.challenges| >= MAX_PENDING || id.None? || dnsToken.None? then st
    else st.(challenges := st.challenges[id.value := Challenge(dnsToken.value, t1 + s.challengeTTL, "", "", 0)],
             dnsTokens := st.dnsTokens[dnsToken.value := id.value])
  }

  /** The challenge a DNS token belongs to. */
  function ObservedId(st: State, dnsToken: Option<string>): Option<string> {
    match dnsToken
    case None => None
    case Some(token) =>
      if token in st.dnsTokens && st.dnsTokens[token] in st.challenges then Some(st.dnsTokens[token]) else None
  }

  /** The challenge an observation mints a session for: one no profile has observed yet. */
  function MintsFor(st: State, dnsToken: Option<string>, sessionToken: Option<string>): Option<string> {
    match ObservedId(st, dnsToken)
    case None => None
    case Some(id) => if st.challenges[id].profileId == "" && sessionToken.Some? then Some(id) else None
  }

  function AfterObserve(s: Settings, st: State, t1: int, profileId: string, dnsToken: Option<string>,
                        sessionToken: Option<string>): State {
    match MintsFor(st, dnsToken, sessionToken)
    case None => st
    case Some(id) =>
      var expiry := t1 + s.sessionTTL;
      var token := sessionToken.value;
      var bound := st.challenges[id].(profileId := profileId, sessionToken := token, sessionExpiry := expiry);
      st.(challenges := st.challenges[id := bound],
          sessions := st.sessions[token := Session(profileId, expiry)])
  }

  /** An operation on a state that is already cleaned. */
  function Act(s: Settings, st: State, e: Event): State {
    match e
    case Create(_, t1, id, dnsToken) => AfterCreate(s, st, t1, id, dnsToken)
    case Observe(_, t1, profileId, dnsToken, sessionToken) => AfterObserve(s, st, t1, profileId, dnsToken, sessionToken)
    case Look(_) => st
  }

  function Step(s: Settings, st: State, e: Event): State {
    Act(s, Cleaned(st, e.t0), e)
  }

  function StatusOf(st: State, id: string): Option<Status> {
    if id !in st.challenges then None
    else if st.challenges[id].profileId == "" then Some(Pending)
    else Some(Paired(st.challenges[id].sessionToken, st.challenges[id].sessionExpiry))
  }

  function OutcomeOf(st: State, id: string): Option<string> {
    if id in st.challenges then Some(st.challenges[id].profileId) else None
  }

  function ProfileOf(st: State, sessionToken: string): Option<string> {
    if sessionToken in st.sessions then Some(st.sessions[sessionToken].profileId) else None
  }

  // ---- the manager ---------------------------------------------------------

  class Manager {
    const settings: Settings
    var challenges: map<string, Challenge>
    var dnsTokens: map<string, string>
    var sessions: map<string, Session>

    ghost function Contents(): State
      reads this
    {
      State(challenges, dnsTokens, sessions)
    }

    constructor (suffix: string, challengeTTL: int, sessionTTL: int)
      ensures settings == Settings(NormalSuffix(suffix), challengeTTL, sessionTTL) && Contents() == EMPTY
    {
      settings := Settings(NormalSuffix(suffix), challengeTTL, sessionTTL);
      challenges, dnsTokens, sessions := map[], map[], map[];
    }

    method Cleanup(now: int)
      modifies this
      ensures Contents() == Cleaned(old(Contents()), now)
    {
      DropChallenges(now);
      DropSessions(now);
    }

    /** The first loop; map iteration has no order. */
    method DropChallenges(now: int)
      modifies this`challenges, this`dnsTokens
      ensures challenges == Cleaned(old(Contents()), now).challenges
      ensures dnsTokens == Cleaned(old(Contents()), now).dnsTokens
    {
      var todo := challenges.Keys;
      ghost var before := challenges;
      while todo != {}
        invariant todo <= before.Keys
        invariant challenges == map id | id in before && (id in todo || now <= before[id].expiresAt) :: before[id]
        invariant forall t :: t in dnsTokens <==>
                    t in old(dnsTokens) && !Expired(before, now, before.Keys - todo, t)
        invariant forall t | t in dnsTokens :: dnsTokens[t] == old(dnsTokens)[t]
        decreases todo
      {
        var id :| id in todo;
        todo := todo - {id};
        var record := challenges[id];
        if now > record.expiresAt {
          dnsTokens := dnsTokens - {record.dnsToken};
          challenges := challenges - {id};
        }
      }
      assert forall t :: t in ExpiredTokens(before, now) <==> Expired(before, now, before.Keys, t);
      assert before.Keys - todo == before.Keys;
    }

    method DropSessions(now: int)
      modifies this`sessions
      ensures sessions == Cleaned(old(Contents()), now).sessions
    {
      var todo := sessions.Keys;
      ghost var before := sessions;
      while todo != {}
        invariant todo <= before.Keys
        invariant sessions == map t | t in before && (t in todo || now <= before[t].expiresAt) :: before[t]
        decreases todo
      {
        var token :| token in todo;
        todo := todo - {token};
        if now > sessions[token].expiresAt {
          sessions := sessions - {token};
        }
      }
    }

    method Create(t0: int, t1: int, id: Option<string>, dnsToken: Option<string>) returns (created: Option<Created>)
      modifies this
      ensures Contents() == Step(settings, old(Contents()), Event.Create(t0, t1, id, dnsToken))
      ensures created.Some? <==>
                |Cleaned(old(Contents()), t0).challenges| < MAX_PENDING && id.Some? && dnsToken.Some?
      ensures created.Some? ==>
                created.value == Created(id.value, DnsName(dnsToken.value, settings.suffix), t1 + settings.challengeTTL)
    {
      Cleanup(t0);
      ghost var clean := Contents();
      assert Step(settings, old(Contents()), Event.Create(t0, t1, id, dnsToken)) ==
             AfterCreate(settings, clean, t1, id, dnsToken);
      if |challenges| >= MAX_PENDING { return None; }
      if id.None? { return None; }
      if dnsToken.None? { return None; }
      var expiresAt := t1 + settings.challengeTTL;
      challenges := challenges[id.value := Challenge(dnsToken.value, expiresAt, "", "", 0)];
      dnsTokens := dnsTokens[dnsToken.value := id.value];
      return Some(Created(id.value, DnsName(dnsToken.value, settings.suffix), expiresAt));
    }

    method Observe(t0: int, t1: int, profileId: string, queryName: string, sessionToken: Option<string>)
      returns (observed: bool)
      modifies this
      ensures Contents() == Step(settings, old(Contents()), Event.Observe(
                t0, t1, profileId, ObservedToken(settings.suffix, queryName), sessionToken))
      ensures var clean := Cleaned(old(Contents()), t0);
              var id := ObservedId(clean, ObservedToken(settings.suffix, queryName));
              observed <==> id.Some? && (clean.challenges[id.value].profileId != "" || sessionToken.Some?)
    {
      hide Lower, TrimSpace;
      Cleanup(t0);
      var name := TrimSuffix(Lower(TrimSpace(queryName)), ".");
      var suffix := "." + settings.suffix;
      if !HasSuffix(name, suffix) { return false; }
      var dnsToken := TrimSuffix(name, suffix);
      if dnsToken == "" || '.' in dnsToken { return false; }
      if dnsToken !in dnsTokens { return false; }
      var id := dnsTokens[dnsToken];
      if id !in challenges { return false; }
      if challenges[id].profileId == "" {
        if sessionToken.None? { return false; }
        var expiry := t1 + settings.sessionTTL;
        challenges := challenges[id := challenges[id].(profileId := profileId, sessionToken := sessionToken.value,
                                                       sessionExpiry := expiry)];
        sessions := sessions[sessionToken.value := Session(profileId, expiry)];
      }
      return true;
    }

    method GetStatus(now: int, id: string) returns (status: Option<Status>)
      modifies this
      ensures Contents() == Step(settings, old(Contents()), Look(now))
      ensures status == StatusOf(Contents(), id)
    {
      Cleanup(now);
      if id !in challenges { return None; }
      var record := challenges[id];
      if record.profileId == "" { return Some(Pending); }
      return Some(Paired(record.sessionToken, record.sessionExpiry));
    }

    method Outcome(now: int, id: string) returns (profileId: Option<string>)
      modifies this
      ensures Contents() == Step(settings, old(Contents()), Look(now))
      ensures profileId == OutcomeOf(Contents(), id)
    {
      Cleanup(now);
      if id !in challenges { return None; }
      return Some(challenges[id].profileId);
    }

    method Profile(now: int, sessionToken: string) returns (profileId: Option<string>)
      modifies this
      ensures Contents() == Step(settings, old(Contents()), Look(now))
      ensures profileId == ProfileOf(Contents(), sessionToken)
    {
      Cleanup(now);
      if sessionToken !in sessions { return None; }
      return Some(sessions[sessionToken].profileId);
    }
  }

  ghost predicate Expired(challenges: map<string, Challenge>, now: int, ids: set<string>, token: string) {
    exists id | id in ids && id in challenges :: now > challenges[id].expiresAt && challenges[id].dnsToken == token
  }
}
