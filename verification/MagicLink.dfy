/** Magic links: one-time login tokens exchanged for short-lived sessions. */
module MagicLink {
  import opened Text

  const MAX_PENDING := 10000

  datatype Settings = Settings(linkTTL: int, sessionTTL: int)

  /** A link or a session: the house it is for and the instant it expires. */
  datatype Grant = Grant(houseId: string, expiresAt: int)

  datatype State = State(links: map<string, Grant>, sessions: map<string, Grant>)

  const EMPTY := State(map[], map[])

  function Alive(grants: map<string, Grant>, now: int): map<string, Grant> {
    map t | t in grants && now <= grants[t].expiresAt :: grants[t]
  }

  function Cleaned(st: State, now: int): State {
    State(Alive(st.links, now), Alive(st.sessions, now))
  }

  /** The operations with their clock readings, in order; a random source that fails yields no token. */
  datatype Event =
    | Issue(t0: int, t1: int, houseId: string, token: Option<string>)
    | Redeem(t0: int, t1: int, t2: int, link: string, session: Option<string>)
    | Look(t0: int)

  function AfterIssue(s: Settings, st: State, t1: int, houseId: string, token: Option<string>): State {
    if |st.links| >= MAX_PENDING || token.None? then st
    else st.(links := st.links[token.value := Grant(houseId, t1 + s.linkTTL)])
  }

  /** The house a redemption logs in to, when it succeeds. */
  function Redeems(st: State, t1: int, link: string, session: Option<string>): Option<string> {
    if link in st.links && t1 <= st.links[link].expiresAt && session.Some? then Some(st.links[link].houseId) else None
  }

  function AfterRedeem(s: Settings, st: State, t1: int, t2: int, link: string, session: Option<string>): State {
    var rest := st.(links := st.links - {link});
    match Redeems(st, t1, link, session)
    case None => rest
    case Some(houseId) => rest.(sessions := st.sessions[session.value := Grant(houseId, t2 + s.sessionTTL)])
  }

  function Act(s: Settings, st: State, e: Event): State {
    match e
    case Issue(_, t1, houseId, token) => AfterIssue(s, st, t1, houseId, token)
    case Redeem(_, t1, t2, link, session) => AfterRedeem(s, st, t1, t2, link, session)
    case Look(_) => st
  }

  function Step(s: Settings, st: State, e: Event): State {
    Act(s, Cleaned(st, e.t0), e)
  }

  function HouseOf(st: State, session: string): Option<string> {
    if session in st.sessions then Some(st.sessions[session].houseId) else None
  }

  class Manager {
    const settings: Settings
    var links: map<string, Grant>
    var sessions: map<string, Grant>

    ghost function Contents(): State
      reads this
    {
      State(links, sessions)
    }

    constructor (linkTTL: int, sessionTTL: int)
      ensures settings == Settings(linkTTL, sessionTTL) && Contents() == EMPTY
    {
      settings := Settings(linkTTL, sessionTTL);
      links, sessions := map[], map[];
    }

    method Cleanup(now: int)
      modifies this
      ensures Contents() == Cleaned(old(Contents()), now)
    {
      links := DropExpired(links, now);
      sessions := DropExpired(sessions, now);
    }

    /** A cleanup loop; map iteration has no order. */
    static method DropExpired(grants: map<string, Grant>, now: int) returns (left: map<string, Grant>)
      ensures left == Alive(grants, now)
    {
      left := grants;
      var todo := grants.Keys;
      while todo != {}
        invariant todo <= grants.Keys
        invariant left == map t | t in grants && (t in todo || now <= grants[t].expiresAt) :: grants[t]
        decreases todo
      {
        var token :| token in todo;
        todo := todo - {token};
        if now > left[token].expiresAt {
          left := left - {token};
        }
      }
    }

    method IssueLink(t0: int, t1: int, houseId: string, token: Option<string>) returns (link: Option<string>)
      modifies this
      ensures Contents() == Step(settings, old(Contents()), Issue(t0, t1, houseId, token))
      ensures link == if |Cleaned(old(Contents()), t0).links| < MAX_PENDING then token else None
    {
      Cleanup(t0);
      if |links| >= MAX_PENDING { return None; }
      if token.None? { return None; }
      links := links[token.value := Grant(houseId, t1 + settings.linkTTL)];
      return token;
    }

    method RedeemLink(t0: int, t1: int, t2: int, token: string, session: Option<string>)
      returns (result: Option<(string, string)>)
      modifies this
      ensures Contents() == Step(settings, old(Contents()), Redeem(t0, t1, t2, token, session))
      ensures var houseId := Redeems(Cleaned(old(Contents()), t0), t1, token, session);
              result == if houseId.Some? then Some((houseId.value, session.value)) else None
    {
      Cleanup(t0);
      if token !in links {
        assert links - {token} == links;
        return None;
      }
      var record := links[token];
      links := links - {token};
      if t1 > record.expiresAt { return None; }
      if session.None? { return None; }
      sessions := sessions[session.value := Grant(record.houseId, t2 + settings.sessionTTL)];
      return Some((record.houseId, session.value));
    }

    method HouseID(now: int, session: string) returns (houseId: Option<string>)
      modifies this
      ensures Contents() == Step(settings, old(Contents()), Look(now))
      ensures houseId == HouseOf(Contents(), session)
    {
      Cleanup(now);
      if session !in sessions { return None; }
      return Some(sessions[session].houseId);
    }
  }
}
