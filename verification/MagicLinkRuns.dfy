/** What holds in every run of the magic-link manager. */
module MagicLinkRuns {
  import opened Text
  import opened MagicLink

  predicate Stepped(s: Settings, events: seq<Event>, states: seq<State>, k: nat)
    requires k < |events| && |states| == |events| + 1
  {
    states[k + 1] == Step(s, states[k], events[k])
  }

  /** A run: `states[k]` is the state after the first `k` events, from the empty state. */
  predicate Behaviour(s: Settings, events: seq<Event>, states: seq<State>) {
    && |states| == |events| + 1 && states[0] == EMPTY
    && forall k | 0 <= k < |events| :: Stepped(s, events, states, k)
  }

  function Tokens(e: Event): set<string> {
    match e
    case Issue(_, _, _, token) => if token.Some? then {token.value} else {}
    case Redeem(_, _, _, _, session) => if session.Some? then {session.value} else {}
    case Look(_) => {}
  }

  /** The tokens generated by the first `k` events. */
  function Used(events: seq<Event>, k: nat): set<string>
    requires k <= |events|
  {
    if k == 0 then {} else Used(events, k - 1) + Tokens(events[k - 1])
  }

  predicate FreshAt(events: seq<Event>, k: nat)
    requires k < |events|
  {
    Tokens(events[k]) !! Used(events, k)
  }

  /** No generated token repeats an earlier one. */
  predicate FreshRun(events: seq<Event>) {
    forall k | 0 <= k < |events| :: FreshAt(events, k)
  }

  function EndTime(e: Event): int {
    match e
    case Issue(_, t1, _, _) => t1
    case Redeem(_, _, t2, _, _) => t2
    case Look(t0) => t0
  }

  /** The clock reading at which the first `k` events have ended. */
  function Clock(events: seq<Event>, k: nat): int
    requires k <= |events| && events != []
  {
    if k == 0 then events[0].t0 else EndTime(events[k - 1])
  }

  predicate OrderedAt(events: seq<Event>, k: nat)
    requires k < |events|
  {
    && Clock(events, k) <= events[k].t0 <= EndTime(events[k])
    && (events[k].Redeem? ==> events[k].t0 <= events[k].t1 <= events[k].t2)
  }

  /** The clock never goes back. */
  predicate Ordered(events: seq<Event>) {
    forall k | 0 <= k < |events| :: OrderedAt(events, k)
  }

  // ---- bounded links, fresh keys -------------------------------------------

  predicate Sound(st: State, used: set<string>) {
    |st.links| <= 10000 && st.links.Keys <= used && st.sessions.Keys <= used
  }

  lemma CleanedSound(st: State, used: set<string>, now: int)
    requires Sound(st, used)
    ensures Sound(Cleaned(st, now), used)
  {
    Smaller(Cleaned(st, now).links.Keys, st.links.Keys);
  }

  lemma ActSound(s: Settings, st: State, used: set<string>, e: Event)
    requires Sound(st, used)
    ensures Sound(Act(s, st, e), used + Tokens(e))
  {
    if e.Redeem? {
      Smaller((st.links - {e.link}).Keys, st.links.Keys);
    }
  }

  lemma NextSound(s: Settings, events: seq<Event>, states: seq<State>, k: nat)
    requires Behaviour(s, events, states) && k < |events| && Sound(states[k], Used(events, k))
    ensures Sound(states[k + 1], Used(events, k + 1))
  {
    assert Stepped(s, events, states, k);
    CleanedSound(states[k], Used(events, k), events[k].t0);
    ActSound(s, Cleaned(states[k], events[k].t0), Used(events, k), events[k]);
  }

  /** In every run at most 10,000 links are pending, and only generated tokens are keys. */
  lemma {:induction false} PendingLinksAreBounded(s: Settings, events: seq<Event>, states: seq<State>, k: nat)
    requires Behaviour(s, events, states) && k <= |events|
    ensures Sound(states[k], Used(events, k))
  {
    hide Step;
    if k > 0 {
      PendingLinksAreBounded(s, events, states, k - 1);
      NextSound(s, events, states, k - 1);
    }
  }

  // ---- a link is redeemed at most once -------------------------------------

  /** The house an event logs in to by redeeming a link. */
  function RedeemedAt(st: State, e: Event): Option<string> {
    if e.Redeem? then Redeems(Cleaned(st, e.t0), e.t1, e.link, e.session) else None
  }

  lemma NextKeepsGone(s: Settings, events: seq<Event>, states: seq<State>, k: nat, link: string)
    requires Behaviour(s, events, states) && FreshRun(events) && k < |events|
    requires link !in states[k].links && link in Used(events, k)
    ensures link !in states[k + 1].links
  {
    assert Stepped(s, events, states, k) && FreshAt(events, k);
    assert events[k].Issue? && events[k].token.Some? ==> events[k].token.value in Tokens(events[k]);
  }

  lemma {:induction false} GoneStaysGone(s: Settings, events: seq<Event>, states: seq<State>, i: nat, k: nat,
                                         link: string)
    requires Behaviour(s, events, states) && FreshRun(events) && i <= k <= |events|
    requires link !in states[i].links && link in Used(events, i)
    ensures link !in states[k].links && link in Used(events, k)
  {
    if i < k {
      GoneStaysGone(s, events, states, i, k - 1, link);
      NextKeepsGone(s, events, states, k - 1, link);
    }
  }

  lemma RedeemRemoves(s: Settings, events: seq<Event>, states: seq<State>, i: nat)
    requires Behaviour(s, events, states) && i < |events| && RedeemedAt(states[i], events[i]).Some?
    ensures events[i].link in states[i].links && events[i].link !in states[i + 1].links
  {
    assert Stepped(s, events, states, i);
  }

  /** A link that was redeemed is never redeemed again. */
  lemma RedeemedAtMostOnce(s: Settings, events: seq<Event>, states: seq<State>, i: nat, j: nat)
    requires Behaviour(s, events, states) && FreshRun(events) && i < j < |events|
    requires RedeemedAt(states[i], events[i]).Some? && events[j].Redeem? && events[j].link == events[i].link
    ensures RedeemedAt(states[j], events[j]).None?
  {
    PendingLinksAreBounded(s, events, states, i);
    RedeemRemoves(s, events, states, i);
    GoneStaysGone(s, events, states, i + 1, j, events[i].link);
  }

  // ---- links keep what they were issued for --------------------------------

  /** Event `j` issued the link, with that house and expiry. */
  predicate IssuedBy(s: Settings, events: seq<Event>, j: nat, link: string, g: Grant)
    requires j < |events|
  {
    events[j].Issue? && events[j].token == Some(link) && g == Grant(events[j].houseId, events[j].t1 + s.linkTTL)
  }

  ghost predicate HasOrigin(s: Settings, events: seq<Event>, k: nat, link: string, g: Grant)
    requires k <= |events|
  {
    exists j | 0 <= j < k :: IssuedBy(s, events, j, link, g)
  }

  ghost predicate AllOrigins(s: Settings, events: seq<Event>, k: nat, links: map<string, Grant>)
    requires k <= |events|
  {
    forall l | l in links :: HasOrigin(s, events, k, l, links[l])
  }

  lemma NextOrigin(s: Settings, events: seq<Event>, states: seq<State>, k: nat)
    requires Behaviour(s, events, states) && k < |events|
    requires AllOrigins(s, events, k, states[k].links)
    ensures AllOrigins(s, events, k + 1, states[k + 1].links)
  {
    assert Stepped(s, events, states, k);
    var before, after := states[k].links, states[k + 1].links;
    forall l | l in after
      ensures HasOrigin(s, events, k + 1, l, after[l])
    {
      if l in before && before[l] == after[l] {
        assert HasOrigin(s, events, k, l, before[l]);
        var j :| 0 <= j < k && IssuedBy(s, events, j, l, before[l]);
      } else {
        assert IssuedBy(s, events, k, l, after[l]);
      }
    }
  }

  lemma {:induction false} LinksHaveOrigins(s: Settings, events: seq<Event>, states: seq<State>, k: nat)
    requires Behaviour(s, events, states) && k <= |events|
    ensures AllOrigins(s, events, k, states[k].links)
  {
    if k > 0 {
      LinksHaveOrigins(s, events, states, k - 1);
      NextOrigin(s, events, states, k - 1);
    }
  }

  /** A successful redemption logs in to the house its link was issued for, no later than its expiry. */
  lemma RedemptionHonoursIssue(s: Settings, events: seq<Event>, states: seq<State>, i: nat) returns (j: nat)
    requires Behaviour(s, events, states) && i < |events| && RedeemedAt(states[i], events[i]).Some?
    ensures j < i && events[j].Issue? && events[j].token == Some(events[i].link)
    ensures RedeemedAt(states[i], events[i]) == Some(events[j].houseId)
    ensures events[i].t1 <= events[j].t1 + s.linkTTL
  {
    LinksHaveOrigins(s, events, states, i);
    var g := states[i].links[events[i].link];
    j :| 0 <= j < i && IssuedBy(s, events, j, events[i].link, g);
  }

  // ---- sessions resolve until they expire ----------------------------------

  /** The session is there with that grant, unless the clock is past its expiry and it is gone. */
  predicate Holds(st: State, session: string, g: Grant, now: int) {
    (session in st.sessions && st.sessions[session] == g) || (session !in st.sessions && now > g.expiresAt)
  }

  lemma NextHolds(s: Settings, events: seq<Event>, states: seq<State>, k: nat, session: string, g: Grant)
    requires Behaviour(s, events, states) && FreshRun(events) && Ordered(events) && k < |events|
    requires session in Used(events, k) && Holds(states[k], session, g, Clock(events, k))
    ensures Holds(states[k + 1], session, g, Clock(events, k + 1))
  {
    assert Stepped(s, events, states, k) && FreshAt(events, k) && OrderedAt(events, k);
    assert events[k].Redeem? && events[k].session.Some? ==> events[k].session.value in Tokens(events[k]);
  }

  lemma {:induction false} HoldsOn(s: Settings, events: seq<Event>, states: seq<State>, i: nat, k: nat,
                                   session: string, g: Grant)
    requires Behaviour(s, events, states) && FreshRun(events) && Ordered(events) && i <= k <= |events| && events != []
    requires session in Used(events, i) && Holds(states[i], session, g, Clock(events, i))
    ensures session in Used(events, k) && Holds(states[k], session, g, Clock(events, k))
  {
    if i < k {
      HoldsOn(s, events, states, i, k - 1, session, g);
      NextHolds(s, events, states, k - 1, session, g);
    }
  }

  lemma RedeemGrants(s: Settings, events: seq<Event>, states: seq<State>, i: nat)
    requires Behaviour(s, events, states) && i < |events| && RedeemedAt(states[i], events[i]).Some?
    ensures events[i].session.Some? && events[i].session.value in Used(events, i + 1)
    ensures Holds(states[i + 1], events[i].session.value,
                  Grant(RedeemedAt(states[i], events[i]).value, events[i].t2 + s.sessionTTL), Clock(events, i + 1))
  {
    assert Stepped(s, events, states, i);
  }

  /** The session a redemption yields resolves to its house until the session's expiry and never after,
      at every later instant of the run. */
  lemma SessionResolvesUntilExpiry(s: Settings, events: seq<Event>, states: seq<State>, i: nat, now: int)
    requires Behaviour(s, events, states) && FreshRun(events) && Ordered(events) && i < |events|
    requires RedeemedAt(states[i], events[i]).Some? && Clock(events, |events|) <= now
    ensures HouseOf(Cleaned(states[|events|], now), events[i].session.value) ==
            if now <= events[i].t2 + s.sessionTTL then RedeemedAt(states[i], events[i]) else None
  {
    RedeemGrants(s, events, states, i);
    HoldsOn(s, events, states, i + 1, |events|, events[i].session.value,
            Grant(RedeemedAt(states[i], events[i]).value, events[i].t2 + s.sessionTTL));
  }

  // ---- links are redeemed until they expire ----------------------------------

  /** Event `j` issues a link. */
  predicate Issues(events: seq<Event>, states: seq<State>, j: int) {
    && 0 <= j < |events| && j < |states| && events[j].Issue? && events[j].token.Some?
    && |Cleaned(states[j], events[j].t0).links| < 10000
  }

  predicate Tries(e: Event, link: string) {
    e.Redeem? && e.link == link
  }

  /** No event between `j` and `k` tries to redeem the link. */
  ghost predicate Untried(events: seq<Event>, j: int, k: int, link: string) {
    forall i | 0 <= j < i < k <= |events| :: !Tries(events[i], link)
  }

  /** A link after `k` events: there for its house while no one has tried it, gone once someone has, and at the latest
      when its life, counted from its issue, is over. */
  ghost predicate LinkHolds(s: Settings, events: seq<Event>, states: seq<State>, j: int, k: int)
    requires Issues(events, states, j) && 0 < k <= |events| && k < |states|
  {
    var link := events[j].token.value;
    if link in states[k].links
    then states[k].links[link] == Grant(events[j].houseId, events[j].t1 + s.linkTTL) && Untried(events, j, k, link)
    else Untried(events, j, k, link) ==> Clock(events, k) > events[j].t1 + s.linkTTL
  }

  lemma LinkStarts(s: Settings, events: seq<Event>, states: seq<State>, j: nat)
    requires Behaviour(s, events, states) && Issues(events, states, j)
    ensures LinkHolds(s, events, states, j, j + 1) && events[j].token.value in Used(events, j + 1)
  {
    assert Stepped(s, events, states, j);
  }

  /** What an event makes of a link that was issued before it. */
  lemma StepOnLink(s: Settings, st: State, used: set<string>, e: Event, link: string)
    requires link in used && Tokens(e) !! used
    ensures var next := Step(s, st, e);
            && (link in next.links <==> link in st.links && e.t0 <= st.links[link].expiresAt && !Tries(e, link))
            && (link in next.links ==> next.links[link] == st.links[link])
  {
    assert e.Issue? && e.token.Some? ==> e.token.value in Tokens(e);
  }

  lemma UntriedOn(events: seq<Event>, j: nat, k: nat, link: string)
    requires j < k < |events|
    ensures Untried(events, j, k + 1, link) <==> Untried(events, j, k, link) && !Tries(events[k], link)
  {
  }

  lemma NextLinkHolds(s: Settings, events: seq<Event>, states: seq<State>, j: nat, k: nat)
    requires Behaviour(s, events, states) && FreshRun(events) && Ordered(events)
    requires Issues(events, states, j) && j < k < |events| && LinkHolds(s, events, states, j, k)
    requires events[j].token.value in Used(events, k)
    ensures LinkHolds(s, events, states, j, k + 1)
  {
    hide Step, Untried, Tries, Cleaned;
    assert Stepped(s, events, states, k) && FreshAt(events, k) && OrderedAt(events, k);
    StepOnLink(s, states[k], Used(events, k), events[k], events[j].token.value);
    UntriedOn(events, j, k, events[j].token.value);
  }

  lemma {:induction false} LinkHoldsOn(s: Settings, events: seq<Event>, states: seq<State>, j: nat, k: nat)
    requires Behaviour(s, events, states) && FreshRun(events) && Ordered(events)
    requires Issues(events, states, j) && j < k <= |events|
    ensures LinkHolds(s, events, states, j, k) && events[j].token.value in Used(events, k)
  {
    hide LinkHolds, Issues;
    if k == j + 1 {
      LinkStarts(s, events, states, j);
    } else {
      LinkHoldsOn(s, events, states, j, k - 1);
      NextLinkHolds(s, events, states, j, k - 1);
    }
  }

  /** A link that was issued logs in to its house exactly when it is tried for the first time, no later than its
      expiry, and a session token can be drawn. */
  lemma RedeemedExactly(s: Settings, events: seq<Event>, states: seq<State>, j: nat, i: nat)
    requires Behaviour(s, events, states) && FreshRun(events) && Ordered(events)
    requires Issues(events, states, j) && j < i < |events| && Tries(events[i], events[j].token.value)
    ensures RedeemedAt(states[i], events[i]) ==
            if Untried(events, j, i, events[j].token.value) && events[i].t1 <= events[j].t1 + s.linkTTL
               && events[i].session.Some?
            then Some(events[j].houseId) else None
  {
    hide Untried;
    LinkHoldsOn(s, events, states, j, i);
    assert OrderedAt(events, i);
  }
}
