/** When a house gets its digest, from the events of a run alone. */
module DigestCadence {
  import opened Text
  import opened PolicyTypes
  import opened ConfigTypes
  import opened Digest
  import opened DigestRuns
  import opened DigestScheduler

  // ---- the last digest of a house --------------------------------------------

  predicate CompletesAt(events: seq<Event>, states: seq<System>, m: int, houseId: string) {
    0 <= m < |events| && |states| == |events| + 1 && Completes(events, states, m, houseId)
  }

  predicate ForgetsAt(events: seq<Event>, m: int, houseId: string) {
    0 <= m < |events| && events[m].Forget? && events[m].houseId == houseId
  }

  /** Event `j` completed the last digest of the house before event `k`, and the house was not forgotten since. */
  ghost predicate LastDigest(events: seq<Event>, states: seq<System>, j: int, k: int, houseId: string) {
    && 0 <= j < k && CompletesAt(events, states, j, houseId)
    && forall m | j < m < k :: !CompletesAt(events, states, m, houseId) && !ForgetsAt(events, m, houseId)
  }

  /** Before event `k` no digest of the house was completed since it was last forgotten. */
  ghost predicate NoDigest(events: seq<Event>, states: seq<System>, k: int, houseId: string) {
    forall m | 0 <= m < k && CompletesAt(events, states, m, houseId) ::
      exists f | m < f < k :: ForgetsAt(events, f, houseId)
  }

  /** At an instant a house is owed a digest: it has had none, or the check that took its last one lies at least the
      interval back. */
  ghost predicate Owed(interval: int, events: seq<Event>, states: seq<System>, k: int, houseId: string, now: int) {
    || NoDigest(events, states, k, houseId)
    || exists j :: LastDigest(events, states, j, k, houseId) && now - states[j].flight.value.now >= interval
  }

  /** What the store remembers of a house after `k` events. */
  ghost predicate Remembers(events: seq<Event>, states: seq<System>, k: int, houseId: string)
    requires 0 <= k < |states|
  {
    if houseId in states[k].lastSentAt
    then exists j :: LastDigest(events, states, j, k, houseId)
                     && states[j].flight.value.now == states[k].lastSentAt[houseId]
    else NoDigest(events, states, k, houseId)
  }

  lemma NextRemembers(interval: int, events: seq<Event>, states: seq<System>, k: nat, houseId: string)
    requires Behaviour(interval, events, states) && k < |events| && Remembers(events, states, k, houseId)
    ensures Remembers(events, states, k + 1, houseId)
  {
    hide Checked, Written, Without;
    assert Stepped(interval, events, states, k);
    RememberedStep(interval, states[k], events[k], houseId);
    if CompletesAt(events, states, k, houseId) {
      assert LastDigest(events, states, k, k + 1, houseId);
    } else if ForgetsAt(events, k, houseId) {
      assert NoDigest(events, states, k + 1, houseId);
    } else if houseId in states[k].lastSentAt {
      var j :| LastDigest(events, states, j, k, houseId)
               && states[j].flight.value.now == states[k].lastSentAt[houseId];
      assert LastDigest(events, states, j, k + 1, houseId);
    } else {
      StillNoDigest(events, states, k, houseId);
    }
  }

  lemma StillNoDigest(events: seq<Event>, states: seq<System>, k: nat, houseId: string)
    requires NoDigest(events, states, k, houseId) && !CompletesAt(events, states, k, houseId)
    ensures NoDigest(events, states, k + 1, houseId)
  {
    forall m | 0 <= m < k + 1 && CompletesAt(events, states, m, houseId)
      ensures exists f | m < f < k + 1 :: ForgetsAt(events, f, houseId)
    {
      var f :| m < f < k && ForgetsAt(events, f, houseId);
    }
  }

  /** What one event makes of the time of a house's last digest. */
  lemma RememberedStep(interval: int, st: System, e: Event, houseId: string)
    ensures var next := Step(interval, st, e);
            if e.Sent? && st.flight.Some? && st.flight.value.houseId == houseId
            then houseId in next.lastSentAt && next.lastSentAt[houseId] == st.flight.value.now
            else if e.Forget? && e.houseId == houseId then houseId !in next.lastSentAt
            else (houseId in next.lastSentAt <==> houseId in st.lastSentAt)
                 && (houseId in st.lastSentAt ==> next.lastSentAt[houseId] == st.lastSentAt[houseId])
  {
  }

  lemma {:induction false} AlwaysRemembers(interval: int, events: seq<Event>, states: seq<System>, k: nat,
                                           houseId: string)
    requires Behaviour(interval, events, states) && k <= |events|
    ensures Remembers(events, states, k, houseId)
  {
    hide Remembers;
    if k == 0 {
      NothingRemembered(events, states, houseId);
    } else {
      AlwaysRemembers(interval, events, states, k - 1, houseId);
      NextRemembers(interval, events, states, k - 1, houseId);
    }
  }

  lemma NothingRemembered(events: seq<Event>, states: seq<System>, houseId: string)
    requires |states| > 0 && states[0] == EMPTY
    ensures Remembers(events, states, 0, houseId)
  {
  }

  lemma OneLastDigest(events: seq<Event>, states: seq<System>, i: int, j: int, k: int, houseId: string)
    requires LastDigest(events, states, i, k, houseId) && LastDigest(events, states, j, k, houseId)
    ensures i == j
  {
  }

  lemma DueExactly(interval: int, events: seq<Event>, states: seq<System>, k: nat, houseId: string, now: int)
    requires Behaviour(interval, events, states) && k <= |events|
    ensures Due(states[k].lastSentAt, houseId, now, interval) <==> Owed(interval, events, states, k, houseId, now)
  {
    hide Stepped;
    AlwaysRemembers(interval, events, states, k, houseId);
    if houseId in states[k].lastSentAt {
      var j :| LastDigest(events, states, j, k, houseId)
               && states[j].flight.value.now == states[k].lastSentAt[houseId];
      LastMeansSome(events, states, j, k, houseId);
      forall i | LastDigest(events, states, i, k, houseId)
        ensures i == j
      {
        OneLastDigest(events, states, i, j, k, houseId);
      }
    }
  }

  lemma LastMeansSome(events: seq<Event>, states: seq<System>, j: int, k: int, houseId: string)
    requires LastDigest(events, states, j, k, houseId)
    ensures !NoDigest(events, states, k, houseId) && |states| == |events| + 1 && j < |events| && states[j].flight.Some?
  {
  }

  // ---- checks and ticks ----------------------------------------------------------

  /** A check takes a report exactly when none is being sent, the house has an address, and it is owed a digest; the
      report then holds the house's counters as they are. */
  lemma CheckTakesExactly(interval: int, events: seq<Event>, states: seq<System>, k: nat)
    requires Behaviour(interval, events, states) && k < |events| && events[k].Check?
    ensures states[k].flight.None? && states[k + 1].flight.Some? <==>
            && states[k].flight.None? && events[k].email != ""
            && Owed(interval, events, states, k, events[k].houseId, events[k].now)
    ensures states[k].flight.None? && states[k + 1].flight.Some? ==>
              var e, f := events[k], states[k + 1].flight.value;
              && f.houseId == e.houseId && f.ids == e.ids && f.now == e.now
              && (forall c :: c in f.taken <==> c in states[k].entries && c.profileId in e.ids)
              && forall c | c in f.taken :: f.taken[c] == states[k].entries[c]
  {
    hide Owed, Due;
    assert Stepped(interval, events, states, k);
    DueExactly(interval, events, states, k, events[k].houseId, events[k].now);
  }

  /** The states a run goes through. */
  ghost function Path(interval: int, events: seq<Event>): (states: seq<System>)
    ensures |states| == |events| + 1
    ensures forall k | 0 <= k <= |events| :: states[k] == After(interval, EMPTY, events[..k])
  {
    seq(|events| + 1, k requires 0 <= k <= |events| => After(interval, EMPTY, events[..k]))
  }

  lemma PathIsRun(interval: int, events: seq<Event>)
    ensures Behaviour(interval, events, Path(interval, events))
    ensures Path(interval, events)[|events|] == After(interval, EMPTY, events)
  {
    hide Step;
    var states := Path(interval, events);
    forall k | 0 <= k < |events|
      ensures Stepped(interval, events, states, k)
    {
      assert events[..k + 1][..k] == events[..k];
    }
    assert events[..|events|] == events;
  }

  lemma ArrivalsKeepFlight(interval: int, st: System, arrivals: seq<Arrival>)
    ensures After(interval, st, Arrivals(arrivals)).flight == st.flight
  {
    if arrivals != [] {
      var n := |arrivals| - 1;
      ArrivalsKeepFlight(interval, st, arrivals[..n]);
      assert Arrivals(arrivals)[..|Arrivals(arrivals[..n])|] == Arrivals(arrivals[..n]);
    }
  }

  lemma HouseLands(interval: int, st: System, now: int, house: House, ids: set<string>, mailing: Mailing)
    requires st.flight.None?
    ensures After(interval, st, HouseEvents(st, interval, now, house, ids, mailing)).flight.None?
  {
    hide After, Arrivals, Checked;
    var check := Check(house.id, house.email, ids, now);
    var taken := Taken(st, interval, now, house, ids, mailing);
    HouseTurn(interval, st, mailing, check, if mailing.delivered then Sent else SendFailed);
  }

  lemma {:induction false} TickLands(interval: int, st: System, now: int, houses: seq<House>, profiles: seq<Profile>,
                                     mailings: seq<Mailing>, n: nat)
    requires st.flight.None? && n <= |houses| <= |mailings|
    ensures After(interval, st, TickEvents(st, interval, now, houses, profiles, mailings, n)).flight.None?
  {
    hide After, HouseEvents, ProfilesOf;
    if n == 0 {
      AfterNone(interval, st);
    } else {
      TickLands(interval, st, now, houses, profiles, mailings, n - 1);
      var before := TickEvents(st, interval, now, houses, profiles, mailings, n - 1);
      var house, here := houses[n - 1], After(interval, st, before);
      var ids := ProfilesOf(profiles, house.id);
      AfterConcat(interval, st, before, HouseEvents(here, interval, now, house, ids, mailings[n - 1]));
      HouseLands(interval, here, now, house, ids, mailings[n - 1]);
    }
  }

  /** What has happened when a tick comes to check house `i`: all before the tick, the houses before it, and what
      arrived before its turn. */
  ghost function Before(history: seq<Event>, interval: int, now: int, houses: seq<House>, profiles: seq<Profile>,
                        mailings: seq<Mailing>, i: nat): seq<Event>
    requires i < |houses| <= |mailings|
  {
    history + TickEvents(After(interval, EMPTY, history), interval, now, houses, profiles, mailings, i)
    + Arrivals(mailings[i].before)
  }

  /** In a tick that finds no report being sent, a house is mailed a report exactly when it has an address and is owed a
      digest at the tick's instant, by all that has happened until its turn. */
  lemma TickMailsExactly(history: seq<Event>, interval: int, now: int, houses: seq<House>, profiles: seq<Profile>,
                         mailings: seq<Mailing>, i: nat)
    requires After(interval, EMPTY, history).flight.None? && i < |houses| <= |mailings|
    ensures var events := Before(history, interval, now, houses, profiles, mailings, i);
            TurnAt(After(interval, EMPTY, history), interval, now, houses, profiles, mailings, i).flight.Some? <==>
            && houses[i].email != ""
            && Owed(interval, events, Path(interval, events), |events|, houses[i].id, now)
    ensures var taken := TurnAt(After(interval, EMPTY, history), interval, now, houses, profiles, mailings, i).flight;
            taken.Some? ==>
              && taken.value.houseId == houses[i].id && taken.value.now == now
              && forall id :: id in taken.value.ids <==>
                   exists k :: 0 <= k < |profiles| && profiles[k].houseId == houses[i].id && profiles[k].id == id
  {
    hide After, TickEvents, Arrivals, Due, Owed, Path;
    var first := After(interval, EMPTY, history);
    var tick := TickEvents(first, interval, now, houses, profiles, mailings, i);
    var events := Before(history, interval, now, houses, profiles, mailings, i);
    TickLands(interval, first, now, houses, profiles, mailings, i);
    AfterConcat(interval, EMPTY, history, tick);
    AfterConcat(interval, EMPTY, history + tick, Arrivals(mailings[i].before));
    ArrivalsKeepFlight(interval, After(interval, first, tick), mailings[i].before);
    PathIsRun(interval, events);
    DueExactly(interval, events, Path(interval, events), |events|, houses[i].id, now);
  }

  // ---- how a turn ends --------------------------------------------------------------

  /** What a house's turn leaves, its report taken or not: after the arrivals before the turn and those while a report
      was being mailed, a delivered report has its counters removed and the instant of the tick remembered. */
  lemma TurnEnds(interval: int, st: System, now: int, house: House, ids: set<string>, mailing: Mailing)
    requires st.flight.None?
    ensures var taken := Taken(st, interval, now, house, ids, mailing);
            var sent := taken.flight.Some? && mailing.delivered;
            var here := After(interval, taken, Arrivals(if taken.flight.Some? then mailing.during else []));
            var next := After(interval, st, HouseEvents(st, interval, now, house, ids, mailing));
            && (forall c :: c in next.entries <==> c in here.entries && !(sent && c.profileId in ids))
            && (forall c | c in next.entries :: next.entries[c] == here.entries[c])
            && next.lastSentAt == (if sent then here.lastSentAt[house.id := now] else here.lastSentAt)
            && next.flight == None
  {
    hide After, Arrivals, Written, Due, Chosen;
    var check := Check(house.id, house.email, ids, now);
    var taken := Taken(st, interval, now, house, ids, mailing);
    HouseTurn(interval, st, mailing, check, if mailing.delivered then Sent else SendFailed);
    ArrivalsKeepFlight(interval, st, mailing.before);
    ArrivalsKeepFlight(interval, taken, mailing.during);
    ArrivalsSnoc([], 0);
    AfterNone(interval, taken);
    assert mailing.during[..0] == [];
  }
}
