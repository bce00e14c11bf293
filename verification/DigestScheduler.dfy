/** One tick of the digest scheduler is a run of the digest's events. */
module DigestScheduler {
  import opened Text
  import opened PolicyTypes
  import opened ConfigTypes
  import opened DigestReport
  import opened Digest
  import opened DigestRuns

  /** What reaches the store beside the scheduler: an observation, or the deletion of a house. */
  datatype Arrival = Seen(observation: Observation) | Deleted(houseId: string, ids: set<string>, writable: bool)

  /** What happens around one house's turn: what arrives before it and while its report is being mailed, whether the
      mail goes out, and whether the file can then be written. */
  datatype Mailing = Mailing(before: seq<Arrival>, during: seq<Arrival>, delivered: bool, writable: bool)

  function ProfilesOf(profiles: seq<Profile>, houseId: string): set<string> {
    set p | p in profiles && p.houseId == houseId :: p.id
  }

  function EventOf(a: Arrival): Event {
    match a
    case Seen(observation) => Write(observation)
    case Deleted(houseId, ids, _) => Forget(houseId, ids)
  }

  function Arrivals(arrivals: seq<Arrival>): seq<Event> {
    if arrivals == [] then []
    else Arrivals(arrivals[..|arrivals| - 1]) + [EventOf(arrivals[|arrivals| - 1])]
  }

  lemma ArrivalsSnoc(arrivals: seq<Arrival>, i: nat)
    requires i <= |arrivals|
    ensures Arrivals(arrivals[..0]) == []
    ensures i < |arrivals| ==> Arrivals(arrivals[..i + 1]) == Arrivals(arrivals[..i]) + [EventOf(arrivals[i])]
  {
    if i < |arrivals| {
      assert arrivals[..i + 1][..i] == arrivals[..i];
    }
  }

  /** The state in which the check of a house leaves the store. */
  function Taken(st: System, interval: int, now: int, house: House, ids: set<string>, mailing: Mailing): System {
    Checked(interval, After(interval, st, Arrivals(mailing.before)), house.id, house.email, ids, now)
  }

  /** The events of a tick for one house. */
  function HouseEvents(st: System, interval: int, now: int, house: House, ids: set<string>,
                       mailing: Mailing): seq<Event> {
    Arrivals(mailing.before) + ([Check(house.id, house.email, ids, now)]
    + if Taken(st, interval, now, house, ids, mailing).flight.None? then []
      else Arrivals(mailing.during) + [if mailing.delivered then Sent else SendFailed])
  }

  /** A report is mailed exactly when a flight has been taken, and it lists the counters taken. */
  ghost predicate Mailed(report: Option<seq<CategoryDigest>>, taken: System) {
    && (report.Some? <==> taken.flight.Some?)
    && (report.Some? ==> Summarises(report.value, taken.flight.value.taken, taken.flight.value.taken.Keys))
  }

  /** The events of a tick for the first `n` houses. */
  function TickEvents(st: System, interval: int, now: int, houses: seq<House>, profiles: seq<Profile>,
                      mailings: seq<Mailing>, n: nat): seq<Event>
    requires n <= |houses| <= |mailings|
  {
    if n == 0 then []
    else
      var before := TickEvents(st, interval, now, houses, profiles, mailings, n - 1);
      var house := houses[n - 1];
      before + HouseEvents(After(interval, st, before), interval, now, house, ProfilesOf(profiles, house.id),
                           mailings[n - 1])
  }

  lemma {:induction false} AfterConcat(interval: int, st: System, a: seq<Event>, b: seq<Event>)
    ensures After(interval, st, a + b) == After(interval, After(interval, st, a), b)
    decreases |b|
  {
    if b == [] {
      assert a + b == a;
    } else {
      AfterConcat(interval, st, a, b[..|b| - 1]);
      assert (a + b)[..|a + b| - 1] == a + b[..|b| - 1];
    }
  }

  lemma AfterOne(interval: int, st: System, e: Event)
    ensures After(interval, st, [e]) == Step(interval, st, e)
  {
    assert [e][..0] == [];
    assert After(interval, st, []) == st;
  }

  lemma AfterNone(interval: int, st: System)
    ensures After(interval, st, []) == st
  {
  }

  /** The states of a run are what its events lead to. */
  lemma {:induction false} RunsAreAfter(interval: int, events: seq<Event>, states: seq<System>, n: nat)
    requires Behaviour(interval, events, states) && n <= |events|
    ensures states[n] == After(interval, EMPTY, events[..n])
  {
    if n > 0 {
      RunsAreAfter(interval, events, states, n - 1);
      assert Stepped(interval, events, states, n - 1);
      assert events[..n][..n - 1] == events[..n - 1];
    }
  }

  class Scheduler {
    const store: Store
    const interval: int

    constructor (store: Store, interval: int)
      ensures this.store == store && this.interval == interval
    {
      this.store, this.interval := store, interval;
    }

    static method ProfileIDsForHouse(profiles: seq<Profile>, houseId: string) returns (ids: seq<string>)
      ensures (set id | id in ids) == ProfilesOf(profiles, houseId)
    {
      ids := [];
      for i := 0 to |profiles|
        invariant forall id :: id in ids <==> exists p :: p in profiles[..i] && p.houseId == houseId && p.id == id
      {
        if profiles[i].houseId == houseId { ids := ids + [profiles[i].id]; }
      }
      assert profiles[..|profiles|] == profiles;
    }

    /** The writes of the gateway and the deletions of the control plane while the scheduler does something else. */
    method Arrive(arrivals: seq<Arrival>, ghost flight: Option<Flight>)
      modifies store
      ensures System(store.entries, store.lastSentAt, flight) ==
              After(interval, System(old(store.entries), old(store.lastSentAt), flight), Arrivals(arrivals))
    {
      hide After, Arrivals, Written, Without, Recorded;
      ghost var first := System(store.entries, store.lastSentAt, flight);
      AfterNone(interval, first);
      ArrivalsSnoc(arrivals, 0);
      for i := 0 to |arrivals|
        invariant System(store.entries, store.lastSentAt, flight) == After(interval, first, Arrivals(arrivals[..i]))
      {
        var a := arrivals[i];
        ArrivalsSnoc(arrivals, i);
        AfterConcat(interval, first, Arrivals(arrivals[..i]), [EventOf(a)]);
        AfterOne(interval, System(store.entries, store.lastSentAt, flight), EventOf(a));
        match a {
          case Seen(observation) => store.Write(observation);
          case Deleted(houseId, ids, writable) => var saved := store.Forget(houseId, ids, writable);
        }
      }
      assert arrivals[..|arrivals|] == arrivals;
    }

    /** One house of a tick; the report is what is mailed to it. */
    method CheckHouse(now: int, house: House, profiles: seq<Profile>, mailing: Mailing)
      returns (report: Option<seq<CategoryDigest>>)
      modifies store
      ensures var first, ids := System(old(store.entries), old(store.lastSentAt), None), ProfilesOf(profiles, house.id);
              && System(store.entries, store.lastSentAt, None) ==
                 After(interval, first, HouseEvents(first, interval, now, house, ids, mailing))
              && Mailed(report, Taken(first, interval, now, house, ids, mailing))
    {
      hide After, Arrivals, ProfilesOf, Summarises, Chosen, Due, Without;
      ghost var first := System(store.entries, store.lastSentAt, None);
      Arrive(mailing.before, None);
      ghost var check := Check(house.id, house.email, ProfilesOf(profiles, house.id), now);
      ghost var outcome := if mailing.delivered then Sent else SendFailed;
      HouseTurn(interval, first, mailing, check, outcome);
      if house.email == "" { return None; }
      var due := store.IsDue(house.id, now, interval);
      if !due { return None; }
      var ids := ProfileIDsForHouse(profiles, house.id);
      var wanted := set id | id in ids;
      var list := store.Digest(wanted);
      SummarisesChosen(list, store.entries, wanted);
      Arrive(mailing.during, Some(Flight(house.id, wanted, now, Chosen(store.entries, wanted))));
      if mailing.delivered {
        var saved := store.CompleteDigest(house.id, wanted, now, mailing.writable);
      }
      return Some(list);
    }

    /** One tick: every house that has an address and is due gets its report. */
    method CheckAndSend(now: int, houses: seq<House>, profiles: seq<Profile>, mailings: seq<Mailing>)
      returns (reports: seq<Option<seq<CategoryDigest>>>)
      requires |houses| <= |mailings|
      modifies store
      ensures var first := System(old(store.entries), old(store.lastSentAt), None);
              && System(store.entries, store.lastSentAt, None) ==
                 After(interval, first, TickEvents(first, interval, now, houses, profiles, mailings, |houses|))
              && |reports| == |houses|
              && forall i | 0 <= i < |houses| ::
                   Mailed(reports[i], TurnAt(first, interval, now, houses, profiles, mailings, i))
    {
      hide After, Mailed, HouseEvents, Taken, ProfilesOf;
      ghost var first := System(store.entries, store.lastSentAt, None);
      AfterNone(interval, first);
      reports := [];
      for i := 0 to |houses|
        invariant System(store.entries, store.lastSentAt, None) ==
                  After(interval, first, TickEvents(first, interval, now, houses, profiles, mailings, i))
        invariant |reports| == i
        invariant forall k | 0 <= k < i ::
                  Mailed(reports[k], TurnAt(first, interval, now, houses, profiles, mailings, k))
      {
        ghost var before := TickEvents(first, interval, now, houses, profiles, mailings, i);
        ghost var here := System(store.entries, store.lastSentAt, None);
        AfterConcat(interval, first, before,
                    HouseEvents(here, interval, now, houses[i], ProfilesOf(profiles, houses[i].id), mailings[i]));
        var report := CheckHouse(now, houses[i], profiles, mailings[i]);
        reports := reports + [report];
      }
    }
  }

  /** The state after the check of house `i` of a tick. */
  function TurnAt(st: System, interval: int, now: int, houses: seq<House>, profiles: seq<Profile>,
                  mailings: seq<Mailing>, i: nat): System
    requires i < |houses| <= |mailings|
  {
    var before := After(interval, st, TickEvents(st, interval, now, houses, profiles, mailings, i));
    Taken(before, interval, now, houses[i], ProfilesOf(profiles, houses[i].id), mailings[i])
  }

  /** A turn with and without a report: arrivals, check, and then, if a report was taken, arrivals and outcome. */
  lemma HouseTurn(interval: int, st: System, mailing: Mailing, check: Event, outcome: Event)
    ensures var taken := Step(interval, After(interval, st, Arrivals(mailing.before)), check);
            && After(interval, st, Arrivals(mailing.before) + ([check] + [])) == taken
            && After(interval, st, Arrivals(mailing.before) + ([check] + (Arrivals(mailing.during) + [outcome]))) ==
               Step(interval, After(interval, taken, Arrivals(mailing.during)), outcome)
  {
    hide Step;
    var here, rest := After(interval, st, Arrivals(mailing.before)), Arrivals(mailing.during) + [outcome];
    var taken := Step(interval, here, check);
    AfterOne(interval, here, check);
    assert [check] + [] == [check];
    AfterConcat(interval, st, Arrivals(mailing.before), [check] + []);
    AfterConcat(interval, st, Arrivals(mailing.before), [check] + rest);
    AfterConcat(interval, here, [check], rest);
    AfterConcat(interval, taken, Arrivals(mailing.during), [outcome]);
    AfterOne(interval, After(interval, taken, Arrivals(mailing.during)), outcome);
  }
}
