/** Exactly which recorded observations are never reported. */
module DigestLosses {
  import opened Text
  import opened Digest
  import opened DigestRuns

  /** A report on the profile is being mailed. */
  predicate Covers(st: System, profileId: string) {
    st.flight.Some? && profileId in st.flight.value.ids
  }

  /** The event is a check that takes a report. */
  predicate Takes(interval: int, st: System, e: Event) {
    e.Check? && st.flight.None? && Step(interval, st, e).flight.Some?
  }

  /** The event deletes the profile's counters. */
  predicate Clears(e: Event, profileId: string) {
    e.Forget? && profileId in e.ids
  }

  /** After how many of the first `n` events a report was last taken or the profile's counters were last deleted. */
  function Since(interval: int, events: seq<Event>, states: seq<System>, n: nat, profileId: string): (m: nat)
    requires n <= |events| && |states| == |events| + 1
    ensures m <= n
  {
    if n == 0 then 0
    else if Takes(interval, states[n - 1], events[n - 1]) || Clears(events[n - 1], profileId) then n
    else Since(interval, events, states, n - 1, profileId)
  }

  /** The profile's counters were deleted after the last report was taken. */
  predicate Cut(interval: int, events: seq<Event>, states: seq<System>, n: nat, profileId: string)
    requires n <= |events| && |states| == |events| + 1
  {
    n > 0 && !Takes(interval, states[n - 1], events[n - 1])
    && (Clears(events[n - 1], profileId) || Cut(interval, events, states, n - 1, profileId))
  }

  /** How many observations of `k` were recorded since then. */
  function Recent(interval: int, events: seq<Event>, states: seq<System>, n: nat, k: Key): int
    requires n <= |events| && |states| == |events| + 1
  {
    Recordings(events, n, k) - Recordings(events, Since(interval, events, states, n, k.profileId), k)
  }

  /** How many observations of `k` an event loses: mail that goes out clears those recorded while it was under way, a
      deletion clears those not in a report, and mail that fails drops a report whose counters were deleted. */
  function Loss(st: System, e: Event, recent: int, cut: bool, k: Key): int {
    match e
    case Sent => if Covers(st, k.profileId) then recent else 0
    case SendFailed => if Covers(st, k.profileId) && cut then InFlight(st, k) else 0
    case Forget(_, ids) =>
      if k.profileId !in ids then 0 else if Covers(st, k.profileId) then recent else Count(st.entries, k)
    case _ => 0
  }

  function LostAt(interval: int, events: seq<Event>, states: seq<System>, m: nat, k: Key): int
    requires m < |events| && |states| == |events| + 1
  {
    Loss(states[m], events[m], Recent(interval, events, states, m, k), Cut(interval, events, states, m, k.profileId), k)
  }

  /** How many the first `n` events lose. */
  function Lost(interval: int, events: seq<Event>, states: seq<System>, n: nat, k: Key): int
    requires n <= |events| && |states| == |events| + 1
  {
    if n == 0 then 0
    else Lost(interval, events, states, n - 1, k) + LostAt(interval, events, states, n - 1, k)
  }

  // ---- the account -----------------------------------------------------------

  /** While a report on the profile is being mailed, the observations waiting are the recent ones, and those in the
      report are all listed or, after a deletion, all orphaned; otherwise none is in a report. */
  predicate Accounted(st: System, k: Key, t: Tallies, recent: int, cut: bool) {
    if Covers(st, k.profileId) then t.waiting == recent && (if cut then t.listed == 0 else t.orphaned == 0)
    else t.listed == 0 && t.orphaned == 0
  }

  lemma AccountedStep(interval: int, st: System, e: Event, k: Key, t: Tallies, recent: int, cut: bool)
    requires Balanced(st, k, t) && OwnCounters(st, k) && Accounted(st, k, t, recent, cut)
    ensures var moved, noted := Moved(interval, st, e, k.profileId, t), If(NewNotes(e) == [Note(k, Waiting)], 1);
            var takes, clears := Takes(interval, st, e), Clears(e, k.profileId);
            && moved.discarded == t.discarded + Loss(st, e, recent, cut, k)
            && Accounted(Step(interval, st, e), k, moved.(waiting := moved.waiting + noted),
                         if takes || clears then 0 else recent + noted, !takes && (clears || cut))
  {
  }

  lemma AccountedNext(interval: int, events: seq<Event>, states: seq<System>, n: nat, k: Key)
    requires Behaviour(interval, events, states) && n < |events|
    requires Accounted(states[n], k, TalliesAt(interval, events, states, n, k), Recent(interval, events, states, n, k),
                       Cut(interval, events, states, n, k.profileId))
    ensures Accounted(states[n + 1], k, TalliesAt(interval, events, states, n + 1, k),
                      Recent(interval, events, states, n + 1, k), Cut(interval, events, states, n + 1, k.profileId))
    ensures TalliesAt(interval, events, states, n + 1, k).discarded ==
            TalliesAt(interval, events, states, n, k).discarded + LostAt(interval, events, states, n, k)
  {
    hide Accounted, Moved, Balanced, OwnCounters, Step, Takes, Loss;
    assert Stepped(interval, events, states, n);
    StaysBalanced(interval, events, states, n, k);
    AccountedStep(interval, states[n], events[n], k, TalliesAt(interval, events, states, n, k),
                  Recent(interval, events, states, n, k), Cut(interval, events, states, n, k.profileId));
  }

  lemma AccountedStart(interval: int, events: seq<Event>, states: seq<System>, k: Key)
    requires Behaviour(interval, events, states)
    ensures Accounted(states[0], k, TalliesAt(interval, events, states, 0, k), Recent(interval, events, states, 0, k),
                      Cut(interval, events, states, 0, k.profileId))
    ensures TalliesAt(interval, events, states, 0, k).discarded == Lost(interval, events, states, 0, k)
  {
  }

  lemma {:induction false} StaysAccounted(interval: int, events: seq<Event>, states: seq<System>, n: nat, k: Key)
    requires Behaviour(interval, events, states) && n <= |events|
    ensures Accounted(states[n], k, TalliesAt(interval, events, states, n, k), Recent(interval, events, states, n, k),
                      Cut(interval, events, states, n, k.profileId))
    ensures TalliesAt(interval, events, states, n, k).discarded == Lost(interval, events, states, n, k)
  {
    hide Accounted, TalliesAt, Recent, Cut, LostAt, Stepped;
    AccountedStart(interval, events, states, k);
    if n > 0 {
      StaysAccounted(interval, events, states, n - 1, k);
      AccountedNext(interval, events, states, n - 1, k);
    }
  }

  /** In every run, the observations whose fate is to be discarded are exactly those that mail going out, mail failing
      after a deletion, and deletions lose. */
  lemma DiscardedExactly(interval: int, events: seq<Event>, states: seq<System>, n: nat, k: Key)
    requires Behaviour(interval, events, states) && n <= |events|
    ensures TallyAll(Ledger(interval, events, states, n), k, Discarded) == Lost(interval, events, states, n, k)
  {
    TalliesAtIsLedger(interval, events, states, n, k);
    StaysAccounted(interval, events, states, n, k);
  }

  /** Conservation with the losses named: whenever no report is being mailed, the recorded observations are those in the
      store, those in sent reports and those lost. */
  lemma ConservationWithLosses(interval: int, events: seq<Event>, states: seq<System>, n: nat, k: Key)
    requires Behaviour(interval, events, states) && n <= |events| && states[n].flight.None?
    ensures Recordings(events, n, k) ==
            Count(states[n].entries, k) + ReportedCount(events, states, n, k) + Lost(interval, events, states, n, k)
  {
    Conservation(interval, events, states, n, k);
    DiscardedExactly(interval, events, states, n, k);
  }

  /** Nothing is lost exactly when no event of the run loses anything. */
  lemma {:induction false} NothingIsLostExactly(interval: int, events: seq<Event>, states: seq<System>, n: nat, k: Key)
    requires Behaviour(interval, events, states) && n <= |events|
    ensures Lost(interval, events, states, n, k) >= 0
    ensures Lost(interval, events, states, n, k) == 0 <==>
            forall m | 0 <= m < n :: LostAt(interval, events, states, m, k) == 0
  {
    hide LostAt, Accounted, TalliesAt, Recent, Cut;
    StaysAccounted(interval, events, states, n, k);
    if n > 0 {
      NothingIsLostExactly(interval, events, states, n - 1, k);
      StaysAccounted(interval, events, states, n - 1, k);
      NeverRegained(interval, events, states, n - 1, k);
    }
  }

  lemma NeverRegained(interval: int, events: seq<Event>, states: seq<System>, n: nat, k: Key)
    requires n < |events| && |states| == |events| + 1
    ensures TalliesAt(interval, events, states, n + 1, k).discarded >=
            TalliesAt(interval, events, states, n, k).discarded
  {
  }

  lemma {:induction false} NeverCut(interval: int, events: seq<Event>, states: seq<System>, n: nat, profileId: string)
    requires n <= |events| && |states| == |events| + 1
    requires forall m | 0 <= m < n :: !Clears(events[m], profileId)
    ensures !Cut(interval, events, states, n, profileId)
  {
    if n > 0 {
      NeverCut(interval, events, states, n - 1, profileId);
    }
  }

  /** No observation of `k` was recorded between the check and the send of event `m`, a send of its profile's report. */
  predicate QuietSend(interval: int, events: seq<Event>, states: seq<System>, m: nat, k: Key)
    requires m < |events| && |states| == |events| + 1
  {
    events[m].Sent? && Covers(states[m], k.profileId) ==>
      Recordings(events, m, k) == Recordings(events, Since(interval, events, states, m, k.profileId), k)
  }

  /** In a run without deletions of the profile, nothing is lost if and only if nothing is recorded while a report on it
      is mailed that goes out. */
  lemma NothingIsLostOnQuietSends(interval: int, events: seq<Event>, states: seq<System>, n: nat, k: Key)
    requires Behaviour(interval, events, states) && n <= |events|
    requires forall m | 0 <= m < n :: !Clears(events[m], k.profileId)
    ensures Lost(interval, events, states, n, k) == 0 <==>
            forall m | 0 <= m < n :: QuietSend(interval, events, states, m, k)
  {
    hide Cut, Since, Recordings, Lost;
    NothingIsLostExactly(interval, events, states, n, k);
    forall m | 0 <= m < n
      ensures LostAt(interval, events, states, m, k) == 0 <==> QuietSend(interval, events, states, m, k)
    {
      NeverCut(interval, events, states, m, k.profileId);
      assert !Clears(events[m], k.profileId);
    }
  }

  lemma LostNext(interval: int, events: seq<Event>, states: seq<System>, n: nat, k: Key)
    requires n < |events| && |states| == |events| + 1
    ensures Lost(interval, events, states, n + 1, k) ==
            Lost(interval, events, states, n, k) + LostAt(interval, events, states, n, k)
  {
  }

  // ---- one mailing -----------------------------------------------------------

  /** An event that can fall into a mailing without touching the profile's counters or the report. */
  predicate Aside(e: Event, profileId: string) {
    e.Write? || e.Check? || (e.Forget? && profileId !in e.ids)
  }

  lemma {:induction false} MailingGoesOn(interval: int, events: seq<Event>, states: seq<System>, i: nat, j: nat, k: Key)
    requires Behaviour(interval, events, states) && i < j < |events| && Takes(interval, states[i], events[i])
    requires Covers(states[i + 1], k.profileId) && forall m | i < m < j :: Aside(events[m], k.profileId)
    ensures states[j].flight == states[i + 1].flight
    ensures Since(interval, events, states, j, k.profileId) == i + 1
    ensures Lost(interval, events, states, j, k) == Lost(interval, events, states, i, k)
  {
    hide Lost, Recent, Cut;
    LostNext(interval, events, states, j - 1, k);
    if i + 1 < j {
      MailingGoesOn(interval, events, states, i, j - 1, k);
      assert Stepped(interval, events, states, j - 1) && Aside(events[j - 1], k.profileId);
    }
  }

  /** One mailing of a report on the profile, with writes, other checks and deletions of other profiles meanwhile: it
      loses exactly the observations recorded between the check and the send. */
  lemma MailingLosesWhatArrives(interval: int, events: seq<Event>, states: seq<System>, i: nat, j: nat, k: Key)
    requires Behaviour(interval, events, states) && i < j < |events| && Takes(interval, states[i], events[i])
    requires Covers(states[i + 1], k.profileId) && events[j].Sent?
    requires forall m | i < m < j :: Aside(events[m], k.profileId)
    ensures TallyAll(Ledger(interval, events, states, j + 1), k, Discarded) ==
            TallyAll(Ledger(interval, events, states, i), k, Discarded)
            + Recordings(events, j, k) - Recordings(events, i + 1, k)
  {
    hide Lost, Since, Cut, Ledger, TallyAll, Recordings, Takes, Stepped;
    LostNext(interval, events, states, j, k);
    MailingGoesOn(interval, events, states, i, j, k);
    DiscardedExactly(interval, events, states, i, k);
    DiscardedExactly(interval, events, states, j + 1, k);
  }

  /** The shortest such run: a check, an observation, and the mail goes out. The observation is in no report and no
      longer in the store. */
  lemma OneObservationIsLost(interval: int, o: Observation, houseId: string, email: string, ids: set<string>, now: int)
    requires Recorded(o) && o.profileId in ids && email != ""
    ensures var events := [Check(houseId, email, ids, now), Write(o), Sent];
            var taken := EMPTY.(flight := Some(Flight(houseId, ids, now, map[])));
            var written := taken.(entries := Written(map[], o));
            var states := [EMPTY, taken, written, System(map[], map[houseId := now], None)];
            && Behaviour(interval, events, states)
            && Count(states[3].entries, KeyOf(o)) == 0 && ReportedCount(events, states, 3, KeyOf(o)) == 0
            && TallyAll(Ledger(interval, events, states, 3), KeyOf(o), Discarded) == 1
  {
    var events := [Check(houseId, email, ids, now), Write(o), Sent];
    var taken := EMPTY.(flight := Some(Flight(houseId, ids, now, map[])));
    var written := taken.(entries := Written(map[], o));
    var states := [EMPTY, taken, written, System(map[], map[houseId := now], None)];
    var k := KeyOf(o);
    assert Chosen(EMPTY.entries, ids) == map[];
    assert forall x | x in written.entries :: x == k && x.profileId in ids;
    assert Without(written.entries, ids) == map[];
    assert Stepped(interval, events, states, 0) && Stepped(interval, events, states, 1)
           && Stepped(interval, events, states, 2);
    var none := 0;
    assert NewNotes(events[0]) == [] && NewNotes(events[1]) == [Note(k, Waiting)] && NewNotes(events[2]) == [];
    assert Recordings(events, none + 1, k) == Recordings(events, none, k) == 0;
    assert Recordings(events, none + 2, k) == 1;
    assert Recordings(events, none + 3, k) == 1;
    assert ReportedCount(events, states, none, k) == 0;
    assert ReportedCount(events, states, none + 1, k) == 0;
    assert ReportedCount(events, states, none + 2, k) == 0;
    ConservationWithLosses(interval, events, states, 3, k);
    DiscardedExactly(interval, events, states, 3, k);
  }
}
