/** Runs of the digest: observations arrive while the scheduler takes, sends and completes reports. */
module DigestRuns {
  import opened Text
  import opened Digest

  /** A report that was taken and is being sent, with the counters it was built from. */
  datatype Flight = Flight(houseId: string, ids: set<string>, now: int, taken: map<Key, Entry>)

  datatype System = System(entries: map<Key, Entry>, lastSentAt: map<string, int>, flight: Option<Flight>)

  const EMPTY := System(map[], map[], None)

  /** One event; the scheduler handles one house at a time, observations and deletions come at any moment. */
  datatype Event =
    | Write(observation: Observation)
    | Check(houseId: string, email: string, ids: set<string>, now: int)
    | SendFailed
    | Sent
    | Forget(houseId: string, ids: set<string>)

  function Checked(interval: int, st: System, houseId: string, email: string, ids: set<string>, now: int): System {
    if st.flight.Some? || email == "" || !Due(st.lastSentAt, houseId, now, interval) then st
    else st.(flight := Some(Flight(houseId, ids, now, Chosen(st.entries, ids))))
  }

  function Completed(st: System): System {
    match st.flight
    case None => st
    case Some(f) => System(Without(st.entries, f.ids), st.lastSentAt[f.houseId := f.now], None)
  }

  function Step(interval: int, st: System, e: Event): System {
    match e
    case Write(o) => st.(entries := Written(st.entries, o))
    case Check(houseId, email, ids, now) => Checked(interval, st, houseId, email, ids, now)
    case SendFailed => st.(flight := None)
    case Sent => Completed(st)
    case Forget(houseId, ids) => System(Without(st.entries, ids), st.lastSentAt - {houseId}, st.flight)
  }

  /** The state after all of `events`. */
  function After(interval: int, st: System, events: seq<Event>): System {
    if events == [] then st
    else Step(interval, After(interval, st, events[..|events| - 1]), events[|events| - 1])
  }

  predicate Stepped(interval: int, events: seq<Event>, states: seq<System>, k: nat)
    requires k < |events| && |states| == |events| + 1
  {
    states[k + 1] == Step(interval, states[k], events[k])
  }

  /** A run: `states[k]` is the state after the first `k` events, from the empty store. */
  predicate Behaviour(interval: int, events: seq<Event>, states: seq<System>) {
    && |states| == |events| + 1 && states[0] == EMPTY
    && forall k | 0 <= k < |events| :: Stepped(interval, events, states, k)
  }

  // ---- what becomes of an observation --------------------------------------

  /** Waiting in the store; also listed in the report being sent; forgotten by the store but still in that report;
      reported; or discarded without ever being reported. */
  datatype Fate = Waiting | Listed | Orphaned | Reported | Discarded

  datatype Note = Note(key: Key, fate: Fate)

  function NextFate(interval: int, st: System, e: Event, profileId: string, fate: Fate): Fate {
    match e
    case Write(_) => fate
    case Check(_, _, ids, _) =>
      var taken := st.flight.None? && Step(interval, st, e).flight.Some?;
      if taken && profileId in ids && fate == Waiting then Listed else fate
    case SendFailed =>
      if fate == Listed then Waiting else if fate == Orphaned then Discarded else fate
    case Sent =>
      if fate == Listed || fate == Orphaned then Reported
      else if fate == Waiting && st.flight.Some? && profileId in st.flight.value.ids then Discarded
      else fate
    case Forget(_, ids) =>
      if profileId !in ids then fate
      else if fate == Waiting then Discarded
      else if fate == Listed then Orphaned
      else fate
  }

  function Noted(interval: int, st: System, e: Event, notes: seq<Note>, n: nat): seq<Note>
    requires n <= |notes|
  {
    if n == 0 then []
    else
      var note := notes[n - 1];
      Noted(interval, st, e, notes, n - 1) + [note.(fate := NextFate(interval, st, e, note.key.profileId, note.fate))]
  }

  function NewNotes(e: Event): seq<Note> {
    if e.Write? && Recorded(e.observation) then [Note(KeyOf(e.observation), Waiting)] else []
  }

  /** Every recorded observation of the first `n` events with what has become of it. */
  function Ledger(interval: int, events: seq<Event>, states: seq<System>, n: nat): seq<Note>
    requires n <= |events| && |states| == |events| + 1
  {
    if n == 0 then []
    else
      var before := Ledger(interval, events, states, n - 1);
      Noted(interval, states[n - 1], events[n - 1], before, |before|) + NewNotes(events[n - 1])
  }

  /** How many observations of `k` among the first `n` notes met that fate. */
  function Tally(notes: seq<Note>, n: nat, k: Key, fate: Fate): nat
    requires n <= |notes|
  {
    if n == 0 then 0
    else Tally(notes, n - 1, k, fate) + if notes[n - 1] == Note(k, fate) then 1 else 0
  }

  function TallyAll(notes: seq<Note>, k: Key, fate: Fate): nat {
    Tally(notes, |notes|, k, fate)
  }

  /** How many of the first `n` events recorded an observation of `k`. */
  function Recordings(events: seq<Event>, n: nat, k: Key): nat
    requires n <= |events|
  {
    if n == 0 then 0
    else Recordings(events, n - 1, k) + if NewNotes(events[n - 1]) == [Note(k, Waiting)] then 1 else 0
  }

  function InFlight(st: System, k: Key): int {
    if st.flight.Some? then Count(st.flight.value.taken, k) else 0
  }

  /** The counts of `k` in all the reports sent by the first `n` events. */
  function ReportedCount(events: seq<Event>, states: seq<System>, n: nat, k: Key): int
    requires n <= |events| && |states| == |events| + 1
  {
    if n == 0 then 0
    else ReportedCount(events, states, n - 1, k) + if events[n - 1].Sent? then InFlight(states[n - 1], k) else 0
  }

  // ---- tallies ---------------------------------------------------------------

  lemma {:induction false} NotedLength(interval: int, st: System, e: Event, notes: seq<Note>, n: nat)
    requires n <= |notes|
    ensures |Noted(interval, st, e, notes, n)| == n
  {
    if n > 0 { NotedLength(interval, st, e, notes, n - 1); }
  }

  lemma {:induction false} TallyPrefix(a: seq<Note>, b: seq<Note>, n: nat, k: Key, fate: Fate)
    requires n <= |a| && n <= |b| && a[..n] == b[..n]
    ensures Tally(a, n, k, fate) == Tally(b, n, k, fate)
  {
    if n > 0 {
      assert a[..n - 1] == a[..n][..n - 1] && b[..n - 1] == b[..n][..n - 1];
      assert a[n - 1] == a[..n][n - 1] && b[n - 1] == b[..n][n - 1];
      TallyPrefix(a, b, n - 1, k, fate);
    }
  }

  lemma TallySnoc(notes: seq<Note>, note: Note, k: Key, fate: Fate)
    ensures TallyAll(notes + [note], k, fate) == TallyAll(notes, k, fate) + if note == Note(k, fate) then 1 else 0
  {
    TallyPrefix(notes + [note], notes, |notes|, k, fate);
  }

  function If(condition: bool, n: nat): nat {
    if condition then n else 0
  }

  /** Which present fates count. */
  datatype Picks = Picks(waiting: bool, listed: bool, orphaned: bool, reported: bool, discarded: bool)

  predicate Picked(w: Picks, fate: Fate) {
    match fate
    case Waiting => w.waiting
    case Listed => w.listed
    case Orphaned => w.orphaned
    case Reported => w.reported
    case Discarded => w.discarded
  }

  function PickedCount(notes: seq<Note>, n: nat, k: Key, w: Picks): nat
    requires n <= |notes|
  {
    if n == 0 then 0
    else PickedCount(notes, n - 1, k, w) + if notes[n - 1].key == k && Picked(w, notes[n - 1].fate) then 1 else 0
  }

  lemma OneMore(notes: seq<Note>, n: nat, k: Key, fate: Fate, picked: bool)
    requires n <= |notes|
    ensures If(picked, Tally(notes, n, k, fate)) ==
            if n == 0 then 0
            else If(picked, Tally(notes, n - 1, k, fate)) + if picked && notes[n - 1] == Note(k, fate) then 1 else 0
  {
  }

  lemma {:induction false} PickedTallies(notes: seq<Note>, n: nat, k: Key, w: Picks)
    requires n <= |notes|
    ensures PickedCount(notes, n, k, w) ==
            If(w.waiting, Tally(notes, n, k, Waiting)) + If(w.listed, Tally(notes, n, k, Listed))
            + If(w.orphaned, Tally(notes, n, k, Orphaned)) + If(w.reported, Tally(notes, n, k, Reported))
            + If(w.discarded, Tally(notes, n, k, Discarded))
  {
    hide Tally, If;
    OneMore(notes, n, k, Waiting, w.waiting);
    OneMore(notes, n, k, Listed, w.listed);
    OneMore(notes, n, k, Orphaned, w.orphaned);
    OneMore(notes, n, k, Reported, w.reported);
    OneMore(notes, n, k, Discarded, w.discarded);
    if n > 0 {
      PickedTallies(notes, n - 1, k, w);
      var note := notes[n - 1];
      assert PickedCount(notes, n, k, w) ==
             PickedCount(notes, n - 1, k, w) + if note.key == k && Picked(w, note.fate) then 1 else 0;
      match note.fate
      case Waiting =>
      case Listed =>
      case Orphaned =>
      case Reported =>
      case Discarded =>
    }
  }

  /** The present fates that lead to `fate`. */
  function LeadingTo(interval: int, st: System, e: Event, profileId: string, fate: Fate): Picks {
    Picks(NextFate(interval, st, e, profileId, Waiting) == fate, NextFate(interval, st, e, profileId, Listed) == fate,
          NextFate(interval, st, e, profileId, Orphaned) == fate,
          NextFate(interval, st, e, profileId, Reported) == fate,
          NextFate(interval, st, e, profileId, Discarded) == fate)
  }

  /** The notes that meet a fate next are those whose present fate leads to it. */
  lemma {:induction false} TallyNoted(interval: int, st: System, e: Event, notes: seq<Note>, n: nat, k: Key, fate: Fate)
    requires n <= |notes|
    ensures TallyAll(Noted(interval, st, e, notes, n), k, fate) ==
            PickedCount(notes, n, k, LeadingTo(interval, st, e, k.profileId, fate))
  {
    hide NextFate;
    if n > 0 {
      TallyNoted(interval, st, e, notes, n - 1, k, fate);
      var note := notes[n - 1];
      var next := NextFate(interval, st, e, note.key.profileId, note.fate);
      TallySnoc(Noted(interval, st, e, notes, n - 1), note.(fate := next), k, fate);
    }
  }

  lemma TallyNext(interval: int, events: seq<Event>, states: seq<System>, n: nat, k: Key, fate: Fate)
    requires n < |events| && |states| == |events| + 1
    ensures var notes := Ledger(interval, events, states, n);
            TallyAll(Ledger(interval, events, states, n + 1), k, fate) ==
            TallyAll(Noted(interval, states[n], events[n], notes, |notes|), k, fate)
            + If(NewNotes(events[n]) == [Note(k, fate)], 1)
  {
    var notes := Ledger(interval, events, states, n);
    var noted := Noted(interval, states[n], events[n], notes, |notes|);
    if NewNotes(events[n]) == [] {
      assert noted + [] == noted;
    } else {
      TallySnoc(noted, NewNotes(events[n])[0], k, fate);
      assert NewNotes(events[n]) == [NewNotes(events[n])[0]];
    }
  }

  datatype Tallies = Tallies(waiting: nat, listed: nat, orphaned: nat, reported: nat, discarded: nat)

  function TalliesOf(notes: seq<Note>, k: Key): Tallies {
    Tallies(TallyAll(notes, k, Waiting), TallyAll(notes, k, Listed), TallyAll(notes, k, Orphaned),
            TallyAll(notes, k, Reported), TallyAll(notes, k, Discarded))
  }

  /** What an event does to the tallies of a profile's counter. */
  function Moved(interval: int, st: System, e: Event, profileId: string, t: Tallies): Tallies {
    match e
    case Write(_) => t
    case Check(_, _, ids, _) =>
      if st.flight.None? && Step(interval, st, e).flight.Some? && profileId in ids
      then t.(waiting := 0, listed := t.waiting + t.listed) else t
    case SendFailed =>
      t.(waiting := t.waiting + t.listed, listed := 0, orphaned := 0, discarded := t.orphaned + t.discarded)
    case Sent =>
      var cleared := st.flight.Some? && profileId in st.flight.value.ids;
      Tallies(if cleared then 0 else t.waiting, 0, 0, t.reported + t.listed + t.orphaned,
              t.discarded + if cleared then t.waiting else 0)
    case Forget(_, ids) =>
      if profileId in ids then Tallies(0, 0, t.listed + t.orphaned, t.reported, t.discarded + t.waiting) else t
  }

  lemma TallyMoves(interval: int, st: System, e: Event, notes: seq<Note>, k: Key, fate: Fate)
    ensures var w, t := LeadingTo(interval, st, e, k.profileId, fate), TalliesOf(notes, k);
            TallyAll(Noted(interval, st, e, notes, |notes|), k, fate) ==
            If(w.waiting, t.waiting) + If(w.listed, t.listed) + If(w.orphaned, t.orphaned) + If(w.reported, t.reported)
            + If(w.discarded, t.discarded)
  {
    hide NextFate, Tally, Noted, PickedCount, LeadingTo;
    TallyNoted(interval, st, e, notes, |notes|, k, fate);
    PickedTallies(notes, |notes|, k, LeadingTo(interval, st, e, k.profileId, fate));
  }

  lemma TalliesMoved(interval: int, st: System, e: Event, notes: seq<Note>, k: Key)
    ensures TalliesOf(Noted(interval, st, e, notes, |notes|), k) ==
            Moved(interval, st, e, k.profileId, TalliesOf(notes, k))
  {
    TallyMoves(interval, st, e, notes, k, Waiting);
    TallyMoves(interval, st, e, notes, k, Listed);
    TallyMoves(interval, st, e, notes, k, Orphaned);
    TallyMoves(interval, st, e, notes, k, Reported);
    TallyMoves(interval, st, e, notes, k, Discarded);
    hide Tally, Noted, Checked, PickedCount;
  }

  lemma TalliesNext(interval: int, events: seq<Event>, states: seq<System>, n: nat, k: Key)
    requires n < |events| && |states| == |events| + 1
    ensures var moved := Moved(interval, states[n], events[n], k.profileId,
                               TalliesOf(Ledger(interval, events, states, n), k));
            TalliesOf(Ledger(interval, events, states, n + 1), k) ==
            moved.(waiting := moved.waiting + If(NewNotes(events[n]) == [Note(k, Waiting)], 1))
  {
    var notes := Ledger(interval, events, states, n);
    TalliesMoved(interval, states[n], events[n], notes, k);
    TallyNext(interval, events, states, n, k, Waiting);
    TallyNext(interval, events, states, n, k, Listed);
    TallyNext(interval, events, states, n, k, Orphaned);
    TallyNext(interval, events, states, n, k, Reported);
    TallyNext(interval, events, states, n, k, Discarded);
  }

  // ---- conservation ----------------------------------------------------------

  /** The store's counter counts exactly the waiting and listed observations, and the report being sent exactly the
      listed and orphaned ones. */
  predicate Balanced(st: System, k: Key, t: Tallies) {
    && Count(st.entries, k) == t.waiting + t.listed
    && InFlight(st, k) == t.listed + t.orphaned
  }

  /** A report being sent has only counters of its own profiles. */
  predicate OwnCounters(st: System, k: Key) {
    st.flight.Some? && k in st.flight.value.taken ==> k.profileId in st.flight.value.ids
  }

  lemma StepBalanced(interval: int, st: System, e: Event, k: Key, t: Tallies)
    requires Balanced(st, k, t) && OwnCounters(st, k)
    ensures OwnCounters(Step(interval, st, e), k)
    ensures var moved := Moved(interval, st, e, k.profileId, t);
            Balanced(Step(interval, st, e), k,
                     moved.(waiting := moved.waiting + If(NewNotes(e) == [Note(k, Waiting)], 1)))
  {
  }

  /** The tallies after the first `n` events, moved event by event. */
  function TalliesAt(interval: int, events: seq<Event>, states: seq<System>, n: nat, k: Key): Tallies
    requires n <= |events| && |states| == |events| + 1
  {
    if n == 0 then Tallies(0, 0, 0, 0, 0)
    else
      var moved := Moved(interval, states[n - 1], events[n - 1], k.profileId,
                         TalliesAt(interval, events, states, n - 1, k));
      moved.(waiting := moved.waiting + If(NewNotes(events[n - 1]) == [Note(k, Waiting)], 1))
  }

  lemma NothingTallied(interval: int, events: seq<Event>, states: seq<System>, k: Key)
    requires |states| == |events| + 1
    ensures TalliesOf(Ledger(interval, events, states, 0), k) == TalliesAt(interval, events, states, 0, k)
  {
  }

  lemma TalliesStep(interval: int, events: seq<Event>, states: seq<System>, n: nat, k: Key)
    requires n < |events| && |states| == |events| + 1
    ensures var moved := Moved(interval, states[n], events[n], k.profileId, TalliesAt(interval, events, states, n, k));
            TalliesAt(interval, events, states, n + 1, k) ==
            moved.(waiting := moved.waiting + If(NewNotes(events[n]) == [Note(k, Waiting)], 1))
  {
    hide Moved, NewNotes, If;
  }

  lemma {:induction false} TalliesAtIsLedger(interval: int, events: seq<Event>, states: seq<System>, n: nat, k: Key)
    requires n <= |events| && |states| == |events| + 1
    ensures TalliesOf(Ledger(interval, events, states, n), k) == TalliesAt(interval, events, states, n, k)
  {
    hide TalliesOf, Ledger, Moved, NewNotes, TalliesAt, If;
    NothingTallied(interval, events, states, k);
    if n > 0 {
      TalliesStep(interval, events, states, n - 1, k);
      TalliesAtIsLedger(interval, events, states, n - 1, k);
      TalliesNext(interval, events, states, n - 1, k);
    }
  }

  lemma NextBalanced(interval: int, events: seq<Event>, states: seq<System>, n: nat, k: Key)
    requires Behaviour(interval, events, states) && n < |events|
    requires Balanced(states[n], k, TalliesAt(interval, events, states, n, k)) && OwnCounters(states[n], k)
    ensures Balanced(states[n + 1], k, TalliesAt(interval, events, states, n + 1, k)) && OwnCounters(states[n + 1], k)
  {
    assert Stepped(interval, events, states, n);
    StepBalanced(interval, states[n], events[n], k, TalliesAt(interval, events, states, n, k));
  }

  lemma {:induction false} StaysBalanced(interval: int, events: seq<Event>, states: seq<System>, n: nat, k: Key)
    requires Behaviour(interval, events, states) && n <= |events|
    ensures Balanced(states[n], k, TalliesAt(interval, events, states, n, k)) && OwnCounters(states[n], k)
  {
    if n > 0 {
      StaysBalanced(interval, events, states, n - 1, k);
      NextBalanced(interval, events, states, n - 1, k);
    }
  }

  function All(t: Tallies): nat {
    t.waiting + t.listed + t.orphaned + t.reported + t.discarded
  }

  lemma MovedKeepsAll(interval: int, st: System, e: Event, profileId: string, t: Tallies)
    ensures All(Moved(interval, st, e, profileId, t)) == All(t)
    ensures Moved(interval, st, e, profileId, t).reported == t.reported + If(e.Sent?, t.listed + t.orphaned)
  {
  }

  lemma {:induction false} EveryRecordingTallied(interval: int, events: seq<Event>, states: seq<System>, n: nat, k: Key)
    requires n <= |events| && |states| == |events| + 1
    ensures All(TalliesAt(interval, events, states, n, k)) == Recordings(events, n, k)
  {
    if n > 0 {
      EveryRecordingTallied(interval, events, states, n - 1, k);
      MovedKeepsAll(interval, states[n - 1], events[n - 1], k.profileId, TalliesAt(interval, events, states, n - 1, k));
    }
  }

  lemma {:induction false} EveryReportTallied(interval: int, events: seq<Event>, states: seq<System>, n: nat, k: Key)
    requires Behaviour(interval, events, states) && n <= |events|
    ensures ReportedCount(events, states, n, k) == TalliesAt(interval, events, states, n, k).reported
  {
    if n > 0 {
      EveryReportTallied(interval, events, states, n - 1, k);
      StaysBalanced(interval, events, states, n - 1, k);
      MovedKeepsAll(interval, states[n - 1], events[n - 1], k.profileId, TalliesAt(interval, events, states, n - 1, k));
    }
  }

  /** In every run, for each profile, part of the day and domain: the stored counter counts exactly the observations
      not yet reported or discarded; the counts of all sent reports add up to the observations whose fate is to be
      reported, so none is reported twice and none is made up; and every recorded observation is accounted for. */
  lemma FatesAreCounted(interval: int, events: seq<Event>, states: seq<System>, n: nat, k: Key)
    requires Behaviour(interval, events, states) && n <= |events|
    ensures var t := TalliesOf(Ledger(interval, events, states, n), k);
            && Count(states[n].entries, k) == t.waiting + t.listed
            && InFlight(states[n], k) == t.listed + t.orphaned
            && ReportedCount(events, states, n, k) == t.reported
            && Recordings(events, n, k) == t.waiting + t.listed + t.orphaned + t.reported + t.discarded
  {
    TalliesAtIsLedger(interval, events, states, n, k);
    StaysBalanced(interval, events, states, n, k);
    EveryRecordingTallied(interval, events, states, n, k);
    EveryReportTallied(interval, events, states, n, k);
  }

  /** Conservation: whenever no report is being sent, the recorded observations are those still in the store, those
      in sent reports and those discarded. */
  lemma Conservation(interval: int, events: seq<Event>, states: seq<System>, n: nat, k: Key)
    requires Behaviour(interval, events, states) && n <= |events| && states[n].flight.None?
    ensures Recordings(events, n, k) ==
            Count(states[n].entries, k) + ReportedCount(events, states, n, k)
            + TallyAll(Ledger(interval, events, states, n), k, Discarded)
  {
    FatesAreCounted(interval, events, states, n, k);
  }

  // ---- cadence ---------------------------------------------------------------

  /** Event `k` completes a digest of that house. */
  predicate Completes(events: seq<Event>, states: seq<System>, k: nat, houseId: string)
    requires k < |events| && |states| == |events| + 1
  {
    events[k].Sent? && states[k].flight.Some? && states[k].flight.value.houseId == houseId
  }

  predicate Kept(events: seq<Event>, k: nat, houseId: string)
    requires k < |events|
  {
    !(events[k].Forget? && events[k].houseId == houseId)
  }

  /** The last send to the house is at or after `since`, and a report being sent to it was due. */
  predicate Spaced(interval: int, st: System, houseId: string, since: int) {
    && houseId in st.lastSentAt && st.lastSentAt[houseId] >= since
    && (st.flight.Some? && st.flight.value.houseId == houseId ==>
          st.flight.value.now >= st.lastSentAt[houseId] + interval)
  }

  lemma NextSpaced(interval: int, events: seq<Event>, states: seq<System>, k: nat, houseId: string, since: int)
    requires Behaviour(interval, events, states) && k < |events| && interval >= 0
    requires Kept(events, k, houseId) && Spaced(interval, states[k], houseId, since)
    ensures Spaced(interval, states[k + 1], houseId, since)
  {
    assert Stepped(interval, events, states, k);
  }

  lemma {:induction false} SpacedOn(interval: int, events: seq<Event>, states: seq<System>, i: nat, k: nat,
                                    houseId: string, since: int)
    requires Behaviour(interval, events, states) && i <= k <= |events| && interval >= 0
    requires forall m | i <= m < k :: Kept(events, m, houseId)
    requires Spaced(interval, states[i], houseId, since)
    ensures Spaced(interval, states[k], houseId, since)
  {
    if i < k {
      SpacedOn(interval, events, states, i, k - 1, houseId, since);
      NextSpaced(interval, events, states, k - 1, houseId, since);
    }
  }

  /** Unless the house is forgotten in between, two of its digests are at least the interval apart on the
      scheduler's clock. */
  lemma DigestsAreSpaced(interval: int, events: seq<Event>, states: seq<System>, i: nat, j: nat, houseId: string)
    requires Behaviour(interval, events, states) && i < j < |events| && interval >= 0
    requires Completes(events, states, i, houseId) && Completes(events, states, j, houseId)
    requires forall m | i < m < j :: Kept(events, m, houseId)
    ensures states[j].flight.value.now - states[i].flight.value.now >= interval
  {
    assert Stepped(interval, events, states, i);
    SpacedOn(interval, events, states, i + 1, j, houseId, states[i].flight.value.now);
  }
}
