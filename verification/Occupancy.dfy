/** The overlap checks on schedules: the server's minute-by-minute occupancy map and the web form's sets. */
module Occupancy {
  import opened Text
  import opened Names
  import opened PolicyTypes
  import opened Schedule

  /** What the occupancy loop needs of a window for it never to meet itself: weekdays in range and
      listed once. Start and end may even be equal. */
  predicate Fillable(w: TimeWindow) {
    w.id != "" && DistinctDays(w.days)
  }

  predicate Apart(a: set<int>, b: set<int>) {
    forall m | m in a :: m !in b
  }

  predicate Overlap(v: TimeWindow, w: TimeWindow) {
    !Apart(WindowCells(v), WindowCells(w))
  }

  /** The cell the inner loop writes next is at no offset done before. */
  lemma CellIsNew(first: int, length: nat, offset: nat)
    requires offset < length <= DAY
    ensures Cell(first, offset) !in Arc(first, offset) && Cell(first, offset) in Arc(first, length)
  {
    var m := Cell(first, offset);
    CellDistance(first, offset, m);
    ArcMember(first, offset, m);
    ArcMember(first, length, m);
  }

  /** A window never meets itself: the cells of one of its days are none of its earlier days'. */
  lemma DayIsNew(days: seq<int>, k: nat, start: nat, length: nat)
    requires DistinctDays(days) && k < |days| && start < DAY && length <= DAY
    ensures Apart(Arc(days[k] * DAY + start, length), SpanCells(days[..k], start, length))
  {
    DaysInRange(days);
    DistinctDaysAt(days, k);
    forall m | m in Arc(days[k] * DAY + start, length)
      ensures m !in SpanCells(days[..k], start, length)
    {
      SpanMember(days[..k], start, length, m);
      forall i | 0 <= i < k
        ensures m !in Arc(days[..k][i] * DAY + start, length)
      {
        assert days[i] in days[..k];
        DaysDoNotMeet(start, length, days[i], days[k], m);
      }
    }
  }

  lemma {:induction false} SpanGrows(days: seq<int>, k: nat, start: nat, length: nat)
    requires k <= |days|
    ensures SpanCells(days[..k], start, length) <= SpanCells(days, start, length)
  {
    if k == |days| {
      assert days[..k] == days;
    } else {
      SpanGrows(days[..|days| - 1], k, start, length);
      assert days[..|days| - 1][..k] == days[..k];
    }
  }

  lemma NoSpan(days: seq<int>, start: nat, length: nat)
    ensures SpanCells(days[..0], start, length) == {}
  {
  }

  lemma SpanSnoc(days: seq<int>, k: nat, start: nat, length: nat)
    requires k < |days|
    ensures SpanCells(days[..k + 1], start, length) ==
            SpanCells(days[..k], start, length) + Arc(days[k] * DAY + start, length)
  {
    assert days[..k + 1][..k] == days[..k];
  }

  /** The map from minutes of the week to the id of the window that occupies them. */
  class Occupied {
    var cells: map<int, string>

    constructor ()
      ensures cells == map[]
    {
      cells := map[];
    }

    /** Fills the window's cells, unless one is taken: then it stops and reports the id found there. */
    method OccupyWindow(w: TimeWindow) returns (conflict: string)
      requires Fillable(w)
      requires forall m | m in cells :: cells[m] != ""
      modifies this
      ensures forall m | m in cells :: cells[m] != ""
      ensures conflict == "" <==> Apart(WindowCells(w), old(cells).Keys)
      ensures conflict == "" ==> cells.Keys == old(cells).Keys + WindowCells(w)
      ensures conflict == "" ==> forall m | m in cells :: cells[m] == if m in old(cells) then old(cells)[m] else w.id
      ensures conflict != "" ==> exists m :: m in WindowCells(w) && m in old(cells) && conflict == old(cells)[m]
    {
      var start := MinuteOrZero(w.start);
      var duration := MinuteOrZero(w.end) - start;
      if duration <= 0 {
        duration := duration + DAY;
      }
      conflict := FillDays(w.id, w.days, start, duration);
    }

    /** The loop over days. */
    method FillDays(id: string, days: seq<int>, start: nat, duration: nat) returns (conflict: string)
      requires id != "" && DistinctDays(days) && start < DAY && 0 < duration <= DAY
      requires forall m | m in cells :: cells[m] != ""
      modifies this
      ensures forall m | m in cells :: cells[m] != ""
      ensures conflict == "" <==> Apart(SpanCells(days, start, duration), old(cells).Keys)
      ensures conflict == "" ==> cells.Keys == old(cells).Keys + SpanCells(days, start, duration)
      ensures conflict == "" ==> forall m | m in cells :: cells[m] == if m in old(cells) then old(cells)[m] else id
      ensures conflict != "" ==>
                exists m :: m in SpanCells(days, start, duration) && m in old(cells) && conflict == old(cells)[m]
    {
      hide DistinctDays, SpanCells, Arc;
      NoSpan(days, start, duration);
      for k := 0 to |days|
        invariant cells.Keys == old(cells).Keys + SpanCells(days[..k], start, duration)
        invariant forall m | m in cells :: cells[m] == if m in old(cells) then old(cells)[m] else id
        invariant Apart(SpanCells(days[..k], start, duration), old(cells).Keys)
      {
        SpanSnoc(days, k, start, duration);
        SpanGrows(days, k + 1, start, duration);
        DayIsNew(days, k, start, duration);
        conflict := FillDay(id, days[k] * DAY + start, duration);
        if conflict != "" { return; }
      }
      assert days[..|days|] == days;
      return "";
    }

    /** The loop over offsets. */
    method FillDay(id: string, first: int, duration: nat) returns (conflict: string)
      requires id != "" && duration <= DAY
      requires forall m | m in cells :: cells[m] != ""
      modifies this
      ensures forall m | m in cells :: cells[m] != ""
      ensures conflict == "" <==> Apart(Arc(first, duration), old(cells).Keys)
      ensures conflict == "" ==> cells.Keys == old(cells).Keys + Arc(first, duration)
      ensures forall m | m in cells :: cells[m] == if m in old(cells) then old(cells)[m] else id
      ensures conflict != "" ==> exists m :: m in Arc(first, duration) && m in old(cells) && conflict == old(cells)[m]
    {
      for offset := 0 to duration
        invariant cells.Keys == old(cells).Keys + Arc(first, offset)
        invariant forall m | m in cells :: cells[m] == if m in old(cells) then old(cells)[m] else id
        invariant Apart(Arc(first, offset), old(cells).Keys)
      {
        var minute := (first + offset) % WEEK;
        CellIsModulo(first, offset);
        CellIsNew(first, duration, offset);
        if minute in cells && cells[minute] != "" {
          return cells[minute];
        }
        cells := cells[minute := id];
      }
      return "";
    }
  }

  // ---- families of cell sets -----------------------------------------------

  function Union(family: seq<set<int>>): set<int> {
    if family == [] then {} else Union(family[..|family| - 1]) + family[|family| - 1]
  }

  predicate PairwiseDisjoint(family: seq<set<int>>) {
    forall i, j | 0 <= i < j < |family| :: Apart(family[i], family[j])
  }

  lemma {:induction false} MeetsNone(family: seq<set<int>>, c: set<int>)
    ensures Apart(c, Union(family)) <==> forall i | 0 <= i < |family| :: Apart(family[i], c)
  {
    if family != [] {
      var n := |family| - 1;
      MeetsNone(family[..n], c);
      assert forall i | 0 <= i < n :: family[..n][i] == family[i];
    }
  }

  /** A family is disjoint exactly when it is without its last set and that set misses their union. */
  lemma DisjointLast(family: seq<set<int>>)
    requires family != []
    ensures PairwiseDisjoint(family) <==>
            PairwiseDisjoint(family[..|family| - 1]) && Apart(family[|family| - 1], Union(family[..|family| - 1]))
  {
    var n := |family| - 1;
    MeetsNone(family[..n], family[n]);
    assert forall i | 0 <= i < n :: family[..n][i] == family[i];
  }

  // ---- the schedules of one group ------------------------------------------

  function CellsOf(schedules: seq<ScheduledAction>): (family: seq<set<int>>)
    ensures |family| == |schedules|
  {
    if schedules == [] then []
    else CellsOf(schedules[..|schedules| - 1]) + [WindowCells(schedules[|schedules| - 1].window)]
  }

  predicate DisjointWindows(schedules: seq<ScheduledAction>) {
    PairwiseDisjoint(CellsOf(schedules))
  }

  predicate ScheduleOK(s: ScheduledAction) {
    ValidWindow(s.window) && (s.action == Allow || s.action == Block)
  }

  function Ids(schedules: seq<ScheduledAction>): set<string> {
    if schedules == [] then {}
    else Ids(schedules[..|schedules| - 1]) + {schedules[|schedules| - 1].window.id}
  }

  predicate DistinctIds(schedules: seq<ScheduledAction>) {
    schedules == [] || (
      var n := |schedules| - 1;
      DistinctIds(schedules[..n]) && schedules[n].window.id !in Ids(schedules[..n]))
  }

  predicate AllValid(schedules: seq<ScheduledAction>) {
    schedules == [] || (AllValid(schedules[..|schedules| - 1]) && ScheduleOK(schedules[|schedules| - 1]))
  }

  lemma {:induction false} CellsAt(schedules: seq<ScheduledAction>, i: nat)
    requires i < |schedules|
    ensures CellsOf(schedules)[i] == WindowCells(schedules[i].window)
  {
    if i < |schedules| - 1 {
      CellsAt(schedules[..|schedules| - 1], i);
    }
  }

  lemma {:induction false} AllValidAt(schedules: seq<ScheduledAction>, i: nat)
    requires AllValid(schedules) && i < |schedules|
    ensures ScheduleOK(schedules[i])
  {
    if i < |schedules| - 1 {
      AllValidAt(schedules[..|schedules| - 1], i);
    }
  }

  /** The lists the store accepts: each schedule is valid, has an id no earlier one has, and shares
      no cell with an earlier one. */
  predicate SchedulesOK(schedules: seq<ScheduledAction>) {
    schedules == [] || (
      var n := |schedules| - 1;
      SchedulesOK(schedules[..n]) && OneMore(schedules[..n], schedules[n]))
  }

  predicate OneMore(schedules: seq<ScheduledAction>, s: ScheduledAction) {
    ScheduleOK(s) && s.window.id !in Ids(schedules) && Apart(WindowCells(s.window), Union(CellsOf(schedules)))
  }

  lemma {:induction false} AcceptPrefix(schedules: seq<ScheduledAction>, k: nat)
    requires k <= |schedules| && SchedulesOK(schedules)
    ensures SchedulesOK(schedules[..k])
  {
    if k == |schedules| {
      assert schedules[..k] == schedules;
    } else {
      AcceptPrefix(schedules[..|schedules| - 1], k);
      assert schedules[..|schedules| - 1][..k] == schedules[..k];
    }
  }

  /** Acceptance without the order: valid schedules, distinct ids, pairwise disjoint windows. */
  lemma {:induction false} AcceptedMeans(schedules: seq<ScheduledAction>)
    ensures SchedulesOK(schedules) <==>
            AllValid(schedules) && DistinctIds(schedules) && DisjointWindows(schedules)
  {
    if schedules != [] {
      var n := |schedules| - 1;
      AcceptedMeans(schedules[..n]);
      DisjointLast(CellsOf(schedules));
    }
  }

  lemma AcceptSnoc(schedules: seq<ScheduledAction>, s: ScheduledAction)
    ensures SchedulesOK(schedules + [s]) <==> SchedulesOK(schedules) && OneMore(schedules, s)
  {
    assert (schedules + [s])[..|schedules|] == schedules;
  }

  lemma UnionSnoc(schedules: seq<ScheduledAction>, s: ScheduledAction)
    ensures Ids(schedules + [s]) == Ids(schedules) + {s.window.id}
    ensures Union(CellsOf(schedules + [s])) == Union(CellsOf(schedules)) + WindowCells(s.window)
  {
    assert (schedules + [s])[..|schedules|] == schedules;
    assert CellsOf(schedules + [s])[..|schedules|] == CellsOf(schedules);
  }

  /** The store's loop over a group's schedules. */
  method CheckSchedules(schedules: seq<ScheduledAction>) returns (ok: bool)
    ensures ok <==> SchedulesOK(schedules)
  {
    hide WindowCells, DistinctDays, ParseMinute;
    var ids: set<string> := {};
    var occupied := new Occupied();
    for k := 0 to |schedules|
      invariant SchedulesOK(schedules[..k])
      invariant ids == Ids(schedules[..k])
      invariant forall m | m in occupied.cells :: occupied.cells[m] != ""
      invariant occupied.cells.Keys == Union(CellsOf(schedules[..k]))
    {
      var s := schedules[k];
      assert schedules[..k + 1] == schedules[..k] + [s];
      AcceptSnoc(schedules[..k], s);
      UnionSnoc(schedules[..k], s);
      if SchedulesOK(schedules) {
        AcceptPrefix(schedules, k + 1);
      }
      var error := ValidateWindow(s.window);
      if error.Some? { return false; }
      if s.action != Allow && s.action != Block { return false; }
      if s.window.id in ids { return false; }
      ids := ids + {s.window.id};
      var conflict := occupied.OccupyWindow(s.window);
      if conflict != "" { return false; }
    }
    assert schedules[..|schedules|] == schedules;
    return true;
  }

  /** A cell two valid windows share is an instant at which both are active, and back. */
  lemma SharedInstant(v: TimeWindow, w: TimeWindow, clock: Clock)
    requires ValidWindow(v) && ValidWindow(w) && ValidClock(clock)
    ensures MinuteOfWeek(clock) in WindowCells(v) && MinuteOfWeek(clock) in WindowCells(w) <==>
            WindowActive(v, clock) && WindowActive(w, clock)
  {
    WeekCircle(v, clock);
    WeekCircle(w, clock);
  }

  ghost predicate NeverTogether(v: TimeWindow, w: TimeWindow) {
    forall clock | ValidClock(clock) :: !(WindowActive(v, clock) && WindowActive(w, clock))
  }

  /** Two valid windows overlap exactly when some clock finds both active. */
  lemma OverlapIsSharedInstant(v: TimeWindow, w: TimeWindow)
    requires ValidWindow(v) && ValidWindow(w)
    ensures !Overlap(v, w) <==> NeverTogether(v, w)
  {
    if Overlap(v, w) {
      var m :| m in WindowCells(v) && m in WindowCells(w);
      OnlyMinutes(v, m);
      SharedInstant(v, w, ClockOfMinute(m));
    }
    forall clock | ValidClock(clock)
      ensures Overlap(v, w) || !(WindowActive(v, clock) && WindowActive(w, clock))
    {
      SharedInstant(v, w, clock);
    }
  }

  lemma OnlyMinutes(w: TimeWindow, m: int)
    requires m in WindowCells(w)
    ensures 0 <= m < WEEK
  {
    CellsInWeek(w.days, MinuteOrZero(w.start), Duration(MinuteOrZero(w.start), MinuteOrZero(w.end)), m);
  }

  /** The incremental check accepts otherwise valid schedules exactly when no two are ever active together. */
  lemma AcceptedIffNeverTogether(schedules: seq<ScheduledAction>)
    requires AllValid(schedules) && DistinctIds(schedules)
    ensures SchedulesOK(schedules) <==>
            forall i, j | 0 <= i < j < |schedules| :: NeverTogether(schedules[i].window, schedules[j].window)
  {
    AcceptedMeans(schedules);
    if SchedulesOK(schedules) {
      forall i, j | 0 <= i < j < |schedules|
        ensures NeverTogether(schedules[i].window, schedules[j].window)
      {
        PairNeverTogether(schedules, i, j);
      }
    } else {
      var i, j :| 0 <= i < j < |schedules| && !Apart(CellsOf(schedules)[i], CellsOf(schedules)[j]);
      PairNeverTogether(schedules, i, j);
    }
  }

  lemma PairNeverTogether(schedules: seq<ScheduledAction>, i: nat, j: nat)
    requires AllValid(schedules) && i < |schedules| && j < |schedules|
    ensures Apart(CellsOf(schedules)[i], CellsOf(schedules)[j]) <==>
            NeverTogether(schedules[i].window, schedules[j].window)
  {
    AllValidAt(schedules, i);
    AllValidAt(schedules, j);
    CellsAt(schedules, i);
    CellsAt(schedules, j);
    OverlapIsSharedInstant(schedules[i].window, schedules[j].window);
  }

  lemma {:induction false} ActiveScheduledIsFirst(schedules: seq<ScheduledAction>, clock: Clock)
    ensures match ActiveScheduled(schedules, clock)
            case None => forall s | s in schedules :: !WindowActive(s.window, clock)
            case Some(a) => a in schedules && WindowActive(a.window, clock)
  {
    if schedules != [] && !WindowActive(schedules[0].window, clock) {
      ActiveScheduledIsFirst(schedules[1..], clock);
      assert schedules == [schedules[0]] + schedules[1..];
    }
  }

  /** At every instant at most one schedule of an accepted list is active. */
  lemma AtMostOneActive(schedules: seq<ScheduledAction>, a: ScheduledAction, b: ScheduledAction, clock: Clock)
    requires SchedulesOK(schedules) && ValidClock(clock) && a in schedules && b in schedules
    requires WindowActive(a.window, clock) && WindowActive(b.window, clock)
    ensures a == b
  {
    AcceptedMeans(schedules);
    AcceptedIffNeverTogether(schedules);
    var i :| 0 <= i < |schedules| && schedules[i] == a;
    var j :| 0 <= j < |schedules| && schedules[j] == b;
    assert i < j ==> NeverTogether(schedules[i].window, schedules[j].window);
    assert j < i ==> NeverTogether(schedules[j].window, schedules[i].window);
  }

  /** On an accepted list the scheduled action does not depend on the order of the list. */
  lemma ScheduledActionIgnoresOrder(s: seq<ScheduledAction>, t: seq<ScheduledAction>, clock: Clock)
    requires SchedulesOK(s) && ValidClock(clock) && multiset(s) == multiset(t)
    ensures ActiveScheduled(s, clock) == ActiveScheduled(t, clock)
  {
    ActiveScheduledIsFirst(s, clock);
    ActiveScheduledIsFirst(t, clock);
    assert forall x :: x in s <==> x in multiset(s);
    assert forall x :: x in t <==> x in multiset(t);
    if ActiveScheduled(s, clock).Some? && ActiveScheduled(t, clock).Some? {
      AtMostOneActive(s, ActiveScheduled(s, clock).value, ActiveScheduled(t, clock).value, clock);
    }
  }

  // ---- the web form --------------------------------------------------------

  /** The form's pattern for a time: two digits, a colon and two digits, in range or not. */
  predicate TwoDigits(value: string) {
    |value| == 5 && value[2] == ':' && IsDigit(value[0]) && IsDigit(value[1]) && IsDigit(value[3]) && IsDigit(value[4])
  }

  /** What the form computes of such a text. */
  function FormMinute(value: string): nat
    requires TwoDigits(value)
  {
    (10 * Digit(value[0]) + Digit(value[1])) * 60 + 10 * Digit(value[3]) + Digit(value[4])
  }

  /** How often the form's inner loop turns; "30:00" to "02:00" leaves it no turn. */
  function FormLength(start: nat, end: nat): nat {
    if end > start then end - start else if end + DAY > start then end + DAY - start else 0
  }

  predicate FormWindow(w: TimeWindow) {
    TwoDigits(w.start) && TwoDigits(w.end) && forall i | 0 <= i < |w.days| :: w.days[i] >= 0
  }

  /** The cells the form gives a window. */
  function FormCells(w: TimeWindow): set<int>
    requires FormWindow(w)
  {
    SpanCells(w.days, FormMinute(w.start), FormLength(FormMinute(w.start), FormMinute(w.end)))
  }

  lemma FormMinuteAgrees(value: string)
    ensures ParseMinute(value).Some? ==> TwoDigits(value) && ParseMinute(value) == Some(FormMinute(value))
  {
    ParsersAgree(value);
  }

  /** On times of day the form gives a window the cells the server gives it. */
  lemma FormCellsAgree(w: TimeWindow)
    requires ParseMinute(w.start).Some? && ParseMinute(w.end).Some?
    requires forall i | 0 <= i < |w.days| :: w.days[i] >= 0
    ensures FormWindow(w) && FormCells(w) == WindowCells(w)
  {
    hide ParseMinute, FormMinute, SpanCells;
    FormMinuteAgrees(w.start);
    FormMinuteAgrees(w.end);
    ParseMinuteInDay(w.start);
  }

  /** The form's `fill`. */
  method Fill(w: TimeWindow) returns (target: set<int>)
    requires FormWindow(w)
    ensures target == FormCells(w)
    ensures ParseMinute(w.start).Some? && ParseMinute(w.end).Some? ==> target == WindowCells(w)
  {
    hide ParseMinute, SpanCells, WindowCells;
    var start := FormMinute(w.start);
    var duration := FormMinute(w.end) - start;
    if duration <= 0 {
      duration := duration + DAY;
    }
    target := FillSet(w.days, start, duration);
    if ParseMinute(w.start).Some? && ParseMinute(w.end).Some? {
      FormCellsAgree(w);
    }
  }

  method FillSet(days: seq<int>, start: nat, duration: int) returns (target: set<int>)
    requires forall i | 0 <= i < |days| :: days[i] >= 0
    ensures target == SpanCells(days, start, if duration < 0 then 0 else duration)
  {
    ghost var length := if duration < 0 then 0 else duration;
    target := {};
    for k := 0 to |days|
      invariant target == SpanCells(days[..k], start, length)
    {
      var first := days[k] * DAY + start;
      SpanSnoc(days, k, start, length);
      var offset := 0;
      while offset < duration
        invariant 0 <= offset <= length
        invariant target == SpanCells(days[..k], start, length) + Arc(first, offset)
      {
        CellIsModulo(first, offset);
        target := target + {(first + offset) % WEEK};
        offset := offset + 1;
      }
    }
    assert days[..|days|] == days;
  }

  /** The form's test of two windows. */
  method WindowsOverlap(first: TimeWindow, second: TimeWindow) returns (overlap: bool)
    requires FormWindow(first) && FormWindow(second)
    ensures overlap <==> !Apart(FormCells(first), FormCells(second))
  {
    var occupied := Fill(first);
    var candidate := Fill(second);
    overlap := exists minute | minute in candidate :: minute in occupied;
  }

  /** What the form asks of its own fields. */
  predicate FormChecks(title: string, days: seq<int>, start: string, end: string) {
    TrimSpace(title) != "" && |title| <= 80 && days != [] && TwoDigits(start) && TwoDigits(end) && start != end
  }

  /** The schedule the form makes of its fields. */
  function FormSchedule(id: string, title: string, days: seq<int>, start: string, end: string,
                        action: Action): ScheduledAction {
    ScheduledAction(TimeWindow(id, TrimSpace(title), days, start, end), action)
  }

  /** No schedule of the list meets the new one, as the form computes. */
  predicate FormLets(schedules: seq<ScheduledAction>, candidate: ScheduledAction)
    requires FormWindow(candidate.window) && forall i | 0 <= i < |schedules| :: FormWindow(schedules[i].window)
  {
    forall i | 0 <= i < |schedules| :: Apart(FormCells(schedules[i].window), FormCells(candidate.window))
  }

  /** Adding a schedule in the form: it appends one that passes its checks and, as it computes, meets no other. */
  method AddSchedule(schedules: seq<ScheduledAction>, id: string, title: string, days: seq<int>, start: string,
                     end: string, action: Action) returns (next: seq<ScheduledAction>)
    requires forall i | 0 <= i < |schedules| :: FormWindow(schedules[i].window)
    requires forall i | 0 <= i < |days| :: days[i] >= 0
    ensures FormChecks(title, days, start, end) ==> FormWindow(FormSchedule(id, title, days, start, end, action).window)
    ensures var candidate := ScheduledAction(TimeWindow(id, TrimSpace(title), days, start, end), action);
            next == if FormChecks(title, days, start, end) && FormLets(schedules, candidate)
                    then schedules + [candidate] else schedules
  {
    hide FormCells, TwoDigits;
    if TrimSpace(title) == "" || |title| > 80 || days == [] || !TwoDigits(start) || !TwoDigits(end) || start == end {
      return schedules;
    }
    var candidate := FormSchedule(id, title, days, start, end, action);
    for i := 0 to |schedules|
      invariant forall k | 0 <= k < i :: Apart(FormCells(schedules[k].window), FormCells(candidate.window))
    {
      var overlap := WindowsOverlap(schedules[i].window, candidate.window);
      if overlap { return schedules; }
    }
    return schedules + [candidate];
  }

  lemma TrimTwice(s: string)
    requires TrimSpace(s) != ""
    ensures TrimSpace(TrimSpace(s)) == TrimSpace(s) && |TrimSpace(s)| <= |s|
  {
    TrimSpaceStops(s);
    TrimLeftStops(s);
    TrimRightStops(TrimLeft(s));
    TrimLeftStops(TrimSpace(s));
  }

  lemma SameMinuteSameText(a: string, b: string)
    requires ParseMinute(a).Some? && ParseMinute(a) == ParseMinute(b)
    ensures a == b
  {
    ParseMinuteIsFormatInverse(a, ParseMinute(a).value);
    ParseMinuteIsFormatInverse(b, ParseMinute(a).value);
  }

  /** A schedule that passes the form's checks is valid exactly when its times are times of day and no weekday is out of
      range or listed twice. */
  lemma CheckedIsValid(id: string, title: string, days: seq<int>, start: string, end: string, action: Action)
    requires 0 < |TrimSpace(id)| <= 80 && (action == Allow || action == Block)
    requires FormChecks(title, days, start, end)
    ensures ScheduleOK(FormSchedule(id, title, days, start, end, action)) <==>
            ParseMinute(start).Some? && ParseMinute(end).Some? && DistinctDays(days)
  {
    hide ParseMinute, TwoDigits, TrimSpace, DistinctDays;
    TrimTwice(title);
    if ParseMinute(start).Some? && ParseMinute(start) == ParseMinute(end) {
      SameMinuteSameText(start, end);
    }
  }

  lemma UncheckedIsInvalid(id: string, title: string, days: seq<int>, start: string, end: string, action: Action)
    requires |title| <= 80 && !FormChecks(title, days, start, end)
    ensures !ScheduleOK(FormSchedule(id, title, days, start, end, action))
  {
    hide ParseMinute, TwoDigits, TrimSpace;
    FormMinuteAgrees(start);
    FormMinuteAgrees(end);
    if TrimSpace(title) == "" {
      EmptyTrims();
    }
  }

  lemma EmptyTrims()
    ensures TrimSpace("") == ""
  {
  }

  lemma AllFormWindows(schedules: seq<ScheduledAction>)
    requires AllValid(schedules)
    ensures forall i | 0 <= i < |schedules| ::
              FormWindow(schedules[i].window) && FormCells(schedules[i].window) == CellsOf(schedules)[i]
  {
    hide ParseMinute, FormWindow, FormCells, WindowCells;
    forall i | 0 <= i < |schedules|
      ensures FormWindow(schedules[i].window) && FormCells(schedules[i].window) == CellsOf(schedules)[i]
    {
      AllValidAt(schedules, i);
      CellsAt(schedules, i);
      DaysInRange(schedules[i].window.days);
      FormCellsAgree(schedules[i].window);
    }
  }

  /** The server accepts a list of valid schedules with distinct ids exactly when the form finds no overlap in it. */
  lemma FormFindsEveryOverlap(schedules: seq<ScheduledAction>)
    requires AllValid(schedules) && DistinctIds(schedules)
    ensures forall i | 0 <= i < |schedules| :: FormWindow(schedules[i].window)
    ensures SchedulesOK(schedules) <==>
            forall i, j | 0 <= i < j < |schedules| ::
              Apart(FormCells(schedules[i].window), FormCells(schedules[j].window))
  {
    hide SchedulesOK, AllValid, DistinctIds, FormWindow, FormCells, CellsOf;
    AcceptedMeans(schedules);
    AllFormWindows(schedules);
  }

  /** Every schedule of the list, and the new one, has times that the form computes with. */
  predicate FormReads(schedules: seq<ScheduledAction>, candidate: ScheduledAction) {
    FormWindow(candidate.window) && forall i | 0 <= i < |schedules| :: FormWindow(schedules[i].window)
  }

  /** The form reads the list and the new schedule, and finds them apart. */
  predicate FormPasses(schedules: seq<ScheduledAction>, candidate: ScheduledAction) {
    FormReads(schedules, candidate) && FormLets(schedules, candidate)
  }

  lemma FormReadsAccepted(schedules: seq<ScheduledAction>, candidate: ScheduledAction)
    requires SchedulesOK(schedules) && FormWindow(candidate.window)
    ensures FormReads(schedules, candidate)
    ensures FormLets(schedules, candidate) <==>
            Apart(FormCells(candidate.window), Union(CellsOf(schedules)))
  {
    hide SchedulesOK, FormWindow, FormCells, AllValid, CellsOf, Apart, Union;
    MeetsNone(CellsOf(schedules), FormCells(candidate.window));
    AcceptedMeans(schedules);
    AllFormWindows(schedules);
    if FormLets(schedules, candidate) {
      forall i | 0 <= i < |schedules|
        ensures Apart(CellsOf(schedules)[i], FormCells(candidate.window))
      {
        assert Apart(FormCells(schedules[i].window), FormCells(candidate.window));
      }
    } else {
      var i :| 0 <= i < |schedules| && !Apart(FormCells(schedules[i].window), FormCells(candidate.window));
      assert !Apart(CellsOf(schedules)[i], FormCells(candidate.window));
    }
  }

  /** To a list it accepts, the server accepts the addition of a schedule with a new id that passes the form's checks
      exactly when the form lets it through, its times are times of day, and its weekdays are in range and distinct. */
  lemma FormAgreesExactly(schedules: seq<ScheduledAction>, id: string, title: string, days: seq<int>, start: string,
                          end: string, action: Action)
    requires SchedulesOK(schedules) && 0 < |TrimSpace(id)| <= 80 && id !in Ids(schedules)
    requires (forall i | 0 <= i < |days| :: days[i] >= 0) && (action == Allow || action == Block)
    requires FormChecks(title, days, start, end)
    ensures var candidate := FormSchedule(id, title, days, start, end, action);
            && FormReads(schedules, candidate)
            && (SchedulesOK(schedules + [candidate]) <==>
                  && FormPasses(schedules, candidate)
                  && ParseMinute(start).Some? && ParseMinute(end).Some? && DistinctDays(days))
  {
    hide SchedulesOK, DistinctDays, Ids, ParseMinute, FormChecks, ScheduleOK, TwoDigits, FormCells, WindowCells,
         CellsOf, Union, AllValid, FormLets, Apart;
    var candidate := FormSchedule(id, title, days, start, end, action);
    AcceptSnoc(schedules, candidate);
    ChecksGiveWindow(title, days, start, end);
    FormReadsAccepted(schedules, candidate);
    CheckedIsValid(id, title, days, start, end, action);
    if ParseMinute(start).Some? && ParseMinute(end).Some? {
      FormCellsAgree(candidate.window);
    }
  }

  /** A schedule that fails the form's checks, other than by blanks around its label, the server refuses as well. */
  lemma FormRefusesRightly(schedules: seq<ScheduledAction>, id: string, title: string, days: seq<int>, start: string,
                           end: string, action: Action)
    requires !FormChecks(title, days, start, end) && |title| <= 80
    ensures !SchedulesOK(schedules + [FormSchedule(id, title, days, start, end, action)])
  {
    hide SchedulesOK, FormChecks, ScheduleOK;
    AcceptSnoc(schedules, FormSchedule(id, title, days, start, end, action));
    UncheckedIsInvalid(id, title, days, start, end, action);
  }

  /** They do disagree: the form lets "24:00" to "25:00" through, which the server refuses. */
  lemma FormLetsHoursOutOfRange(id: string, action: Action)
    requires 0 < |TrimSpace(id)| <= 80 && (action == Allow || action == Block)
    ensures var candidate := FormSchedule(id, "x", [1], "24:00", "25:00", action);
            && FormChecks("x", [1], "24:00", "25:00") && FormWindow(candidate.window)
            && FormLets([], candidate) && !SchedulesOK([] + [candidate])
  {
    TrimKeeps("x");
    OutOfRange("24:00");
    hide ParseMinute, SchedulesOK, FormLets, TrimSpace;
    NothingAccepted();
    FormAgreesExactly([], id, "x", [1], "24:00", "25:00", action);
  }

  lemma OutOfRange(value: string)
    requires TwoDigits(value) && FormMinute(value) >= DAY
    ensures ParseMinute(value).None?
  {
    FormMinuteAgrees(value);
    ParseMinuteInDay(value);
  }

  lemma NothingAccepted()
    ensures SchedulesOK([]) && Ids([]) == {}
  {
  }

  lemma ChecksGiveWindow(title: string, days: seq<int>, start: string, end: string)
    requires FormChecks(title, days, start, end)
    ensures TwoDigits(start) && TwoDigits(end)
  {
  }
}
