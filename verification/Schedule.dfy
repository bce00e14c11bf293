/** Weekly time windows: parsing, validation, activity, and the cells of the 10080-minute week. */
module Schedule {
  import opened Text
  import opened PolicyTypes

  const DAY := 1440
  const WEEK := 10080

  // ---- "HH:MM" -------------------------------------------------------------

  predicate IsDigit(c: char) {
    '0' <= c <= '9'
  }

  function Digit(c: char): nat
    requires IsDigit(c)
  {
    c as nat - '0' as nat
  }

  function DigitChar(n: nat): (c: char)
    requires n < 10
    ensures IsDigit(c) && Digit(c) == n
  {
    ('0' as nat + n) as char
  }

  /** Reads the rest of an "HH:MM" text from position `i`: two digits, a colon, two digits, in range. */
  function ReadFrom(value: string, i: nat, hour: nat, minute: nat): Option<nat>
    requires i <= |value|
    decreases |value| - i
  {
    if i == |value| then
      if i == 5 && hour <= 23 && minute <= 59 then Some(hour * 60 + minute) else None
    else if i == 2 then
      if value[i] == ':' then ReadFrom(value, i + 1, hour, minute) else None
    else if i > 4 || !IsDigit(value[i]) then None
    else if i < 2 then ReadFrom(value, i + 1, 10 * hour + Digit(value[i]), minute)
    else ReadFrom(value, i + 1, hour, 10 * minute + Digit(value[i]))
  }

  /** The minute of the day a text writes: what both parsers compute, as `ParsersAgree` shows. */
  function ParseMinute(value: string): Option<nat> {
    ReadFrom(value, 0, 0, 0)
  }

  /** One or two digits and two digits as a time of day, when in range. */
  function ReadTime(hour: string, minute: string): Option<nat> {
    if !(0 < |hour| <= 2 && |minute| == 2) then None
    else if !(IsDigit(hour[0]) && IsDigit(hour[|hour| - 1]) && IsDigit(minute[0]) && IsDigit(minute[1])) then None
    else
      var h := if |hour| == 1 then Digit(hour[0]) else 10 * Digit(hour[0]) + Digit(hour[1]);
      var m := 10 * Digit(minute[0]) + Digit(minute[1]);
      if h > 23 || m > 59 then None else Some(h * 60 + m)
  }

  /** `Format("15:04")`. */
  function FormatMinute(minute: nat): string
    requires minute < DAY
  {
    var h, m := minute / 60, minute % 60;
    [DigitChar(h / 10), DigitChar(h % 10), ':', DigitChar(m / 10), DigitChar(m % 10)]
  }

  /** `time.Parse("15:04", value)`: an hour of one or two digits, a colon, a two-digit minute. */
  function ParseLayout(value: string): (r: Option<nat>)
    ensures r.Some? ==> r.value < DAY
  {
    var width := if |value| >= 2 && IsDigit(value[1]) then 2 else 1;
    if |value| == width + 3 && value[width] == ':' then ReadTime(value[..width], value[width + 1..]) else None
  }

  /** The server accepts a time only when printing the parsed time gives the text back. */
  function ParseMinuteGo(value: string): Option<nat> {
    match ParseLayout(value)
    case None => None
    case Some(minute) => if FormatMinute(minute) == value then Some(minute) else None
  }

  /** The extension's parser: the pattern `\d{2}:\d{2}`, then the ranges. */
  function ParseMinuteJs(value: string): Option<nat> {
    if |value| == 5 && value[2] == ':' then ReadTime(value[..2], value[3..]) else None
  }

  lemma ReadDigits(value: string)
    requires |value| == 5
    ensures ParseMinuteJs(value) == ParseMinute(value)
  {
    if IsDigit(value[0]) && IsDigit(value[1]) {
      var h := 10 * Digit(value[0]) + Digit(value[1]);
      assert ReadFrom(value, 1, Digit(value[0]), 0) == ReadFrom(value, 2, h, 0);
      if value[2] == ':' && IsDigit(value[3]) && IsDigit(value[4]) {
        var m := 10 * Digit(value[3]) + Digit(value[4]);
        assert ReadFrom(value, 4, h, Digit(value[3])) == ReadFrom(value, 5, h, m);
        assert ReadFrom(value, 2, h, 0) == ReadFrom(value, 3, h, 0) == ReadFrom(value, 4, h, Digit(value[3]));
      } else if value[2] == ':' && IsDigit(value[3]) {
        assert ReadFrom(value, 2, h, 0) == ReadFrom(value, 3, h, 0) == ReadFrom(value, 4, h, Digit(value[3])) == None;
      } else if value[2] == ':' {
        assert ReadFrom(value, 2, h, 0) == ReadFrom(value, 3, h, 0) == None;
      }
    } else if IsDigit(value[0]) {
      assert ReadFrom(value, 1, Digit(value[0]), 0) == None;
    }
  }

  lemma {:induction false} OnlyFiveCharacters(value: string, i: nat, hour: nat, minute: nat)
    requires i <= |value| && |value| != 5
    ensures ReadFrom(value, i, hour, minute).None?
    decreases |value| - i
  {
    if i < |value| && i <= 4 && (i == 2 || IsDigit(value[i])) {
      if i == 2 {
        OnlyFiveCharacters(value, i + 1, hour, minute);
      } else if i < 2 {
        OnlyFiveCharacters(value, i + 1, 10 * hour + Digit(value[i]), minute);
      } else {
        OnlyFiveCharacters(value, i + 1, hour, 10 * minute + Digit(value[i]));
      }
    }
  }

  /** Printing a time that was read gives the text back. */
  lemma PrintOfRead(value: string)
    requires ParseMinuteJs(value).Some?
    ensures ParseMinuteJs(value).value < DAY && FormatMinute(ParseMinuteJs(value).value) == value
  {
    var a, b, c, d := Digit(value[0]), Digit(value[1]), Digit(value[3]), Digit(value[4]);
    var h, m := 10 * a + b, 10 * c + d;
    var minute := h * 60 + m;
    assert ParseMinuteJs(value) == Some(minute);
    assert minute / 60 == h && minute % 60 == m;
    assert h / 10 == a && h % 10 == b && m / 10 == c && m % 10 == d;
  }

  /** Reading a printed time gives the minute back. */
  lemma ReadOfPrint(minute: nat)
    requires minute < DAY
    ensures ParseMinuteJs(FormatMinute(minute)) == Some(minute)
  {
    var value := FormatMinute(minute);
    var h, m := minute / 60, minute % 60;
    assert 10 * Digit(value[0]) + Digit(value[1]) == h;
    assert 10 * Digit(value[3]) + Digit(value[4]) == m;
  }

  /** Both parsers accept the same texts, five characters "HH:MM" in range, and read them alike. */
  lemma ParsersAgree(value: string)
    ensures ParseMinuteGo(value) == ParseMinuteJs(value) == ParseMinute(value)
  {
    if |value| == 5 {
      ReadDigits(value);
    } else {
      OnlyFiveCharacters(value, 0, 0, 0);
    }
    if ParseMinuteJs(value).Some? {
      PrintOfRead(value);
      assert ParseLayout(value) == ParseMinuteJs(value);
    }
    if ParseMinuteGo(value).Some? {
      ReadOfPrint(ParseMinuteGo(value).value);
    }
  }

  /** A text is a time exactly when it is the two-digit print of that minute of the day. */
  lemma ParseMinuteIsFormatInverse(value: string, minute: nat)
    ensures ParseMinute(value) == Some(minute) <==> minute < DAY && value == FormatMinute(minute)
  {
    ParsersAgree(value);
    if ParseMinuteJs(value).Some? {
      PrintOfRead(value);
    }
    if minute < DAY {
      ReadOfPrint(minute);
    }
  }

  lemma ParseMinuteInDay(value: string)
    ensures ParseMinute(value).Some? ==> ParseMinute(value).value < DAY
  {
    ParsersAgree(value);
  }

  // ---- validation ----------------------------------------------------------

  datatype WindowError =
    | IdRequired | IdTooLong | LabelRequired | LabelTooLong
    | InvalidStart | InvalidEnd | EmptySpan | NoWeekday
    | WeekdayOutOfRange(day: int) | WeekdayRepeated(day: int)

  /** Every day is a weekday, 0 to 6, that no earlier entry lists. */
  predicate DistinctDays(days: seq<int>) {
    days == [] || (
      var n := |days| - 1;
      DistinctDays(days[..n]) && 0 <= days[n] < 7 && days[n] !in days[..n])
  }

  lemma {:induction false} DistinctDaysAt(days: seq<int>, i: nat)
    requires DistinctDays(days) && i < |days|
    ensures 0 <= days[i] < 7 && days[i] !in days[..i] && DistinctDays(days[..i + 1])
  {
    var n := |days| - 1;
    if i < n {
      DistinctDaysAt(days[..n], i);
      assert days[..n][..i] == days[..i] && days[..n][..i + 1] == days[..i + 1];
    } else {
      assert days[..i + 1] == days;
    }
  }

  lemma {:induction false} DaysInRange(days: seq<int>)
    requires DistinctDays(days)
    ensures forall i | 0 <= i < |days| :: 0 <= days[i] < 7
  {
    forall i | 0 <= i < |days| ensures 0 <= days[i] < 7 { DistinctDaysAt(days, i); }
  }

  predicate ValidNames(w: TimeWindow) {
    0 < |TrimSpace(w.id)| <= 80 && 0 < |TrimSpace(w.title)| <= 80
  }

  predicate ValidTimes(w: TimeWindow) {
    && ParseMinute(w.start).Some? && ParseMinute(w.end).Some?
    && ParseMinute(w.start) != ParseMinute(w.end)
  }

  predicate ValidWindow(w: TimeWindow) {
    ValidNames(w) && ValidTimes(w) && w.days != [] && DistinctDays(w.days)
  }

  /** The day at `k` is the first that is out of range or repeats an earlier one. */
  predicate FirstBadDay(days: seq<int>, k: nat) {
    k < |days| && DistinctDays(days[..k]) && !(0 <= days[k] < 7 && days[k] !in days[..k])
  }

  /** The checks in the order they are made: each error is returned exactly when it is the first that applies. */
  method ValidateWindow(w: TimeWindow) returns (error: Option<WindowError>)
    ensures error.None? <==> ValidWindow(w)
    ensures error == Some(IdRequired) <==> TrimSpace(w.id) == ""
    ensures error == Some(IdTooLong) <==> |TrimSpace(w.id)| > 80
    ensures error == Some(LabelRequired) <==> 0 < |TrimSpace(w.id)| <= 80 && TrimSpace(w.title) == ""
    ensures error == Some(LabelTooLong) <==> 0 < |TrimSpace(w.id)| <= 80 && |TrimSpace(w.title)| > 80
    ensures error == Some(InvalidStart) <==> ValidNames(w) && ParseMinute(w.start).None?
    ensures error == Some(InvalidEnd) <==> ValidNames(w) && ParseMinute(w.start).Some? && ParseMinute(w.end).None?
    ensures error == Some(EmptySpan) <==>
              ValidNames(w) && ParseMinute(w.start).Some? && ParseMinute(w.start) == ParseMinute(w.end)
    ensures error == Some(NoWeekday) <==> ValidNames(w) && ValidTimes(w) && w.days == []
    ensures error.Some? && error.value.WeekdayOutOfRange? ==>
              exists k: nat :: FirstBadDay(w.days, k) && w.days[k] == error.value.day && !(0 <= w.days[k] < 7)
    ensures error.Some? && error.value.WeekdayRepeated? ==>
              exists k: nat :: FirstBadDay(w.days, k) && w.days[k] == error.value.day && 0 <= w.days[k] < 7
  {
    var id := TrimSpace(w.id);
    if id == "" { return Some(IdRequired); }
    if |id| > 80 { return Some(IdTooLong); }
    var title := TrimSpace(w.title);
    if title == "" { return Some(LabelRequired); }
    if |title| > 80 { return Some(LabelTooLong); }
    var start := ParseMinute(w.start);
    if start.None? { return Some(InvalidStart); }
    var end := ParseMinute(w.end);
    if end.None? { return Some(InvalidEnd); }
    if start == end { return Some(EmptySpan); }
    if w.days == [] { return Some(NoWeekday); }
    var seen: set<int> := {};
    for k := 0 to |w.days|
      invariant seen == set i | 0 <= i < k :: w.days[i]
      invariant DistinctDays(w.days[..k])
    {
      var day := w.days[k];
      assert w.days[..k + 1][..k] == w.days[..k];
      if DistinctDays(w.days) {
        DistinctDaysAt(w.days, k);
      }
      if day < 0 || day > 6 {
        assert FirstBadDay(w.days, k);
        return Some(WeekdayOutOfRange(day));
      }
      if day in seen {
        assert FirstBadDay(w.days, k);
        return Some(WeekdayRepeated(day));
      }
      seen := seen + {day};
    }
    assert w.days[..|w.days|] == w.days;
    return None;
  }

  // ---- activity ------------------------------------------------------------

  /** The server ignores a parse error and goes on with minute zero. */
  function MinuteOrZero(value: string): (m: nat)
    ensures m < DAY
  {
    ParseMinuteInDay(value);
    match ParseMinute(value) case None => 0 case Some(m) => m
  }

  function MinuteOfDay(clock: Clock): int {
    clock.hour * 60 + clock.minute
  }

  /** One turn of the loop over a window's days. */
  predicate DayActive(day: int, start: int, end: int, today: int, minute: int) {
    || (day == today && end > start && start <= minute < end)
    || (day == today && end < start && minute >= start)
    || (end < start && day == (today + 6) % 7 && minute < end)
  }

  /** The loop over a window's days, which stops at the first turn that finds it active. */
  predicate SomeDayActive(days: seq<int>, start: int, end: int, clock: Clock) {
    days != [] && (
      || SomeDayActive(days[..|days| - 1], start, end, clock)
      || DayActive(days[|days| - 1], start, end, clock.weekday, MinuteOfDay(clock)))
  }

  /** The server's test whether a window is active. */
  predicate WindowActive(w: TimeWindow, clock: Clock) {
    SomeDayActive(w.days, MinuteOrZero(w.start), MinuteOrZero(w.end), clock)
  }

  /** The extension's test: a time that does not parse makes the window inactive. */
  predicate WindowActiveJs(w: TimeWindow, clock: Clock) {
    var start, end := ParseMinuteJs(w.start), ParseMinuteJs(w.end);
    start.Some? && end.Some? && SomeDayActive(w.days, start.value, end.value, clock)
  }

  lemma WindowActiveMirrored(w: TimeWindow, clock: Clock)
    requires ParseMinute(w.start).Some? && ParseMinute(w.end).Some?
    ensures WindowActiveJs(w, clock) == WindowActive(w, clock)
  {
    ParsersAgree(w.start);
    ParsersAgree(w.end);
  }

  /** The first active schedule of a group, if any. */
  function ActiveScheduled(schedules: seq<ScheduledAction>, clock: Clock): Option<ScheduledAction> {
    if schedules == [] then None
    else if WindowActive(schedules[0].window, clock) then Some(schedules[0])
    else ActiveScheduled(schedules[1..], clock)
  }

  function ActiveScheduledJs(schedules: seq<ScheduledAction>, clock: Clock): Option<ScheduledAction> {
    if schedules == [] then None
    else if WindowActiveJs(schedules[0].window, clock) then Some(schedules[0])
    else ActiveScheduledJs(schedules[1..], clock)
  }

  // ---- the circle of the week ----------------------------------------------

  function MinuteOfWeek(clock: Clock): int {
    clock.weekday * DAY + MinuteOfDay(clock)
  }

  /** The length of the span from one time of day to another; equal times span a whole day. */
  function Duration(start: nat, end: nat): nat
    requires start < DAY && end < DAY
  {
    if end <= start then end - start + DAY else end - start
  }

  /** The cell `offset` minutes after `first`, walking around the week a minute at a time. */
  function Cell(first: int, offset: nat): (m: int)
    ensures 0 <= m < WEEK
  {
    if offset == 0 then first % WEEK
    else
      var m := Cell(first, offset - 1);
      if m == WEEK - 1 then 0 else m + 1
  }

  lemma ModNext(x: int)
    ensures (x + 1) % WEEK == if x % WEEK == WEEK - 1 then 0 else x % WEEK + 1
  {
    assert x == x / WEEK * WEEK + x % WEEK;
    assert x + 1 == (x + 1) / WEEK * WEEK + (x + 1) % WEEK;
  }

  /** The walk ends where the source's modulus says. */
  lemma {:induction false} CellIsModulo(first: int, offset: nat)
    ensures Cell(first, offset) == (first + offset) % WEEK
  {
    if offset > 0 {
      CellIsModulo(first, offset - 1);
      ModNext(first + offset - 1);
    }
  }

  /** The cells that `length` turns of the loop over offsets fill. */
  function Arc(first: int, length: nat): set<int> {
    if length == 0 then {} else Arc(first, length - 1) + {Cell(first, length - 1)}
  }

  /** The cells of a span of `length` minutes from `start` on each weekday of a list. */
  function SpanCells(days: seq<int>, start: nat, length: nat): set<int> {
    if days == [] then {}
    else SpanCells(days[..|days| - 1], start, length) + Arc(days[|days| - 1] * DAY + start, length)
  }

  function WindowCells(w: TimeWindow): set<int> {
    var start := MinuteOrZero(w.start);
    SpanCells(w.days, start, Duration(start, MinuteOrZero(w.end)))
  }

  /** The cell at an offset is the one cell at that distance from the start. */
  lemma CellDistance(first: int, offset: nat, m: int)
    requires offset < WEEK && 0 <= m < WEEK
    ensures (m - first) % WEEK == offset <==> m == Cell(first, offset)
  {
    CellIsModulo(first, offset);
    assert m - first == (m - first) / WEEK * WEEK + (m - first) % WEEK;
    assert first + offset == (first + offset) / WEEK * WEEK + (first + offset) % WEEK;
  }

  /** An arc is the set of cells less than its length after its start, counted around the week. */
  lemma {:induction false} ArcMember(first: int, length: nat, m: int)
    requires length <= WEEK
    ensures m in Arc(first, length) <==> 0 <= m < WEEK && (m - first) % WEEK < length
  {
    if length > 0 {
      ArcMember(first, length - 1, m);
      if 0 <= m < WEEK {
        CellDistance(first, length - 1, m);
      }
    }
  }

  lemma {:induction false} SpanMember(days: seq<int>, start: nat, length: nat, m: int)
    ensures m in SpanCells(days, start, length) <==>
            exists i :: 0 <= i < |days| && m in Arc(days[i] * DAY + start, length)
  {
    if days != [] {
      var n := |days| - 1;
      SpanMember(days[..n], start, length, m);
      assert forall i | 0 <= i < n :: days[..n][i] == days[i];
    }
  }

  lemma ModWeek(x: int)
    requires -WEEK <= x < WEEK
    ensures x % WEEK == if x >= 0 then x else x + WEEK
  {
  }

  /** The arcs that one window spans on two different weekdays have no cell in common. */
  lemma DaysDoNotMeet(start: nat, length: nat, d: int, e: int, m: int)
    requires 0 <= d < 7 && 0 <= e < 7 && d != e && start < DAY && length <= DAY
    ensures m !in Arc(d * DAY + start, length) || m !in Arc(e * DAY + start, length)
  {
    ArcMember(d * DAY + start, length, m);
    ArcMember(e * DAY + start, length, m);
    if 0 <= m < WEEK {
      ModWeek(m - (d * DAY + start));
      ModWeek(m - (e * DAY + start));
    }
  }

  lemma DayActiveIsArc(day: int, start: nat, end: nat, clock: Clock)
    requires 0 <= day < 7 && start < DAY && end < DAY && start != end && ValidClock(clock)
    ensures DayActive(day, start, end, clock.weekday, MinuteOfDay(clock)) <==>
            MinuteOfWeek(clock) in Arc(day * DAY + start, Duration(start, end))
  {
    var length := Duration(start, end);
    var today, minute := clock.weekday, MinuteOfDay(clock);
    ArcMember(day * DAY + start, length, MinuteOfWeek(clock));
    ModWeek(MinuteOfWeek(clock) - (day * DAY + start));
    Turns(day, start, end, length, today, minute);
  }

  /** The case analysis of one day's turn, as linear arithmetic on the circle. */
  lemma Turns(day: int, start: int, end: int, length: int, today: int, minute: int)
    requires 0 <= day < 7 && 0 <= today < 7 && 0 <= start < DAY && 0 <= end < DAY && 0 <= minute < DAY
    requires start != end && length == if end < start then end - start + DAY else end - start
    ensures var x := today * DAY + minute - (day * DAY + start);
            DayActive(day, start, end, today, minute) <==> (if x >= 0 then x else x + WEEK) < length
  {
    assert (today + 6) % 7 == if today == 0 then 6 else today - 1;
  }

  lemma {:induction false} SpanActive(days: seq<int>, start: nat, end: nat, clock: Clock)
    requires forall i | 0 <= i < |days| :: 0 <= days[i] < 7
    requires start < DAY && end < DAY && start != end && ValidClock(clock)
    ensures SomeDayActive(days, start, end, clock) <==>
            MinuteOfWeek(clock) in SpanCells(days, start, Duration(start, end))
  {
    if days != [] {
      SpanActive(days[..|days| - 1], start, end, clock);
      DayActiveIsArc(days[|days| - 1], start, end, clock);
    }
  }

  lemma {:induction false} NeverActive(days: seq<int>, start: nat, clock: Clock)
    ensures !SomeDayActive(days, start, start, clock)
  {
    if days != [] {
      NeverActive(days[..|days| - 1], start, clock);
    }
  }

  /** The two readings of a valid window, activity at a clock and cells of the week, denote one set. */
  lemma WeekCircle(w: TimeWindow, clock: Clock)
    requires ValidWindow(w) && ValidClock(clock)
    ensures WindowActive(w, clock) <==> MinuteOfWeek(clock) in WindowCells(w)
  {
    DaysInRange(w.days);
    SpanActive(w.days, MinuteOrZero(w.start), MinuteOrZero(w.end), clock);
  }

  /** Less than a length after an instant, going forward around the week. */
  predicate SoonAfter(first: int, length: int, now: int) {
    (now - first) % 10080 < length
  }

  /** At that clock it is less than the window's length after its start on that day, going forward around the week. */
  predicate OpenFrom(w: TimeWindow, day: int, clock: Clock)
    requires ParseMinute(w.start).Some? && ParseMinute(w.end).Some?
  {
    var start: int, end: int := ParseMinute(w.start).value, ParseMinute(w.end).value;
    SoonAfter(day * 1440 + start, if end <= start then end - start + 1440 else end - start,
              clock.weekday * 1440 + clock.hour * 60 + clock.minute)
  }

  /** A valid window is active exactly at the clocks at which it is open from one of its days. */
  lemma ActiveAroundTheWeek(w: TimeWindow, clock: Clock)
    requires ValidWindow(w) && ValidClock(clock)
    ensures WindowActive(w, clock) <==> exists i :: 0 <= i < |w.days| && OpenFrom(w, w.days[i], clock)
  {
    hide ParseMinute, WindowActive, DistinctDays, ValidNames, SpanCells, Arc, OpenFrom, MinuteOfWeek, Duration;
    var start, length := MinuteOrZero(w.start), Duration(MinuteOrZero(w.start), MinuteOrZero(w.end));
    WeekCircle(w, clock);
    SpanMember(w.days, start, length, MinuteOfWeek(clock));
    forall i | 0 <= i < |w.days|
      ensures OpenFrom(w, w.days[i], clock) <==> MinuteOfWeek(clock) in Arc(w.days[i] * DAY + start, length)
    {
      OpenIsArc(w, w.days[i], clock);
    }
  }

  lemma OpenIsArc(w: TimeWindow, day: int, clock: Clock)
    requires ValidTimes(w) && ValidClock(clock)
    ensures OpenFrom(w, day, clock) <==>
            MinuteOfWeek(clock) in Arc(day * DAY + MinuteOrZero(w.start),
                                       Duration(MinuteOrZero(w.start), MinuteOrZero(w.end)))
  {
    hide Arc, SoonAfter, MinuteOfWeek, Duration, MinuteOrZero, ParseMinute;
    var start, end := MinuteOrZero(w.start), MinuteOrZero(w.end);
    ZeroIsNotNeeded(w.start);
    ZeroIsNotNeeded(w.end);
    Minutes(day, clock, start, end);
    ArcIsSoonAfter(day * DAY + start, Duration(start, end), MinuteOfWeek(clock));
  }

  lemma ZeroIsNotNeeded(value: string)
    requires ParseMinute(value).Some?
    ensures MinuteOrZero(value) == ParseMinute(value).value
  {
    hide ParseMinute;
  }

  /** The numbers of the week, written out. */
  lemma Minutes(day: int, clock: Clock, start: nat, end: nat)
    requires ValidClock(clock) && start < DAY && end < DAY
    ensures day * DAY == day * 1440 && WEEK == 10080
    ensures MinuteOfWeek(clock) == clock.weekday * 1440 + clock.hour * 60 + clock.minute
    ensures 0 <= MinuteOfWeek(clock) < WEEK
    ensures Duration(start, end) == if end <= start then end - start + 1440 else end - start
    ensures Duration(start, end) <= WEEK
  {
  }

  lemma ArcIsSoonAfter(first: int, length: nat, m: int)
    requires length <= WEEK && 0 <= m < WEEK
    ensures m in Arc(first, length) <==> SoonAfter(first, length, m)
  {
    hide Arc;
    ArcMember(first, length, m);
  }

  /** A window from a time to the same time: never active, yet it fills its first cell. */
  lemma EmptySpanFills(days: seq<int>, start: nat, clock: Clock)
    requires days != [] && 0 <= days[0] < 7 && start < DAY
    requires clock == Clock(days[0], start / 60, start % 60)
    ensures ValidClock(clock) && !SomeDayActive(days, start, start, clock)
    ensures MinuteOfWeek(clock) in SpanCells(days, start, Duration(start, start))
  {
    NeverActive(days, start, clock);
    var m := days[0] * DAY + start;
    assert MinuteOfWeek(clock) == m;
    ArcMember(m, DAY, m);
    SpanMember(days, start, DAY, m);
  }

  /** For every window on weekdays 0 to 6, however its times read, the two readings agree at all
      clocks exactly when the times differ (or no weekday is listed). */
  lemma WeekCircleExactly(w: TimeWindow)
    requires forall i | 0 <= i < |w.days| :: 0 <= w.days[i] < 7
    ensures (forall clock | ValidClock(clock) :: WindowActive(w, clock) <==> MinuteOfWeek(clock) in WindowCells(w)) <==>
            (MinuteOrZero(w.start) != MinuteOrZero(w.end) || w.days == [])
  {
    var start, end := MinuteOrZero(w.start), MinuteOrZero(w.end);
    if start != end {
      forall clock | ValidClock(clock)
        ensures WindowActive(w, clock) <==> MinuteOfWeek(clock) in WindowCells(w)
      {
        SpanActive(w.days, start, end, clock);
      }
    } else if w.days != [] {
      EmptySpanFills(w.days, start, Clock(w.days[0], start / 60, start % 60));
    }
  }

  /** Every cell of the week is the minute of exactly one clock. */
  function ClockOfMinute(m: int): (clock: Clock)
    requires 0 <= m < WEEK
    ensures ValidClock(clock) && MinuteOfWeek(clock) == m
  {
    Clock(m / DAY, m % DAY / 60, m % 60)
  }

  /** Only minutes of the week are cells. */
  lemma CellsInWeek(days: seq<int>, start: nat, length: nat, m: int)
    requires m in SpanCells(days, start, length) && length <= DAY
    ensures 0 <= m < WEEK
  {
    SpanMember(days, start, length, m);
    var i :| 0 <= i < |days| && m in Arc(days[i] * DAY + start, length);
    ArcMember(days[i] * DAY + start, length, m);
  }
}
