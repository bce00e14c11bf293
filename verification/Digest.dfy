/** The digest store: counters of observed domains per profile and part of the day. */
module Digest {
  import opened Text
  import opened PolicyTypes
  import opened DigestReport

  datatype Key = Key(profileId: string, period: string, domain: string)

  datatype Entry = Entry(category: string, reason: string, groupName: string, count: int)

  /** A handled query as the gateway reports it; `hour` is its hour in the digest's zone. */
  datatype Observation = Observation(profileId: string, action: Action, matchedDomain: string, hour: int,
                                     category: string, reason: string, groupName: string)

  function PeriodFor(hour: int): string {
    if 5 <= hour < 12 then "manha" else if 12 <= hour < 18 then "tarde" else "noite"
  }

  function KeyOf(o: Observation): Key {
    Key(o.profileId, PeriodFor(o.hour), o.matchedDomain)
  }

  /** Only observed queries that matched a listed domain are recorded. */
  predicate Recorded(o: Observation) {
    o.action == Observe && o.matchedDomain != ""
  }

  function Count(entries: map<Key, Entry>, k: Key): int {
    if k in entries then entries[k].count else 0
  }

  function Written(entries: map<Key, Entry>, o: Observation): map<Key, Entry> {
    if !Recorded(o) then entries
    else entries[KeyOf(o) := Entry(o.category, o.reason, o.groupName, Count(entries, KeyOf(o)) + 1)]
  }

  function Chosen(entries: map<Key, Entry>, ids: set<string>): map<Key, Entry> {
    map k | k in entries && k.profileId in ids :: entries[k]
  }

  function Without(entries: map<Key, Entry>, ids: set<string>): map<Key, Entry> {
    map k | k in entries && k.profileId !in ids :: entries[k]
  }

  predicate Due(lastSentAt: map<string, int>, houseId: string, now: int, interval: int) {
    houseId in lastSentAt ==> now - lastSentAt[houseId] >= interval
  }

  // ---- the report -----------------------------------------------------------

  /** Where a counter appears in a report. */
  datatype Cell = Cell(category: string, domain: string, period: string)

  function CellOf(entries: map<Key, Entry>, k: Key): Cell
    requires k in entries
  {
    Cell(entries[k].category, k.domain, k.period)
  }

  predicate Shows(report: map<string, Accumulator>, c: Cell) {
    && c.category in report && c.domain in report[c.category].domains
    && c.period in report[c.category].domains[c.domain]
  }

  function Shown(report: map<string, Accumulator>, c: Cell): int {
    if Shows(report, c) then report[c.category].domains[c.domain][c.period] else 0
  }

  /** One iteration of the report's loop. */
  function Accumulated(report: map<string, Accumulator>, entry: Entry, k: Key): map<string, Accumulator> {
    var bucket := if entry.category in report then report[entry.category]
                  else Accumulator(entry.groupName, entry.reason, map[]);
    var counts := if k.domain in bucket.domains then bucket.domains[k.domain] else map[];
    var count := if k.period in counts then counts[k.period] else 0;
    report[entry.category := bucket.(domains := bucket.domains[k.domain := counts[k.period := count + entry.count]])]
  }

  lemma AccumulatedShown(report: map<string, Accumulator>, entry: Entry, k: Key, c: Cell)
    ensures var at := Cell(entry.category, k.domain, k.period);
            && Shows(Accumulated(report, entry, k), c) == (c == at || Shows(report, c))
            && Shown(Accumulated(report, entry, k), c) == Shown(report, c) + (if c == at then entry.count else 0)
  {
  }

  /** The stored counts of `keys`, added up over those that belong in cell `c`. */
  ghost function CellTotal(entries: map<Key, Entry>, keys: set<Key>, c: Cell): int
    requires keys <= entries.Keys
  {
    if keys == {} then 0
    else
      var k :| k in keys;
      (if CellOf(entries, k) == c then entries[k].count else 0) + CellTotal(entries, keys - {k}, c)
  }

  /** The choice made by `CellTotal` does not matter. */
  lemma {:induction false} CellTotalStep(entries: map<Key, Entry>, keys: set<Key>, c: Cell, k: Key)
    requires keys <= entries.Keys && k in keys
    ensures CellTotal(entries, keys, c) ==
            (if CellOf(entries, k) == c then entries[k].count else 0) + CellTotal(entries, keys - {k}, c)
    decreases keys
  {
    var j :| j in keys && CellTotal(entries, keys, c) ==
                          (if CellOf(entries, j) == c then entries[j].count else 0) + CellTotal(entries, keys - {j}, c);
    if j != k {
      CellTotalStep(entries, keys - {j}, c, k);
      CellTotalStep(entries, keys - {k}, c, j);
      assert keys - {j} - {k} == keys - {k} - {j};
    }
  }

  /** All the counts of `keys`. */
  ghost function Total(entries: map<Key, Entry>, keys: set<Key>): int
    requires keys <= entries.Keys
  {
    if keys == {} then 0 else var k :| k in keys; entries[k].count + Total(entries, keys - {k})
  }

  /** The cell totals over `cells`, added up. */
  ghost function CellsTotal(entries: map<Key, Entry>, keys: set<Key>, cells: set<Cell>): int
    requires keys <= entries.Keys
  {
    if cells == {} then 0
    else var c :| c in cells; CellTotal(entries, keys, c) + CellsTotal(entries, keys, cells - {c})
  }

  lemma {:induction false} CellsTotalWithout(entries: map<Key, Entry>, keys: set<Key>, cells: set<Cell>, k: Key)
    requires keys <= entries.Keys && k in keys
    ensures CellsTotal(entries, keys, cells) ==
            (if CellOf(entries, k) in cells then entries[k].count else 0) + CellsTotal(entries, keys - {k}, cells)
    decreases cells
  {
    if cells != {} {
      var c :| c in cells && CellsTotal(entries, keys, cells) ==
                             CellTotal(entries, keys, c) + CellsTotal(entries, keys, cells - {c});
      CellTotalStep(entries, keys, c, k);
      CellsTotalWithout(entries, keys, cells - {c}, k);
      CellsTotalStep(entries, keys - {k}, cells, c);
    }
  }

  lemma {:induction false} CellsTotalStep(entries: map<Key, Entry>, keys: set<Key>, cells: set<Cell>, c: Cell)
    requires keys <= entries.Keys && c in cells
    ensures CellsTotal(entries, keys, cells) == CellTotal(entries, keys, c) + CellsTotal(entries, keys, cells - {c})
    decreases cells
  {
    var d :| d in cells && CellsTotal(entries, keys, cells) ==
                           CellTotal(entries, keys, d) + CellsTotal(entries, keys, cells - {d});
    if d != c {
      CellsTotalStep(entries, keys, cells - {d}, c);
      CellsTotalStep(entries, keys, cells - {c}, d);
      assert cells - {d} - {c} == cells - {c} - {d};
    }
  }

  lemma {:induction false} NothingToShow(entries: map<Key, Entry>, keys: set<Key>, cells: set<Cell>)
    requires keys == {}
    ensures CellsTotal(entries, keys, cells) == 0
    decreases cells
  {
    if cells != {} {
      var c :| c in cells && CellsTotal(entries, keys, cells) ==
                             CellTotal(entries, keys, c) + CellsTotal(entries, keys, cells - {c});
      assert CellTotal(entries, keys, c) == 0;
      NothingToShow(entries, keys, cells - {c});
    }
  }

  lemma {:induction false} CellsAddUp(entries: map<Key, Entry>, keys: set<Key>, cells: set<Cell>)
    requires keys <= entries.Keys
    requires forall k | k in keys :: CellOf(entries, k) in cells
    ensures CellsTotal(entries, keys, cells) == Total(entries, keys)
    decreases keys
  {
    if keys == {} {
      NothingToShow(entries, keys, cells);
    } else {
      var k :| k in keys && Total(entries, keys) == entries[k].count + Total(entries, keys - {k});
      CellsTotalWithout(entries, keys, cells, k);
      CellsAddUp(entries, keys - {k}, cells);
    }
  }

  /** What a report over `keys` has to show: each cell the sum of the stored counts that belong there, and a cell
      exactly where there is a stored counter. */
  ghost predicate Reports(report: map<string, Accumulator>, entries: map<Key, Entry>, keys: set<Key>)
    requires keys <= entries.Keys
  {
    && (forall c :: Shown(report, c) == CellTotal(entries, keys, c))
    && (forall c :: Shows(report, c) <==> exists k :: k in keys && CellOf(entries, k) == c)
  }

  lemma {:induction false} CellTotalOfSame(a: map<Key, Entry>, b: map<Key, Entry>, keys: set<Key>, c: Cell)
    requires keys <= a.Keys && keys <= b.Keys && forall k | k in keys :: a[k] == b[k]
    ensures CellTotal(a, keys, c) == CellTotal(b, keys, c)
    decreases keys
  {
    if keys != {} {
      var k :| k in keys && CellTotal(a, keys, c) ==
                            (if CellOf(a, k) == c then a[k].count else 0) + CellTotal(a, keys - {k}, c);
      CellTotalOfSame(a, b, keys - {k}, c);
      CellTotalStep(b, keys, c, k);
      assert CellOf(a, k) == CellOf(b, k) && a[k] == b[k];
    }
  }

  /** A report over some counters of the store is a report over those counters alone. */
  lemma ReportsChosen(report: map<string, Accumulator>, entries: map<Key, Entry>, ids: set<string>)
    requires Reports(report, entries, Chosen(entries, ids).Keys)
    ensures Reports(report, Chosen(entries, ids), Chosen(entries, ids).Keys)
  {
    hide CellTotal, Shown, Shows;
    var chosen := Chosen(entries, ids);
    forall c
      ensures Shown(report, c) == CellTotal(chosen, chosen.Keys, c)
    {
      CellTotalOfSame(entries, chosen, chosen.Keys, c);
    }
    forall c
      ensures Shows(report, c) <==> exists k :: k in chosen.Keys && CellOf(chosen, k) == c
    {
      if k :| k in chosen.Keys && CellOf(chosen, k) == c {
        assert CellOf(entries, k) == c;
      }
      if Shows(report, c) {
        var k :| k in chosen.Keys && CellOf(entries, k) == c;
        assert CellOf(chosen, k) == c;
      }
    }
  }

  predicate Titles(entry: Entry, category: string, bucket: Accumulator) {
    entry.category == category && entry.groupName == bucket.groupName && entry.reason == bucket.reason
  }

  /** Each category is titled by one of its counters; which one depends on the iteration order. */
  ghost predicate Titled(report: map<string, Accumulator>, entries: map<Key, Entry>, keys: set<Key>)
    requires keys <= entries.Keys
  {
    forall category | category in report :: exists k :: k in keys && Titles(entries[k], category, report[category])
  }

  /** A mailed report: it lists, in alphabetical order, a report over `keys`. */
  ghost predicate Summarises(list: seq<CategoryDigest>, entries: map<Key, Entry>, keys: set<Key>)
    requires keys <= entries.Keys
  {
    exists report :: Lists(list, report) && Reports(report, entries, keys) && Titled(report, entries, keys)
  }

  lemma TitledChosen(report: map<string, Accumulator>, entries: map<Key, Entry>, ids: set<string>)
    requires Titled(report, entries, Chosen(entries, ids).Keys)
    ensures Titled(report, Chosen(entries, ids), Chosen(entries, ids).Keys)
  {
    var chosen := Chosen(entries, ids);
    forall category | category in report
      ensures exists k :: k in chosen.Keys && Titles(chosen[k], category, report[category])
    {
      var k :| k in chosen.Keys && Titles(entries[k], category, report[category]);
      assert chosen[k] == entries[k];
    }
  }

  /** A mailed report on some counters of the store is one on those counters alone. */
  lemma SummarisesChosen(list: seq<CategoryDigest>, entries: map<Key, Entry>, ids: set<string>)
    requires Summarises(list, entries, Chosen(entries, ids).Keys)
    ensures Summarises(list, Chosen(entries, ids), Chosen(entries, ids).Keys)
  {
    hide Lists, Reports, Titled;
    var report :|
      && Lists(list, report) && Reports(report, entries, Chosen(entries, ids).Keys)
      && Titled(report, entries, Chosen(entries, ids).Keys);
    ReportsChosen(report, entries, ids);
    TitledChosen(report, entries, ids);
  }

  lemma AccumulatedTitles(report: map<string, Accumulator>, entries: map<Key, Entry>, keys: set<Key>, k: Key)
    requires keys <= entries.Keys && k in entries && Titled(report, entries, keys)
    ensures Titled(Accumulated(report, entries[k], k), entries, keys + {k})
  {
    var after := Accumulated(report, entries[k], k);
    forall category | category in after
      ensures exists j :: j in keys + {k} && Titles(entries[j], category, after[category])
    {
      if category in report {
        var j :| j in keys && Titles(entries[j], category, report[category]);
        assert Titles(entries[j], category, after[category]);
      } else {
        assert Titles(entries[k], category, after[category]);
      }
    }
  }

  /** The numbers a report shows in `cells`, added up. */
  ghost function ShownTotal(report: map<string, Accumulator>, cells: set<Cell>): int {
    if cells == {} then 0 else var c :| c in cells; Shown(report, c) + ShownTotal(report, cells - {c})
  }

  lemma {:induction false} ShownIsStored(report: map<string, Accumulator>, entries: map<Key, Entry>, keys: set<Key>,
                                         cells: set<Cell>)
    requires keys <= entries.Keys && Reports(report, entries, keys)
    ensures ShownTotal(report, cells) == CellsTotal(entries, keys, cells)
    decreases cells
  {
    if cells != {} {
      var c :| c in cells && ShownTotal(report, cells) == Shown(report, c) + ShownTotal(report, cells - {c});
      CellsTotalStep(entries, keys, cells, c);
      ShownIsStored(report, entries, keys, cells - {c});
    }
  }

  /** No count is lost or shown twice: all the numbers of a report add up to the stored counts it was built from. */
  lemma ReportAddsUp(report: map<string, Accumulator>, entries: map<Key, Entry>, keys: set<Key>, cells: set<Cell>)
    requires keys <= entries.Keys && Reports(report, entries, keys)
    requires forall c :: c in cells <==> Shows(report, c)
    ensures ShownTotal(report, cells) == Total(entries, keys)
  {
    ShownIsStored(report, entries, keys, cells);
    CellsAddUp(entries, keys, cells);
  }

  // ---- one observation in a report --------------------------------------------

  /** Where a report on its profile shows an observation. */
  function CellFor(o: Observation): Cell {
    Cell(o.category, o.matchedDomain,
         if o.hour < 5 || 18 <= o.hour then "noite" else if o.hour < 12 then "manha" else "tarde")
  }

  /** The counter of its profile, domain and part of the day. */
  predicate CounterFor(o: Observation, k: Key) {
    k.profileId == o.profileId && k.domain == o.matchedDomain && k.period == CellFor(o).period
  }

  /** An observed query of a listed domain makes one counter one higher and has it stored with the category, reason and
      group name of that query; it leaves all other counters alone, and every other query leaves all of them alone. */
  lemma WriteCounts(entries: map<Key, Entry>, o: Observation, k: Key)
    ensures var after := Written(entries, o);
            if o.action == Observe && o.matchedDomain != "" && CounterFor(o, k)
            then k in after && after[k] == Entry(o.category, o.reason, o.groupName, Count(entries, k) + 1)
            else (k in after <==> k in entries) && (k in entries ==> after[k] == entries[k])
  {
  }

  /** What is counted in a cell changes by what one counter changes. */
  lemma OneCounterMoves(a: map<Key, Entry>, b: map<Key, Entry>, keys: set<Key>, k: Key, c: Cell)
    requires keys <= a.Keys + {k} && k in keys && keys <= b.Keys && forall j | j in keys && j != k :: a[j] == b[j]
    ensures CellTotal(b, keys, c) ==
            CellTotal(a, keys * a.Keys, c) - (if k in a && CellOf(a, k) == c then a[k].count else 0)
            + if CellOf(b, k) == c then b[k].count else 0
  {
    var rest := keys - {k};
    CellTotalStep(b, keys, c, k);
    CellTotalOfSame(a, b, rest, c);
    if k in a {
      assert keys * a.Keys == keys;
      CellTotalStep(a, keys, c, k);
    } else {
      assert keys * a.Keys == rest;
    }
  }

  /** The counters of some profiles. */
  ghost predicate CountersOf(entries: map<Key, Entry>, ids: set<string>, keys: set<Key>) {
    forall k :: k in keys <==> k in entries && k.profileId in ids
  }

  /** Reports on some profiles before and after an observed query of one of them: one more in the query's cell, and
      what the counter held moves there if it was stored with another category. */
  lemma ObservationIsShown(entries: map<Key, Entry>, o: Observation, ids: set<string>, keys: set<Key>,
                           keysAfter: set<Key>, before: map<string, Accumulator>, after: map<string, Accumulator>,
                           k: Key, c: Cell)
    requires o.action == Observe && o.matchedDomain != "" && o.profileId in ids && CounterFor(o, k)
    requires CountersOf(entries, ids, keys) && Reports(before, entries, keys)
    requires CountersOf(Written(entries, o), ids, keysAfter) && Reports(after, Written(entries, o), keysAfter)
    ensures Shown(after, c) ==
            Shown(before, c) + (if c == CellFor(o) then 1 else 0)
            + if k !in entries || entries[k].category == o.category then 0
              else if c == CellFor(o) then entries[k].count
              else if c == CellFor(o).(category := entries[k].category) then -entries[k].count
              else 0
  {
    hide CellTotal, Shown, Shows, Written, CountersOf;
    var next := Written(entries, o);
    WriteCounts(entries, o, k);
    KeysAfter(entries, o, ids, keys, keysAfter, k);
    OneCounterMoves(entries, next, keysAfter, k, c);
  }

  lemma KeysAfter(entries: map<Key, Entry>, o: Observation, ids: set<string>, keys: set<Key>, keysAfter: set<Key>,
                  k: Key)
    requires o.action == Observe && o.matchedDomain != "" && o.profileId in ids && CounterFor(o, k)
    requires CountersOf(entries, ids, keys) && CountersOf(Written(entries, o), ids, keysAfter)
    ensures keysAfter == keys + {k} && keys <= entries.Keys && keysAfter <= Written(entries, o).Keys
    ensures keysAfter * entries.Keys == keys
    ensures forall j | j in keysAfter && j != k :: j in entries && entries[j] == Written(entries, o)[j]
  {
    forall j: Key
      ensures j in Written(entries, o) <==> j in entries || j == k
      ensures j != k && j in entries ==> entries[j] == Written(entries, o)[j]
    {
      WriteCounts(entries, o, j);
    }
  }

  /** A query with another action, of no listed domain, or of another profile changes no report on these profiles. */
  lemma OthersChangeNoReport(entries: map<Key, Entry>, o: Observation, ids: set<string>, keys: set<Key>,
                             keysAfter: set<Key>, before: map<string, Accumulator>, after: map<string, Accumulator>,
                             c: Cell)
    requires o.action != Observe || o.matchedDomain == "" || o.profileId !in ids
    requires CountersOf(entries, ids, keys) && Reports(before, entries, keys)
    requires CountersOf(Written(entries, o), ids, keysAfter) && Reports(after, Written(entries, o), keysAfter)
    ensures Shown(after, c) == Shown(before, c) && (Shows(after, c) <==> Shows(before, c))
  {
    hide CellTotal, Shown, Shows, Written;
    forall j: Key
      ensures j.profileId in ids ==> (j in Written(entries, o) <==> j in entries)
      ensures j.profileId in ids && j in entries ==> entries[j] == Written(entries, o)[j]
    {
      WriteCounts(entries, o, j);
    }
    assert keysAfter == keys;
    CellTotalOfSame(entries, Written(entries, o), keys, c);
    assert forall j | j in keys :: CellOf(entries, j) == CellOf(Written(entries, o), j);
  }

  // ---- the saved file -------------------------------------------------------

  datatype SavedEntry = SavedEntry(key: Key, entry: Entry)

  datatype Saved = Saved(entries: seq<SavedEntry>, lastSentAt: map<string, int>)

  /** What loading the first `n` saved entries leaves in an empty store. */
  function Loaded(items: seq<SavedEntry>, n: nat): map<Key, Entry>
    requires n <= |items|
  {
    if n == 0 then map[] else Loaded(items, n - 1)[items[n - 1].key := items[n - 1].entry]
  }

  /** The digest store and the file behind it, as one cell that a write replaces or leaves alone. */
  class Store {
    const path: string
    var entries: map<Key, Entry>
    var lastSentAt: map<string, int>
    var file: Option<Saved>

    /** A store over the file a previous process left. */
    constructor (path: string, file: Option<Saved>)
      ensures this.path == path && this.file == file
      ensures entries == (if file.Some? then Loaded(file.value.entries, |file.value.entries|) else map[])
      ensures lastSentAt == if file.Some? then file.value.lastSentAt else map[]
    {
      this.path, this.file := path, file;
      entries, lastSentAt := map[], map[];
      new;
      if file.Some? {
        var items := file.value.entries;
        for i := 0 to |items|
          invariant this.path == path && this.file == file && lastSentAt == map[]
          invariant entries == Loaded(items, i)
        {
          entries := entries[items[i].key := items[i].entry];
        }
        lastSentAt := file.value.lastSentAt;
      }
    }

    /** Lists the entries in any order and replaces the file. A successful save into a real path leaves a file
        that loads back to exactly this state; a failed one leaves the file alone. */
    method Save(writable: bool) returns (ok: bool)
      modifies this`file
      ensures ok == (path == "" || writable)
      ensures path == "" || !writable ==> file == old(file)
      ensures path != "" && writable ==>
                && file.Some? && file.value.lastSentAt == lastSentAt
                && Loaded(file.value.entries, |file.value.entries|) == entries
    {
      if path == "" { return true; }
      var items: seq<SavedEntry> := [];
      var todo := entries.Keys;
      while todo != {}
        invariant todo <= entries.Keys && file == old(file)
        invariant Loaded(items, |items|) == map k | k in entries && k !in todo :: entries[k]
        decreases todo
      {
        var k :| k in todo;
        LoadedMore(items, SavedEntry(k, entries[k]), |items|);
        items := items + [SavedEntry(k, entries[k])];
        todo := todo - {k};
      }
      if !writable { return false; }
      assert Loaded(items, |items|) == entries;
      file := Some(Saved(items, lastSentAt));
      return true;
    }

    method Write(o: Observation)
      modifies this`entries
      ensures entries == Written(old(entries), o)
    {
      if o.action != Observe || o.matchedDomain == "" { return; }
      var k := Key(o.profileId, PeriodFor(o.hour), o.matchedDomain);
      var item := if k in entries then entries[k] else Entry("", "", "", 0);
      item := item.(count := item.count + 1);
      item := item.(category := o.category, reason := o.reason, groupName := o.groupName);
      entries := entries[k := item];
    }

    /** The report over the given profiles as it is mailed. */
    method Digest(ids: set<string>) returns (list: seq<CategoryDigest>)
      ensures Summarises(list, entries, Chosen(entries, ids).Keys)
    {
      hide Lists, Reports, Titled;
      var report := Accumulate(ids);
      list := ListCategories(report);
    }

    /** The loop over the counters, whatever the iteration order. */
    method Accumulate(ids: set<string>) returns (report: map<string, Accumulator>)
      ensures Reports(report, entries, Chosen(entries, ids).Keys)
      ensures Titled(report, entries, Chosen(entries, ids).Keys)
    {
      report := map[];
      var todo := entries.Keys;
      ghost var done: set<Key> := {};
      while todo != {}
        invariant todo <= entries.Keys && done == Chosen(entries, ids).Keys - todo
        invariant Reports(report, entries, done) && Titled(report, entries, done)
        decreases todo
      {
        var k :| k in todo;
        todo := todo - {k};
        if k.profileId in ids {
          ghost var before, was := report, done;
          report := Accumulated(report, entries[k], k);
          done := done + {k};
          assert done - {k} == was;
          forall c
            ensures Shown(report, c) == CellTotal(entries, done, c)
            ensures Shows(report, c) <==> exists j :: j in done && CellOf(entries, j) == c
          {
            AccumulatedShown(before, entries[k], k, c);
            CellTotalStep(entries, done, c, k);
          }
          AccumulatedTitles(before, entries, was, k);
        }
      }
      assert done == Chosen(entries, ids).Keys;
    }

    method IsDue(houseId: string, now: int, interval: int) returns (due: bool)
      ensures due == Due(lastSentAt, houseId, now, interval)
    {
      if houseId !in lastSentAt { return true; }
      return now - lastSentAt[houseId] >= interval;
    }

    /** Both clearing loops. */
    method Clear(ids: set<string>)
      modifies this`entries
      ensures entries == Without(old(entries), ids)
    {
      var todo := entries.Keys;
      while todo != {}
        invariant todo <= old(entries).Keys
        invariant entries == map k | k in old(entries) && (k in todo || k.profileId !in ids) :: old(entries)[k]
        decreases todo
      {
        var k :| k in todo;
        todo := todo - {k};
        if k.profileId in ids { entries := entries - {k}; }
      }
    }

    method CompleteDigest(houseId: string, ids: set<string>, when: int, writable: bool) returns (ok: bool)
      modifies this
      ensures entries == Without(old(entries), ids) && lastSentAt == old(lastSentAt)[houseId := when]
      ensures path != "" && writable ==>
                && file.Some? && file.value.lastSentAt == lastSentAt
                && Loaded(file.value.entries, |file.value.entries|) == entries
      ensures path == "" || !writable ==> file == old(file)
      ensures ok == (path == "" || writable)
    {
      Clear(ids);
      lastSentAt := lastSentAt[houseId := when];
      ok := Save(writable);
    }

    method Forget(houseId: string, ids: set<string>, writable: bool) returns (ok: bool)
      modifies this
      ensures entries == Without(old(entries), ids) && lastSentAt == old(lastSentAt) - {houseId}
      ensures path != "" && writable ==>
                && file.Some? && file.value.lastSentAt == lastSentAt
                && Loaded(file.value.entries, |file.value.entries|) == entries
      ensures path == "" || !writable ==> file == old(file)
      ensures ok == (path == "" || writable)
    {
      Clear(ids);
      lastSentAt := lastSentAt - {houseId};
      ok := Save(writable);
    }
  }

  lemma {:induction false} LoadedMore(items: seq<SavedEntry>, item: SavedEntry, n: nat)
    requires n <= |items|
    ensures Loaded(items + [item], n) == Loaded(items, n)
  {
    if n > 0 {
      LoadedMore(items, item, n - 1);
    }
  }
}
