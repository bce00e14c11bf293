/** What a policy decides, read off its own fields: the domain that decides and what it decides at an instant. */
module Outcomes {
  import opened Text
  import opened Names
  import opened PolicyTypes
  import opened Schedule
  import opened Occupancy
  import opened Matching
  import opened Decision
  import opened ExtensionDecision
  import opened DnrCompiler
  import opened DnrEmission
  import opened DnrCorrectness

  // ---- the domain that decides ---------------------------------------------

  /** Where a domain stands in a policy: in a rule, or at a position of a group. */
  datatype Place = InRule(k: nat) | InGroup(g: nat, k: nat)

  predicate PlaceOf(p: Profile, at: Place) {
    match at
    case InRule(k) => k < |p.rules|
    case InGroup(g, k) => g < |p.groups| && k < |p.groups[g].domains|
  }

  function DomainAt(p: Profile, at: Place): string
    requires PlaceOf(p, at)
  {
    match at
    case InRule(k) => p.rules[k].domain
    case InGroup(g, k) => p.groups[g].domains[k]
  }

  /** A domain matches its own name and, but for a rule without subdomains, every name that ends in a dot and it. */
  predicate MatchesAt(p: Profile, at: Place, name: string)
    requires PlaceOf(p, at)
  {
    || name == DomainAt(p, at)
    || ((at.InRule? ==> p.rules[at.k].includeSubdomains) && HasSuffix(name, "." + DomainAt(p, at)))
  }

  /** Rules come before groups, and both in their order. */
  predicate Before(a: Place, b: Place) {
    match (a, b)
    case (InRule(i), InRule(j)) => i < j
    case (InRule(_), InGroup(_, _)) => true
    case (InGroup(_, _), InRule(_)) => false
    case (InGroup(g, i), InGroup(h, j)) => g < h || (g == h && i < j)
  }

  /** The domain at that place matches, none that matches is longer, and none before it is as long. */
  ghost predicate Decides(p: Profile, name: string, at: Place) {
    && PlaceOf(p, at) && MatchesAt(p, at, name)
    && forall q: Place | PlaceOf(p, q) && MatchesAt(p, q, name) ::
         && |DomainAt(p, q)| <= |DomainAt(p, at)|
         && (Before(q, at) ==> |DomainAt(p, q)| < |DomainAt(p, at)|)
  }

  ghost predicate NothingMatches(p: Profile, name: string) {
    forall q: Place | PlaceOf(p, q) :: !MatchesAt(p, q, name)
  }

  // ---- places and entries --------------------------------------------------

  /** The live form of a policy: its own rules and groups, each group with a schedule or none. */
  predicate LiveOf(p: Profile, live: Live) {
    && live.rules == p.rules && |live.groups| == |p.groups|
    && forall g | 0 <= g < |p.groups| :: live.groups[g].group == p.groups[g]
  }

  function EntryAt(live: Live, at: Place): Entry
    requires match at
             case InRule(k) => k < |live.rules|
             case InGroup(g, k) => g < |live.groups| && k < |live.groups[g].group.domains|
  {
    match at
    case InRule(k) => RuleEntry(live.rules[k], k)
    case InGroup(g, k) => DomainEntry(live.groups[g], live.groups[g].group.domains[k], |live.rules| + g)
  }

  function RulePlaces(n: nat): seq<Place> {
    if n == 0 then [] else RulePlaces(n - 1) + [InRule(n - 1)]
  }

  function DomainPlaces(g: nat, n: nat): seq<Place> {
    if n == 0 then [] else DomainPlaces(g, n - 1) + [InGroup(g, n - 1)]
  }

  function GroupPlaces(groups: seq<LiveGroup>): seq<Place> {
    if groups == [] then []
    else
      var n := |groups| - 1;
      GroupPlaces(groups[..n]) + DomainPlaces(n, |groups[n].group.domains|)
  }

  /** The places of a policy in the order in which its domains are visited. */
  function Places(live: Live): seq<Place> {
    RulePlaces(|live.rules|) + GroupPlaces(live.groups)
  }

  lemma {:induction false} RulePlaceAt(n: nat)
    ensures |RulePlaces(n)| == n && forall i | 0 <= i < n :: RulePlaces(n)[i] == InRule(i)
  {
    if n > 0 { RulePlaceAt(n - 1); }
  }

  lemma {:induction false} DomainPlaceAt(g: nat, n: nat)
    ensures |DomainPlaces(g, n)| == n && forall i | 0 <= i < n :: DomainPlaces(g, n)[i] == InGroup(g, i)
  {
    if n > 0 { DomainPlaceAt(g, n - 1); }
  }

  lemma {:induction false} RuleEntryAt(rules: seq<Rule>)
    ensures |RuleEntries(rules)| == |rules|
    ensures forall i | 0 <= i < |rules| :: RuleEntries(rules)[i] == RuleEntry(rules[i], i)
  {
    if rules != [] { RuleEntryAt(rules[..|rules| - 1]); }
  }

  lemma {:induction false} DomainEntryAt(live: LiveGroup, domains: seq<string>, source: nat)
    ensures |DomainEntries(live, domains, source)| == |domains|
    ensures forall i | 0 <= i < |domains| ::
              DomainEntries(live, domains, source)[i] == DomainEntry(live, domains[i], source)
  {
    if domains != [] { DomainEntryAt(live, domains[..|domains| - 1], source); }
  }

  predicate InGroups(groups: seq<LiveGroup>, at: Place) {
    at.InGroup? && at.g < |groups| && at.k < |groups[at.g].group.domains|
  }

  predicate GroupPlaced(groups: seq<LiveGroup>, base: nat, i: nat)
    requires i < |GroupPlaces(groups)| && i < |GroupEntries(groups, base)|
  {
    var at := GroupPlaces(groups)[i];
    InGroups(groups, at)
    && GroupEntries(groups, base)[i] ==
       DomainEntry(groups[at.g], groups[at.g].group.domains[at.k], base + at.g)
  }

  /** Each group place has its entry, the places are in order, and none is left out. */
  lemma {:induction false} GroupsPlaced(groups: seq<LiveGroup>, base: nat)
    ensures |GroupPlaces(groups)| == |GroupEntries(groups, base)|
    ensures forall i | 0 <= i < |GroupPlaces(groups)| :: GroupPlaced(groups, base, i)
    ensures forall i, j | 0 <= i < j < |GroupPlaces(groups)| :: Before(GroupPlaces(groups)[i], GroupPlaces(groups)[j])
    ensures forall at: Place | InGroups(groups, at) :: at in GroupPlaces(groups)
  {
    if groups != [] {
      var n := |groups| - 1;
      var before := groups[..n];
      var domains := groups[n].group.domains;
      GroupsPlaced(before, base);
      DomainPlaceAt(n, |domains|);
      DomainEntryAt(groups[n], domains, base + n);
      var ps, qs := GroupPlaces(before), DomainPlaces(n, |domains|);
      assert GroupPlaces(groups) == ps + qs;
      forall i | 0 <= i < |ps + qs|
        ensures GroupPlaced(groups, base, i)
      {
        if i < |ps| { assert GroupPlaced(before, base, i); }
      }
      forall i, j | 0 <= i < j < |ps + qs|
        ensures Before((ps + qs)[i], (ps + qs)[j])
      {
        if i < |ps| { assert GroupPlaced(before, base, i); }
      }
      forall at: Place | InGroups(groups, at)
        ensures at in ps + qs
      {
        if at.g < n {
          assert InGroups(before, at);
        } else {
          assert qs[at.k] == at;
        }
      }
    }
  }

  /** Entry `i` is that of place `i`. */
  predicate Placed(live: Live, i: nat) {
    && i < |Places(live)| && i < |Entries(live)|
    && match Places(live)[i]
       case InRule(k) => k < |live.rules| && Entries(live)[i] == RuleEntry(live.rules[k], k)
       case InGroup(g, k) =>
         && InGroups(live.groups, Places(live)[i])
         && Entries(live)[i] == DomainEntry(live.groups[g], live.groups[g].group.domains[k], |live.rules| + g)
  }

  lemma EntriesPlaced(live: Live)
    ensures |Places(live)| == |Entries(live)|
    ensures forall i | 0 <= i < |Places(live)| :: Placed(live, i)
  {
    hide RuleEntry, DomainEntry;
    var n := |live.rules|;
    RulePlaceAt(n);
    RuleEntryAt(live.rules);
    GroupsPlaced(live.groups, n);
    forall i | 0 <= i < |Places(live)|
      ensures Placed(live, i)
    {
      if i >= n { assert GroupPlaced(live.groups, n, i - n); }
    }
  }

  lemma PlacesInOrder(live: Live)
    ensures forall i, j | 0 <= i < j < |Places(live)| :: Before(Places(live)[i], Places(live)[j])
    ensures forall k | 0 <= k < |live.rules| :: InRule(k) in Places(live)
    ensures forall at: Place | InGroups(live.groups, at) :: at in Places(live)
  {
    var n := |live.rules|;
    var rules, groups := RulePlaces(n), GroupPlaces(live.groups);
    RulePlaceAt(n);
    GroupsPlaced(live.groups, n);
    forall i, j | 0 <= i < j < |rules + groups|
      ensures Before((rules + groups)[i], (rules + groups)[j])
    {
      if j >= n { assert GroupPlaced(live.groups, n, j - n); }
    }
    forall k | 0 <= k < n
      ensures InRule(k) in rules + groups
    {
      assert rules[k] == InRule(k);
    }
  }

  lemma EntryApplies(p: Profile, live: Live, at: Place, name: string)
    requires LiveOf(p, live) && PlaceOf(p, at)
    ensures EntryAt(live, at).domain == DomainAt(p, at)
    ensures Applies(EntryAt(live, at), name) <==> MatchesAt(p, at, name)
  {
  }

  /** A position in the list of places, with its entry. */
  lemma PlacedAt(p: Profile, live: Live, i: nat)
    requires LiveOf(p, live) && i < |Entries(live)|
    ensures i < |Places(live)| && PlaceOf(p, Places(live)[i]) && Entries(live)[i] == EntryAt(live, Places(live)[i])
  {
    hide Places, Entries, RuleEntry, DomainEntry;
    EntriesPlaced(live);
    assert Placed(live, i);
  }

  lemma FindPlace(p: Profile, live: Live, at: Place) returns (i: nat)
    requires LiveOf(p, live) && PlaceOf(p, at)
    ensures i < |Entries(live)| && i < |Places(live)| && Places(live)[i] == at
  {
    hide Places, Entries;
    EntriesPlaced(live);
    PlacesInOrder(live);
    assert at.InGroup? ==> InGroups(live.groups, at);
    i :| 0 <= i < |Places(live)| && Places(live)[i] == at;
  }

  /** The entry of the domain that decides is the winner. */
  lemma PlaceWins(p: Profile, live: Live, name: string, at: Place)
    requires LiveOf(p, live) && Decides(p, name, at)
    ensures PlaceOf(p, at) && Winner(Entries(live), name) == Some(EntryAt(live, at))
  {
    hide Places, Entries, Winner, EntryAt, MatchesAt, DomainAt, PlaceOf, LiveOf, Before, Applies;
    var i := FindPlace(p, live, at);
    PlacesInOrder(live);
    PlacedAt(p, live, i);
    EntryApplies(p, live, at, name);
    forall j | 0 <= j < |Entries(live)| && Applies(Entries(live)[j], name)
      ensures |Entries(live)[j].domain| <= |Entries(live)[i].domain|
      ensures j < i ==> |Entries(live)[j].domain| < |Entries(live)[i].domain|
    {
      PlacedAt(p, live, j);
      EntryApplies(p, live, Places(live)[j], name);
    }
    assert FirstLongest(Entries(live), name, i);
    WinnerIsFirstLongest(Entries(live), name);
  }

  lemma NothingWins(p: Profile, live: Live, name: string)
    requires LiveOf(p, live) && NothingMatches(p, name)
    ensures Winner(Entries(live), name) == None
  {
    hide Places, Entries, Winner, EntryAt, MatchesAt, PlaceOf, LiveOf, Applies;
    forall j | 0 <= j < |Entries(live)|
      ensures !Applies(Entries(live)[j], name)
    {
      PlacedAt(p, live, j);
      EntryApplies(p, live, Places(live)[j], name);
    }
    WinnerIsFirstLongest(Entries(live), name);
  }

  /** Every name has a domain that decides, unless nothing matches. */
  lemma SomePlaceDecides(p: Profile, live: Live, name: string) returns (at: Place)
    requires LiveOf(p, live)
    ensures NothingMatches(p, name) || Decides(p, name, at)
  {
    hide Places, Entries, Winner, EntryAt, MatchesAt, DomainAt, PlaceOf, LiveOf, Applies;
    at := InRule(0);
    PlacesInOrder(live);
    var i := WinnerPosition(Entries(live), name);
    if i != -1 {
      PlacedAt(p, live, i);
      at := Places(live)[i];
      EntryApplies(p, live, at, name);
    }
    forall q: Place | PlaceOf(p, q) && MatchesAt(p, q, name)
      ensures i != -1 && |DomainAt(p, q)| <= |DomainAt(p, at)|
      ensures i != -1 ==> Before(q, at) ==> |DomainAt(p, q)| < |DomainAt(p, at)|
    {
      var j := FindPlace(p, live, q);
      PlacedAt(p, live, j);
      EntryApplies(p, live, q, name);
      assert i != -1 && Before(q, at) ==> j < i by { BeforeIsStrict(q, at); }
    }
  }

  lemma BeforeIsStrict(a: Place, b: Place)
    ensures Before(a, b) ==> a != b && !Before(b, a)
  {
  }

  // ---- what is active ------------------------------------------------------

  /** The server's reading of a window, or the extension's, which finds one inactive whose times do not parse. */
  predicate ActiveAt(w: TimeWindow, clock: Clock, js: bool) {
    if js then WindowActiveJs(w, clock) else WindowActive(w, clock)
  }

  /** The schedule at `i` is the first of a group's that is active. */
  ghost predicate FirstActive(schedules: seq<ScheduledAction>, clock: Clock, js: bool, i: int) {
    && 0 <= i < |schedules| && ActiveAt(schedules[i].window, clock, js)
    && forall j | 0 <= j < i :: !ActiveAt(schedules[j].window, clock, js)
  }

  ghost predicate NoneActive(schedules: seq<ScheduledAction>, clock: Clock, js: bool) {
    forall i | 0 <= i < |schedules| :: !ActiveAt(schedules[i].window, clock, js)
  }

  ghost predicate FirstPause(pauses: seq<TimeWindow>, clock: Clock, js: bool, i: int) {
    0 <= i < |pauses| && ActiveAt(pauses[i], clock, js) && forall j | 0 <= j < i :: !ActiveAt(pauses[j], clock, js)
  }

  ghost predicate Unpaused(p: Profile, clock: Clock, js: bool) {
    forall i | 0 <= i < |p.pauses| :: !ActiveAt(p.pauses[i], clock, js)
  }

  function Scheduled(schedules: seq<ScheduledAction>, clock: Clock, js: bool): Option<ScheduledAction> {
    if js then ActiveScheduledJs(schedules, clock) else ActiveScheduled(schedules, clock)
  }

  lemma {:induction false} ScheduledIsFirst(schedules: seq<ScheduledAction>, clock: Clock, js: bool)
    ensures forall i | FirstActive(schedules, clock, js, i) :: Scheduled(schedules, clock, js) == Some(schedules[i])
    ensures NoneActive(schedules, clock, js) ==> Scheduled(schedules, clock, js) == None
    ensures NoneActive(schedules, clock, js) || exists i :: FirstActive(schedules, clock, js, i)
  {
    if schedules != [] {
      var rest := schedules[1..];
      ScheduledIsFirst(rest, clock, js);
      if ActiveAt(schedules[0].window, clock, js) {
        assert FirstActive(schedules, clock, js, 0);
      } else {
        forall i | FirstActive(schedules, clock, js, i)
          ensures Scheduled(schedules, clock, js) == Some(schedules[i])
        {
          assert forall j | 0 <= j < i - 1 :: rest[j] == schedules[j + 1];
          assert FirstActive(rest, clock, js, i - 1);
        }
        if NoneActive(schedules, clock, js) {
          assert forall j | 0 <= j < |rest| :: rest[j] == schedules[j + 1];
          assert NoneActive(rest, clock, js);
        }
        if i :| FirstActive(rest, clock, js, i) {
          assert forall j | 0 < j < i + 1 :: schedules[j] == rest[j - 1];
          assert FirstActive(schedules, clock, js, i + 1);
        }
      }
    }
  }

  function Paused(pauses: seq<TimeWindow>, clock: Clock, js: bool): Option<TimeWindow> {
    if js then ActivePauseJs(pauses, clock) else ActivePause(pauses, clock)
  }

  lemma {:induction false} PausedIsFirst(pauses: seq<TimeWindow>, clock: Clock, js: bool)
    ensures forall i | FirstPause(pauses, clock, js, i) :: Paused(pauses, clock, js) == Some(pauses[i])
    ensures (forall i | 0 <= i < |pauses| :: !ActiveAt(pauses[i], clock, js)) ==> Paused(pauses, clock, js) == None
  {
    if pauses != [] {
      var rest := pauses[1..];
      PausedIsFirst(rest, clock, js);
      assert forall j | 0 <= j < |rest| :: rest[j] == pauses[j + 1];
      if !ActiveAt(pauses[0], clock, js) {
        forall i | FirstPause(pauses, clock, js, i)
          ensures Paused(pauses, clock, js) == Some(pauses[i])
        {
          assert FirstPause(rest, clock, js, i - 1);
        }
      }
    }
  }

  function LiveOn(p: Profile, clock: Clock, js: bool): Live {
    if js then LiveAtJs(p, clock) else LiveAt(p, clock)
  }

  lemma LiveIsOf(p: Profile, clock: Clock, js: bool)
    ensures LiveOf(p, LiveOn(p, clock, js)) && LiveOn(p, clock, js).pause == Paused(p.pauses, clock, js)
    ensures forall g | 0 <= g < |p.groups| ::
              LiveOn(p, clock, js).groups[g] == LiveGroup(p.groups[g], Scheduled(p.groups[g].schedules, clock, js))
  {
    forall g | 0 <= g < |p.groups|
      ensures LiveOn(p, clock, js).groups[g] == LiveGroup(p.groups[g], Scheduled(p.groups[g].schedules, clock, js))
    {
      LiveGroupAt(p.groups, clock, g);
      LiveGroupJsAt(p.groups, clock, g);
    }
  }

  // ---- what is decided -----------------------------------------------------

  /** Category, reason, domain and group of a decision. */
  datatype Ground = Ground(category: string, reason: string, domain: string, group: string)

  /** Outside pauses a rule that decides gives its action, and a group its own or that of the first active schedule. */
  ghost predicate GivesAt(p: Profile, clock: Clock, js: bool, at: Place, action: Action, ground: Ground)
    requires PlaceOf(p, at)
  {
    match at
    case InRule(k) =>
      action == p.rules[k].action && ground == Ground(p.rules[k].category, p.rules[k].reason, p.rules[k].domain, "")
    case InGroup(g, k) =>
      var group := p.groups[g];
      && ground == Ground(group.category, group.reason, group.domains[k], group.name)
      && (|| (NoneActive(group.schedules, clock, js) && action == group.action)
          || exists i :: FirstActive(group.schedules, clock, js, i) && action == group.schedules[i].action)
  }

  /** What a policy decides on a name, in terms of its own fields. */
  ghost predicate Rules(p: Profile, name: string, clock: Clock, js: bool, action: Action, ground: Ground) {
    if !Unpaused(p, clock, js) then action == Block && ground == Ground("global_pause", "Pausa geral", "", "")
    else
      || (NothingMatches(p, name) && action == p.defaultAction && ground == Ground("", "", "", ""))
      || exists at :: Decides(p, name, at) && GivesAt(p, clock, js, at, action, ground)
  }

  /** Every policy decides on every name at every clock. */
  lemma SomethingRules(p: Profile, name: string, clock: Clock, js: bool) returns (action: Action, ground: Ground)
    ensures Rules(p, name, clock, js, action, ground)
  {
    hide Decides, NothingMatches, Winner, Entries, FirstActive, NoneActive;
    action, ground := Block, Ground("global_pause", "Pausa geral", "", "");
    if Unpaused(p, clock, js) {
      LiveIsOf(p, clock, js);
      var at := SomePlaceDecides(p, LiveOn(p, clock, js), name);
      if NothingMatches(p, name) {
        action, ground := p.defaultAction, Ground("", "", "", "");
      } else {
        DecidesPlace(p, name, at);
        match at {
          case InRule(k) =>
            action, ground := p.rules[k].action, Ground(p.rules[k].category, p.rules[k].reason, p.rules[k].domain, "");
          case InGroup(g, k) =>
            var group := p.groups[g];
            ScheduledIsFirst(group.schedules, clock, js);
            ground := Ground(group.category, group.reason, group.domains[k], group.name);
            action := group.action;
            if !NoneActive(group.schedules, clock, js) {
              var i :| FirstActive(group.schedules, clock, js, i);
              ActiveIndex(group.schedules, clock, js, i);
              action := group.schedules[i].action;
            }
        }
        assert GivesAt(p, clock, js, at, action, ground);
      }
    }
  }

  lemma DecidesPlace(p: Profile, name: string, at: Place)
    requires Decides(p, name, at)
    ensures PlaceOf(p, at)
  {
  }

  lemma ActiveIndex(schedules: seq<ScheduledAction>, clock: Clock, js: bool, i: int)
    requires FirstActive(schedules, clock, js, i)
    ensures 0 <= i < |schedules|
  {
  }

  /** The winner of a live policy has the action and ground that the policy's fields give. */
  lemma WinnerGives(p: Profile, name: string, clock: Clock, js: bool, at: Place, action: Action, ground: Ground)
    requires Decides(p, name, at) && PlaceOf(p, at) && GivesAt(p, clock, js, at, action, ground)
    ensures var w := Winner(Entries(LiveOn(p, clock, js)), name);
            && w.Some? && w.value.action == action
            && Ground(w.value.category, w.value.reason, w.value.domain, w.value.groupName) == ground
  {
    hide Decides, Winner, Entries, LiveOn;
    LiveIsOf(p, clock, js);
    PlaceWins(p, LiveOn(p, clock, js), name, at);
    if at.InGroup? {
      ScheduledIsFirst(p.groups[at.g].schedules, clock, js);
    }
  }

  lemma SomePause(pauses: seq<TimeWindow>, clock: Clock, js: bool, n: nat) returns (i: nat)
    requires n < |pauses| && ActiveAt(pauses[n], clock, js)
    ensures FirstPause(pauses, clock, js, i)
  {
    i := 0;
    while !ActiveAt(pauses[i], clock, js)
      invariant i <= n && forall j | 0 <= j < i :: !ActiveAt(pauses[j], clock, js)
      decreases n - i
    {
      i := i + 1;
    }
  }

  lemma PauseIsFirst(p: Profile, clock: Clock, js: bool)
    ensures Unpaused(p, clock, js) <==> LiveOn(p, clock, js).pause.None?
    ensures forall i | FirstPause(p.pauses, clock, js, i) :: LiveOn(p, clock, js).pause == Some(p.pauses[i])
  {
    LiveIsOf(p, clock, js);
    PausedIsFirst(p.pauses, clock, js);
    if !Unpaused(p, clock, js) {
      var n :| 0 <= n < |p.pauses| && ActiveAt(p.pauses[n], clock, js);
      var i := SomePause(p.pauses, clock, js, n);
    }
  }

  /** The resolver decides what the fields of the policy say. */
  lemma ResolverFollowsFields(p: Profile, query: string, name: string, clock: Clock, action: Action, ground: Ground)
    requires NormalizeName(query) == Some(name) && Rules(p, name, clock, false, action, ground)
    ensures DecisionGo(p, query, clock).Some?
    ensures DecisionGo(p, query, clock).value.(scheduleLabel := "") ==
            Verdict(action, ground.category, ground.reason, ground.domain, ground.group, "", p.version)
  {
    hide MatchesAt, DomainAt, PlaceOf, NothingMatches, GivesAt, Winner, Entries, Caption, NormalizeName;
    PauseIsFirst(p, clock, false);
    if Unpaused(p, clock, false) {
      LiveIsOf(p, clock, false);
      if NothingMatches(p, name) && action == p.defaultAction && ground == Ground("", "", "", "") {
        NothingWins(p, LiveAt(p, clock), name);
      } else {
        var at :| Decides(p, name, at) && PlaceOf(p, at) && GivesAt(p, clock, false, at, action, ground);
        WinnerGives(p, name, clock, false, at, action, ground);
      }
    }
  }

  function NullIfEmpty(value: string): Option<string> {
    if value == "" then None else Some(value)
  }

  /** So does the extension, which reports no domain as null when none matched. */
  lemma ExtensionFollowsFields(p: Profile, query: string, name: string, clock: Clock, action: Action, ground: Ground)
    requires NormalizeName(query) == Some(name) && Rules(p, name, clock, true, action, ground)
    ensures var d := DecisionJs(p, query, clock);
            && d.matching && d.action == action && d.category == ground.category && d.reason == ground.reason
            && d.groupName == NullIfEmpty(ground.group) && d.policyVersion == p.version
            && (if d.matchedDomain.Some? then d.matchedDomain.value == ground.domain else ground.domain == "")
  {
    hide MatchesAt, DomainAt, PlaceOf, NothingMatches, GivesAt, Winner, Entries, Caption, NormalizeName,
         NormalizeHostname;
    NormalizersAgree(query);
    PauseIsFirst(p, clock, true);
    if Unpaused(p, clock, true) {
      LiveIsOf(p, clock, true);
      if NothingMatches(p, name) && action == p.defaultAction && ground == Ground("", "", "", "") {
        NothingWins(p, LiveAtJs(p, clock), name);
      } else {
        var at :| Decides(p, name, at) && PlaceOf(p, at) && GivesAt(p, clock, true, at, action, ground);
        WinnerGives(p, name, clock, true, at, action, ground);
      }
    }
  }

  /** And so does the browser, for every known action: it redirects exactly what the fields of the policy block. */
  lemma BrowserFollowsFields(p: Profile, clock: Clock, extensionId: string, host: string, action: Action,
                             ground: Ground)
    requires Stable(host) && Compile(p, clock, extensionId).Compiled?
    requires Rules(p, host, clock, true, action, ground) && !action.Unknown?
    ensures Redirected(Compile(p, clock, extensionId).rules, host) <==> !Under(extensionId, host) && action == Block
  {
    hide Rules, Compile, Redirected, DecisionJs, KnownActionAt, ValidActions;
    ExtensionFollowsFields(p, host, host, clock, action, ground);
    CompilationPreservesMeaning(p, clock, extensionId, host);
  }

  // ---- schedules and pauses ------------------------------------------------

  /** Times that parse are read alike, and the extension finds no window active that the server does not. */
  lemma ReadAlike(w: TimeWindow, clock: Clock)
    ensures ActiveAt(w, clock, true) ==> ActiveAt(w, clock, false)
    ensures Parses(w) ==> ActiveAt(w, clock, true) == ActiveAt(w, clock, false)
  {
    ParsersAgree(w.start);
    ParsersAgree(w.end);
    if Parses(w) { WindowActiveMirrored(w, clock); }
  }

  lemma AcceptedParses(schedules: seq<ScheduledAction>, i: nat)
    requires SchedulesOK(schedules) && i < |schedules|
    ensures Parses(schedules[i].window)
  {
    hide SchedulesOK, AllValid;
    AcceptedMeans(schedules);
    AllValidAt(schedules, i);
  }

  /** In an accepted group whose domain decides, a schedule that is active gives its action, whichever of the list it
      is, in both readings. */
  lemma ActiveScheduleRules(p: Profile, name: string, clock: Clock, g: nat, k: nat, s: ScheduledAction, js: bool)
    requires Unpaused(p, clock, false) && ValidClock(clock) && Decides(p, name, InGroup(g, k)) && g < |p.groups|
    requires SchedulesOK(p.groups[g].schedules) && s in p.groups[g].schedules && WindowActive(s.window, clock)
    ensures k < |p.groups[g].domains|
    ensures Rules(p, name, clock, js, s.action,
                  Ground(p.groups[g].category, p.groups[g].reason, p.groups[g].domains[k], p.groups[g].name))
  {
    hide Decides, SchedulesOK, ActiveAt, Parses;
    var schedules := p.groups[g].schedules;
    DecidesPlace(p, name, InGroup(g, k));
    forall i | 0 <= i < |p.pauses| ensures !ActiveAt(p.pauses[i], clock, js) { ReadAlike(p.pauses[i], clock); }
    var i :| 0 <= i < |schedules| && schedules[i] == s;
    Activity(s.window, clock);
    forall j | 0 <= j < |schedules|
      ensures ActiveAt(schedules[j].window, clock, js) ==> schedules[j] == s
    {
      AcceptedParses(schedules, j);
      ReadAlike(schedules[j].window, clock);
      Activity(schedules[j].window, clock);
      if WindowActive(schedules[j].window, clock) { AtMostOneActive(schedules, schedules[j], s, clock); }
    }
    AcceptedParses(schedules, i);
    ReadAlike(s.window, clock);
    ScheduledIsFirst(schedules, clock, js);
    assert !NoneActive(schedules, clock, js);
    var f :| FirstActive(schedules, clock, js, f);
    assert GivesAt(p, clock, js, InGroup(g, k), s.action,
                   Ground(p.groups[g].category, p.groups[g].reason, p.groups[g].domains[k], p.groups[g].name));
  }

  lemma Activity(w: TimeWindow, clock: Clock)
    ensures ActiveAt(w, clock, false) <==> WindowActive(w, clock)
  {
  }

  /** Resolver, extension and browser follow the schedule that is active. */
  lemma ScheduleOverridesGroup(p: Profile, host: string, clock: Clock, g: nat, k: nat, s: ScheduledAction)
    requires Stable(host) && Unpaused(p, clock, false) && ValidClock(clock)
    requires Decides(p, host, InGroup(g, k)) && g < |p.groups| && SchedulesOK(p.groups[g].schedules)
    requires s in p.groups[g].schedules && WindowActive(s.window, clock)
    ensures DecisionGo(p, host, clock).Some? && DecisionGo(p, host, clock).value.action == s.action
    ensures DecisionGo(p, host, clock).value.scheduleLabel == s.window.title
    ensures DecisionJs(p, host, clock).action == s.action
    ensures forall e | Compile(p, clock, e).Compiled? && !s.action.Unknown? ::
              Redirected(Compile(p, clock, e).rules, host) <==> !Under(e, host) && s.action == Block
  {
    hide Rules, DecisionGo, DecisionJs, Compile, Redirected, Under, SchedulesOK, Decides, Stable;
    var group := p.groups[g];
    ActiveScheduleRules(p, host, clock, g, k, s, false);
    ActiveScheduleRules(p, host, clock, g, k, s, true);
    var ground := Ground(group.category, group.reason, group.domains[k], group.name);
    StableNormal(host);
    ResolverFollowsFields(p, host, host, clock, s.action, ground);
    ExtensionFollowsFields(p, host, host, clock, s.action, ground);
    LabelOfSchedule(p, host, clock, g, k, s);
    forall e | Compile(p, clock, e).Compiled? && !s.action.Unknown?
      ensures Redirected(Compile(p, clock, e).rules, host) <==> !Under(e, host) && s.action == Block
    {
      BrowserFollowsFields(p, clock, e, host, s.action, ground);
    }
  }

  lemma StableNormal(host: string)
    requires Stable(host)
    ensures NormalizeName(host) == Some(host)
  {
  }

  lemma LabelOfSchedule(p: Profile, name: string, clock: Clock, g: nat, k: nat, s: ScheduledAction)
    requires NormalizeName(name) == Some(name) && Unpaused(p, clock, false) && ValidClock(clock)
    requires Decides(p, name, InGroup(g, k)) && g < |p.groups| && SchedulesOK(p.groups[g].schedules)
    requires s in p.groups[g].schedules && WindowActive(s.window, clock)
    ensures DecisionGo(p, name, clock).Some? && DecisionGo(p, name, clock).value.scheduleLabel == s.window.title
  {
    hide Decides, Winner, Entries, Caption, NormalizeName, SchedulesOK;
    var live := LiveAt(p, clock);
    DecidesPlace(p, name, InGroup(g, k));
    PauseIsFirst(p, clock, false);
    LiveIsOf(p, clock, false);
    PlaceWins(p, live, name, InGroup(g, k));
    ActiveScheduledIsFirst(p.groups[g].schedules, clock);
    AtMostOneActive(p.groups[g].schedules, s, ActiveScheduled(p.groups[g].schedules, clock).value, clock);
    WinnersOwnCaption(Entries(live), name);
  }

  /** With no schedule active, they follow the group's own action. */
  lemma GroupActsUnscheduled(p: Profile, host: string, clock: Clock, g: nat, k: nat)
    requires Stable(host) && Unpaused(p, clock, false) && Decides(p, host, InGroup(g, k)) && g < |p.groups|
    requires forall s | s in p.groups[g].schedules :: !WindowActive(s.window, clock)
    ensures DecisionGo(p, host, clock).Some? && DecisionGo(p, host, clock).value.action == p.groups[g].action
    ensures DecisionJs(p, host, clock).action == p.groups[g].action
    ensures forall e | Compile(p, clock, e).Compiled? && !p.groups[g].action.Unknown? ::
              Redirected(Compile(p, clock, e).rules, host) <==> !Under(e, host) && p.groups[g].action == Block
  {
    hide DecisionGo, DecisionJs, Compile, Redirected, Under, Decides, Stable, ActiveAt;
    var group := p.groups[g];
    DecidesPlace(p, host, InGroup(g, k));
    var ground := Ground(group.category, group.reason, group.domains[k], group.name);
    forall i | 0 <= i < |p.pauses| ensures !ActiveAt(p.pauses[i], clock, true) { ReadAlike(p.pauses[i], clock); }
    forall i, js | 0 <= i < |group.schedules|
      ensures !ActiveAt(group.schedules[i].window, clock, js)
    {
      assert group.schedules[i] in group.schedules;
      ReadAlike(group.schedules[i].window, clock);
      Activity(group.schedules[i].window, clock);
    }
    assert GivesAt(p, clock, false, InGroup(g, k), group.action, ground);
    assert GivesAt(p, clock, true, InGroup(g, k), group.action, ground);
    StableNormal(host);
    ResolverFollowsFields(p, host, host, clock, group.action, ground);
    ExtensionFollowsFields(p, host, host, clock, group.action, ground);
    forall e | Compile(p, clock, e).Compiled? && !group.action.Unknown?
      ensures Redirected(Compile(p, clock, e).rules, host) <==> !Under(e, host) && group.action == Block
    {
      BrowserFollowsFields(p, clock, e, host, group.action, ground);
    }
  }

  /** A query without a normal form is an error for the resolver; the extension says that it matches nothing. */
  lemma NoNameNoMatch(p: Profile, query: string, clock: Clock)
    requires NormalizeName(query) == None
    ensures DecisionGo(p, query, clock) == None
    ensures DecisionJs(p, query, clock) == JsVerdict(p.defaultAction, "", "", None, None, None, p.version, false)
  {
    hide NormalizeName, NormalizeHostname;
    NormalizersAgree(query);
  }

  /** The verdict of a pause carries the label of the first active one. */
  lemma PauseLabels(p: Profile, query: string, clock: Clock, i: int)
    requires NormalizeName(query).Some? && FirstPause(p.pauses, clock, false, i)
    ensures 0 <= i < |p.pauses| && DecisionGo(p, query, clock) ==
            Some(Verdict(Block, "global_pause", "Pausa geral", "", "", p.pauses[i].title, p.version))
  {
    PauseIsFirst(p, clock, false);
  }
}
