/** What a name is compared with at an instant, and which match a running-best loop ends with. */
module Matching {
  import opened Text
  import opened Names
  import opened PolicyTypes
  import opened Schedule

  // ---- a policy at an instant ----------------------------------------------

  /** A group with the schedule that is active now, if any. */
  datatype LiveGroup = LiveGroup(group: RuleGroup, active: Option<ScheduledAction>)

  /** A policy as the clock makes it: the active pause, the rules, and the groups with their schedules. */
  datatype Live = Live(pause: Option<TimeWindow>, rules: seq<Rule>, groups: seq<LiveGroup>)

  function ActivePause(pauses: seq<TimeWindow>, clock: Clock): Option<TimeWindow> {
    if pauses == [] then None
    else if WindowActive(pauses[0], clock) then Some(pauses[0])
    else ActivePause(pauses[1..], clock)
  }

  function ActivePauseJs(pauses: seq<TimeWindow>, clock: Clock): Option<TimeWindow> {
    if pauses == [] then None
    else if WindowActiveJs(pauses[0], clock) then Some(pauses[0])
    else ActivePauseJs(pauses[1..], clock)
  }

  function LiveGroups(groups: seq<RuleGroup>, clock: Clock): (live: seq<LiveGroup>)
    ensures |live| == |groups|
  {
    if groups == [] then []
    else LiveGroups(groups[..|groups| - 1], clock)
         + [LiveGroup(groups[|groups| - 1], ActiveScheduled(groups[|groups| - 1].schedules, clock))]
  }

  function LiveGroupsJs(groups: seq<RuleGroup>, clock: Clock): (live: seq<LiveGroup>)
    ensures |live| == |groups|
  {
    if groups == [] then []
    else LiveGroupsJs(groups[..|groups| - 1], clock)
         + [LiveGroup(groups[|groups| - 1], ActiveScheduledJs(groups[|groups| - 1].schedules, clock))]
  }

  lemma {:induction false} LiveGroupAt(groups: seq<RuleGroup>, clock: Clock, g: nat)
    requires g < |groups|
    ensures LiveGroups(groups, clock)[g] == LiveGroup(groups[g], ActiveScheduled(groups[g].schedules, clock))
  {
    if g < |groups| - 1 {
      LiveGroupAt(groups[..|groups| - 1], clock, g);
    }
  }

  lemma {:induction false} LiveGroupJsAt(groups: seq<RuleGroup>, clock: Clock, g: nat)
    requires g < |groups|
    ensures LiveGroupsJs(groups, clock)[g] == LiveGroup(groups[g], ActiveScheduledJs(groups[g].schedules, clock))
  {
    if g < |groups| - 1 {
      LiveGroupJsAt(groups[..|groups| - 1], clock, g);
    }
  }

  function LiveAt(p: Profile, clock: Clock): Live {
    Live(ActivePause(p.pauses, clock), p.rules, LiveGroups(p.groups, clock))
  }

  function LiveAtJs(p: Profile, clock: Clock): Live {
    Live(ActivePauseJs(p.pauses, clock), p.rules, LiveGroupsJs(p.groups, clock))
  }

  predicate Parses(w: TimeWindow) {
    ParseMinute(w.start).Some? && ParseMinute(w.end).Some?
  }

  predicate WindowsParse(p: Profile) {
    && (forall w | w in p.pauses :: Parses(w))
    && (forall g | g in p.groups :: forall s | s in g.schedules :: Parses(s.window))
  }

  lemma {:induction false} PausesMirrored(pauses: seq<TimeWindow>, clock: Clock)
    requires forall w | w in pauses :: Parses(w)
    ensures ActivePauseJs(pauses, clock) == ActivePause(pauses, clock)
  {
    if pauses != [] {
      assert pauses[0] in pauses && Parses(pauses[0]);
      WindowActiveMirrored(pauses[0], clock);
      PausesMirrored(pauses[1..], clock);
    }
  }

  lemma {:induction false} SchedulesMirrored(schedules: seq<ScheduledAction>, clock: Clock)
    requires forall s | s in schedules :: Parses(s.window)
    ensures ActiveScheduledJs(schedules, clock) == ActiveScheduled(schedules, clock)
  {
    if schedules != [] {
      assert schedules[0] in schedules && Parses(schedules[0].window);
      WindowActiveMirrored(schedules[0].window, clock);
      SchedulesMirrored(schedules[1..], clock);
    }
  }

  lemma {:induction false} GroupsMirrored(groups: seq<RuleGroup>, clock: Clock)
    requires forall g | g in groups :: forall s | s in g.schedules :: Parses(s.window)
    ensures LiveGroupsJs(groups, clock) == LiveGroups(groups, clock)
  {
    if groups != [] {
      var n := |groups| - 1;
      assert groups[n] in groups;
      SchedulesMirrored(groups[n].schedules, clock);
      GroupsMirrored(groups[..n], clock);
    }
  }

  lemma LiveMirrored(p: Profile, clock: Clock)
    requires WindowsParse(p)
    ensures LiveAtJs(p, clock) == LiveAt(p, clock)
  {
    PausesMirrored(p.pauses, clock);
    GroupsMirrored(p.groups, clock);
  }

  // ---- the entries a name is compared with ---------------------------------

  /** One domain of a policy with what it decides: a rule's domain or a domain of a group.
      `source` numbers the rules and then the groups; `caption` is the active schedule's label. */
  datatype Entry = Entry(
    domain: string, exact: bool, source: nat, action: Action, category: string, reason: string,
    groupName: string, caption: Option<string>)

  predicate Applies(e: Entry, name: string) {
    name == e.domain || (!e.exact && HasSuffix(name, "." + e.domain))
  }

  function RuleEntry(rule: Rule, source: nat): Entry {
    Entry(rule.domain, !rule.includeSubdomains, source, rule.action, rule.category, rule.reason, "", None)
  }

  /** A group's own action, unless a schedule is active. */
  function EffectiveAction(live: LiveGroup): Action {
    if live.active.Some? then live.active.value.action else live.group.action
  }

  function DomainEntry(live: LiveGroup, domain: string, source: nat): Entry {
    Entry(domain, false, source, EffectiveAction(live), live.group.category, live.group.reason, live.group.name,
          if live.active.Some? then Some(live.active.value.window.title) else None)
  }

  function RuleEntries(rules: seq<Rule>): seq<Entry> {
    if rules == [] then []
    else RuleEntries(rules[..|rules| - 1]) + [RuleEntry(rules[|rules| - 1], |rules| - 1)]
  }

  function DomainEntries(live: LiveGroup, domains: seq<string>, source: nat): seq<Entry> {
    if domains == [] then []
    else DomainEntries(live, domains[..|domains| - 1], source) + [DomainEntry(live, domains[|domains| - 1], source)]
  }

  function GroupEntries(groups: seq<LiveGroup>, base: nat): seq<Entry> {
    if groups == [] then []
    else
      var n := |groups| - 1;
      GroupEntries(groups[..n], base) + DomainEntries(groups[n], groups[n].group.domains, base + n)
  }

  /** All entries in the order the interpreters visit them: the rules, then each group's domains. */
  function Entries(live: Live): seq<Entry> {
    RuleEntries(live.rules) + GroupEntries(live.groups, |live.rules|)
  }

  lemma NextGroup(before: seq<Entry>, live: seq<LiveGroup>, base: nat, g: nat)
    requires g < |live|
    ensures before + GroupEntries(live[..g + 1], base) ==
            before + GroupEntries(live[..g], base) + DomainEntries(live[g], live[g].group.domains, base + g)
  {
    assert live[..g + 1][..g] == live[..g];
  }

  // ---- the running best match ----------------------------------------------

  /** The entry that holds the best match once all entries are visited. */
  function Winner(entries: seq<Entry>, name: string): Option<Entry> {
    if entries == [] then None
    else
      var e, best := entries[|entries| - 1], Winner(entries[..|entries| - 1], name);
      if Applies(e, name) && |e.domain| > BestLength(best) then Some(e) else best
  }

  function BestLength(best: Option<Entry>): int {
    if best.Some? then |best.value.domain| else -1
  }

  /** The schedule label once all entries are visited: kept until a better entry brings its own. */
  function Caption(entries: seq<Entry>, name: string): Option<string> {
    if entries == [] then None
    else
      var e, before := entries[|entries| - 1], entries[..|entries| - 1];
      if Applies(e, name) && |e.domain| > BestLength(Winner(before, name)) && e.caption.Some? then e.caption
      else Caption(before, name)
  }

  lemma VisitOne(entries: seq<Entry>, e: Entry, name: string)
    ensures Winner(entries + [e], name) ==
            if Applies(e, name) && |e.domain| > BestLength(Winner(entries, name)) then Some(e)
            else Winner(entries, name)
    ensures Caption(entries + [e], name) ==
            if Applies(e, name) && |e.domain| > BestLength(Winner(entries, name)) && e.caption.Some? then e.caption
            else Caption(entries, name)
  {
    assert (entries + [e])[..|entries|] == entries;
  }

  /** Entry `i` applies, no applying entry is longer, and no earlier one is as long. */
  ghost predicate FirstLongest(entries: seq<Entry>, name: string, i: int) {
    && 0 <= i < |entries| && Applies(entries[i], name)
    && (forall j | 0 <= j < |entries| && Applies(entries[j], name) :: |entries[j].domain| <= |entries[i].domain|)
    && (forall j | 0 <= j < i && Applies(entries[j], name) :: |entries[j].domain| < |entries[i].domain|)
  }

  lemma {:induction false} WinnerPosition(entries: seq<Entry>, name: string) returns (i: int)
    ensures Winner(entries, name).None? ==> i == -1 && forall j | 0 <= j < |entries| :: !Applies(entries[j], name)
    ensures Winner(entries, name).Some? ==> FirstLongest(entries, name, i) && entries[i] == Winner(entries, name).value
  {
    i := -1;
    if entries != [] {
      var n := |entries| - 1;
      i := WinnerPosition(entries[..n], name);
      assert forall j | 0 <= j < n :: entries[..n][j] == entries[j];
      if Applies(entries[n], name) && |entries[n].domain| > BestLength(Winner(entries[..n], name)) {
        i := n;
      }
    }
  }

  /** The running-best loop finds the first entry of maximal length among the applying ones. */
  lemma WinnerIsFirstLongest(entries: seq<Entry>, name: string)
    ensures Winner(entries, name).None? <==> forall j | 0 <= j < |entries| :: !Applies(entries[j], name)
    ensures forall i | FirstLongest(entries, name, i) :: Winner(entries, name) == Some(entries[i])
    ensures Winner(entries, name).Some? ==>
              exists i :: FirstLongest(entries, name, i) && entries[i] == Winner(entries, name).value
  {
    var w := WinnerPosition(entries, name);
    forall i | FirstLongest(entries, name, i)
      ensures Winner(entries, name) == Some(entries[i])
    {
      assert Winner(entries, name).Some? && FirstLongest(entries, name, w);
      assert i == w;
    }
  }

  // ---- independence of order -----------------------------------------------

  function Unnumbered(e: Entry): Entry {
    e.(source := 0)
  }

  /** The entries for one domain, in order, without their source numbers. */
  function SameDomain(entries: seq<Entry>, domain: string): seq<Entry> {
    if entries == [] then []
    else
      var e, before := entries[|entries| - 1], SameDomain(entries[..|entries| - 1], domain);
      if e.domain == domain then before + [Unnumbered(e)] else before
  }

  function FirstApplying(entries: seq<Entry>, name: string): Option<Entry> {
    if entries == [] then None
    else
      var first := FirstApplying(entries[..|entries| - 1], name);
      if first.None? && Applies(entries[|entries| - 1], name) then Some(entries[|entries| - 1]) else first
  }

  lemma FirstApplyingSnoc(entries: seq<Entry>, e: Entry, name: string)
    ensures FirstApplying(entries + [e], name) ==
            var first := FirstApplying(entries, name);
            if first.None? && Applies(e, name) then Some(e) else first
  {
    assert (entries + [e])[..|entries|] == entries;
  }

  lemma {:induction false} NoneApplies(entries: seq<Entry>, domain: string, name: string)
    requires forall j | 0 <= j < |entries| && entries[j].domain == domain :: !Applies(entries[j], name)
    ensures FirstApplying(SameDomain(entries, domain), name).None?
  {
    if entries != [] {
      var n := |entries| - 1;
      assert forall j | 0 <= j < n :: entries[..n][j] == entries[j];
      NoneApplies(entries[..n], domain, name);
      FirstApplyingSnoc(SameDomain(entries[..n], domain), Unnumbered(entries[n]), name);
    }
  }

  /** The winner is the first applying entry of its own domain. */
  lemma {:induction false} WinnerAmongSameDomain(entries: seq<Entry>, name: string, i: nat)
    requires i < |entries| && Applies(entries[i], name)
    requires forall j | 0 <= j < i && entries[j].domain == entries[i].domain :: !Applies(entries[j], name)
    ensures FirstApplying(SameDomain(entries, entries[i].domain), name) == Some(Unnumbered(entries[i]))
  {
    var n := |entries| - 1;
    var d := entries[i].domain;
    assert forall j | 0 <= j < n :: entries[..n][j] == entries[j];
    if i < n {
      WinnerAmongSameDomain(entries[..n], name, i);
    } else {
      NoneApplies(entries[..n], d, name);
    }
    FirstApplyingSnoc(SameDomain(entries[..n], d), Unnumbered(entries[n]), name);
  }

  lemma {:induction false} SameDomainMember(entries: seq<Entry>, domain: string, x: Entry)
    ensures x in SameDomain(entries, domain) <==>
            exists i :: 0 <= i < |entries| && entries[i].domain == domain && Unnumbered(entries[i]) == x
  {
    if entries != [] {
      var n := |entries| - 1;
      SameDomainMember(entries[..n], domain, x);
      assert forall j | 0 <= j < n :: entries[..n][j] == entries[j];
      assert entries[n].domain == domain && Unnumbered(entries[n]) == x ==> x in SameDomain(entries, domain);
    }
  }

  /** An applying entry of one list has a counterpart in every list with the same entries per domain. */
  lemma Counterpart(s: seq<Entry>, t: seq<Entry>, name: string, i: nat) returns (j: nat)
    requires forall d :: SameDomain(s, d) == SameDomain(t, d)
    requires i < |s| && Applies(s[i], name)
    ensures j < |t| && Applies(t[j], name) && t[j].domain == s[i].domain
  {
    var d, x := s[i].domain, Unnumbered(s[i]);
    SameDomainMember(s, d, x);
    SameDomainMember(t, d, x);
    assert SameDomain(s, d) == SameDomain(t, d);
    j :| 0 <= j < |t| && t[j].domain == d && Unnumbered(t[j]) == x;
  }

  /** Reordering entries without reordering those of one domain leaves the winner as it was. */
  lemma WinnerIgnoresOrderAcrossDomains(s: seq<Entry>, t: seq<Entry>, name: string)
    requires forall d :: SameDomain(s, d) == SameDomain(t, d)
    ensures match (Winner(s, name), Winner(t, name))
            case (None, None) => true
            case (Some(e), Some(f)) => Unnumbered(e) == Unnumbered(f)
            case _ => false
  {
    var i := WinnerPosition(s, name);
    var j := WinnerPosition(t, name);
    if Winner(s, name).Some? {
      var i' := Counterpart(s, t, name, i);
    }
    if Winner(t, name).Some? {
      var j' := Counterpart(t, s, name, j);
    }
    if Winner(s, name).Some? && Winner(t, name).Some? {
      var i' := Counterpart(s, t, name, i);
      var j' := Counterpart(t, s, name, j);
      assert |s[i].domain| == |t[j].domain|;
      EqualLengthCover(s[i].domain, t[j].domain, name);
      WinnerAmongSameDomain(s, name, i);
      WinnerAmongSameDomain(t, name, j);
    }
  }

  // ---- the schedule label --------------------------------------------------

  /** Entry `i` was the best match when the loop reached it. */
  predicate Improves(entries: seq<Entry>, name: string, i: nat)
    requires i < |entries|
  {
    Applies(entries[i], name) && |entries[i].domain| > BestLength(Winner(entries[..i], name))
  }

  /** Entry `i` improved the match and brought a schedule label. */
  predicate Captions(entries: seq<Entry>, name: string, i: nat)
    requires i < |entries|
  {
    Improves(entries, name, i) && entries[i].caption.Some?
  }

  lemma CaptionsPrefix(entries: seq<Entry>, name: string, n: nat, i: nat)
    requires i < n <= |entries|
    ensures Captions(entries[..n], name, i) == Captions(entries, name, i)
  {
    assert entries[..n][..i] == entries[..i];
  }

  lemma {:induction false} CaptionExists(entries: seq<Entry>, name: string)
    ensures Caption(entries, name).Some? <==> exists i | 0 <= i < |entries| :: Captions(entries, name, i)
  {
    if entries != [] {
      var n := |entries| - 1;
      CaptionExists(entries[..n], name);
      forall i | 0 <= i < n
        ensures Captions(entries[..n], name, i) == Captions(entries, name, i)
      {
        CaptionsPrefix(entries, name, n, i);
      }
      assert Captions(entries, name, n) ==> Caption(entries, name).Some?;
    }
  }

  lemma {:induction false} WinnersOwnCaption(entries: seq<Entry>, name: string)
    requires Winner(entries, name).Some? && Winner(entries, name).value.caption.Some?
    ensures Caption(entries, name) == Winner(entries, name).value.caption
  {
    var n := |entries| - 1;
    if !(Applies(entries[n], name) && |entries[n].domain| > BestLength(Winner(entries[..n], name))) {
      WinnersOwnCaption(entries[..n], name);
    }
  }

  /** The verdict's schedule label is the winning group's own unless that group has no active
      schedule while a shorter match found on the way had one. Then the label is stale. */
  lemma LabelIsStaleExactly(entries: seq<Entry>, name: string)
    requires Winner(entries, name).Some?
    ensures Caption(entries, name) == Winner(entries, name).value.caption <==>
            Winner(entries, name).value.caption.Some? ||
            !exists i | 0 <= i < |entries| :: Captions(entries, name, i)
  {
    CaptionExists(entries, name);
    if Winner(entries, name).value.caption.Some? {
      WinnersOwnCaption(entries, name);
    }
  }

  /** A scheduled group on "b.c" followed by an unscheduled one on "a.b.c" leaves the first one's label. */
  lemma StaleLabelExample(e: Entry, f: Entry)
    requires e.domain == "b.c" && f.domain == "a.b.c" && !e.exact && e.caption == Some("homework") && f.caption == None
    ensures Winner([e, f], "a.b.c") == Some(f) && Caption([e, f], "a.b.c") == Some("homework")
  {
    assert "a.b.c"[1..] == ".b.c";
    VisitOne([], e, "a.b.c");
    VisitOne([e], f, "a.b.c");
    assert [] + [e] == [e] && [e] + [f] == [e, f];
  }
}
