/** From an accepted configuration to the browser: what the store accepts meets what the interpreters and the
    compiler need, so the server's decision, the extension's and the browser's rules agree. */
module PolicyPipeline {
  import opened Text
  import opened Names
  import opened PolicyTypes
  import opened Schedule
  import opened Occupancy
  import opened PolicyStore
  import opened Matching
  import opened Decision
  import opened ExtensionDecision
  import opened DnrCompiler
  import opened DnrEmission
  import opened DnrCorrectness
  import Pairing
  import PairingRuns

  lemma CanonicalIsName(value: string)
    requires NormalizeName(value).Some?
    ensures Canonical(value) != ""
  {
  }

  lemma AcceptedGroup(g: RuleGroup)
    requires GroupOK(g)
    ensures ValidAction(g.action)
    ensures forall s | s in g.schedules :: ScheduleOK(s)
    ensures forall d | d in NormalGroup(g).domains :: d != ""
  {
    hide NormalizeName, Canonical, ScheduleOK;
    AcceptedMeans(g.schedules);
    forall s | s in g.schedules
      ensures ScheduleOK(s)
    {
      var i :| 0 <= i < |g.schedules| && g.schedules[i] == s;
      AllValidAt(g.schedules, i);
    }
    forall d | d in NormalGroup(g).domains
      ensures d != ""
    {
      var i :| 0 <= i < |g.domains| && NormalGroup(g).domains[i] == d;
      DomainsOKAt(g.domains, i);
      CanonicalIsName(g.domains[i]);
    }
  }

  lemma AcceptedGroups(zones: set<string>, p: Profile, g: RuleGroup)
    requires ProfileOK(zones, p) && !p.disabled && g in Normal(p).groups
    ensures ValidAction(g.action)
    ensures forall s | s in g.schedules :: ScheduleOK(s)
    ensures forall d | d in g.domains :: d != ""
  {
    hide GroupOK, RulesOK, PausesOK, NormalGroup, ScheduleOK;
    var i :| 0 <= i < |p.groups| && NormalGroups(p.groups)[i] == g;
    GroupsOKAt(p.groups, i);
    AcceptedGroup(p.groups[i]);
    KeepsSchedules(p.groups[i]);
  }

  lemma KeepsSchedules(g: RuleGroup)
    ensures NormalGroup(g).schedules == g.schedules && NormalGroup(g).action == g.action
  {
  }

  lemma AcceptedRule(zones: set<string>, p: Profile, rule: Rule)
    requires ProfileOK(zones, p) && !p.disabled && rule in Normal(p).rules
    ensures ValidAction(rule.action) && rule.domain != ""
  {
    hide GroupsOK, PausesOK, NormalizeName, Canonical;
    var i :| 0 <= i < |p.rules| && NormalRules(p.rules)[i] == rule;
    assert RuleOK(p.rules[i]);
    CanonicalIsName(p.rules[i].domain);
  }

  /** An accepted profile, as validation leaves it, has known actions, times that parse and no empty domain. */
  lemma AcceptedProfilesAreRegular(zones: set<string>, p: Profile)
    requires ProfileOK(zones, p) && !p.disabled
    ensures ValidActions(Normal(p)) && WindowsParse(Normal(p)) && NoEmptyDomain(Normal(p))
  {
    var q := Normal(p);
    hide ProfileOK, Normal;
    forall r | r in q.rules
      ensures ValidAction(r.action) && r.domain != ""
    {
      AcceptedRule(zones, p, r);
    }
    forall g | g in q.groups
      ensures ValidAction(g.action) && (forall s | s in g.schedules :: ScheduleOK(s))
              && forall d | d in g.domains :: d != ""
    {
      AcceptedGroups(zones, p, g);
    }
    PausesParse(zones, p);
  }

  lemma PausesParse(zones: set<string>, p: Profile)
    requires ProfileOK(zones, p)
    ensures forall w | w in Normal(p).pauses :: Parses(w)
  {
    hide GroupsOK, RulesOK;
    forall w | w in p.pauses
      ensures Parses(w)
    {
      var i :| 0 <= i < |p.pauses| && p.pauses[i] == w;
      assert ValidWindow(p.pauses[i]);
    }
  }

  lemma HostnameIsIrrelevant(p: Profile, hostname: string, query: string, clock: Clock)
    ensures DecisionGo(p.(hostname := hostname), query, clock) == DecisionGo(p, query, clock)
  {
  }

  /** For every accepted configuration, every enabled profile, clock and normalised host: when the extension can
      compile the policy it is served, the browser redirects exactly the hosts, other than the extension's own, that
      the resolver's copy of the profile blocks. */
  lemma BrowserEnforcesTheStore(zones: set<string>, profiles: seq<Profile>, i: nat, clock: Clock, extensionId: string,
                                host: string)
    requires Accept(zones, profiles).Some? && i < |profiles| && !profiles[i].disabled && Stable(host)
    requires Compile(Normal(profiles[i]), clock, extensionId).Compiled?
    ensures DecisionGo(Kept(profiles[i]), host, clock).Some?
    ensures Redirected(Compile(Normal(profiles[i]), clock, extensionId).rules, host) <==>
            !Under(extensionId, host) && DecisionGo(Kept(profiles[i]), host, clock).value.action == Block
  {
    var served := Normal(profiles[i]);
    AcceptedProfile(zones, profiles, |profiles|, i);
    AcceptedProfilesAreRegular(zones, profiles[i]);
    HostnameIsIrrelevant(served, Canonical(profiles[i].hostname), host, clock);
    hide ProfileOK, Normal, Canonical, ValidActions, WindowsParse, NoEmptyDomain;
    InterpretersAgree(served, host, clock);
    CompilationPreservesMeaning(served, clock, extensionId, host);
  }

  /** In an accepted store at most one schedule of a group is active at any instant. */
  lemma AcceptedSchedulesNeverClash(zones: set<string>, profiles: seq<Profile>, i: nat, g: nat, a: ScheduledAction,
                                    b: ScheduledAction, clock: Clock)
    requires Accept(zones, profiles).Some? && i < |profiles| && !profiles[i].disabled && g < |profiles[i].groups|
    requires a in profiles[i].groups[g].schedules && b in profiles[i].groups[g].schedules && ValidClock(clock)
    requires WindowActive(a.window, clock) && WindowActive(b.window, clock)
    ensures a == b
  {
    AcceptedProfile(zones, profiles, |profiles|, i);
    GroupsOKAt(profiles[i].groups, g);
    hide GroupsOK, RulesOK, PausesOK, DomainsOK, WindowActive;
    AtMostOneActive(profiles[i].groups[g].schedules, a, b, clock);
  }

  /** Stored profiles have ids, so an observation by one binds its challenge: no later event mints for it. */
  lemma StoredProfilesMintOnce(zones: set<string>, profiles: seq<Profile>, n: nat, s: Pairing.Settings,
                               events: seq<Pairing.Event>, states: seq<Pairing.State>, i: nat, j: nat, id: string)
    requires Accept(zones, profiles).Some? && n < |profiles| && !profiles[n].disabled
    requires PairingRuns.Behaviour(s, events, states) && PairingRuns.FreshRun(events) && i < j < |events|
    requires PairingRuns.Mints(states[i], events[i]) == Some(id) && events[i].profileId == Kept(profiles[n]).id
    ensures PairingRuns.Mints(states[j], events[j]) != Some(id)
  {
    AcceptedProfile(zones, profiles, |profiles|, n);
    PairingRuns.MintsAtMostOnce(s, events, states, i, j, id);
  }

  // ---- a label of another group --------------------------------------------

  lemma HomeworkWindow(w: TimeWindow)
    requires w == TimeWindow("w", "homework", [1], "10:00", "12:00")
    ensures ValidWindow(w) && WindowActive(w, Clock(1, 11, 0))
  {
    ParseMinuteIsFormatInverse(w.start, 600);
    ParseMinuteIsFormatInverse(w.end, 720);
    TrimKeeps(w.id);
    TrimKeeps(w.title);
    assert w.days[..0] == [];
  }

  lemma PlainGroupOK(g: RuleGroup)
    requires g.id != "" && g.name != "" && ValidAction(g.action) && SchedulesOK(g.schedules)
    requires |g.domains| == 1 && Stable(g.domains[0])
    ensures GroupOK(g) && NormalGroup(g) == g
  {
    hide SchedulesOK, NormalizeName;
    var none: nat := 0;
    assert DomainsOK(g.domains, none) && Forms(g.domains, none) == {};
    assert DomainsOK(g.domains, none + 1);
    assert NormalDomains(g.domains) == g.domains;
  }

  lemma OneSchedule(s: ScheduledAction)
    requires ScheduleOK(s)
    ensures SchedulesOK([]) && SchedulesOK([s])
  {
    hide ScheduleOK;
    var none: seq<ScheduledAction> := [];
    AcceptSnoc(none, s);
    assert none + [s] == [s];
  }

  /** The group on "b.c" has a schedule that is active, the one on "a.b.c" has none. */
  predicate Homework(p: Profile) {
    && p.groups == [
         RuleGroup("1", "wide", Allow, "", "", ["b.c"], [], "", false,
                   [ScheduledAction(TimeWindow("w", "homework", [1], "10:00", "12:00"), Block)]),
         RuleGroup("2", "narrow", Block, "", "", ["a.b.c"], [], "", false, [])]
    && p.id == "p" && p.hostname == "x.dns" && !p.disabled && p.defaultAction == Allow && p.timeZone == ""
    && p.rules == [] && p.pauses == []
  }

  lemma TwoGroupsOK(g: RuleGroup, h: RuleGroup)
    requires GroupOK(g) && GroupOK(h) && g.id != h.id && NormalGroup(g) == g && NormalGroup(h) == h
    ensures GroupsOK([g, h], |[g, h]|) && NormalGroups([g, h]) == [g, h]
  {
    hide GroupOK, NormalGroup;
    var none: nat := 0;
    assert GroupsOK([g, h], none) && GroupIds([g, h], none) == {};
    assert GroupsOK([g, h], none + 1) && GroupIds([g, h], none + 1) == {g.id};
  }

  lemma HomeworkGroups(p: Profile)
    requires Homework(p)
    ensures GroupsOK(p.groups, |p.groups|) && NormalGroups(p.groups) == p.groups
  {
    hide NormalizeName, Stable, SchedulesOK, GroupOK, NormalGroup, GroupsOK, ValidWindow, WindowActive;
    var g, h := p.groups[0], p.groups[1];
    HomeworkWindow(g.schedules[0].window);
    OneSchedule(g.schedules[0]);
    StableCharacterised("b.c");
    StableCharacterised("a.b.c");
    PlainGroupOK(g);
    PlainGroupOK(h);
    TwoGroupsOK(g, h);
  }

  lemma HomeworkIsAccepted(zones: set<string>, p: Profile)
    requires Homework(p) && DEFAULT_ZONE in zones
    ensures ProfileOK(zones, p) && Kept(p) == p
  {
    hide NormalizeName, GroupsOK, NormalGroups;
    HomeworkGroups(p);
    StableCharacterised("x.dns");
    assert NormalRules(p.rules) == p.rules;
  }

  /** A profile that is accepted, and a clock, at which the resolver's verdict names one group and carries the
      schedule label of the other. */
  lemma StaleLabelIsServed(zones: set<string>, p: Profile, clock: Clock)
    requires Homework(p) && DEFAULT_ZONE in zones && clock == Clock(1, 11, 0)
    ensures Accept(zones, [p]).Some? && DecisionGo(Kept(p), "a.b.c", clock).Some?
    ensures var verdict := DecisionGo(Kept(p), "a.b.c", clock).value;
            verdict.groupName == "narrow" && verdict.scheduleLabel == "homework"
  {
    HomeworkIsAccepted(zones, p);
    OneProfileAccepted(zones, p);
    HomeworkWindow(p.groups[0].schedules[0].window);
    StableCharacterised("a.b.c");
    var live := LiveGroups(p.groups, clock);
    LiveGroupAt(p.groups, clock, 0);
    LiveGroupAt(p.groups, clock, 1);
    var e, f := DomainEntry(live[0], "b.c", 0), DomainEntry(live[1], "a.b.c", 1);
    HomeworkEntries(live, e, f);
    StaleLabelExample(e, f);
  }

  lemma HomeworkEntries(live: seq<LiveGroup>, e: Entry, f: Entry)
    requires |live| == 2 && live[0].group.domains == [e.domain] && live[1].group.domains == [f.domain]
    requires e == DomainEntry(live[0], e.domain, 0) && f == DomainEntry(live[1], f.domain, 1)
    ensures Entries(Live(None, [], live)) == [e, f]
  {
    assert [e.domain][..0] == [] && [f.domain][..0] == [];
    assert DomainEntries(live[0], [e.domain], 0) == DomainEntries(live[0], [], 0) + [e];
    assert DomainEntries(live[1], [f.domain], 1) == DomainEntries(live[1], [], 1) + [f];
    assert live[..1][..0] == [] && live[..1][0] == live[0];
    assert GroupEntries(live[..1], 0) == GroupEntries([], 0) + [e];
    assert GroupEntries(live, 0) == GroupEntries(live[..1], 0) + [f];
  }
}
