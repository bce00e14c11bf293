/** What the policy store accepts, read off the fields of the profiles alone, and what it finds afterwards. */
module Acceptance {
  import opened Text
  import opened Names
  import opened PolicyTypes
  import opened Schedule
  import opened Occupancy
  import opened PolicyStore

  // ---- the requirements, field by field ------------------------------------

  predicate KnownAction(action: Action) {
    action == Allow || action == Block || action == Observe
  }

  predicate Named(value: string) {
    NormalizeName(value).Some?
  }

  /** Two values that both have a normal form, and not the same one. */
  predicate NamedApart(a: string, b: string) {
    Named(a) && Named(b) && NormalizeName(a) != NormalizeName(b)
  }

  predicate LabelsApart(a: string, b: string)
    requires Named(a) && Named(b)
  {
    FirstLabel(NormalizeName(a).value) != FirstLabel(NormalizeName(b).value)
  }

  predicate GoodRule(r: Rule) {
    Named(r.domain) && KnownAction(r.action)
  }

  /** An id and a title of at most 80 characters besides white space, two different times of day, some weekdays,
      and none of them twice. */
  predicate GoodWindow(w: TimeWindow) {
    && 0 < |TrimSpace(w.id)| <= 80 && 0 < |TrimSpace(w.title)| <= 80
    && ParseMinute(w.start).Some? && ParseMinute(w.end).Some? && ParseMinute(w.start) != ParseMinute(w.end)
    && w.days != []
    && (forall i | 0 <= i < |w.days| :: 0 <= w.days[i] <= 6)
    && forall i, j | 0 <= i < j < |w.days| :: w.days[i] != w.days[j]
  }

  predicate GoodPauses(pauses: seq<TimeWindow>) {
    && (forall i | 0 <= i < |pauses| :: GoodWindow(pauses[i]))
    && forall i, j | 0 <= i < j < |pauses| :: pauses[i].id != pauses[j].id
  }

  predicate GoodSchedule(s: ScheduledAction) {
    GoodWindow(s.window) && (s.action == Allow || s.action == Block)
  }

  /** Different ids, and no instant of the week at which both are active. */
  ghost predicate GoodTogether(s: ScheduledAction, t: ScheduledAction) {
    s.window.id != t.window.id
    && forall clock | ValidClock(clock) :: !(WindowActive(s.window, clock) && WindowActive(t.window, clock))
  }

  ghost predicate GoodSchedules(schedules: seq<ScheduledAction>) {
    && (forall i | 0 <= i < |schedules| :: GoodSchedule(schedules[i]))
    && forall i, j | 0 <= i < j < |schedules| :: GoodTogether(schedules[i], schedules[j])
  }

  predicate GoodDomains(domains: seq<string>) {
    && (forall i | 0 <= i < |domains| :: Named(domains[i]))
    && forall i, j | 0 <= i < j < |domains| :: NamedApart(domains[i], domains[j])
  }

  ghost predicate GoodGroup(g: RuleGroup) {
    g.id != "" && g.name != "" && KnownAction(g.action) && GoodSchedules(g.schedules) && GoodDomains(g.domains)
  }

  ghost predicate GoodGroups(groups: seq<RuleGroup>) {
    && (forall i | 0 <= i < |groups| :: GoodGroup(groups[i]))
    && forall i, j | 0 <= i < j < |groups| :: groups[i].id != groups[j].id
  }

  predicate GoodRules(rules: seq<Rule>) {
    forall i | 0 <= i < |rules| :: GoodRule(rules[i])
  }

  predicate GoodZone(zones: set<string>, name: string) {
    if name == "" then "America/Sao_Paulo" in zones else name in zones
  }

  ghost predicate GoodProfile(zones: set<string>, p: Profile) {
    && Named(p.hostname) && p.id != "" && KnownAction(p.defaultAction) && GoodZone(zones, p.timeZone)
    && GoodPauses(p.pauses) && GoodRules(p.rules) && GoodGroups(p.groups)
  }

  /** Of two enabled profiles neither the hostname nor its first label is the same. */
  predicate NoClash(p: Profile, q: Profile) {
    !p.disabled && !q.disabled ==> NamedApart(p.hostname, q.hostname) && LabelsApart(p.hostname, q.hostname)
  }

  ghost predicate GoodList(zones: set<string>, profiles: seq<Profile>) {
    && (forall i | 0 <= i < |profiles| && !profiles[i].disabled :: GoodProfile(zones, profiles[i]))
    && forall i, j | 0 <= i < j < |profiles| :: NoClash(profiles[i], profiles[j])
  }

  // ---- the store accepts exactly those -------------------------------------

  lemma {:induction false} DaysExactly(days: seq<int>)
    ensures DistinctDays(days) <==>
            (forall i | 0 <= i < |days| :: 0 <= days[i] <= 6)
            && forall i, j | 0 <= i < j < |days| :: days[i] != days[j]
  {
    if days != [] {
      var n := |days| - 1;
      DaysExactly(days[..n]);
      if DistinctDays(days) {
        forall i | 0 <= i < |days|
          ensures 0 <= days[i] <= 6
        {
          assert i < n ==> days[i] == days[..n][i];
        }
        forall i, j | 0 <= i < j < |days|
          ensures days[i] != days[j]
        {
          assert days[i] == days[..n][i];
          assert j < n ==> days[j] == days[..n][j];
        }
      }
    }
  }

  lemma WindowExactly(w: TimeWindow)
    ensures ValidWindow(w) <==> GoodWindow(w)
  {
    hide TrimSpace, ParseMinute, DistinctDays;
    DaysExactly(w.days);
  }

  lemma PausesExactly(pauses: seq<TimeWindow>)
    ensures PausesOK(pauses) <==> GoodPauses(pauses)
  {
    hide ValidWindow, GoodWindow;
    forall w: TimeWindow ensures ValidWindow(w) <==> GoodWindow(w) { WindowExactly(w); }
  }

  lemma RulesExactly(rules: seq<Rule>)
    ensures RulesOK(rules) <==> GoodRules(rules)
  {
    hide NormalizeName;
    forall r: Rule ensures RuleOK(r) <==> GoodRule(r) { }
  }

  lemma {:induction false} FormsHold(domains: seq<string>, n: nat, name: string)
    requires n <= |domains|
    ensures name in Forms(domains, n) <==> exists i :: 0 <= i < n && Canonical(domains[i]) == name
  {
    hide Canonical;
    if n > 0 {
      FormsHold(domains, n - 1, name);
    }
  }

  lemma {:induction false} DomainsExactly(domains: seq<string>, n: nat)
    requires n <= |domains|
    ensures DomainsOK(domains, n) <==> GoodDomains(domains[..n])
  {
    hide NormalizeName;
    if n > 0 {
      DomainsExactly(domains, n - 1);
      FormsHold(domains, n - 1, Canonical(domains[n - 1]));
      var before, now := domains[..n - 1], domains[..n];
      assert forall i | 0 <= i < n - 1 :: before[i] == now[i] == domains[i];
      assert now[n - 1] == domains[n - 1];
      if DomainsOK(domains, n) {
        forall i, j | 0 <= i < j < n
          ensures NamedApart(now[i], now[j])
        {
          if j < n - 1 {
            assert NamedApart(before[i], before[j]);
          } else {
            assert Named(before[i]) && Canonical(domains[i]) != Canonical(domains[n - 1]);
          }
        }
      }
    }
  }

  lemma {:induction false} IdsHold(schedules: seq<ScheduledAction>, id: string)
    ensures id in Ids(schedules) <==> exists i :: 0 <= i < |schedules| && schedules[i].window.id == id
  {
    if schedules != [] {
      var n := |schedules| - 1;
      IdsHold(schedules[..n], id);
      if id in Ids(schedules) && id != schedules[n].window.id {
        var i :| 0 <= i < n && schedules[..n][i].window.id == id;
        assert schedules[i].window.id == id;
      }
      if i :| 0 <= i < |schedules| && schedules[i].window.id == id {
        assert i < n ==> schedules[..n][i].window.id == id;
      }
    }
  }

  lemma {:induction false} IdsExactly(schedules: seq<ScheduledAction>)
    ensures DistinctIds(schedules) <==>
            forall i, j | 0 <= i < j < |schedules| :: schedules[i].window.id != schedules[j].window.id
  {
    if schedules != [] {
      var n := |schedules| - 1;
      var before := schedules[..n];
      IdsExactly(before);
      IdsHold(before, schedules[n].window.id);
      assert forall i | 0 <= i < n :: before[i] == schedules[i];
    }
  }

  lemma {:induction false} ValidExactly(schedules: seq<ScheduledAction>)
    ensures AllValid(schedules) <==> forall i | 0 <= i < |schedules| :: GoodSchedule(schedules[i])
  {
    hide ValidWindow, GoodWindow;
    if schedules != [] {
      var n := |schedules| - 1;
      ValidExactly(schedules[..n]);
      WindowExactly(schedules[n].window);
      assert forall i | 0 <= i < n :: schedules[..n][i] == schedules[i];
    }
  }

  lemma SchedulesExactly(schedules: seq<ScheduledAction>)
    ensures SchedulesOK(schedules) <==> GoodSchedules(schedules)
  {
    hide SchedulesOK, AllValid, DistinctIds, DisjointWindows, GoodSchedule, WindowActive;
    ValidExactly(schedules);
    IdsExactly(schedules);
    AcceptedMeans(schedules);
    if AllValid(schedules) && DistinctIds(schedules) {
      AcceptedIffNeverTogether(schedules);
    }
  }

  lemma GroupExactly(g: RuleGroup)
    ensures GroupOK(g) <==> GoodGroup(g)
  {
    hide SchedulesOK, GoodSchedules, DomainsOK, GoodDomains;
    SchedulesExactly(g.schedules);
    DomainsExactly(g.domains, |g.domains|);
    assert g.domains[..|g.domains|] == g.domains;
  }

  lemma {:induction false} GroupIdsHold(groups: seq<RuleGroup>, n: nat, id: string)
    requires n <= |groups|
    ensures id in GroupIds(groups, n) <==> exists i :: 0 <= i < n && groups[i].id == id
  {
    if n > 0 {
      GroupIdsHold(groups, n - 1, id);
    }
  }

  lemma {:induction false} GroupsExactly(groups: seq<RuleGroup>, n: nat)
    requires n <= |groups|
    ensures GroupsOK(groups, n) <==> GoodGroups(groups[..n])
  {
    hide GroupOK, GoodGroup;
    if n > 0 {
      GroupsExactly(groups, n - 1);
      GroupExactly(groups[n - 1]);
      GroupIdsHold(groups, n - 1, groups[n - 1].id);
      var before, now := groups[..n - 1], groups[..n];
      assert forall i | 0 <= i < n - 1 :: before[i] == now[i] == groups[i];
      assert now[n - 1] == groups[n - 1];
    }
  }

  lemma ProfileExactly(zones: set<string>, p: Profile)
    ensures ProfileOK(zones, p) <==> GoodProfile(zones, p)
  {
    hide NormalizeName, PausesOK, GoodPauses, RulesOK, GoodRules, GroupsOK, GoodGroups;
    PausesExactly(p.pauses);
    RulesExactly(p.rules);
    GroupsExactly(p.groups, |p.groups|);
    assert p.groups[..|p.groups|] == p.groups;
  }

  lemma GoodSnoc(zones: set<string>, profiles: seq<Profile>, p: Profile)
    ensures GoodList(zones, profiles + [p]) <==>
            && GoodList(zones, profiles)
            && (p.disabled || (GoodProfile(zones, p) && forall i | 0 <= i < |profiles| :: NoClash(profiles[i], p)))
  {
    hide GoodProfile, Named, LabelsApart, NamedApart;
    var longer := profiles + [p];
    assert forall i | 0 <= i < |profiles| :: longer[i] == profiles[i];
    assert longer[|profiles|] == p;
  }

  lemma ApartByKeys(zones: set<string>, p: Profile, q: Profile)
    requires !p.disabled && !q.disabled && GoodProfile(zones, p) && GoodProfile(zones, q)
    ensures NoClash(p, q) <==> Canonical(p.hostname) != Canonical(q.hostname) && EndpointLabel(p) != EndpointLabel(q)
  {
    hide NormalizeName, FirstLabel;
  }

  /** A key of an index is the name of some enabled profile. */
  lemma KeysHold(profiles: seq<Profile>, n: nat, index: map<string, nat>, labels: bool, key: string)
    requires n <= |profiles| && Holds(profiles, n, index, labels)
    ensures key in index <==> exists i :: 0 <= i < n && !profiles[i].disabled && KeyIn(profiles[i], labels) == key
  {
    hide KeyIn;
    if key in index {
      assert OwnKey(profiles, n, index, labels, key);
    }
    if i :| 0 <= i < n && !profiles[i].disabled && KeyIn(profiles[i], labels) == key {
      assert Found(profiles[i], i, index, labels);
    }
  }

  /** One more enabled profile is indexed exactly when it is good and apart from all enabled ones before it. */
  lemma OneMoreIndexed(zones: set<string>, profiles: seq<Profile>, n: nat)
    requires n < |profiles| && !profiles[n].disabled
    requires Build(zones, profiles, n).Some? && GoodList(zones, profiles[..n])
    ensures Build(zones, profiles, n + 1).Some? <==>
            GoodProfile(zones, profiles[n]) && forall i | 0 <= i < n :: NoClash(profiles[i], profiles[n])
  {
    hide GoodProfile, ProfileOK, NoClash, Canonical, EndpointLabel;
    var ix, p := Build(zones, profiles, n).value, profiles[n];
    IndexesHoldEnabledProfiles(zones, profiles, n);
    KeysHold(profiles, n, ix.byHostname, false, Canonical(p.hostname));
    KeysHold(profiles, n, ix.byLabel, true, EndpointLabel(p));
    ProfileExactly(zones, p);
    if GoodProfile(zones, p) {
      forall i | 0 <= i < n
        ensures NoClash(profiles[i], p) <==>
                profiles[i].disabled
                || (Canonical(profiles[i].hostname) != Canonical(p.hostname)
                    && EndpointLabel(profiles[i]) != EndpointLabel(p))
      {
        if profiles[i].disabled {
          DisabledIsApart(profiles[i], p);
        } else {
          assert profiles[..n][i] == profiles[i];
          ApartByKeys(zones, profiles[i], p);
        }
      }
    }
  }

  lemma DisabledIsApart(p: Profile, q: Profile)
    requires p.disabled || q.disabled
    ensures NoClash(p, q)
  {
  }

  lemma {:induction false} FirstAccepted(zones: set<string>, profiles: seq<Profile>, n: nat)
    requires n <= |profiles|
    ensures Build(zones, profiles, n).Some? <==> GoodList(zones, profiles[..n])
  {
    hide GoodProfile, ProfileOK, NoClash, Canonical, EndpointLabel, GoodList;
    if n == 0 {
      EmptyIsGood(zones, profiles[..n]);
    } else {
      FirstAccepted(zones, profiles, n - 1);
      GoodSnoc(zones, profiles[..n - 1], profiles[n - 1]);
      assert profiles[..n] == profiles[..n - 1] + [profiles[n - 1]];
      if Build(zones, profiles, n - 1).Some? && !profiles[n - 1].disabled {
        OneMoreIndexed(zones, profiles, n - 1);
      }
    }
  }

  lemma EmptyIsGood(zones: set<string>, profiles: seq<Profile>)
    requires profiles == []
    ensures GoodList(zones, profiles)
  {
  }

  /** The store accepts a list exactly when every enabled profile meets the requirements and no two enabled ones
      have a hostname or a first label in common. */
  lemma AcceptsExactly(zones: set<string>, profiles: seq<Profile>)
    ensures Accept(zones, profiles).Some? <==> GoodList(zones, profiles)
  {
    hide GoodList;
    FirstAccepted(zones, profiles, |profiles|);
    assert profiles[..|profiles|] == profiles;
  }

  // ---- adding one thing to an accepted list --------------------------------

  predicate Live(profiles: seq<Profile>, j: int) {
    0 <= j < |profiles| && !profiles[j].disabled
  }

  /** Changing what an enabled profile demands, and not its hostname, is accepted exactly when the changed profile
      meets the requirements. */
  lemma OneChanged(zones: set<string>, profiles: seq<Profile>, j: int, p: Profile)
    requires Accept(zones, profiles).Some? && Live(profiles, j) && !p.disabled && p.hostname == profiles[j].hostname
    ensures GoodProfile(zones, profiles[j])
    ensures Accept(zones, profiles[j := p]).Some? <==> GoodProfile(zones, p)
  {
    hide GoodProfile, Accept, NamedApart, LabelsApart;
    var changed := profiles[j := p];
    AcceptsExactly(zones, profiles);
    AcceptsExactly(zones, changed);
    assert changed[j] == p;
    assert forall i | 0 <= i < |profiles| && i != j :: changed[i] == profiles[i];
    forall i, k | 0 <= i < k < |profiles|
      ensures NoClash(changed[i], changed[k])
    {
      assert NoClash(profiles[i], profiles[k]);
    }
  }

  /** One more rule is accepted exactly when its domain has a normal form and its action is one of the three. */
  lemma AppendRule(zones: set<string>, profiles: seq<Profile>, j: int, r: Rule)
    requires Accept(zones, profiles).Some? && Live(profiles, j)
    ensures var p := profiles[j].(rules := profiles[j].rules + [r]);
            Accept(zones, profiles[j := p]).Some? <==>
            NormalizeName(r.domain).Some? && (r.action == Allow || r.action == Block || r.action == Observe)
  {
    hide Accept, NormalizeName, GoodPauses, GoodGroups, GoodZone;
    var p := profiles[j].(rules := profiles[j].rules + [r]);
    OneChanged(zones, profiles, j, p);
    assert forall i | 0 <= i < |profiles[j].rules| :: p.rules[i] == profiles[j].rules[i];
    assert p.rules[|profiles[j].rules|] == r;
  }

  /** One more pause is accepted exactly when it is a good window with an id no other pause of the profile has. */
  lemma AppendPause(zones: set<string>, profiles: seq<Profile>, j: int, w: TimeWindow)
    requires Accept(zones, profiles).Some? && Live(profiles, j)
    ensures var p := profiles[j].(pauses := profiles[j].pauses + [w]);
            Accept(zones, profiles[j := p]).Some? <==>
            GoodWindow(w) && forall i | 0 <= i < |profiles[j].pauses| :: profiles[j].pauses[i].id != w.id
  {
    hide Accept, Named, GoodWindow, GoodRules, GoodGroups, GoodZone;
    var p := profiles[j].(pauses := profiles[j].pauses + [w]);
    OneChanged(zones, profiles, j, p);
    assert forall i | 0 <= i < |profiles[j].pauses| :: p.pauses[i] == profiles[j].pauses[i];
    assert p.pauses[|profiles[j].pauses|] == w;
  }

  /** One more group is accepted exactly when it has a name, an id no other group of the profile has, one of the
      three actions, good schedules and good domains. */
  lemma AppendGroup(zones: set<string>, profiles: seq<Profile>, j: int, g: RuleGroup)
    requires Accept(zones, profiles).Some? && Live(profiles, j)
    ensures var p := profiles[j].(groups := profiles[j].groups + [g]);
            Accept(zones, profiles[j := p]).Some? <==>
            && g.id != "" && g.name != "" && (g.action == Allow || g.action == Block || g.action == Observe)
            && GoodSchedules(g.schedules) && GoodDomains(g.domains)
            && forall i | 0 <= i < |profiles[j].groups| :: profiles[j].groups[i].id != g.id
  {
    hide Accept, Named, GoodPauses, GoodRules, GoodSchedules, GoodDomains, GoodZone;
    var p := profiles[j].(groups := profiles[j].groups + [g]);
    OneChanged(zones, profiles, j, p);
    assert forall i | 0 <= i < |profiles[j].groups| :: p.groups[i] == profiles[j].groups[i];
    assert p.groups[|profiles[j].groups|] == g;
  }

  /** A group of an enabled profile, and the list with that group changed. */
  predicate GroupOf(profiles: seq<Profile>, j: int, g: int) {
    Live(profiles, j) && 0 <= g < |profiles[j].groups|
  }

  function WithGroup(profiles: seq<Profile>, j: int, g: int, group: RuleGroup): seq<Profile>
    requires GroupOf(profiles, j, g)
  {
    profiles[j := profiles[j].(groups := profiles[j].groups[g := group])]
  }

  lemma OneGroupChanged(zones: set<string>, profiles: seq<Profile>, j: int, g: int, group: RuleGroup)
    requires Accept(zones, profiles).Some? && GroupOf(profiles, j, g) && group.id == profiles[j].groups[g].id
    ensures GoodGroup(profiles[j].groups[g])
    ensures Accept(zones, WithGroup(profiles, j, g, group)).Some? <==> GoodGroup(group)
  {
    hide Accept, Named, GoodPauses, GoodRules, GoodGroup, GoodZone;
    OneChanged(zones, profiles, j, profiles[j].(groups := profiles[j].groups[g := group]));
    var changed := profiles[j].groups[g := group];
    assert changed[g] == group;
    assert forall i | 0 <= i < |changed| && i != g :: changed[i] == profiles[j].groups[i];
  }

  /** One more schedule is accepted exactly when it is a good window that allows or blocks, and each other schedule
      of the group has another id and is never active at the same instant. */
  lemma AppendSchedule(zones: set<string>, profiles: seq<Profile>, j: int, g: int, s: ScheduledAction)
    requires Accept(zones, profiles).Some? && GroupOf(profiles, j, g)
    ensures var group := profiles[j].groups[g];
            Accept(zones, WithGroup(profiles, j, g, group.(schedules := group.schedules + [s]))).Some? <==>
            && GoodWindow(s.window) && (s.action == Allow || s.action == Block)
            && forall i | 0 <= i < |group.schedules| :: GoodTogether(group.schedules[i], s)
  {
    hide Accept, GoodWindow, GoodDomains, GoodTogether, WithGroup;
    var group := profiles[j].groups[g];
    var longer := group.schedules + [s];
    OneGroupChanged(zones, profiles, j, g, group.(schedules := longer));
    assert forall i | 0 <= i < |group.schedules| :: longer[i] == group.schedules[i];
    assert longer[|group.schedules|] == s;
  }

  /** One more domain is accepted exactly when it has a normal form that no other domain of the group has. */
  lemma AppendDomain(zones: set<string>, profiles: seq<Profile>, j: int, g: int, domain: string)
    requires Accept(zones, profiles).Some? && GroupOf(profiles, j, g)
    ensures var group := profiles[j].groups[g];
            Accept(zones, WithGroup(profiles, j, g, group.(domains := group.domains + [domain]))).Some? <==>
            && NormalizeName(domain).Some?
            && forall i | 0 <= i < |group.domains| :: NormalizeName(group.domains[i]) != NormalizeName(domain)
  {
    hide Accept, NormalizeName, GoodSchedules, WithGroup;
    var group := profiles[j].groups[g];
    var longer := group.domains + [domain];
    OneGroupChanged(zones, profiles, j, g, group.(domains := longer));
    assert forall i | 0 <= i < |group.domains| :: longer[i] == group.domains[i];
    assert longer[|group.domains|] == domain;
    if GoodDomains(longer) {
      assert forall i | 0 <= i < |group.domains| :: NamedApart(longer[i], longer[|group.domains|]);
    } else if NormalizeName(domain).Some? {
      assert forall i | 0 <= i < |group.domains| :: Named(group.domains[i]);
    }
  }

  /** One more profile is accepted exactly when it is disabled, or meets the requirements and has a hostname and a
      first label that no enabled profile has. */
  lemma AppendProfile(zones: set<string>, profiles: seq<Profile>, p: Profile)
    requires Accept(zones, profiles).Some?
    ensures Accept(zones, profiles + [p]).Some? <==>
            p.disabled || (GoodProfile(zones, p) && forall i | 0 <= i < |profiles| :: NoClash(profiles[i], p))
  {
    hide Accept, GoodProfile, GoodList, NoClash;
    AcceptsExactly(zones, profiles);
    AcceptsExactly(zones, profiles + [p]);
    GoodSnoc(zones, profiles, p);
  }

  // ---- what an accepted store finds ----------------------------------------

  /** A hostname finds the enabled profile whose own hostname has the same normal form, and nothing else. */
  lemma HostnameFindsExactly(zones: set<string>, profiles: seq<Profile>, hostname: string, i: nat)
    requires Accept(zones, profiles).Some?
    ensures ByHostname(Accept(zones, profiles).value, hostname) == Some(i) <==>
            && Live(profiles, i) && NormalizeName(hostname).Some?
            && NormalizeName(hostname) == NormalizeName(profiles[i].hostname)
  {
    hide Accept, NormalizeName;
    var index := Accept(zones, profiles).value.byHostname;
    Indexed(zones, profiles);
    if NormalizeName(hostname).Some? && Canonical(hostname) in index {
      assert OwnKey(profiles, |profiles|, index, false, Canonical(hostname));
      AcceptedIsGood(zones, profiles, index[Canonical(hostname)]);
    }
    if Live(profiles, i) {
      AcceptedIsGood(zones, profiles, i);
      assert Found(profiles[i], i, index, false);
    }
  }

  /** A single label finds the enabled profile whose hostname's normal form starts with it, and nothing else. */
  lemma LabelFindsExactly(zones: set<string>, profiles: seq<Profile>, title: string, i: nat)
    requires Accept(zones, profiles).Some?
    ensures ByLabel(Accept(zones, profiles).value, title) == Some(i) <==>
            && Live(profiles, i) && NormalizeName(title).Some? && '.' !in NormalizeName(title).value
            && NormalizeName(profiles[i].hostname).Some?
            && NormalizeName(title).value == FirstLabel(NormalizeName(profiles[i].hostname).value)
  {
    hide Accept, NormalizeName, FirstLabel;
    var index := Accept(zones, profiles).value.byLabel;
    Indexed(zones, profiles);
    if NormalizeName(title).Some? && Canonical(title) in index {
      assert OwnKey(profiles, |profiles|, index, true, Canonical(title));
      AcceptedIsGood(zones, profiles, index[Canonical(title)]);
    }
    if Live(profiles, i) {
      AcceptedIsGood(zones, profiles, i);
      assert Found(profiles[i], i, index, true);
    }
  }

  lemma Indexed(zones: set<string>, profiles: seq<Profile>)
    requires Accept(zones, profiles).Some?
    ensures Holds(profiles, |profiles|, Accept(zones, profiles).value.byHostname, false)
    ensures Holds(profiles, |profiles|, Accept(zones, profiles).value.byLabel, true)
  {
    IndexesHoldEnabledProfiles(zones, profiles, |profiles|);
  }

  lemma AcceptedIsGood(zones: set<string>, profiles: seq<Profile>, i: nat)
    requires Accept(zones, profiles).Some? && Live(profiles, i)
    ensures GoodProfile(zones, profiles[i]) && Named(profiles[i].hostname)
  {
    hide Named;
    AcceptsExactly(zones, profiles);
  }

  /** Each value is in normal form where the other one has it. */
  predicate InNormalForm(written: seq<string>, given: seq<string>) {
    |written| == |given| && forall i | 0 <= i < |given| :: NormalizeName(given[i]) == Some(written[i])
  }

  predicate RuleRenamed(written: Rule, given: Rule) {
    NormalizeName(given.domain) == Some(written.domain) && written == given.(domain := written.domain)
  }

  predicate GroupRenamed(written: RuleGroup, given: RuleGroup) {
    InNormalForm(written.domains, given.domains) && written == given.(domains := written.domains)
  }

  /** What the store keeps of an accepted profile is that profile with its hostname, rule domains and group domains in
      normal form, and nothing else changed. */
  lemma KeepsAllButNames(zones: set<string>, profiles: seq<Profile>, i: nat)
    requires Accept(zones, profiles).Some? && Live(profiles, i)
    ensures var given, kept := profiles[i], Kept(profiles[i]);
            && kept == given.(hostname := kept.hostname, rules := kept.rules, groups := kept.groups)
            && NormalizeName(given.hostname) == Some(kept.hostname)
            && |kept.rules| == |given.rules| && |kept.groups| == |given.groups|
            && (forall r | 0 <= r < |given.rules| :: RuleRenamed(kept.rules[r], given.rules[r]))
            && forall g | 0 <= g < |given.groups| :: GroupRenamed(kept.groups[g], given.groups[g])
  {
    hide Accept, NormalizeName, GoodPauses, GoodSchedules, GoodZone;
    AcceptedIsGood(zones, profiles, i);
    var given, kept := profiles[i], Kept(profiles[i]);
    forall r | 0 <= r < |given.rules|
      ensures RuleRenamed(kept.rules[r], given.rules[r])
    {
      assert GoodRule(given.rules[r]);
    }
    forall g | 0 <= g < |given.groups|
      ensures GroupRenamed(kept.groups[g], given.groups[g])
    {
      assert GoodGroup(given.groups[g]);
    }
  }
}
