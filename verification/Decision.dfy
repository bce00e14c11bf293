/** The Go interpreter of a policy, `DecideAt`. */
module Decision {
  import opened Text
  import opened Names
  import opened PolicyTypes
  import opened Schedule
  import opened Matching

  datatype Verdict = Verdict(
    action: Action, category: string, reason: string, matchedDomain: string, groupName: string,
    scheduleLabel: string, policyVersion: int)

  function OrEmpty(s: Option<string>): string {
    if s.Some? then s.value else ""
  }

  /** The verdict for a best match and a schedule label. */
  function Render(p: Profile, best: Option<Entry>, caption: Option<string>): Verdict {
    match best
    case None => Verdict(p.defaultAction, "", "", "", "", OrEmpty(caption), p.version)
    case Some(e) => Verdict(e.action, e.category, e.reason, e.domain, e.groupName, OrEmpty(caption), p.version)
  }

  function VerdictFor(p: Profile, live: Live, name: string): Verdict {
    if live.pause.Some? then
      Verdict(Block, "global_pause", "Pausa geral", "", "", live.pause.value.title, p.version)
    else
      VerdictSoFar(p, Entries(live), name)
  }

  /** The verdict so far: what the first entries of a policy decide. */
  function VerdictSoFar(p: Profile, done: seq<Entry>, name: string): Verdict {
    Render(p, Winner(done, name), Caption(done, name))
  }

  /** What a policy decides on a query; `None` is the Go error for a query that is not a name. */
  function DecisionGo(p: Profile, queryName: string, clock: Clock): Option<Verdict> {
    match NormalizeName(queryName)
    case None => None
    case Some(name) => Some(VerdictFor(p, LiveAt(p, clock), name))
  }

  /** Outside pauses the verdict is that of the first entry, rules before groups, among the applying
      entries of maximal length, and the profile's default when no entry applies. */
  lemma VerdictIsFirstLongest(p: Profile, query: string, clock: Clock, name: string, i: nat)
    requires NormalizeName(query) == Some(name) && LiveAt(p, clock).pause.None?
    ensures var entries := Entries(LiveAt(p, clock));
            && (FirstLongest(entries, name, i) ==>
                  DecisionGo(p, query, clock).value.(scheduleLabel := "") ==
                  Verdict(entries[i].action, entries[i].category, entries[i].reason, entries[i].domain,
                          entries[i].groupName, "", p.version))
            && ((forall j | 0 <= j < |entries| :: !Applies(entries[j], name)) ==>
                  DecisionGo(p, query, clock).value.(scheduleLabel := "") ==
                  Verdict(p.defaultAction, "", "", "", "", "", p.version))
  {
    WinnerIsFirstLongest(Entries(LiveAt(p, clock)), name);
  }

  method DecideAt(p: Profile, queryName: string, clock: Clock) returns (verdict: Option<Verdict>)
    ensures verdict == DecisionGo(p, queryName, clock)
  {
    var normalized := NormalizeName(queryName);
    if normalized.None? { return None; }
    var name := normalized.value;
    var pause := ActivePause(p.pauses, clock);
    if pause.Some? {
      return Some(Verdict(Block, "global_pause", "Pausa geral", "", "", pause.value.title, p.version));
    }
    var best, decision := DecideRules(p, name);
    best, decision := DecideGroups(p, name, clock, best, decision, |p.rules|, RuleEntries(p.rules));
    return Some(decision);
  }

  /** The loop over groups. */
  method DecideGroups(p: Profile, name: string, clock: Clock, best0: int, decision0: Verdict,
                      ghost base: nat, ghost before: seq<Entry>)
    returns (best: int, decision: Verdict)
    requires best0 == BestLength(Winner(before, name))
    requires decision0 == VerdictSoFar(p, before, name)
    ensures var done := before + GroupEntries(LiveGroups(p.groups, clock), base);
            best == BestLength(Winner(done, name)) && decision == VerdictSoFar(p, done, name)
  {
    best, decision := best0, decision0;
    ghost var live := LiveGroups(p.groups, clock);
    ghost var done := before;
    for g := 0 to |p.groups|
      invariant done == before + GroupEntries(live[..g], base)
      invariant best == BestLength(Winner(done, name))
      invariant decision == VerdictSoFar(p, done, name)
    {
      LiveGroupAt(p.groups, clock, g);
      NextGroup(before, live, base, g);
      best, decision := DecideGroup(p, p.groups[g], name, clock, best, decision, base + g, done);
      done := done + DomainEntries(live[g], live[g].group.domains, base + g);
    }
    assert live[..|p.groups|] == live;
  }

  /** The loop over rules, from the default decision. */
  method DecideRules(p: Profile, name: string) returns (best: int, decision: Verdict)
    ensures best == BestLength(Winner(RuleEntries(p.rules), name))
    ensures decision == VerdictSoFar(p, RuleEntries(p.rules), name)
  {
    decision := Verdict(p.defaultAction, "", "", "", "", "", p.version);
    best := -1;
    ghost var done: seq<Entry> := [];
    for k := 0 to |p.rules|
      invariant done == RuleEntries(p.rules[..k])
      invariant best == BestLength(Winner(done, name))
      invariant Caption(done, name) == None && decision.groupName == ""
      invariant decision == VerdictSoFar(p, done, name)
    {
      var rule := p.rules[k];
      assert p.rules[..k + 1][..k] == p.rules[..k];
      VisitOne(done, RuleEntry(rule, k), name);
      done := done + [RuleEntry(rule, k)];
      var matches := name == rule.domain;
      if rule.includeSubdomains {
        matches := matches || HasSuffix(name, "." + rule.domain);
      }
      if !matches || |rule.domain| <= best { continue; }
      best := |rule.domain|;
      decision := decision.(action := rule.action, category := rule.category, reason := rule.reason,
                            matchedDomain := rule.domain);
    }
    assert p.rules[..|p.rules|] == p.rules;
  }

  /** The loop over one group's domains. */
  method DecideGroup(p: Profile, group: RuleGroup, name: string, clock: Clock, best0: int, decision0: Verdict,
                     ghost source: nat, ghost before: seq<Entry>)
    returns (best: int, decision: Verdict)
    requires best0 == BestLength(Winner(before, name))
    requires decision0 == VerdictSoFar(p, before, name)
    ensures var live := LiveGroup(group, ActiveScheduled(group.schedules, clock));
            var done := before + DomainEntries(live, group.domains, source);
            best == BestLength(Winner(done, name)) && decision == VerdictSoFar(p, done, name)
  {
    best, decision := best0, decision0;
    var active := ActiveScheduled(group.schedules, clock);
    ghost var live := LiveGroup(group, active);
    ghost var done := before;
    for k := 0 to |group.domains|
      invariant done == before + DomainEntries(live, group.domains[..k], source)
      invariant best == BestLength(Winner(done, name))
      invariant decision == VerdictSoFar(p, done, name)
    {
      var domain := group.domains[k];
      VisitOne(done, DomainEntry(live, domain, source), name);
      assert group.domains[..k + 1][..k] == group.domains[..k];
      done := done + [DomainEntry(live, domain, source)];
      var matches := name == domain || HasSuffix(name, "." + domain);
      if !matches || |domain| <= best { continue; }
      best := |domain|;
      decision := decision.(action := group.action, category := group.category, reason := group.reason,
                            matchedDomain := domain, groupName := group.name);
      if active.Some? {
        decision := decision.(action := active.value.action, scheduleLabel := active.value.window.title);
      }
    }
    assert group.domains[..|group.domains|] == group.domains;
  }
}
