/** The extension's interpreter, `decideAt` in JavaScript, and its agreement with the Go one. */
module ExtensionDecision {
  import opened Text
  import opened Names
  import opened PolicyTypes
  import opened Schedule
  import opened Matching
  import opened Decision

  /** The extension's answer; `None` is JavaScript's `null`. */
  datatype JsVerdict = JsVerdict(
    action: Action, category: string, reason: string, matchedDomain: Option<string>, groupName: Option<string>,
    scheduleLabel: Option<string>, policyVersion: int, matching: bool)

  /** `value || null`. */
  function OrNull(value: string): Option<string> {
    if value == "" then None else Some(value)
  }

  function RenderJs(p: Profile, best: Option<Entry>, caption: Option<string>): JsVerdict {
    match best
    case None => JsVerdict(p.defaultAction, "", "", None, None, OrNull(OrEmpty(caption)), p.version, true)
    case Some(e) => JsVerdict(e.action, e.category, e.reason, Some(e.domain), OrNull(e.groupName),
                              OrNull(OrEmpty(caption)), p.version, true)
  }

  function JsVerdictSoFar(p: Profile, done: seq<Entry>, name: string): JsVerdict {
    RenderJs(p, Winner(done, name), Caption(done, name))
  }

  /** The answer for a host name that does not normalise. */
  function NoMatching(p: Profile): JsVerdict {
    JsVerdict(p.defaultAction, "", "", None, None, None, p.version, false)
  }

  function JsVerdictFor(p: Profile, live: Live, name: string): JsVerdict {
    if live.pause.Some? then
      JsVerdict(Block, "global_pause", "Pausa geral", None, None, OrNull(live.pause.value.title), p.version, true)
    else
      JsVerdictSoFar(p, Entries(live), name)
  }

  function DecisionJs(p: Profile, hostname: string, clock: Clock): JsVerdict {
    match NormalizeHostname(hostname)
    case None => NoMatching(p)
    case Some(name) => JsVerdictFor(p, LiveAtJs(p, clock), name)
  }

  method DecideAtJs(p: Profile, hostname: string, clock: Clock) returns (verdict: JsVerdict)
    ensures verdict == DecisionJs(p, hostname, clock)
  {
    var normalized := NormalizeHostname(hostname);
    if normalized.None? { return NoMatching(p); }
    var name := normalized.value;
    var pause := ActivePauseJs(p.pauses, clock);
    if pause.Some? {
      return JsVerdict(Block, "global_pause", "Pausa geral", None, None, OrNull(pause.value.title), p.version, true);
    }
    var best;
    best, verdict := DecideRulesJs(p, name);
    best, verdict := DecideGroupsJs(p, name, clock, best, verdict, |p.rules|, RuleEntries(p.rules));
  }

  method DecideRulesJs(p: Profile, name: string) returns (best: int, decision: JsVerdict)
    ensures best == BestLength(Winner(RuleEntries(p.rules), name))
    ensures decision == JsVerdictSoFar(p, RuleEntries(p.rules), name)
  {
    decision := NoMatching(p).(matching := true);
    best := -1;
    ghost var done: seq<Entry> := [];
    for k := 0 to |p.rules|
      invariant done == RuleEntries(p.rules[..k])
      invariant best == BestLength(Winner(done, name))
      invariant Caption(done, name) == None && decision.groupName == None
      invariant decision == JsVerdictSoFar(p, done, name)
    {
      var rule := p.rules[k];
      assert p.rules[..k + 1][..k] == p.rules[..k];
      VisitOne(done, RuleEntry(rule, k), name);
      done := done + [RuleEntry(rule, k)];
      var matches := name == rule.domain;
      if rule.includeSubdomains {
        matches := matches || HasSuffix(name, "." + rule.domain);
      }
      if !matches || |rule.domain| <= best { continue; }
      best := |rule.domain|;
      decision := decision.(action := rule.action, category := rule.category, reason := rule.reason,
                            matchedDomain := Some(rule.domain), scheduleLabel := None);
    }
    assert p.rules[..|p.rules|] == p.rules;
  }

  method DecideGroupsJs(p: Profile, name: string, clock: Clock, best0: int, decision0: JsVerdict,
                        ghost base: nat, ghost before: seq<Entry>)
    returns (best: int, decision: JsVerdict)
    requires best0 == BestLength(Winner(before, name))
    requires decision0 == JsVerdictSoFar(p, before, name)
    ensures var done := before + GroupEntries(LiveGroupsJs(p.groups, clock), base);
            best == BestLength(Winner(done, name)) && decision == JsVerdictSoFar(p, done, name)
  {
    best, decision := best0, decision0;
    ghost var live := LiveGroupsJs(p.groups, clock);
    ghost var done := before;
    for g := 0 to |p.groups|
      invariant done == before + GroupEntries(live[..g], base)
      invariant best == BestLength(Winner(done, name))
      invariant decision == JsVerdictSoFar(p, done, name)
    {
      LiveGroupJsAt(p.groups, clock, g);
      NextGroup(before, live, base, g);
      best, decision := DecideGroupJs(p, p.groups[g], name, clock, best, decision, base + g, done);
      done := done + DomainEntries(live[g], live[g].group.domains, base + g);
    }
    assert live[..|p.groups|] == live;
  }

  method DecideGroupJs(p: Profile, group: RuleGroup, name: string, clock: Clock, best0: int, decision0: JsVerdict,
                       ghost source: nat, ghost before: seq<Entry>)
    returns (best: int, decision: JsVerdict)
    requires best0 == BestLength(Winner(before, name))
    requires decision0 == JsVerdictSoFar(p, before, name)
    ensures var live := LiveGroup(group, ActiveScheduledJs(group.schedules, clock));
            var done := before + DomainEntries(live, group.domains, source);
            best == BestLength(Winner(done, name)) && decision == JsVerdictSoFar(p, done, name)
  {
    best, decision := best0, decision0;
    var active := ActiveScheduledJs(group.schedules, clock);
    ghost var live := LiveGroup(group, active);
    ghost var done := before;
    for k := 0 to |group.domains|
      invariant done == before + DomainEntries(live, group.domains[..k], source)
      invariant best == BestLength(Winner(done, name))
      invariant decision == JsVerdictSoFar(p, done, name)
    {
      var domain := group.domains[k];
      VisitOne(done, DomainEntry(live, domain, source), name);
      assert group.domains[..k + 1][..k] == group.domains[..k];
      done := done + [DomainEntry(live, domain, source)];
      var matches := name == domain || HasSuffix(name, "." + domain);
      if !matches || |domain| <= best { continue; }
      best := |domain|;
      decision := decision.(action := group.action, category := group.category, reason := group.reason,
                            matchedDomain := Some(domain), groupName := OrNull(group.name));
      if active.Some? {
        decision := decision.(action := active.value.action, scheduleLabel := OrNull(active.value.window.title));
      }
    }
    assert group.domains[..|group.domains|] == group.domains;
  }

  // ---- the mirror ----------------------------------------------------------

  /** The Go verdict in the extension's terms: its error is an answer with `matching` off. */
  function Mirror(p: Profile, verdict: Option<Verdict>): JsVerdict {
    match verdict
    case None => NoMatching(p)
    case Some(v) => JsVerdict(v.action, v.category, v.reason, OrNull(v.matchedDomain), OrNull(v.groupName),
                              OrNull(v.scheduleLabel), v.policyVersion, true)
  }

  predicate NoEmptyDomain(p: Profile) {
    && (forall r | r in p.rules :: r.domain != "")
    && (forall g | g in p.groups :: "" !in g.domains)
  }

  /** On policies whose times parse and whose domains are not empty, both interpreters give the
      same answer to every query at every clock. */
  lemma InterpretersAgree(p: Profile, query: string, clock: Clock)
    requires WindowsParse(p) && NoEmptyDomain(p)
    ensures DecisionJs(p, query, clock) == Mirror(p, DecisionGo(p, query, clock))
  {
    NormalizersAgree(query);
    LiveMirrored(p, clock);
    if NormalizeName(query).Some? {
      var name := NormalizeName(query).value;
      var live := LiveAt(p, clock);
      var i := WinnerPosition(Entries(live), name);
      if i >= 0 {
        EntryDomain(p, clock, i);
      }
    }
  }

  lemma EntryDomain(p: Profile, clock: Clock, i: nat)
    requires NoEmptyDomain(p) && i < |Entries(LiveAt(p, clock))|
    ensures Entries(LiveAt(p, clock))[i].domain != ""
  {
    RuleEntryDomain(p.rules);
    GroupEntryDomain(p.groups, clock, |p.rules|);
  }

  lemma {:induction false} RuleEntryDomain(rules: seq<Rule>)
    requires forall r | r in rules :: r.domain != ""
    ensures forall e | e in RuleEntries(rules) :: e.domain != ""
  {
    if rules != [] {
      RuleEntryDomain(rules[..|rules| - 1]);
    }
  }

  lemma {:induction false} DomainEntryDomain(live: LiveGroup, domains: seq<string>, source: nat)
    requires "" !in domains
    ensures forall e | e in DomainEntries(live, domains, source) :: e.domain != ""
  {
    if domains != [] {
      DomainEntryDomain(live, domains[..|domains| - 1], source);
    }
  }

  lemma {:induction false} GroupEntryDomain(groups: seq<RuleGroup>, clock: Clock, base: nat)
    requires forall g | g in groups :: "" !in g.domains
    ensures forall e | e in GroupEntries(LiveGroups(groups, clock), base) :: e.domain != ""
  {
    if groups != [] {
      var n := |groups| - 1;
      GroupEntryDomain(groups[..n], clock, base);
      assert groups[n] in groups;
      LiveGroupAt(groups, clock, n);
      DomainEntryDomain(LiveGroups(groups, clock)[n], groups[n].domains, base + n);
      assert LiveGroups(groups, clock)[..n] == LiveGroups(groups[..n], clock);
    }
  }
}
