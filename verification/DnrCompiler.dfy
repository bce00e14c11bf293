/** The extension's policy compiler: `buildRules`, from a policy and a clock to browser session rules. */
module DnrCompiler {
  import opened Text
  import opened Names
  import opened PolicyTypes
  import opened Schedule
  import opened Matching

  const DEFAULT_BLOCK_PRIORITY := 1
  const PAUSE_PRIORITY := 2147483647

  // ---- browser rules -------------------------------------------------------

  datatype DnrAction = Redirect | AllowRequest

  /** `requestDomains`, the anchored host expression of exact rules, and `excludedRequestDomains`. */
  datatype Condition = Condition(
    requestDomains: Option<seq<string>>, exactHost: Option<string>, excluded: Option<string>)

  datatype DnrRule = DnrRule(id: nat, priority: nat, action: DnrAction, condition: Condition)

  /** The browser's test whether a rule applies to a page load on a host. */
  predicate RuleMatches(rule: DnrRule, host: string) {
    && (rule.condition.requestDomains.Some? ==>
          exists i | 0 <= i < |rule.condition.requestDomains.value| ::
            Covers(rule.condition.requestDomains.value[i], host))
    && (rule.condition.exactHost.Some? ==> host == rule.condition.exactHost.value)
    && (rule.condition.excluded.Some? ==> !Covers(rule.condition.excluded.value, host))
  }

  /** The browser redirects a page load when a matching redirect has a higher priority than every
      other matching rule; at equal priority an allow rule would win. */
  ghost predicate Redirected(rules: seq<DnrRule>, host: string) {
    exists i | 0 <= i < |rules| :: Prevails(rules, host, i) && rules[i].action == Redirect
  }

  ghost predicate Prevails(rules: seq<DnrRule>, host: string, i: nat)
    requires i < |rules|
  {
    RuleMatches(rules[i], host) &&
    forall j | 0 <= j < |rules| && RuleMatches(rules[j], host) ::
      rules[j].priority < rules[i].priority || (rules[j].priority == rules[i].priority && rules[j].action == Redirect)
  }

  // ---- candidates ----------------------------------------------------------

  /** What competes for a host: a rule's domain, or the domains of one length of a group. */
  datatype Candidate = Candidate(
    domains: seq<string>, exactHost: Option<string>, length: nat, action: Action, source: nat)

  /** A JavaScript `Map` from lengths to lists of domains, which iterates in insertion order. */
  datatype Buckets = Buckets(order: seq<nat>, at: map<nat, seq<string>>)

  function Put(b: Buckets, domain: string): Buckets {
    if |domain| in b.at then b.(at := b.at[|domain| := b.at[|domain|] + [domain]])
    else Buckets(b.order + [|domain|], b.at[|domain| := [domain]])
  }

  function Bucketed(domains: seq<string>): Buckets {
    if domains == [] then Buckets([], map[])
    else Put(Bucketed(domains[..|domains| - 1]), domains[|domains| - 1])
  }

  function RuleCandidate(rule: Rule, source: nat): Candidate {
    var exactHost := if rule.includeSubdomains then None else Some(rule.domain);
    Candidate([rule.domain], exactHost, |rule.domain|, rule.action, source)
  }

  function RuleCandidates(rules: seq<Rule>): seq<Candidate> {
    if rules == [] then []
    else RuleCandidates(rules[..|rules| - 1]) + [RuleCandidate(rules[|rules| - 1], |rules| - 1)]
  }

  /** The list stored under a length. */
  function Listed(b: Buckets, length: nat): seq<string> {
    if length in b.at then b.at[length] else []
  }

  function BucketCandidates(order: seq<nat>, b: Buckets, action: Action, source: nat): seq<Candidate> {
    if order == [] then []
    else
      var l := order[|order| - 1];
      BucketCandidates(order[..|order| - 1], b, action, source) + [Candidate(Listed(b, l), None, l, action, source)]
  }

  function GroupCandidates(live: LiveGroup, source: nat): seq<Candidate> {
    var b := Bucketed(live.group.domains);
    BucketCandidates(b.order, b, EffectiveAction(live), source)
  }

  function AllGroupCandidates(groups: seq<LiveGroup>, base: nat): seq<Candidate> {
    if groups == [] then []
    else
      var n := |groups| - 1;
      AllGroupCandidates(groups[..n], base) + GroupCandidates(groups[n], base + n)
  }

  function Candidates(live: Live): seq<Candidate> {
    RuleCandidates(live.rules) + AllGroupCandidates(live.groups, |live.rules|)
  }

  // ---- rules from candidates -----------------------------------------------

  function ActionForPolicy(action: Action): Option<DnrAction> {
    match action
    case Block => Some(Redirect)
    case Allow => Some(AllowRequest)
    case Observe => Some(AllowRequest)
    case Unknown(_) => None
  }

  /** Length and source order packed into one number. */
  function Priority(length: nat, source: nat, sourceCount: nat): (p: int) {
    var stride := sourceCount + 1;
    2 + length * stride + (stride - source)
  }

  /** The guard's ceiling. (No integer below it is unsafe, so the source's other test never fires alone.) */
  predicate Fits(c: Candidate, sourceCount: nat) {
    0 <= Priority(c.length, c.source, sourceCount) < PAUSE_PRIORITY
  }

  function Excluding(extensionId: string): Option<string> {
    if extensionId == "" then None else Some(extensionId)
  }

  function RuleFor(id: nat, c: Candidate, action: DnrAction, sourceCount: nat, extensionId: string): DnrRule
    requires Fits(c, sourceCount)
  {
    DnrRule(id, Priority(c.length, c.source, sourceCount), action,
            Condition(Some(c.domains), c.exactHost, Excluding(extensionId)))
  }

  datatype Compiled = RangeError | Compiled(rules: seq<DnrRule>)

  function AddCandidate(output: Compiled, c: Candidate, sourceCount: nat, extensionId: string): Compiled {
    if output.RangeError? then output
    else
      match ActionForPolicy(c.action)
      case None => output
      case Some(action) =>
        if Fits(c, sourceCount) then
          Compiled(output.rules + [RuleFor(|output.rules| + 1, c, action, sourceCount, extensionId)])
        else RangeError
  }

  function AddCandidates(output: Compiled, cs: seq<Candidate>, sourceCount: nat, extensionId: string): Compiled {
    if cs == [] then output
    else
      var before := AddCandidates(output, cs[..|cs| - 1], sourceCount, extensionId);
      AddCandidate(before, cs[|cs| - 1], sourceCount, extensionId)
  }

  function CatchAll(priority: nat, extensionId: string): DnrRule {
    DnrRule(1, priority, Redirect, Condition(None, None, Excluding(extensionId)))
  }

  function DefaultRules(defaultAction: Action, extensionId: string): seq<DnrRule> {
    if defaultAction == Block then [CatchAll(DEFAULT_BLOCK_PRIORITY, extensionId)] else []
  }

  function SourceCount(live: Live): nat {
    |live.rules| + |live.groups|
  }

  /** The compiled form of a policy at an instant. */
  function CompileLive(defaultAction: Action, live: Live, extensionId: string): Compiled {
    if live.pause.Some? then Compiled([CatchAll(PAUSE_PRIORITY, extensionId)])
    else AddCandidates(Compiled(DefaultRules(defaultAction, extensionId)), Candidates(live), SourceCount(live),
                       extensionId)
  }

  function Compile(p: Profile, clock: Clock, extensionId: string): Compiled {
    CompileLive(p.defaultAction, LiveAtJs(p, clock), extensionId)
  }

  // ---- the loops of buildRules ---------------------------------------------

  method BuildRules(p: Profile, clock: Clock, extensionId: string) returns (output: Compiled)
    ensures output == Compile(p, clock, extensionId)
  {
    hide ActivePauseJs, LiveGroupsJs, RuleCandidates, AllGroupCandidates, AddCandidates, CatchAll;
    var pause := ActivePauseJs(p.pauses, clock);
    if pause.Some? {
      return Compiled([CatchAll(PAUSE_PRIORITY, extensionId)]);
    }
    var rules: seq<DnrRule> := [];
    if p.defaultAction == Block {
      rules := [CatchAll(DEFAULT_BLOCK_PRIORITY, extensionId)];
    }
    var entries := CollectRules(p.rules);
    entries := CollectGroups(p.groups, clock, |p.rules|, entries);
    output := EmitRules(rules, entries, |p.rules| + |p.groups|, extensionId);
  }

  method CollectRules(rules: seq<Rule>) returns (entries: seq<Candidate>)
    ensures entries == RuleCandidates(rules)
  {
    entries := [];
    for k := 0 to |rules|
      invariant entries == RuleCandidates(rules[..k])
    {
      assert rules[..k + 1][..k] == rules[..k];
      entries := entries + [RuleCandidate(rules[k], k)];
    }
    assert rules[..|rules|] == rules;
  }

  method CollectGroups(groups: seq<RuleGroup>, clock: Clock, base: nat, before: seq<Candidate>)
    returns (entries: seq<Candidate>)
    ensures entries == before + AllGroupCandidates(LiveGroupsJs(groups, clock), base)
  {
    hide LiveGroupsJs, GroupCandidates;
    entries := before;
    ghost var live := LiveGroupsJs(groups, clock);
    ghost var done: seq<Candidate> := [];
    for g := 0 to |groups|
      invariant done == AllGroupCandidates(live[..g], base)
      invariant entries == before + done
    {
      LiveGroupJsAt(groups, clock, g);
      assert live[..g + 1][..g] == live[..g];
      var found := CollectGroup(groups[g], clock, base + g);
      entries := entries + found;
      done := done + found;
    }
    assert live[..|groups|] == live;
  }

  method CollectGroup(group: RuleGroup, clock: Clock, source: nat) returns (entries: seq<Candidate>)
    ensures entries == GroupCandidates(LiveGroup(group, ActiveScheduledJs(group.schedules, clock)), source)
  {
    var live := LiveGroup(group, ActiveScheduledJs(group.schedules, clock));
    var buckets := FillBuckets(group.domains);
    entries := CollectBuckets(buckets, EffectiveAction(live), source);
  }

  method FillBuckets(domains: seq<string>) returns (b: Buckets)
    ensures b == Bucketed(domains)
  {
    b := Buckets([], map[]);
    for k := 0 to |domains|
      invariant b == Bucketed(domains[..k])
    {
      assert domains[..k + 1][..k] == domains[..k];
      var domain := domains[k];
      ghost var before := b;
      if |domain| !in b.at {
        b := Buckets(b.order + [|domain|], b.at[|domain| := []]);
        assert b.at[|domain|] + [domain] == [domain];
      }
      b := b.(at := b.at[|domain| := b.at[|domain|] + [domain]]);
      assert b.at == Put(before, domain).at;
    }
    assert domains[..|domains|] == domains;
  }

  method CollectBuckets(b: Buckets, action: Action, source: nat) returns (entries: seq<Candidate>)
    ensures entries == BucketCandidates(b.order, b, action, source)
  {
    entries := [];
    for k := 0 to |b.order|
      invariant entries == BucketCandidates(b.order[..k], b, action, source)
    {
      assert b.order[..k + 1][..k] == b.order[..k];
      entries := entries + [Candidate(Listed(b, b.order[k]), None, b.order[k], action, source)];
    }
    assert b.order[..|b.order|] == b.order;
  }

  method EmitRules(before: seq<DnrRule>, entries: seq<Candidate>, sourceCount: nat, extensionId: string)
    returns (output: Compiled)
    ensures output == AddCandidates(Compiled(before), entries, sourceCount, extensionId)
  {
    var rules := before;
    for k := 0 to |entries|
      invariant Compiled(rules) == AddCandidates(Compiled(before), entries[..k], sourceCount, extensionId)
    {
      assert entries[..k + 1][..k] == entries[..k];
      var c := entries[k];
      var action := ActionForPolicy(c.action);
      if action.Some? {
        if !Fits(c, sourceCount) {
          ErrorStays(Compiled(before), entries, k + 1, sourceCount, extensionId);
          return RangeError;
        }
        rules := rules + [RuleFor(|rules| + 1, c, action.value, sourceCount, extensionId)];
      }
    }
    assert entries[..|entries|] == entries;
    return Compiled(rules);
  }

  lemma {:induction false} ErrorStays(output: Compiled, cs: seq<Candidate>, k: nat, sourceCount: nat,
                                      extensionId: string)
    requires k <= |cs| && AddCandidates(output, cs[..k], sourceCount, extensionId).RangeError?
    ensures AddCandidates(output, cs, sourceCount, extensionId).RangeError?
  {
    if k == |cs| {
      assert cs[..k] == cs;
    } else {
      assert cs[..|cs| - 1][..k] == cs[..k];
      ErrorStays(output, cs[..|cs| - 1], k, sourceCount, extensionId);
    }
  }
}
