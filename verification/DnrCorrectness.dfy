/** The compiler against the interpreter: the browser redirects exactly the hosts the policy blocks. */
module DnrCorrectness {
  import opened Text
  import opened Names
  import opened PolicyTypes
  import opened Matching
  import opened ExtensionDecision
  import opened DnrCompiler
  import opened DnrEmission

  // ---- candidates and entries ----------------------------------------------

  /** The candidate covers the entry: same length, source and action, and the entry's domain. */
  predicate Carries(c: Candidate, e: Entry) {
    && c.length == |e.domain| && c.source == e.source && c.action == e.action && e.domain in c.domains
    && c.exactHost == (if e.exact then Some(e.domain) else None)
    && (e.exact ==> c.domains == [e.domain])
  }

  ghost predicate Carried(cs: seq<Candidate>, e: Entry) {
    exists c | c in cs :: Carries(c, e)
  }

  ghost predicate Backed(es: seq<Entry>, c: Candidate, d: string) {
    exists e | e in es && e.domain == d :: Carries(c, e)
  }

  /** Every entry is carried by a candidate, and every domain of a candidate is an entry it carries. */
  ghost predicate Corresponds(cs: seq<Candidate>, es: seq<Entry>) {
    && (forall e | e in es :: Carried(cs, e))
    && (forall c | c in cs :: forall d | d in c.domains :: Backed(es, c, d))
  }

  lemma CarriedMore(cs: seq<Candidate>, more: seq<Candidate>, e: Entry)
    requires Carried(cs, e) && forall c | c in cs :: c in more
    ensures Carried(more, e)
  {
  }

  lemma BackedMore(es: seq<Entry>, more: seq<Entry>, c: Candidate, d: string)
    requires Backed(es, c, d) && forall e | e in es :: e in more
    ensures Backed(more, c, d)
  {
  }

  lemma CorrespondsConcat(cs: seq<Candidate>, es: seq<Entry>, cs': seq<Candidate>, es': seq<Entry>)
    requires Corresponds(cs, es) && Corresponds(cs', es')
    ensures Corresponds(cs + cs', es + es')
  {
    forall e | e in es + es'
      ensures Carried(cs + cs', e)
    {
      CarriedMore(if e in es then cs else cs', cs + cs', e);
    }
    forall c | c in cs + cs'
      ensures forall d | d in c.domains :: Backed(es + es', c, d)
    {
      forall d | d in c.domains
        ensures Backed(es + es', c, d)
      {
        BackedMore(if c in cs then es else es', es + es', c, d);
      }
    }
  }

  lemma {:induction false} RulesCorrespond(rules: seq<Rule>)
    ensures Corresponds(RuleCandidates(rules), RuleEntries(rules))
  {
    if rules != [] {
      var n := |rules| - 1;
      RulesCorrespond(rules[..n]);
      assert Carries(RuleCandidate(rules[n], n), RuleEntry(rules[n], n));
      CorrespondsConcat(RuleCandidates(rules[..n]), RuleEntries(rules[..n]),
                        [RuleCandidate(rules[n], n)], [RuleEntry(rules[n], n)]);
    }
  }

  /** The buckets hold each domain, under its length, and nothing else. */
  ghost predicate Holds(b: Buckets, domains: seq<string>) {
    && (forall d | d in domains :: |d| in b.at && d in b.at[|d|])
    && (forall l | l in b.at :: forall d | d in b.at[l] :: d in domains && |d| == l)
  }

  lemma PutHolds(b: Buckets, domains: seq<string>, domain: string)
    requires Holds(b, domains)
    ensures Holds(Put(b, domain), domains + [domain])
  {
    var at := Put(b, domain).at;
    assert domain in at[|domain|];
    forall d | d in domains ensures |d| in at && d in at[|d|] {
      assert d in b.at[|d|];
    }
  }

  lemma {:induction false} BucketsHold(domains: seq<string>)
    ensures Holds(Bucketed(domains), domains)
  {
    if domains != [] {
      var n := |domains| - 1;
      BucketsHold(domains[..n]);
      PutHolds(Bucketed(domains[..n]), domains[..n], domains[n]);
      assert domains == domains[..n] + [domains[n]];
    }
  }

  lemma {:induction false} DomainEntryMember(live: LiveGroup, domains: seq<string>, source: nat, e: Entry)
    ensures e in DomainEntries(live, domains, source) <==>
            e.domain in domains && e == DomainEntry(live, e.domain, source)
  {
    if domains != [] {
      var n := |domains| - 1;
      DomainEntryMember(live, domains[..n], source, e);
      assert domains == domains[..n] + [domains[n]];
    }
  }

  lemma GroupCorresponds(live: LiveGroup, source: nat)
    ensures Corresponds(GroupCandidates(live, source), DomainEntries(live, live.group.domains, source))
  {
    var domains, action := live.group.domains, EffectiveAction(live);
    var b := Bucketed(domains);
    BucketsHold(domains);
    BucketKeys(domains);
    forall e | e in DomainEntries(live, domains, source)
      ensures Carried(GroupCandidates(live, source), e)
    {
      DomainEntryMember(live, domains, source, e);
      var c := Candidate(Listed(b, |e.domain|), None, |e.domain|, action, source);
      BucketCandidateMember(b.order, b, action, source, c);
      assert c in GroupCandidates(live, source) && Carries(c, e);
    }
    forall c, d | c in GroupCandidates(live, source) && d in c.domains
      ensures Backed(DomainEntries(live, domains, source), c, d)
    {
      BucketCandidateMember(b.order, b, action, source, c);
      var e := DomainEntry(live, d, source);
      DomainEntryMember(live, domains, source, e);
      assert e.domain == d && Carries(c, e);
    }
  }

  lemma {:induction false} GroupsCorrespond(groups: seq<LiveGroup>, base: nat)
    ensures Corresponds(AllGroupCandidates(groups, base), GroupEntries(groups, base))
  {
    if groups != [] {
      var n := |groups| - 1;
      GroupsCorrespond(groups[..n], base);
      GroupCorresponds(groups[n], base + n);
      var cs, es := AllGroupCandidates(groups[..n], base), GroupEntries(groups[..n], base);
      var cs', es' := GroupCandidates(groups[n], base + n), DomainEntries(groups[n], groups[n].group.domains, base + n);
      assert AllGroupCandidates(groups, base) == cs + cs' && GroupEntries(groups, base) == es + es';
      CorrespondsConcat(cs, es, cs', es');
    }
  }

  lemma CompiledCorresponds(live: Live)
    ensures Corresponds(Candidates(live), Entries(live))
  {
    RulesCorrespond(live.rules);
    GroupsCorrespond(live.groups, |live.rules|);
    CorrespondsConcat(RuleCandidates(live.rules), RuleEntries(live.rules),
                      AllGroupCandidates(live.groups, |live.rules|), GroupEntries(live.groups, |live.rules|));
  }

  /** The entries of a known action. */
  function KnownEntries(es: seq<Entry>): seq<Entry> {
    if es == [] then []
    else
      var known, e := KnownEntries(es[..|es| - 1]), es[|es| - 1];
      if ValidAction(e.action) then known + [e] else known
  }

  lemma {:induction false} KnownEntry(es: seq<Entry>, e: Entry)
    ensures e in KnownEntries(es) <==> e in es && ValidAction(e.action)
  {
    if es != [] {
      var n := |es| - 1;
      KnownEntry(es[..n], e);
      assert es == es[..n] + [es[n]];
    }
  }

  /** A candidate and the entries it carries are left out together. */
  lemma KnownCorrespond(cs: seq<Candidate>, es: seq<Entry>)
    requires Corresponds(cs, es)
    ensures Corresponds(KnownCandidates(cs), KnownEntries(es))
  {
    forall e | e in KnownEntries(es)
      ensures Carried(KnownCandidates(cs), e)
    {
      KnownEntry(es, e);
      var c :| c in cs && Carries(c, e);
      KnownCandidate(cs, c);
    }
    forall c, d | c in KnownCandidates(cs) && d in c.domains
      ensures Backed(KnownEntries(es), c, d)
    {
      KnownCandidate(cs, c);
      assert Backed(es, c, d);
      var e :| e in es && e.domain == d && Carries(c, e);
      KnownEntry(es, e);
    }
  }

  /** Without the entries of unknown actions the winner is no longer, and a winner of known action stays. */
  lemma {:induction false} KnownWinner(es: seq<Entry>, host: string)
    ensures BestLength(Winner(KnownEntries(es), host)) <= BestLength(Winner(es, host))
    ensures Winner(es, host).Some? && ValidAction(Winner(es, host).value.action) ==>
              Winner(KnownEntries(es), host) == Winner(es, host)
  {
    if es != [] {
      var n := |es| - 1;
      KnownWinner(es[..n], host);
      VisitOne(KnownEntries(es[..n]), es[n], host);
    }
  }

  // ---- source order --------------------------------------------------------

  /** Entries come in source order, every source is below a bound, and one source has one action. */
  ghost predicate InOrder(es: seq<Entry>, low: nat, high: nat) {
    && (forall i | 0 <= i < |es| :: low <= es[i].source < high)
    && (forall i, j | 0 <= i < j < |es| :: es[i].source <= es[j].source)
    && (forall i, j | 0 <= i < j < |es| && es[i].source == es[j].source :: es[i].action == es[j].action)
  }

  lemma InOrderConcat(es: seq<Entry>, fs: seq<Entry>, low: nat, mid: nat, high: nat)
    requires InOrder(es, low, mid) && InOrder(fs, mid, high) && low <= mid <= high
    ensures InOrder(es + fs, low, high)
  {
    var all := es + fs;
    forall i, j | 0 <= i < j < |all|
      ensures all[i].source <= all[j].source
      ensures all[i].source == all[j].source ==> all[i].action == all[j].action
    {
      if j < |es| {
        assert all[i] == es[i] && all[j] == es[j];
      } else if i < |es| {
        assert all[i] == es[i] && all[j] == fs[j - |es|];
      } else {
        assert all[i] == fs[i - |es|] && all[j] == fs[j - |es|];
      }
    }
  }

  lemma {:induction false} RulesInOrder(rules: seq<Rule>)
    ensures InOrder(RuleEntries(rules), 0, |rules|)
  {
    if rules != [] {
      var n := |rules| - 1;
      RulesInOrder(rules[..n]);
      InOrderConcat(RuleEntries(rules[..n]), [RuleEntry(rules[n], n)], 0, n, n + 1);
    }
  }

  lemma {:induction false} DomainsInOrder(live: LiveGroup, domains: seq<string>, source: nat)
    ensures forall e | e in DomainEntries(live, domains, source) ::
              e.source == source && e.action == EffectiveAction(live)
    ensures InOrder(DomainEntries(live, domains, source), source, source + 1)
  {
    forall e | e in DomainEntries(live, domains, source)
      ensures e.source == source && e.action == EffectiveAction(live)
    {
      DomainEntryMember(live, domains, source, e);
    }
  }

  lemma {:induction false} GroupsInOrder(groups: seq<LiveGroup>, base: nat)
    ensures InOrder(GroupEntries(groups, base), base, base + |groups|)
  {
    if groups != [] {
      var n := |groups| - 1;
      GroupsInOrder(groups[..n], base);
      DomainsInOrder(groups[n], groups[n].group.domains, base + n);
      var es, es' := GroupEntries(groups[..n], base), DomainEntries(groups[n], groups[n].group.domains, base + n);
      assert GroupEntries(groups, base) == es + es';
      InOrderConcat(es, es', base, base + n, base + n + 1);
    }
  }

  lemma {:induction false} KnownInOrder(es: seq<Entry>, low: nat, high: nat)
    requires InOrder(es, low, high)
    ensures InOrder(KnownEntries(es), low, high)
  {
    if es != [] {
      var n := |es| - 1;
      var known := KnownEntries(es[..n]);
      KnownInOrder(es[..n], low, high);
      forall i | 0 <= i < |known|
        ensures known[i].source <= es[n].source
        ensures known[i].source == es[n].source ==> known[i].action == es[n].action
      {
        KnownEntry(es[..n], known[i]);
      }
    }
  }

  lemma EntriesInOrder(live: Live)
    ensures InOrder(KnownEntries(Entries(live)), 0, SourceCount(live))
  {
    RulesInOrder(live.rules);
    GroupsInOrder(live.groups, |live.rules|);
    InOrderConcat(RuleEntries(live.rules), GroupEntries(live.groups, |live.rules|), 0, |live.rules|, SourceCount(live));
    KnownInOrder(Entries(live), 0, SourceCount(live));
  }

  // ---- the winning rule ----------------------------------------------------

  /** What a candidate's rule asks of a host, apart from the excluded extension. */
  predicate CandidateMatches(c: Candidate, host: string) {
    && (exists i | 0 <= i < |c.domains| :: Covers(c.domains[i], host))
    && (c.exactHost.Some? ==> host == c.exactHost.value)
  }

  predicate Under(extensionId: string, host: string) {
    extensionId != "" && Covers(extensionId, host)
  }

  lemma CarrierMatches(c: Candidate, e: Entry, host: string)
    requires Carries(c, e) && Applies(e, host)
    ensures CandidateMatches(c, host)
  {
    var i :| 0 <= i < |c.domains| && c.domains[i] == e.domain;
    assert Covers(c.domains[i], host);
  }

  lemma MatchIsEntry(cs: seq<Candidate>, es: seq<Entry>, c: Candidate, host: string) returns (i: nat)
    requires Corresponds(cs, es) && c in cs && CandidateMatches(c, host)
    ensures i < |es| && Applies(es[i], host) && Carries(c, es[i])
  {
    var k :| 0 <= k < |c.domains| && Covers(c.domains[k], host);
    var d := c.domains[k];
    assert Backed(es, c, d);
    var e :| e in es && e.domain == d && Carries(c, e);
    i :| 0 <= i < |es| && es[i] == e;
  }

  /** The candidate of the winning entry outranks every matching candidate that is not its equal. */
  lemma CarrierPrevails(cs: seq<Candidate>, es: seq<Entry>, host: string, w: nat, c: Candidate, c': Candidate, n: nat)
    requires Corresponds(cs, es) && InOrder(es, 0, n) && FirstLongest(es, host, w)
    requires c in cs && Carries(c, es[w]) && c' in cs && CandidateMatches(c', host)
    ensures Priority(c'.length, c'.source, n) <= Priority(c.length, c.source, n)
    ensures Priority(c'.length, c'.source, n) == Priority(c.length, c.source, n) ==> c'.action == c.action
  {
    var i := MatchIsEntry(cs, es, c', host);
    PriorityOrder(c'.length, c'.source, c.length, c.source, n);
    PriorityOrder(c.length, c.source, c'.length, c'.source, n);
    if c'.length == c.length {
      assert w <= i;
    }
  }

  /** The action of the first longest match among some entries, outside pauses. */
  function ActionAmong(defaultAction: Action, pause: Option<TimeWindow>, es: seq<Entry>, host: string): Action {
    if pause.Some? then Block
    else
      match Winner(es, host)
      case None => defaultAction
      case Some(e) => e.action
  }

  /** The action the interpreter gives a normalised host. */
  function ActionAt(defaultAction: Action, live: Live, host: string): Action {
    ActionAmong(defaultAction, live.pause, Entries(live), host)
  }

  /** What it would be without the rules and groups of an unknown action. */
  function KnownActionAt(defaultAction: Action, live: Live, host: string): Action {
    ActionAmong(defaultAction, live.pause, KnownEntries(Entries(live)), host)
  }

  /** The two differ only where the interpreter's action is unknown. */
  lemma KnownActionDiffers(defaultAction: Action, live: Live, host: string)
    ensures KnownActionAt(defaultAction, live, host) != ActionAt(defaultAction, live, host) ==>
              ActionAt(defaultAction, live, host).Unknown?
  {
    KnownWinner(Entries(live), host);
  }

  lemma RuleMatchesCandidate(c: Candidate, id: nat, sourceCount: nat, extensionId: string, host: string)
    requires Fits(c, sourceCount) && ValidAction(c.action)
    ensures RuleMatches(Emitted(c, id, sourceCount, extensionId), host) <==>
            CandidateMatches(c, host) && !Under(extensionId, host)
  {
  }

  lemma CatchAllMatches(priority: nat, extensionId: string, host: string)
    ensures RuleMatches(CatchAll(priority, extensionId), host) <==> !Under(extensionId, host)
  {
  }

  // ---- compiler correctness ------------------------------------------------

  lemma PauseCorrect(extensionId: string, host: string)
    ensures Redirected([CatchAll(PAUSE_PRIORITY, extensionId)], host) <==> !Under(extensionId, host)
  {
    var rules := [CatchAll(PAUSE_PRIORITY, extensionId)];
    CatchAllMatches(PAUSE_PRIORITY, extensionId, host);
    if !Under(extensionId, host) {
      assert Prevails(rules, host, 0) && rules[0].action == Redirect;
    }
  }

  /** The rules compiled outside pauses: the default rule, if any, and one rule per candidate. */
  ghost predicate Shape(rules: seq<DnrRule>, default: seq<DnrRule>, cs: seq<Candidate>, n: nat, extensionId: string) {
    && AllKnown(cs) && AllFit(cs, n)
    && |rules| == |default| + |cs| && rules[..|default|] == default
    && forall k | 0 <= k < |cs| :: rules[|default| + k] == Emitted(cs[k], |default| + k + 1, n, extensionId)
  }

  lemma DefaultMatches(block: bool, extensionId: string, host: string)
    ensures var default := DefaultRules(if block then Block else Allow, extensionId);
            |default| == (if block then 1 else 0) &&
            forall i | 0 <= i < |default| ::
              default[i].priority == DEFAULT_BLOCK_PRIORITY && default[i].action == Redirect &&
              (RuleMatches(default[i], host) <==> !Under(extensionId, host))
  {
    CatchAllMatches(DEFAULT_BLOCK_PRIORITY, extensionId, host);
  }

  /** When no candidate matches, the default rule decides. */
  lemma UnmatchedCorrect(rules: seq<DnrRule>, block: bool, cs: seq<Candidate>, n: nat, extensionId: string,
                         host: string)
    requires Shape(rules, DefaultRules(if block then Block else Allow, extensionId), cs, n, extensionId)
    requires Under(extensionId, host) || forall k | 0 <= k < |cs| :: !CandidateMatches(cs[k], host)
    ensures Redirected(rules, host) <==> !Under(extensionId, host) && block
  {
    var default := DefaultRules(if block then Block else Allow, extensionId);
    DefaultMatches(block, extensionId, host);
    forall i | 0 <= i < |rules|
      ensures RuleMatches(rules[i], host) ==> i < |default| && !Under(extensionId, host)
    {
      if i < |default| {
        assert rules[..|default|][i] == rules[i];
      } else {
        assert cs[i - |default|] in cs && rules[|default| + (i - |default|)] == rules[i];
        RuleMatchesCandidate(cs[i - |default|], i + 1, n, extensionId, host);
      }
    }
    if block && !Under(extensionId, host) {
      assert rules[..1][0] == rules[0];
      TopDecides(rules, host, 0);
    }
  }

  /** A matching rule above all others of another action decides. */
  lemma TopDecides(rules: seq<DnrRule>, host: string, r: nat)
    requires r < |rules| && RuleMatches(rules[r], host)
    requires forall j | 0 <= j < |rules| && RuleMatches(rules[j], host) ::
               rules[j].priority < rules[r].priority ||
               (rules[j].priority == rules[r].priority && rules[j].action == rules[r].action)
    ensures Redirected(rules, host) <==> rules[r].action == Redirect
  {
    if rules[r].action == Redirect {
      assert Prevails(rules, host, r);
    }
  }

  /** Every rule that matches the host has at most the priority of the winner's carrier, and one of
      the same priority has the same action. */
  lemma CarrierOutranks(rules: seq<DnrRule>, block: bool, cs: seq<Candidate>, es: seq<Entry>, n: nat,
                        extensionId: string, host: string, w: nat, k: nat, j: nat)
    requires Shape(rules, DefaultRules(if block then Block else Allow, extensionId), cs, n, extensionId)
    requires Corresponds(cs, es) && InOrder(es, 0, n) && FirstLongest(es, host, w)
    requires k < |cs| && Carries(cs[k], es[w]) && j < |rules| && RuleMatches(rules[j], host)
    ensures var r := rules[|DefaultRules(if block then Block else Allow, extensionId)| + k];
            rules[j].priority < r.priority || (rules[j].priority == r.priority && rules[j].action == r.action)
  {
    var default := DefaultRules(if block then Block else Allow, extensionId);
    var c := cs[k];
    assert c in cs;
    PriorityOrder(c.length, c.source, c.length, c.source, n);
    if j < |default| {
      assert rules[..|default|][j] == rules[j];
    } else {
      var c' := cs[j - |default|];
      assert c' in cs && rules[j] == rules[|default| + (j - |default|)];
      RuleMatchesCandidate(c', j + 1, n, extensionId, host);
      CarrierPrevails(cs, es, host, w, c, c', n);
    }
  }

  lemma CarrierDecides(rules: seq<DnrRule>, block: bool, cs: seq<Candidate>, es: seq<Entry>, n: nat,
                       extensionId: string, host: string, w: nat, k: nat)
    requires Shape(rules, DefaultRules(if block then Block else Allow, extensionId), cs, n, extensionId)
    requires Corresponds(cs, es) && InOrder(es, 0, n) && FirstLongest(es, host, w) && !Under(extensionId, host)
    requires k < |cs| && Carries(cs[k], es[w])
    ensures Redirected(rules, host) <==> es[w].action == Block
  {
    hide Corresponds, InOrder, Redirected, CandidateMatches, RuleMatches;
    var r := |DefaultRules(if block then Block else Allow, extensionId)| + k;
    assert cs[k] in cs;
    CarrierMatches(cs[k], es[w], host);
    RuleMatchesCandidate(cs[k], r + 1, n, extensionId, host);
    forall j | 0 <= j < |rules| && RuleMatches(rules[j], host)
      ensures rules[j].priority < rules[r].priority ||
              (rules[j].priority == rules[r].priority && rules[j].action == rules[r].action)
    {
      CarrierOutranks(rules, block, cs, es, n, extensionId, host, w, k, j);
    }
    TopDecides(rules, host, r);
  }

  lemma FindCarrier(cs: seq<Candidate>, es: seq<Entry>, w: nat) returns (k: nat)
    requires Corresponds(cs, es) && w < |es|
    ensures k < |cs| && Carries(cs[k], es[w])
  {
    assert Carried(cs, es[w]);
    var c :| c in cs && Carries(c, es[w]);
    k :| 0 <= k < |cs| && cs[k] == c;
  }

  /** For every policy at an instant, the compiled rules redirect a host exactly when it is not the
      extension's own and the interpreter, left with the rules and groups of known actions, blocks it. */
  lemma LiveCorrect(defaultAction: Action, live: Live, extensionId: string, host: string)
    requires CompileLive(defaultAction, live, extensionId).Compiled?
    ensures Redirected(CompileLive(defaultAction, live, extensionId).rules, host) <==>
            !Under(extensionId, host) && KnownActionAt(defaultAction, live, host) == Block
  {
    if live.pause.Some? {
      PauseCorrect(extensionId, host);
    } else {
      var rules := CompileLive(defaultAction, live, extensionId).rules;
      var cs, es := KnownCandidates(Candidates(live)), KnownEntries(Entries(live));
      var n, block := SourceCount(live), defaultAction == Block;
      EmitAll(DefaultRules(defaultAction, extensionId), Candidates(live), n, extensionId);
      assert Shape(rules, DefaultRules(if block then Block else Allow, extensionId), cs, n, extensionId);
      CompiledCorresponds(live);
      KnownCorrespond(Candidates(live), Entries(live));
      EntriesInOrder(live);
      var w := WinnerPosition(es, host);
      if Under(extensionId, host) {
        UnmatchedCorrect(rules, block, cs, n, extensionId, host);
      } else if w == -1 {
        forall k | 0 <= k < |cs|
          ensures !CandidateMatches(cs[k], host)
        {
          if CandidateMatches(cs[k], host) {
            var i := MatchIsEntry(cs, es, cs[k], host);
          }
        }
        UnmatchedCorrect(rules, block, cs, n, extensionId, host);
      } else {
        var k := FindCarrier(cs, es, w);
        CarrierDecides(rules, block, cs, es, n, extensionId, host, w, k);
      }
    }
  }

  // ---- at the level of policies --------------------------------------------

  lemma DecidesAt(p: Profile, clock: Clock, host: string)
    requires Stable(host)
    ensures DecisionJs(p, host, clock).action == ActionAt(p.defaultAction, LiveAtJs(p, clock), host)
  {
    NormalizersAgree(host);
  }

  lemma ActionsKnown(p: Profile, clock: Clock, host: string)
    requires ValidActions(p)
    ensures KnownActionAt(p.defaultAction, LiveAtJs(p, clock), host) ==
            ActionAt(p.defaultAction, LiveAtJs(p, clock), host)
  {
    var live := LiveAtJs(p, clock);
    PolicyActionsKnown(p, clock);
    CompiledCorresponds(live);
    KnownWinner(Entries(live), host);
    var w := WinnerPosition(Entries(live), host);
    if w != -1 {
      var k := FindCarrier(Candidates(live), Entries(live), w);
      assert Candidates(live)[k] in Candidates(live);
    }
  }

  /** Compilation preserves meaning, for every policy that compiles, every clock and every normalised host: the
      browser redirects the host exactly when the host is not the extension's own and the interpreter blocks it,
      unless the interpreter's action is unknown while the rules and groups of known actions block the host. With
      valid actions there is no exception. */
  lemma CompilationPreservesMeaning(p: Profile, clock: Clock, extensionId: string, host: string)
    requires Stable(host) && Compile(p, clock, extensionId).Compiled?
    ensures var redirected := Redirected(Compile(p, clock, extensionId).rules, host);
            var blocked := !Under(extensionId, host) && DecisionJs(p, host, clock).action == Block;
            && ((redirected <==> blocked) <==>
                  || Under(extensionId, host)
                  || !DecisionJs(p, host, clock).action.Unknown?
                  || KnownActionAt(p.defaultAction, LiveAtJs(p, clock), host) != Block)
            && (ValidActions(p) ==> (redirected <==> blocked))
  {
    hide ValidActions, KnownActionAt, ActionAt;
    LiveCorrect(p.defaultAction, LiveAtJs(p, clock), extensionId, host);
    KnownActionDiffers(p.defaultAction, LiveAtJs(p, clock), host);
    DecidesAt(p, clock, host);
    if ValidActions(p) {
      ActionsKnown(p, clock, host);
    }
  }

  lemma TwoRules(a: Rule, b: Rule)
    ensures Entries(Live(None, [a, b], [])) == [RuleEntry(a, 0), RuleEntry(b, 1)]
    ensures Candidates(Live(None, [a, b], [])) == [RuleCandidate(a, 0), RuleCandidate(b, 1)]
  {
    var both, one: seq<Rule> := [a, b], [a];
    assert both[..1] == one && one[..0] == [];
    assert RuleEntries(one) == RuleEntries(one[..0]) + [RuleEntry(a, 0)];
    assert RuleEntries(both) == RuleEntries(one) + [RuleEntry(b, 1)];
    assert RuleCandidates(one) == RuleCandidates(one[..0]) + [RuleCandidate(a, 0)];
    assert RuleCandidates(both) == RuleCandidates(one) + [RuleCandidate(b, 1)];
    assert GroupEntries([], 2) == [] && AllGroupCandidates([], 2) == [];
  }

  lemma TwoCandidates(c: Candidate, d: Candidate, n: nat)
    requires Fits(c, n) && c.action == Block && d.action.Unknown?
    ensures AddCandidates(Compiled([]), [c, d], n, "") == Compiled([RuleFor(1, c, Redirect, n, "")])
  {
    assert [c, d][..1] == [c] && [c][..0] == [];
    assert AddCandidates(Compiled([]), [c], n, "") == AddCandidate(Compiled([]), c, n, "");
  }

  /** The exception at work: with an unknown action on the longer of two matching domains the
      interpreter reports it, while the compiler emits nothing for it and the shorter block redirects. */
  lemma UnknownActionMiscompiles(wide: Rule, narrow: Rule, live: Live)
    requires wide == Rule("b", true, Block, "", "") && narrow == Rule("a.b", true, Unknown("ask"), "", "")
    requires live == Live(None, [wide, narrow], [])
    ensures CompileLive(Allow, live, "").Compiled? && Redirected(CompileLive(Allow, live, "").rules, "a.b")
    ensures ActionAt(Allow, live, "a.b") == Unknown("ask")
  {
    TwoRules(wide, narrow);
    TwoCandidates(RuleCandidate(wide, 0), RuleCandidate(narrow, 1), 2);
    assert FirstLongest(Entries(live), "a.b", 1);
    WinnerIsFirstLongest(Entries(live), "a.b");
    var rules := CompileLive(Allow, live, "").rules;
    assert "a.b"[1..] == ".b" && Covers("b", "a.b");
    assert rules[0].condition.requestDomains.value[0] == "b";
    TopDecides(rules, "a.b", 0);
  }
}
