/** What `buildRules` emits: packed priorities, their order, and when the guard throws. */
module DnrEmission {
  import opened Text
  import opened PolicyTypes
  import opened Schedule
  import opened Matching
  import opened DnrCompiler

  // ---- priorities ----------------------------------------------------------

  lemma LongerOutweighs(l: nat, l': nat, stride: nat)
    requires l < l'
    ensures l * stride + stride <= l' * stride
  {
    var d := l' - l;
    assert l' == l + d && d >= 1;
    assert (l + d) * stride == l * stride + d * stride;
    assert d * stride >= stride;
  }

  /** The packed number orders as (longer domain, then earlier source), and tells both apart. */
  lemma PriorityOrder(l: nat, s: nat, l': nat, s': nat, sourceCount: nat)
    requires s < sourceCount && s' < sourceCount
    ensures Priority(l, s, sourceCount) < Priority(l', s', sourceCount) <==> l < l' || (l == l' && s > s')
    ensures Priority(l, s, sourceCount) == Priority(l', s', sourceCount) <==> l == l' && s == s'
    ensures Priority(l, s, sourceCount) > DEFAULT_BLOCK_PRIORITY
  {
    var stride := sourceCount + 1;
    if l < l' {
      LongerOutweighs(l, l', stride);
    } else if l' < l {
      LongerOutweighs(l', l, stride);
    }
  }

  /** Domains of at most 253 characters, the limit of section 2.3.4 of RFC 1035 in presentation form,
      fit below the ceiling for every source exactly when there are at most 8,454,659 sources. */
  lemma CeilingIsOutOfReach(sourceCount: nat)
    requires sourceCount > 0
    ensures (forall c: Candidate | c.length <= 253 && c.source < sourceCount :: Fits(c, sourceCount)) <==>
            sourceCount <= 8454659
  {
    if sourceCount <= 8454659 {
      forall c: Candidate | c.length <= 253 && c.source < sourceCount
        ensures Fits(c, sourceCount)
      {
        var stride := sourceCount + 1;
        assert c.length * stride <= 253 * stride by {
          assert (253 - c.length) * stride >= 0;
        }
      }
    } else {
      var c := Candidate([], None, 253, Allow, 0);
      assert !Fits(c, sourceCount);
    }
  }

  // ---- emission ------------------------------------------------------------

  predicate AllKnown(cs: seq<Candidate>) {
    forall c | c in cs :: ValidAction(c.action)
  }

  predicate AllFit(cs: seq<Candidate>, sourceCount: nat) {
    forall c | c in cs :: Fits(c, sourceCount)
  }

  function Emitted(c: Candidate, id: nat, sourceCount: nat, extensionId: string): DnrRule
    requires Fits(c, sourceCount) && ValidAction(c.action)
  {
    RuleFor(id, c, ActionForPolicy(c.action).value, sourceCount, extensionId)
  }

  /** The candidates that get a rule: `buildRules` passes over those of an unknown action. */
  function KnownCandidates(cs: seq<Candidate>): seq<Candidate> {
    if cs == [] then []
    else
      var known, c := KnownCandidates(cs[..|cs| - 1]), cs[|cs| - 1];
      if ValidAction(c.action) then known + [c] else known
  }

  lemma {:induction false} KnownCandidate(cs: seq<Candidate>, c: Candidate)
    ensures c in KnownCandidates(cs) <==> c in cs && ValidAction(c.action)
  {
    if cs != [] {
      var n := |cs| - 1;
      KnownCandidate(cs[..n], c);
      assert cs == cs[..n] + [cs[n]];
    }
  }

  /** Compilation fails exactly when the priority of a candidate of known action does not fit, and
      otherwise appends one rule per such candidate, in order. */
  lemma {:induction false} EmitAll(before: seq<DnrRule>, cs: seq<Candidate>, sourceCount: nat, extensionId: string)
    ensures AllKnown(KnownCandidates(cs))
    ensures var out, known := AddCandidates(Compiled(before), cs, sourceCount, extensionId), KnownCandidates(cs);
            && (out.Compiled? <==> AllFit(known, sourceCount))
            && (out.Compiled? ==>
                  && |out.rules| == |before| + |known| && out.rules[..|before|] == before
                  && forall k | 0 <= k < |known| ::
                       out.rules[|before| + k] == Emitted(known[k], |before| + k + 1, sourceCount, extensionId))
  {
    if cs != [] {
      var n := |cs| - 1;
      EmitAll(before, cs[..n], sourceCount, extensionId);
      if ValidAction(cs[n].action) {
        var known := KnownCandidates(cs[..n]);
        assert KnownCandidates(cs) == known + [cs[n]];
        assert AllFit(known + [cs[n]], sourceCount) <==> AllFit(known, sourceCount) && Fits(cs[n], sourceCount);
      }
    }
  }

  // ---- candidates of a policy ----------------------------------------------

  lemma {:induction false} BucketKeys(domains: seq<string>)
    ensures forall l :: l in Bucketed(domains).order <==> l in Bucketed(domains).at
  {
    if domains != [] {
      BucketKeys(domains[..|domains| - 1]);
    }
  }

  lemma {:induction false} BucketCandidateMember(order: seq<nat>, b: Buckets, action: Action, source: nat, c: Candidate)
    ensures c in BucketCandidates(order, b, action, source) <==>
            c.length in order && c == Candidate(Listed(b, c.length), None, c.length, action, source)
  {
    if order != [] {
      var n := |order| - 1;
      BucketCandidateMember(order[..n], b, action, source, c);
      assert order == order[..n] + [order[n]];
    }
  }

  predicate ValidActions(p: Profile) {
    && (forall r | r in p.rules :: ValidAction(r.action))
    && (forall g | g in p.groups :: ValidAction(g.action) && forall s | s in g.schedules :: ValidAction(s.action))
  }

  lemma {:induction false} RuleActionsKnown(rules: seq<Rule>)
    requires forall r | r in rules :: ValidAction(r.action)
    ensures AllKnown(RuleCandidates(rules))
  {
    if rules != [] {
      RuleActionsKnown(rules[..|rules| - 1]);
    }
  }

  lemma {:induction false} ActiveIsListed(schedules: seq<ScheduledAction>, clock: Clock)
    ensures ActiveScheduledJs(schedules, clock).Some? ==> ActiveScheduledJs(schedules, clock).value in schedules
  {
    if schedules != [] {
      ActiveIsListed(schedules[1..], clock);
    }
  }

  lemma {:induction false} GroupActionsKnown(groups: seq<RuleGroup>, clock: Clock, base: nat)
    requires forall g | g in groups :: ValidAction(g.action) && forall s | s in g.schedules :: ValidAction(s.action)
    ensures AllKnown(AllGroupCandidates(LiveGroupsJs(groups, clock), base))
  {
    if groups != [] {
      var n := |groups| - 1;
      GroupActionsKnown(groups[..n], clock, base);
      var live := LiveGroupsJs(groups, clock);
      LiveGroupJsAt(groups, clock, n);
      assert live[..n] == LiveGroupsJs(groups[..n], clock);
      assert groups[n] in groups;
      ActiveIsListed(groups[n].schedules, clock);
      forall c | c in GroupCandidates(live[n], base + n)
        ensures ValidAction(c.action)
      {
        var b := Bucketed(groups[n].domains);
        BucketCandidateMember(b.order, b, EffectiveAction(live[n]), base + n, c);
      }
    }
  }

  lemma PolicyActionsKnown(p: Profile, clock: Clock)
    requires ValidActions(p)
    ensures AllKnown(Candidates(LiveAtJs(p, clock)))
  {
    RuleActionsKnown(p.rules);
    GroupActionsKnown(p.groups, clock, |p.rules|);
  }

  /** Candidates come in source order, and two of one source differ in length. */
  ghost predicate KeysInOrder(cs: seq<Candidate>, low: nat, high: nat) {
    && (forall i | 0 <= i < |cs| :: low <= cs[i].source < high)
    && (forall i, j | 0 <= i < j < |cs| :: cs[i].source <= cs[j].source)
    && (forall i, j | 0 <= i < j < |cs| && cs[i].source == cs[j].source :: cs[i].length != cs[j].length)
  }

  lemma KeysInOrderConcat(cs: seq<Candidate>, ds: seq<Candidate>, low: nat, mid: nat, high: nat)
    requires KeysInOrder(cs, low, mid) && KeysInOrder(ds, mid, high) && low <= mid <= high
    ensures KeysInOrder(cs + ds, low, high)
  {
    var all := cs + ds;
    forall i, j | 0 <= i < j < |all|
      ensures all[i].source <= all[j].source
      ensures all[i].source == all[j].source ==> all[i].length != all[j].length
    {
      if j < |cs| {
        assert all[i] == cs[i] && all[j] == cs[j];
      } else if i < |cs| {
        assert all[i] == cs[i] && all[j] == ds[j - |cs|];
      } else {
        assert all[i] == ds[i - |cs|] && all[j] == ds[j - |cs|];
      }
    }
  }

  lemma {:induction false} RuleKeys(rules: seq<Rule>)
    ensures KeysInOrder(RuleCandidates(rules), 0, |rules|)
  {
    if rules != [] {
      var n := |rules| - 1;
      RuleKeys(rules[..n]);
      KeysInOrderConcat(RuleCandidates(rules[..n]), [RuleCandidate(rules[n], n)], 0, n, n + 1);
    }
  }

  lemma {:induction false} BucketOrderDistinct(domains: seq<string>)
    ensures forall i, j | 0 <= i < j < |Bucketed(domains).order| ::
              Bucketed(domains).order[i] != Bucketed(domains).order[j]
  {
    if domains != [] {
      BucketOrderDistinct(domains[..|domains| - 1]);
      BucketKeys(domains[..|domains| - 1]);
    }
  }

  lemma {:induction false} BucketCandidateAt(order: seq<nat>, b: Buckets, action: Action, source: nat)
    ensures var cs := BucketCandidates(order, b, action, source);
            |cs| == |order| && forall i | 0 <= i < |order| :: cs[i].length == order[i] && cs[i].source == source
  {
    if order != [] {
      BucketCandidateAt(order[..|order| - 1], b, action, source);
    }
  }

  lemma {:induction false} GroupKeys(groups: seq<LiveGroup>, base: nat)
    ensures KeysInOrder(AllGroupCandidates(groups, base), base, base + |groups|)
  {
    if groups != [] {
      var n := |groups| - 1;
      GroupKeys(groups[..n], base);
      var b := Bucketed(groups[n].group.domains);
      BucketOrderDistinct(groups[n].group.domains);
      BucketCandidateAt(b.order, b, EffectiveAction(groups[n]), base + n);
      var cs, ds := AllGroupCandidates(groups[..n], base), GroupCandidates(groups[n], base + n);
      assert AllGroupCandidates(groups, base) == cs + ds;
      KeysInOrderConcat(cs, ds, base, base + n, base + n + 1);
    }
  }

  /** Leaving out candidates keeps the others in order. */
  lemma {:induction false} KnownKeys(cs: seq<Candidate>, low: nat, high: nat)
    requires KeysInOrder(cs, low, high)
    ensures KeysInOrder(KnownCandidates(cs), low, high)
  {
    if cs != [] {
      var n := |cs| - 1;
      var known := KnownCandidates(cs[..n]);
      KnownKeys(cs[..n], low, high);
      forall i | 0 <= i < |known|
        ensures known[i].source <= cs[n].source
        ensures known[i].source == cs[n].source ==> known[i].length != cs[n].length
      {
        KnownCandidate(cs[..n], known[i]);
      }
    }
  }

  lemma CandidateKeys(live: Live)
    ensures KeysInOrder(KnownCandidates(Candidates(live)), 0, SourceCount(live))
  {
    RuleKeys(live.rules);
    GroupKeys(live.groups, |live.rules|);
    KeysInOrderConcat(RuleCandidates(live.rules), AllGroupCandidates(live.groups, |live.rules|),
                      0, |live.rules|, SourceCount(live));
    KnownKeys(Candidates(live), 0, SourceCount(live));
  }

  lemma KeysDiffer(cs: seq<Candidate>, n: nat, i: nat, j: nat)
    requires KeysInOrder(cs, 0, n) && i < |cs| && j < |cs|
    ensures var p, q := Priority(cs[i].length, cs[i].source, n), Priority(cs[j].length, cs[j].source, n);
            && (p > q <==> cs[i].length > cs[j].length || (cs[i].length == cs[j].length && cs[i].source < cs[j].source))
            && (i != j ==> p != q) && p > DEFAULT_BLOCK_PRIORITY
  {
    PriorityOrder(cs[j].length, cs[j].source, cs[i].length, cs[i].source, n);
    PriorityOrder(cs[i].length, cs[i].source, cs[j].length, cs[j].source, n);
  }

  /** The candidates of a policy that get a rule at an instant. */
  function Competing(p: Profile, clock: Clock): seq<Candidate> {
    KnownCandidates(Candidates(LiveAtJs(p, clock)))
  }

  /** The rule emitted for the candidate at a position. */
  lemma EmittedAt(p: Profile, clock: Clock, extensionId: string, i: nat)
    requires LiveAtJs(p, clock).pause.None? && Compile(p, clock, extensionId).Compiled?
    requires i < |Competing(p, clock)|
    ensures var rules, cs := Compile(p, clock, extensionId).rules, Competing(p, clock);
            var d := |DefaultRules(p.defaultAction, extensionId)|;
            && |rules| == d + |cs| && rules[d + i].id == d + i + 1
            && rules[d + i].condition.requestDomains == Some(cs[i].domains)
            && rules[d + i].priority == Priority(cs[i].length, cs[i].source, SourceCount(LiveAtJs(p, clock)))
            && rules[d + i].priority < PAUSE_PRIORITY
  {
    hide Candidates, LiveAtJs, KnownCandidates;
    var live := LiveAtJs(p, clock);
    EmitAll(DefaultRules(p.defaultAction, extensionId), Candidates(live), SourceCount(live), extensionId);
    assert Competing(p, clock)[i] in Competing(p, clock);
  }

  /** Outside pauses the compiler emits, after the default rule, one rule per candidate of known
      action; their priorities compare as (longer domain, then earlier source), no two are equal, and
      all lie strictly between the default's and the pause's. */
  lemma PrioritiesOrderCandidates(p: Profile, clock: Clock, extensionId: string, i: nat, j: nat)
    requires LiveAtJs(p, clock).pause.None? && Compile(p, clock, extensionId).Compiled?
    requires i < |Competing(p, clock)| && j < |Competing(p, clock)|
    ensures var rules, cs := Compile(p, clock, extensionId).rules, Competing(p, clock);
            var d := |DefaultRules(p.defaultAction, extensionId)|;
            && |rules| == d + |cs|
            && DEFAULT_BLOCK_PRIORITY < rules[d + i].priority < PAUSE_PRIORITY
            && (rules[d + i].priority > rules[d + j].priority <==>
                  cs[i].length > cs[j].length || (cs[i].length == cs[j].length && cs[i].source < cs[j].source))
            && (i != j ==> rules[d + i].priority != rules[d + j].priority)
  {
    EmittedAt(p, clock, extensionId, i);
    EmittedAt(p, clock, extensionId, j);
    CandidateKeys(LiveAtJs(p, clock));
    KeysDiffer(Competing(p, clock), SourceCount(LiveAtJs(p, clock)), i, j);
  }

  /** Compilation throws exactly when, outside pauses, the priority of a candidate of known action does not fit. */
  lemma CompileThrowsExactly(p: Profile, clock: Clock, extensionId: string)
    ensures Compile(p, clock, extensionId).RangeError? <==>
            LiveAtJs(p, clock).pause.None? && !AllFit(Competing(p, clock), SourceCount(LiveAtJs(p, clock)))
  {
    var live := LiveAtJs(p, clock);
    EmitAll(DefaultRules(p.defaultAction, extensionId), Candidates(live), SourceCount(live), extensionId);
  }

  /** It never throws on domains of at most 253 characters from at most 8,454,659 sources. */
  lemma OrdinaryPoliciesCompile(p: Profile, clock: Clock, extensionId: string)
    requires |p.rules| + |p.groups| <= 8454659
    requires forall r | r in p.rules :: |r.domain| <= 253
    requires forall g | g in p.groups :: forall d | d in g.domains :: |d| <= 253
    ensures Compile(p, clock, extensionId).Compiled?
  {
    var live := LiveAtJs(p, clock);
    CompileThrowsExactly(p, clock, extensionId);
    CandidateKeys(live);
    forall c | c in Competing(p, clock)
      ensures Fits(c, SourceCount(live))
    {
      KnownCandidate(Candidates(live), c);
      CandidateLength(p, clock, c);
      CeilingIsOutOfReach(SourceCount(live));
    }
  }

  lemma CandidateLength(p: Profile, clock: Clock, c: Candidate)
    requires forall r | r in p.rules :: |r.domain| <= 253
    requires forall g | g in p.groups :: forall d | d in g.domains :: |d| <= 253
    requires c in Candidates(LiveAtJs(p, clock))
    ensures c.length <= 253
  {
    RuleLengths(p.rules);
    GroupLengths(p.groups, clock, |p.rules|);
  }

  lemma {:induction false} RuleLengths(rules: seq<Rule>)
    requires forall r | r in rules :: |r.domain| <= 253
    ensures forall c | c in RuleCandidates(rules) :: c.length <= 253
  {
    if rules != [] {
      RuleLengths(rules[..|rules| - 1]);
    }
  }

  lemma {:induction false} BucketLengths(domains: seq<string>)
    requires forall d | d in domains :: |d| <= 253
    ensures forall l | l in Bucketed(domains).order :: l <= 253
  {
    if domains != [] {
      BucketLengths(domains[..|domains| - 1]);
    }
  }

  lemma {:induction false} GroupLengths(groups: seq<RuleGroup>, clock: Clock, base: nat)
    requires forall g | g in groups :: forall d | d in g.domains :: |d| <= 253
    ensures forall c | c in AllGroupCandidates(LiveGroupsJs(groups, clock), base) :: c.length <= 253
  {
    if groups != [] {
      var n := |groups| - 1;
      GroupLengths(groups[..n], clock, base);
      var live := LiveGroupsJs(groups, clock);
      LiveGroupJsAt(groups, clock, n);
      assert live[..n] == LiveGroupsJs(groups[..n], clock);
      assert groups[n] in groups;
      BucketLengths(groups[n].domains);
      forall c | c in GroupCandidates(live[n], base + n)
        ensures c.length <= 253
      {
        var b := Bucketed(groups[n].domains);
        BucketCandidateMember(b.order, b, EffectiveAction(live[n]), base + n, c);
      }
    }
  }
}
