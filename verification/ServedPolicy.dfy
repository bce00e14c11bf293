/** The policy as the server sends it to the extension, which decides and compiles from it alone. */
module ServedPolicy {
  import opened Text
  import opened PolicyTypes
  import opened PolicyStore
  import opened Matching
  import opened ExtensionDecision
  import opened DnrCompiler

  /** A group without the fields that the response leaves out. */
  function ServedGroup(g: RuleGroup): RuleGroup {
    g.(defaultDomains := [], domainSource := "", customized := false)
  }

  function ServedGroups(groups: seq<RuleGroup>): (r: seq<RuleGroup>)
    ensures |r| == |groups| && forall i | 0 <= i < |groups| :: r[i] == ServedGroup(groups[i])
  {
    seq(|groups|, i requires 0 <= i < |groups| => ServedGroup(groups[i]))
  }

  /** The response for an enabled profile: no id, no house, and of the hostname only its first label. */
  function Served(p: Profile): Profile {
    p.(id := "", houseId := "", hostname := FirstLabel(p.hostname), groups := ServedGroups(p.groups),
       timeZone := if p.timeZone == "" then DEFAULT_ZONE else p.timeZone)
  }

  function ServedLive(live: LiveGroup): LiveGroup {
    live.(group := ServedGroup(live.group))
  }

  lemma ServedLiveAt(groups: seq<RuleGroup>, clock: Clock, i: nat)
    requires i < |groups|
    ensures LiveGroupsJs(ServedGroups(groups), clock)[i] == ServedLive(LiveGroupsJs(groups, clock)[i])
  {
    LiveGroupJsAt(groups, clock, i);
    LiveGroupJsAt(ServedGroups(groups), clock, i);
  }

  lemma {:induction false} SameDomainEntries(live: LiveGroup, domains: seq<string>, source: nat)
    ensures DomainEntries(ServedLive(live), domains, source) == DomainEntries(live, domains, source)
  {
    if domains != [] {
      SameDomainEntries(live, domains[..|domains| - 1], source);
    }
  }

  lemma SameCandidates(live: LiveGroup, source: nat)
    ensures GroupCandidates(ServedLive(live), source) == GroupCandidates(live, source)
    ensures ServedLive(live).group.domains == live.group.domains
  {
    hide Bucketed, BucketCandidates;
  }

  lemma {:induction false} SameGroups(a: seq<LiveGroup>, b: seq<LiveGroup>, base: nat)
    requires |a| == |b| && forall i | 0 <= i < |a| :: b[i] == ServedLive(a[i])
    ensures GroupEntries(b, base) == GroupEntries(a, base)
    ensures AllGroupCandidates(b, base) == AllGroupCandidates(a, base)
  {
    hide ServedLive, GroupCandidates, DomainEntries;
    if a != [] {
      var n := |a| - 1;
      SameGroups(a[..n], b[..n], base);
      SameCandidates(a[n], base + n);
      SameDomainEntries(a[n], a[n].group.domains, base + n);
    }
  }

  lemma SameLive(p: Profile, clock: Clock)
    ensures var a, b := LiveAtJs(p, clock), LiveAtJs(Served(p), clock);
            && b.pause == a.pause && Entries(b) == Entries(a) && Candidates(b) == Candidates(a)
            && SourceCount(b) == SourceCount(a)
  {
    var a, b := LiveGroupsJs(p.groups, clock), LiveGroupsJs(ServedGroups(p.groups), clock);
    forall i | 0 <= i < |a|
      ensures b[i] == ServedLive(a[i])
    {
      ServedLiveAt(p.groups, clock, i);
    }
    hide ServedLive, ServedGroups, LiveGroupsJs;
    SameGroups(a, b, |p.rules|);
  }

  /** The interpreter and the compiler read the served fields only: on what is served they answer as on the profile. */
  lemma ServedIsEnough(p: Profile, host: string, clock: Clock, extensionId: string)
    ensures DecisionJs(Served(p), host, clock) == DecisionJs(p, host, clock)
    ensures Compile(Served(p), clock, extensionId) == Compile(p, clock, extensionId)
  {
    hide LiveAtJs, Entries, Candidates, SourceCount;
    SameLive(p, clock);
  }
}
