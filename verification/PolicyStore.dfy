/** Which profiles the policy store accepts and what it indexes, on values. */
module PolicyStore {
  import opened Text
  import opened Names
  import opened PolicyTypes
  import opened Schedule
  import opened Occupancy

  const DEFAULT_ZONE := "America/Sao_Paulo"

  /** `zones` are the names the time-zone database knows. */
  predicate ZoneKnown(zones: set<string>, name: string) {
    (if name == "" then DEFAULT_ZONE else name) in zones
  }

  /** The normal form of a name; a name that has none is left alone. */
  function Canonical(value: string): string {
    match NormalizeName(value)
    case None => value
    case Some(name) => name
  }

  // ---- what one profile must satisfy ----------------------------------------

  predicate PausesOK(pauses: seq<TimeWindow>) {
    && (forall i | 0 <= i < |pauses| :: ValidWindow(pauses[i]))
    && forall i, j | 0 <= i < j < |pauses| :: pauses[i].id != pauses[j].id
  }

  predicate RuleOK(rule: Rule) {
    NormalizeName(rule.domain).Some? && ValidAction(rule.action)
  }

  predicate RulesOK(rules: seq<Rule>) {
    forall i | 0 <= i < |rules| :: RuleOK(rules[i])
  }

  function Forms(domains: seq<string>, n: nat): set<string>
    requires n <= |domains|
  {
    if n == 0 then {} else Forms(domains, n - 1) + {Canonical(domains[n - 1])}
  }

  /** Each of the first `n` domains has a normal form that no earlier one has. */
  predicate DomainsOK(domains: seq<string>, n: nat)
    requires n <= |domains|
  {
    n == 0 || (
      DomainsOK(domains, n - 1) && NormalizeName(domains[n - 1]).Some?
      && Canonical(domains[n - 1]) !in Forms(domains, n - 1))
  }

  lemma {:induction false} DomainsOKPrefix(domains: seq<string>, n: nat, k: nat)
    requires k <= n <= |domains| && DomainsOK(domains, n)
    ensures DomainsOK(domains, k)
  {
    hide NormalizeName, Canonical;
    if k < n {
      DomainsOKPrefix(domains, n - 1, k);
    }
  }

  lemma DomainsOKAt(domains: seq<string>, i: nat)
    requires i < |domains|
    ensures DomainsOK(domains, |domains|) ==>
              NormalizeName(domains[i]).Some? && Canonical(domains[i]) !in Forms(domains, i)
  {
    hide NormalizeName, Canonical;
    if DomainsOK(domains, |domains|) {
      DomainsOKPrefix(domains, |domains|, i + 1);
    }
  }

  predicate GroupOK(g: RuleGroup) {
    g.id != "" && g.name != "" && ValidAction(g.action) && SchedulesOK(g.schedules)
    && DomainsOK(g.domains, |g.domains|)
  }

  function GroupIds(groups: seq<RuleGroup>, n: nat): set<string>
    requires n <= |groups|
  {
    if n == 0 then {} else GroupIds(groups, n - 1) + {groups[n - 1].id}
  }

  /** The first `n` groups are acceptable and no two have one id. */
  predicate GroupsOK(groups: seq<RuleGroup>, n: nat)
    requires n <= |groups|
  {
    n == 0 || (GroupsOK(groups, n - 1) && GroupOK(groups[n - 1]) && groups[n - 1].id !in GroupIds(groups, n - 1))
  }

  lemma {:induction false} GroupsOKPrefix(groups: seq<RuleGroup>, n: nat, k: nat)
    requires k <= n <= |groups| && GroupsOK(groups, n)
    ensures GroupsOK(groups, k)
  {
    hide GroupOK;
    if k < n {
      GroupsOKPrefix(groups, n - 1, k);
    }
  }

  lemma GroupsOKAt(groups: seq<RuleGroup>, i: nat)
    requires i < |groups|
    ensures GroupsOK(groups, |groups|) ==> GroupOK(groups[i]) && groups[i].id !in GroupIds(groups, i)
  {
    hide GroupOK;
    if GroupsOK(groups, |groups|) {
      GroupsOKPrefix(groups, |groups|, i + 1);
    }
  }

  /** What a profile must satisfy besides having an id and a usable hostname. */
  predicate BodyOK(zones: set<string>, p: Profile) {
    && ValidAction(p.defaultAction) && ZoneKnown(zones, p.timeZone)
    && PausesOK(p.pauses) && RulesOK(p.rules) && GroupsOK(p.groups, |p.groups|)
  }

  predicate ProfileOK(zones: set<string>, p: Profile) {
    NormalizeName(p.hostname).Some? && p.id != "" && BodyOK(zones, p)
  }

  // ---- what validation rewrites ---------------------------------------------

  function NormalRule(rule: Rule): Rule {
    rule.(domain := Canonical(rule.domain))
  }

  function NormalRules(rules: seq<Rule>): (r: seq<Rule>)
    ensures |r| == |rules| && forall i | 0 <= i < |rules| :: r[i] == NormalRule(rules[i])
  {
    seq(|rules|, i requires 0 <= i < |rules| => NormalRule(rules[i]))
  }

  function NormalDomains(domains: seq<string>): (r: seq<string>)
    ensures |r| == |domains| && forall i | 0 <= i < |domains| :: r[i] == Canonical(domains[i])
  {
    seq(|domains|, i requires 0 <= i < |domains| => Canonical(domains[i]))
  }

  function NormalGroup(g: RuleGroup): RuleGroup {
    g.(domains := NormalDomains(g.domains))
  }

  function NormalGroups(groups: seq<RuleGroup>): (r: seq<RuleGroup>)
    ensures |r| == |groups| && forall i | 0 <= i < |groups| :: r[i] == NormalGroup(groups[i])
  {
    seq(|groups|, i requires 0 <= i < |groups| => NormalGroup(groups[i]))
  }

  /** An enabled profile after validation, as the list that was validated now has it: rule and group domains are
      rewritten in place, the hostname is not. */
  function Normal(p: Profile): Profile {
    if p.disabled then p else p.(rules := NormalRules(p.rules), groups := NormalGroups(p.groups))
  }

  function NormalAll(profiles: seq<Profile>): (r: seq<Profile>)
    ensures |r| == |profiles| && forall i | 0 <= i < |profiles| :: r[i] == Normal(profiles[i])
  {
    seq(|profiles|, i requires 0 <= i < |profiles| => Normal(profiles[i]))
  }

  /** The copy of a profile the store keeps, with its hostname in normal form. */
  function Kept(p: Profile): Profile {
    Normal(p).(hostname := Canonical(p.hostname))
  }

  function EndpointLabel(p: Profile): string {
    FirstLabel(Canonical(p.hostname))
  }

  // ---- the two indexes --------------------------------------------------------

  /** Positions of profiles by hostname and by the hostname's first label. */
  datatype Index = Index(byHostname: map<string, nat>, byLabel: map<string, nat>)

  /** The index of the first `n` profiles, or none when validation stops at one of them. */
  function Build(zones: set<string>, profiles: seq<Profile>, n: nat): Option<Index>
    requires n <= |profiles|
  {
    if n == 0 then Some(Index(map[], map[]))
    else
      var before := Build(zones, profiles, n - 1);
      if before.None? then None else Extend(zones, before.value, profiles[n - 1], n - 1)
  }

  /** One iteration of the store's loop. */
  function Extend(zones: set<string>, ix: Index, p: Profile, at: nat): Option<Index> {
    if p.disabled then Some(ix)
    else if !ProfileOK(zones, p) || Canonical(p.hostname) in ix.byHostname || EndpointLabel(p) in ix.byLabel then None
    else Some(Index(ix.byHostname[Canonical(p.hostname) := at], ix.byLabel[EndpointLabel(p) := at]))
  }

  lemma {:induction false} BuildStops(zones: set<string>, profiles: seq<Profile>, k: nat, n: nat)
    requires k <= n <= |profiles| && Build(zones, profiles, k).None?
    ensures Build(zones, profiles, n).None?
  {
    hide ProfileOK, Canonical, EndpointLabel, Extend;
    if k < n {
      BuildStops(zones, profiles, k, n - 1);
    }
  }

  function Accept(zones: set<string>, profiles: seq<Profile>): Option<Index> {
    Build(zones, profiles, |profiles|)
  }

  function ByHostname(ix: Index, hostname: string): Option<nat> {
    match NormalizeName(hostname)
    case None => None
    case Some(name) => if name in ix.byHostname then Some(ix.byHostname[name]) else None
  }

  function ByLabel(ix: Index, title: string): Option<nat> {
    match NormalizeName(title)
    case None => None
    case Some(name) => if '.' !in name && name in ix.byLabel then Some(ix.byLabel[name]) else None
  }

  function KeyIn(p: Profile, labels: bool): string {
    if labels then EndpointLabel(p) else Canonical(p.hostname)
  }

  /** Under `key` the index holds an enabled profile of that name. */
  predicate OwnKey(profiles: seq<Profile>, n: nat, index: map<string, nat>, labels: bool, key: string)
    requires n <= |profiles| && key in index
  {
    index[key] < n && !profiles[index[key]].disabled && KeyIn(profiles[index[key]], labels) == key
  }

  predicate Found(p: Profile, i: nat, index: map<string, nat>, labels: bool) {
    !p.disabled ==> KeyIn(p, labels) in index && index[KeyIn(p, labels)] == i
  }

  /** The index holds exactly the enabled profiles, each under its own name and no other. */
  ghost predicate Holds(profiles: seq<Profile>, n: nat, index: map<string, nat>, labels: bool)
    requires n <= |profiles|
  {
    && (forall key | key in index :: OwnKey(profiles, n, index, labels, key))
    && forall i | 0 <= i < n :: Found(profiles[i], i, index, labels)
  }

  lemma HoldsMore(profiles: seq<Profile>, n: nat, index: map<string, nat>, labels: bool)
    requires n < |profiles| && Holds(profiles, n, index, labels)
    requires profiles[n].disabled || KeyIn(profiles[n], labels) !in index
    ensures var next := if profiles[n].disabled then index else index[KeyIn(profiles[n], labels) := n];
            Holds(profiles, n + 1, next, labels)
  {
    hide KeyIn;
    var next := if profiles[n].disabled then index else index[KeyIn(profiles[n], labels) := n];
    forall key | key in next
      ensures OwnKey(profiles, n + 1, next, labels, key)
    {
      if key in index && next[key] == index[key] {
        assert OwnKey(profiles, n, index, labels, key);
      }
    }
    forall i | 0 <= i < n + 1
      ensures Found(profiles[i], i, next, labels)
    {
      if i < n {
        assert Found(profiles[i], i, index, labels);
      }
    }
  }

  /** In an accepted store both indexes hold the same profiles, each enabled one exactly once. */
  lemma {:induction false} IndexesHoldEnabledProfiles(zones: set<string>, profiles: seq<Profile>, n: nat)
    requires n <= |profiles| && Build(zones, profiles, n).Some?
    ensures Holds(profiles, n, Build(zones, profiles, n).value.byHostname, false)
    ensures Holds(profiles, n, Build(zones, profiles, n).value.byLabel, true)
  {
    if n > 0 {
      IndexesHoldEnabledProfiles(zones, profiles, n - 1);
      HoldsMore(profiles, n - 1, Build(zones, profiles, n - 1).value.byHostname, false);
      HoldsMore(profiles, n - 1, Build(zones, profiles, n - 1).value.byLabel, true);
    }
  }

  lemma {:induction false} AcceptedProfile(zones: set<string>, profiles: seq<Profile>, n: nat, i: nat)
    requires i < n <= |profiles| && Build(zones, profiles, n).Some? && !profiles[i].disabled
    ensures ProfileOK(zones, profiles[i])
  {
    if i < n - 1 {
      AcceptedProfile(zones, profiles, n - 1, i);
    }
  }

  /** Every enabled profile is found by the hostname it was configured with. */
  lemma HostnameFindsProfile(zones: set<string>, profiles: seq<Profile>, i: nat)
    requires Accept(zones, profiles).Some? && i < |profiles| && !profiles[i].disabled
    ensures ByHostname(Accept(zones, profiles).value, profiles[i].hostname) == Some(i)
  {
    AcceptedProfile(zones, profiles, |profiles|, i);
    IndexesHoldEnabledProfiles(zones, profiles, |profiles|);
    assert Found(profiles[i], i, Accept(zones, profiles).value.byHostname, false);
  }

  /** Looking an enabled profile up by its first label returns that profile exactly when the label is a stable name:
      not when it is empty or ends in white space. */
  lemma LabelFindsProfileExactly(zones: set<string>, profiles: seq<Profile>, i: nat)
    requires Accept(zones, profiles).Some? && i < |profiles| && !profiles[i].disabled
    ensures ByLabel(Accept(zones, profiles).value, EndpointLabel(profiles[i])) == Some(i)
            <==> Stable(EndpointLabel(profiles[i]))
  {
    var ix := Accept(zones, profiles).value;
    var own := EndpointLabel(profiles[i]);
    IndexesHoldEnabledProfiles(zones, profiles, |profiles|);
    FirstLabelEndsAtDot(Canonical(profiles[i].hostname));
    assert Found(profiles[i], i, ix.byLabel, true);
    if !Stable(own) && NormalizeName(own).Some? && Canonical(own) in ix.byLabel {
      assert OwnKey(profiles, |profiles|, ix.byLabel, true, Canonical(own));
    }
  }

  lemma OneProfileAccepted(zones: set<string>, p: Profile)
    requires ProfileOK(zones, p) && !p.disabled
    ensures Accept(zones, [p]) == Some(Index(map[Canonical(p.hostname) := 0], map[EndpointLabel(p) := 0]))
  {
    hide ProfileOK, Canonical;
    var none: nat := 0;
    assert Build(zones, [p], none) == Some(Index(map[], map[]));
    assert Build(zones, [p], none + 1) == Extend(zones, Index(map[], map[]), p, none);
  }

  /** Such a label exists: a profile on the hostname ".dns" is accepted, and its label, the empty one, finds nothing. */
  lemma EmptyLabelIsLost(zones: set<string>, p: Profile)
    requires p == Profile("p", "", "", ".dns", false, Allow, 1, [], [], [], "") && DEFAULT_ZONE in zones
    ensures Accept(zones, [p]).Some? && ByLabel(Accept(zones, [p]).value, EndpointLabel(p)) == None
  {
    hide Lower;
    StableCharacterised(p.hostname);
    assert EndpointLabel(p) == "";
    OneProfileAccepted(zones, p);
  }
}
