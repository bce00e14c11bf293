/** The policy store as it runs: validation rewrites domain arrays in place and fills two maps. */
module PolicyManager {
  import opened Text
  import N = Names
  import opened PolicyTypes
  import opened Schedule
  import opened Occupancy
  import opened PolicyStore

  /** A group and its domains; the `domains` of `head` are not used. */
  datatype GroupRec = GroupRec(head: RuleGroup, domains: array<string>)

  /** A profile, its rules and its groups; the `rules` and `groups` of `head` are not used. */
  datatype ProfileRec = ProfileRec(head: Profile, rules: array<Rule>, groups: seq<GroupRec>)

  function GroupValue(g: GroupRec): RuleGroup
    reads g.domains
  {
    g.head.(domains := g.domains[..])
  }

  function DomainArrays(groups: seq<GroupRec>): set<array<string>> {
    set g | g in groups :: g.domains
  }

  function GroupValues(groups: seq<GroupRec>): (r: seq<RuleGroup>)
    reads DomainArrays(groups)
    ensures |r| == |groups| && forall i | 0 <= i < |groups| :: r[i] == GroupValue(groups[i])
  {
    seq(|groups|, i requires 0 <= i < |groups| reads DomainArrays(groups) => GroupValue(groups[i]))
  }

  function ProfileValue(p: ProfileRec): Profile
    reads p.rules, DomainArrays(p.groups)
  {
    p.head.(rules := p.rules[..], groups := GroupValues(p.groups))
  }

  /** The arrays a list of profiles reaches. */
  function RuleArrays(ps: seq<ProfileRec>): set<array<Rule>> {
    set p | p in ps :: p.rules
  }

  function AllDomainArrays(ps: seq<ProfileRec>): set<array<string>> {
    set p, g | p in ps && g in p.groups :: g.domains
  }

  function ProfileValues(ps: seq<ProfileRec>): (r: seq<Profile>)
    reads RuleArrays(ps), AllDomainArrays(ps)
    ensures |r| == |ps| && forall i | 0 <= i < |ps| :: r[i] == ProfileValue(ps[i])
  {
    seq(|ps|, i requires 0 <= i < |ps| reads RuleArrays(ps), AllDomainArrays(ps) => ProfileValue(ps[i]))
  }

  /** No two groups share their domains. */
  ghost predicate SeparateGroups(groups: seq<GroupRec>) {
    forall i, j | 0 <= i < j < |groups| :: groups[i].domains != groups[j].domains
  }

  ghost predicate Apart(p: ProfileRec, q: ProfileRec) {
    p.rules != q.rules && DomainArrays(p.groups) !! DomainArrays(q.groups)
  }

  /** No two profiles share an array, nor two groups of one profile. */
  ghost predicate Separate(ps: seq<ProfileRec>) {
    && (forall i | 0 <= i < |ps| :: SeparateGroups(ps[i].groups))
    && forall i, j | 0 <= i < j < |ps| :: Apart(ps[i], ps[j])
  }

  // ---- the in-place loops -------------------------------------------------------

  method NormalizeRules(rules: array<Rule>) returns (ok: bool)
    modifies rules
    ensures ok == RulesOK(old(rules[..]))
    ensures ok ==> rules[..] == NormalRules(old(rules[..]))
  {
    ghost var before := rules[..];
    for i := 0 to rules.Length
      invariant forall k | 0 <= k < i :: RuleOK(before[k]) && rules[k] == NormalRule(before[k])
      invariant forall k | i <= k < rules.Length :: rules[k] == before[k]
    {
      var name := N.NormalizeName(rules[i].domain);
      if name.None? {
        assert !RuleOK(before[i]);
        return false;
      }
      rules[i] := rules[i].(domain := name.value);
      if !ValidAction(rules[i].action) {
        assert !RuleOK(before[i]);
        return false;
      }
    }
    return true;
  }

  method NormalizeDomains(domains: array<string>) returns (ok: bool)
    modifies domains
    ensures ok == DomainsOK(old(domains[..]), domains.Length)
    ensures ok ==> domains[..] == NormalDomains(old(domains[..]))
  {
    hide N.NormalizeName;
    ghost var before := domains[..];
    var seen: set<string> := {};
    for i := 0 to domains.Length
      invariant DomainsOK(before, i) && seen == Forms(before, i)
      invariant forall k | 0 <= k < i :: domains[k] == Canonical(before[k])
      invariant forall k | i <= k < domains.Length :: domains[k] == before[k]
    {
      DomainsOKAt(before, i);
      var name := N.NormalizeName(domains[i]);
      if name.None? { return false; }
      if name.value in seen { return false; }
      seen := seen + {name.value};
      domains[i] := name.value;
    }
    return true;
  }

  method CheckPauses(pauses: seq<TimeWindow>) returns (ok: bool)
    ensures ok == PausesOK(pauses)
  {
    var ids: set<string> := {};
    for i := 0 to |pauses|
      invariant forall k | 0 <= k < i :: ValidWindow(pauses[k])
      invariant ids == set k | 0 <= k < i :: pauses[k].id
      invariant forall j, k | 0 <= j < k < i :: pauses[j].id != pauses[k].id
    {
      var error := ValidateWindow(pauses[i]);
      if error.Some? { return false; }
      if pauses[i].id in ids { return false; }
      ids := ids + {pauses[i].id};
    }
    return true;
  }

  /** The body of the loop over groups, given the ids of earlier ones. */
  method CheckGroup(groups: seq<GroupRec>, i: nat, ids: set<string>) returns (ok: bool)
    requires i < |groups| && SeparateGroups(groups)
    modifies groups[i].domains
    ensures old(GroupValue(groups[i])).id == groups[i].head.id
    ensures ok == (groups[i].head.id !in ids && GroupOK(old(GroupValue(groups[i]))))
    ensures ok ==> GroupValue(groups[i]) == NormalGroup(old(GroupValue(groups[i])))
    ensures forall k | 0 <= k < |groups| && k != i :: GroupValue(groups[k]) == old(GroupValue(groups[k]))
  {
    var group := groups[i];
    if group.head.id == "" || group.head.name == "" { return false; }
    if group.head.id in ids { return false; }
    if !ValidAction(group.head.action) { return false; }
    ok := CheckSchedules(group.head.schedules);
    if !ok { return false; }
    ok := NormalizeDomains(group.domains);
  }

  method CheckGroups(groups: seq<GroupRec>) returns (ok: bool)
    requires SeparateGroups(groups)
    modifies DomainArrays(groups)
    ensures ok == GroupsOK(old(GroupValues(groups)), |groups|)
    ensures ok ==> GroupValues(groups) == NormalGroups(old(GroupValues(groups)))
  {
    hide GroupOK, NormalGroup, GroupValue, SeparateGroups;
    ghost var before := GroupValues(groups);
    var ids: set<string> := {};
    for i := 0 to |groups|
      invariant GroupsOK(before, i) && ids == GroupIds(before, i)
      invariant forall k | 0 <= k < i :: GroupValue(groups[k]) == NormalGroup(before[k])
      invariant forall k | i <= k < |groups| :: GroupValue(groups[k]) == before[k]
    {
      GroupsOKAt(before, i);
      assert GroupValue(groups[i]) == before[i];
      ok := CheckGroup(groups, i, ids);
      if !ok { return false; }
      ids := ids + {groups[i].head.id};
    }
    return true;
  }

  // ---- the store -----------------------------------------------------------------

  /** The copy the store keeps of a profile; it shares the profile's arrays. */
  function KeptRec(p: ProfileRec): ProfileRec {
    p.(head := p.head.(hostname := Canonical(p.head.hostname)))
  }

  lemma HeadOf(p: ProfileRec)
    ensures ProfileValue(p).disabled == p.head.disabled && ProfileValue(p).hostname == p.head.hostname
    ensures ProfileValue(p).id == p.head.id
  {
  }

  /** A map of the store holds the profiles at the positions an index gives. */
  ghost predicate HoldsAt(m: map<string, ProfileRec>, ps: seq<ProfileRec>, index: map<string, nat>) {
    m.Keys == index.Keys && forall key | key in m :: index[key] < |ps| && m[key] == KeptRec(ps[index[key]])
  }

  datatype Store = Store(profiles: map<string, ProfileRec>, labels: map<string, ProfileRec>) {
    function Profile(hostname: string): Option<ProfileRec> {
      match N.NormalizeName(hostname)
      case None => None
      case Some(name) => if name in profiles then Some(profiles[name]) else None
    }

    function ProfileLabel(title: string): Option<ProfileRec> {
      match N.NormalizeName(title)
      case None => None
      case Some(name) => if '.' !in name && name in labels then Some(labels[name]) else None
    }

    ghost predicate Indexes(ps: seq<ProfileRec>, ix: Index) {
      HoldsAt(profiles, ps, ix.byHostname) && HoldsAt(labels, ps, ix.byLabel)
    }
  }

  /** What the store's lookups return: the profile the index names, if any. */
  lemma LookupsFollowIndex(store: Store, ps: seq<ProfileRec>, ix: Index, name: string)
    requires store.Indexes(ps, ix)
    ensures store.Profile(name).Some? <==> ByHostname(ix, name).Some?
    ensures store.Profile(name).Some? ==>
              ByHostname(ix, name).value < |ps| && store.Profile(name).value == KeptRec(ps[ByHostname(ix, name).value])
    ensures store.ProfileLabel(name).Some? <==> ByLabel(ix, name).Some?
    ensures store.ProfileLabel(name).Some? ==>
              ByLabel(ix, name).value < |ps| && store.ProfileLabel(name).value == KeptRec(ps[ByLabel(ix, name).value])
  {
    hide N.NormalizeName, KeptRec;
  }

  /** The checks on one profile that follow its id and names. */
  method CheckBody(zones: set<string>, p: ProfileRec) returns (ok: bool)
    requires SeparateGroups(p.groups) && !p.head.disabled
    modifies p.rules, DomainArrays(p.groups)
    ensures ok == BodyOK(zones, old(ProfileValue(p)))
    ensures ok ==> ProfileValue(p) == Normal(old(ProfileValue(p)))
  {
    hide GroupsOK, RulesOK, PausesOK, NormalRules, NormalGroups;
    if !ValidAction(p.head.defaultAction) { return false; }
    if !ZoneKnown(zones, p.head.timeZone) { return false; }
    ok := CheckPauses(p.head.pauses);
    if !ok { return false; }
    ok := NormalizeRules(p.rules);
    if !ok { return false; }
    ok := CheckGroups(p.groups);
  }

  lemma ApartArrays(ps: seq<ProfileRec>, i: nat, k: nat)
    requires Separate(ps) && i < |ps| && k < |ps| && i != k
    ensures ps[k].rules != ps[i].rules && DomainArrays(ps[k].groups) !! DomainArrays(ps[i].groups)
  {
    if i < k { assert Apart(ps[i], ps[k]); } else { assert Apart(ps[k], ps[i]); }
  }

  /** The same, among other profiles, which stay as they are. */
  method CheckAt(zones: set<string>, ps: seq<ProfileRec>, i: nat) returns (ok: bool)
    requires i < |ps| && Separate(ps) && !ps[i].head.disabled
    modifies ps[i].rules, DomainArrays(ps[i].groups)
    ensures ok == BodyOK(zones, old(ProfileValue(ps[i])))
    ensures ok ==> ProfileValue(ps[i]) == Normal(old(ProfileValue(ps[i])))
    ensures forall k | 0 <= k < |ps| && k != i :: ProfileValue(ps[k]) == old(ProfileValue(ps[k]))
  {
    hide BodyOK, Normal;
    ok := CheckBody(zones, ps[i]);
    forall k | 0 <= k < |ps| && k != i
      ensures ProfileValue(ps[k]) == old(ProfileValue(ps[k]))
    {
      ApartArrays(ps, i, k);
    }
  }

  lemma HoldsAtMore(m: map<string, ProfileRec>, ps: seq<ProfileRec>, index: map<string, nat>, key: string, i: nat)
    requires HoldsAt(m, ps, index) && i < |ps|
    ensures HoldsAt(m[key := KeptRec(ps[i])], ps, index[key := i])
  {
    hide KeptRec;
  }

  /** Fills both maps, or stops at the first profile that is not acceptable or repeats a name. On success both
      indexes are as `Build` says and the profiles' arrays hold the normal forms. */
  method NewStore(zones: set<string>, ps: seq<ProfileRec>) returns (store: Option<Store>)
    requires Separate(ps)
    modifies RuleArrays(ps), AllDomainArrays(ps)
    ensures store.Some? <==> Accept(zones, old(ProfileValues(ps))).Some?
    ensures store.Some? ==> ProfileValues(ps) == NormalAll(old(ProfileValues(ps)))
    ensures store.Some? ==> store.value.Indexes(ps, Accept(zones, old(ProfileValues(ps))).value)
  {
    hide BodyOK, Normal, ProfileValue, HoldsAt, Separate, KeptRec, N.NormalizeName;
    ghost var before := ProfileValues(ps);
    var profiles: map<string, ProfileRec> := map[];
    var labels: map<string, ProfileRec> := map[];
    EmptyHolds(ps);
    for i := 0 to |ps|
      invariant Build(zones, before, i).Some?
      invariant HoldsAt(profiles, ps, Build(zones, before, i).value.byHostname)
      invariant HoldsAt(labels, ps, Build(zones, before, i).value.byLabel)
      invariant forall k | 0 <= k < i :: ProfileValue(ps[k]) == Normal(before[k])
      invariant forall k | i <= k < |ps| :: ProfileValue(ps[k]) == before[k]
    {
      HeadOf(ps[i]);
      if Build(zones, before, i + 1).None? { BuildStops(zones, before, i + 1, |ps|); }
      if ps[i].head.disabled {
        DisabledIsNormal(before[i]);
        continue;
      }
      var hostname := N.NormalizeName(ps[i].head.hostname);
      if hostname.None? || ps[i].head.id == "" { return None; }
      KeysOf(profiles, ps, Build(zones, before, i).value.byHostname);
      KeysOf(labels, ps, Build(zones, before, i).value.byLabel);
      if hostname.value in profiles { return None; }
      var title := FirstLabel(hostname.value);
      if title in labels { return None; }
      var ok := CheckAt(zones, ps, i);
      if !ok { return None; }
      HoldsAtMore(profiles, ps, Build(zones, before, i).value.byHostname, hostname.value, i);
      HoldsAtMore(labels, ps, Build(zones, before, i).value.byLabel, title, i);
      profiles := profiles[hostname.value := KeptRec(ps[i])];
      labels := labels[title := KeptRec(ps[i])];
    }
    return Some(Store(profiles, labels));
  }

  lemma EmptyHolds(ps: seq<ProfileRec>)
    ensures HoldsAt(map[], ps, map[])
  {
  }

  lemma KeysOf(m: map<string, ProfileRec>, ps: seq<ProfileRec>, index: map<string, nat>)
    requires HoldsAt(m, ps, index)
    ensures m.Keys == index.Keys
  {
  }

  lemma DisabledIsNormal(p: Profile)
    requires p.disabled
    ensures Normal(p) == p
  {
  }

  /** The active store, swapped as a whole. */
  class Manager {
    var store: Store

    constructor (store: Store)
      ensures this.store == store
    {
      this.store := store;
    }

    /** Swaps the store in when validation accepts the list, and leaves it alone otherwise. */
    method Replace(zones: set<string>, ps: seq<ProfileRec>) returns (ok: bool)
      requires Separate(ps)
      modifies this, RuleArrays(ps), AllDomainArrays(ps)
      ensures ok <==> Accept(zones, old(ProfileValues(ps))).Some?
      ensures ok ==> ProfileValues(ps) == NormalAll(old(ProfileValues(ps)))
      ensures ok ==> store.Indexes(ps, Accept(zones, old(ProfileValues(ps))).value)
      ensures !ok ==> store == old(store)
    {
      var next := NewStore(zones, ps);
      if next.None? { return false; }
      store := next.value;
      return true;
    }
  }
}
