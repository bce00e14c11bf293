/** What switching a package and updating a profile have done once committed, and when they commit. */
module EditEffects {
  import opened Text
  import opened PolicyTypes
  import opened ConfigTypes
  import opened PolicyStore
  import opened PolicyRevalidation
  import opened AdminModel
  import opened Acceptance
  import opened Commits
  import opened CommandEffects
  import opened RequestNames
  import V = Versions

  // ---- switching a package ---------------------------------------------------------

  /** Position of the first group with that id. */
  predicate FirstGroup(groups: seq<RuleGroup>, g: int, id: string) {
    0 <= g < |groups| && groups[g].id == id && forall k | 0 <= k < g :: groups[k].id != id
  }

  lemma {:induction false} FindsFirstGroup(groups: seq<RuleGroup>, id: string, i: nat)
    requires i <= |groups| && forall k | 0 <= k < i :: groups[k].id != id
    ensures var found := FindGroup(groups, id, i);
            (found.Some? ==> FirstGroup(groups, found.value, id))
            && (found.None? ==> forall k | 0 <= k < |groups| :: groups[k].id != id)
    decreases |groups| - i
  {
    if i < |groups| && groups[i].id != id {
      FindsFirstGroup(groups, id, i + 1);
    }
  }

  /** `after` is `before` without the element at `g`. */
  predicate WithoutAt<T(==)>(before: seq<T>, after: seq<T>, g: int) {
    && 0 <= g < |before| && |after| == |before| - 1
    && forall k | 0 <= k < |after| :: after[k] == before[if k < g then k else k + 1]
  }

  /** The groups once a package is switched. Off: its first group is gone. On: its first group decides by the action,
      filled from the package if it listed no domain; without such a group the package is added at the end. */
  ghost predicate Switched(before: seq<RuleGroup>, package: RuleGroup, enabled: bool, action: Action,
                           after: seq<RuleGroup>) {
    if !enabled then
      || (after == before && forall k | 0 <= k < |before| :: before[k].id != package.id)
      || exists g :: FirstGroup(before, g, package.id) && WithoutAt(before, after, g)
    else
      || ((forall k | 0 <= k < |before| :: before[k].id != package.id)
          && after == before + [package.(action := action)])
      || exists g :: FirstGroup(before, g, package.id) && Relisted(before, package, action, after, g)
  }

  predicate Relisted(before: seq<RuleGroup>, package: RuleGroup, action: Action, after: seq<RuleGroup>, g: int)
    requires 0 <= g < |before|
  {
    && |after| == |before| && (forall k | 0 <= k < |before| && k != g :: after[k] == before[k])
    && after[g] == (if before[g].domains == [] then package else before[g]).(action := action)
  }

  lemma SwitchedGroups(groups: seq<RuleGroup>, package: RuleGroup, enabled: bool, action: Action)
    ensures Switched(groups, package, enabled, action, WithPackage(groups, package, enabled, action))
  {
    FindsFirstGroup(groups, package.id, 0);
    var found := FindGroup(groups, package.id, 0);
    var after := WithPackage(groups, package, enabled, action);
    if found.Some? {
      assert !enabled ==> WithoutAt(groups, after, found.value);
      assert enabled ==> Relisted(groups, package, action, after, found.value);
    }
  }

  /** Switching a package changes the groups of that profile as described and bumps its version, and nothing else. */
  lemma PackageCommitted(zones: set<string>, st: Control, id: string, package: RuleGroup, enabled: bool,
                         action: Action, writable: bool, after: Control) returns (i: nat, groups: seq<RuleGroup>)
    requires V.Regular(zones, st.config)
    requires CommitsTo(zones, st, SetPackage(id, package, enabled, action), writable, after)
    ensures i < |st.config.profiles| && st.config.profiles[i].id == id && KnownAction(action)
    ensures Switched(st.config.profiles[i].groups, package, enabled, action, groups)
    ensures OnlyProfiles(st.config, after.config) && i < |after.config.profiles|
    ensures ChangedAt(st.config.profiles, after.config.profiles, i, after.config.profiles[i])
    ensures var p := st.config.profiles[i];
            ProfileStored(p.(groups := groups, version := p.version + 1), after.config.profiles[i])
  {
    hide V.Regular, Normal, CommitsTo, WithPackage, Switched, ProfileStored;
    var cmd := SetPackage(id, package, enabled, action);
    CommitStores(zones, st, cmd, writable, after);
    i := FindProfile(st.config.profiles, id, 0).value;
    groups := WithPackage(st.config.profiles[i].groups, package, enabled, action);
    SwitchedGroups(st.config.profiles[i].groups, package, enabled, action);
    OneReplaced(zones, st, cmd, writable, after, i, Bump(st.config.profiles[i].(groups := groups)));
  }

  /** It commits, on settled names of the package, exactly when there is such a profile, the action is one of the
      three, the file can be written, and the profile is disabled or its groups then meet the requirements. */
  lemma PackageCommits(zones: set<string>, st: Control, id: string, package: RuleGroup, enabled: bool,
                       action: Action, writable: bool) returns (i: nat, groups: seq<RuleGroup>)
    requires V.Regular(zones, st.config) && DomainsSettled(package.domains)
    ensures HasProfile(st.config.profiles, id) ==>
              && i < |st.config.profiles| && st.config.profiles[i].id == id
              && Switched(st.config.profiles[i].groups, package, enabled, action, groups)
    ensures Update(zones, st, SetPackage(id, package, enabled, action), writable).1 <==>
            && writable && HasProfile(st.config.profiles, id) && KnownAction(action)
            && (st.config.profiles[i].disabled || GoodGroups(groups))
  {
    hide V.Regular, Normal, Update, WithPackage, Switched, GoodList, GoodGroups, AllSettled, DomainsSettled, NoClash;
    var cfg, cmd := st.config, SetPackage(id, package, enabled, action);
    var found := FindProfile(cfg.profiles, id, 0);
    if found.None? {
      i, groups := 0, [];
      NotAsked(zones, st, cmd, writable);
    } else {
      i := found.value;
      var p := cfg.profiles[i];
      groups := WithPackage(p.groups, package, enabled, action);
      SwitchedGroups(p.groups, package, enabled, action);
      if !KnownAction(action) {
        NotAsked(zones, st, cmd, writable);
      } else {
        var q := Bump(p.(groups := groups));
        RegularHouses(zones, cfg);
        ReplacedNext(zones, cfg, cmd, i, q);
        RegularIsSettled(zones, cfg);
        SettledAt(cfg.profiles, i);
        PackageSettled(p, package, enabled, action, groups);
        SettledReplaced(cfg.profiles, i, q);
        SettledCommitsExactly(zones, st, cmd, writable, cfg.(profiles := cfg.profiles[i := q]));
        GoodReplaced(zones, cfg.profiles, i, q);
        GoodEdited(zones, cfg.profiles, i, q);
      }
    }
  }

  lemma ReplacedNext(zones: set<string>, cfg: Config, cmd: Command, i: int, q: Profile)
    requires V.Regular(zones, cfg) && Replaces(zones, cfg, cmd, i, q)
    ensures Next(zones, cfg, cmd) == Some(cfg.(profiles := cfg.profiles[i := q]))
  {
    hide Mutated, Normal, V.Regular;
    RegularHouses(zones, cfg);
    var profiles := cfg.profiles[i := q];
    forall j | 0 <= j < |profiles|
      ensures ZonedProfiles(profiles, cfg.houses)[j] == profiles[j]
    {
      RegularProfile(zones, cfg, j);
    }
    assert ZonedProfiles(profiles, cfg.houses) == profiles;
  }

  lemma SettledAt(profiles: seq<Profile>, i: int)
    requires AllSettled(profiles) && 0 <= i < |profiles|
    ensures ProfileSettled(profiles[i])
  {
  }

  lemma SettledReplaced(profiles: seq<Profile>, i: int, q: Profile)
    requires AllSettled(profiles) && 0 <= i < |profiles| && ProfileSettled(q)
    ensures AllSettled(profiles[i := q])
  {
    hide ProfileSettled;
  }

  lemma PackageSettled(p: Profile, package: RuleGroup, enabled: bool, action: Action, groups: seq<RuleGroup>)
    requires ProfileSettled(p) && DomainsSettled(package.domains)
    requires groups == WithPackage(p.groups, package, enabled, action)
    ensures ProfileSettled(Bump(p.(groups := groups)))
  {
    hide RulesSettled, DomainsSettled;
    if !p.disabled {
      forall k | 0 <= k < |groups|
        ensures DomainsSettled(groups[k].domains)
      {
        if k < |p.groups| { assert DomainsSettled(p.groups[k].domains); }
        if k + 1 < |p.groups| { assert DomainsSettled(p.groups[k + 1].domains); }
      }
    }
  }

  /** Groups, version and zone apart, the profile is as good as it was and keeps its names to itself. */
  lemma GoodEdited(zones: set<string>, profiles: seq<Profile>, i: int, q: Profile)
    requires GoodList(zones, profiles) && 0 <= i < |profiles|
    requires q == profiles[i].(groups := q.groups, version := q.version)
    ensures q.disabled || GoodGroups(q.groups) <==>
            q.disabled || (GoodProfile(zones, q) && forall j | 0 <= j < |profiles| && j != i :: NoClash(profiles[j], q))
  {
    hide Named, GoodPauses, GoodRules, GoodGroups, GoodZone, NoClash;
    StillApart(zones, profiles, i, q);
    if !q.disabled {
      assert GoodProfile(zones, profiles[i]);
    }
  }

  lemma StillApart(zones: set<string>, profiles: seq<Profile>, i: int, q: Profile)
    requires GoodList(zones, profiles) && 0 <= i < |profiles|
    requires q.hostname == profiles[i].hostname && q.disabled == profiles[i].disabled
    ensures forall j | 0 <= j < |profiles| && j != i :: NoClash(profiles[j], q)
  {
    hide GoodProfile, NoClash;
    forall j | 0 <= j < |profiles| && j != i
      ensures NoClash(profiles[j], q)
    {
      if j < i {
        assert NoClash(profiles[j], profiles[i]);
      } else {
        assert NoClash(profiles[i], profiles[j]);
        ClashIsMutual(profiles[i], profiles[j]);
      }
      SameClashes(profiles[j], profiles[i], profiles[j], q);
    }
  }

  lemma SameClashes(p: Profile, q: Profile, r: Profile, s: Profile)
    requires r.hostname == p.hostname && r.disabled == p.disabled
    requires s.hostname == q.hostname && s.disabled == q.disabled
    ensures NoClash(r, s) <==> NoClash(p, q)
  {
    hide NamedApart, LabelsApart;
  }

  // ---- updating a profile ------------------------------------------------------------

  /** Position of the last group with that id. */
  predicate LastGroup(groups: seq<RuleGroup>, g: int, id: string) {
    0 <= g < |groups| && groups[g].id == id && forall k | g < k < |groups| :: groups[k].id != id
  }

  lemma {:induction false} KnownIsLast(groups: seq<RuleGroup>, id: string)
    ensures var known := Known(groups, id);
            && (known.None? ==> forall k | 0 <= k < |groups| :: groups[k].id != id)
            && (known.Some? ==> exists g :: LastGroup(groups, g, id) && groups[g] == known.value)
  {
    if groups != [] {
      var n := |groups| - 1;
      if groups[n].id == id {
        assert LastGroup(groups, n, id);
      } else {
        KnownIsLast(groups[..n], id);
        assert forall k | 0 <= k < n :: groups[..n][k] == groups[k];
        if g :| LastGroup(groups[..n], g, id) && groups[..n][g] == Known(groups, id).value {
          assert LastGroup(groups, g, id);
        }
      }
    }
  }

  /** A group of an update that can be taken: it has an id and a name besides white space, and lists domains or is
      known. */
  predicate Takeable(existing: seq<RuleGroup>, input: GroupInput) {
    && TrimSpace(input.group.id) != "" && TrimSpace(input.group.name) != ""
    && (input.group.domains != [] || exists k :: 0 <= k < |existing| && existing[k].id == TrimSpace(input.group.id))
  }

  /** What a group of an update becomes when its id is known: it keeps where its domains come from, its default
      domains, which it lists unless it is customized or there are none, and its schedules unless new ones are given. */
  predicate MergedWith(stored: RuleGroup, input: GroupInput, g: RuleGroup) {
    g == input.group.(
      id := TrimSpace(input.group.id), name := TrimSpace(input.group.name),
      domainSource := stored.domainSource, defaultDomains := stored.defaultDomains,
      schedules := if input.schedules == None then stored.schedules else input.schedules.value,
      domains := if input.group.customized || stored.defaultDomains == [] then input.group.domains
                 else stored.defaultDomains)
  }

  /** And when it is not: a customized group without a source and without default domains. */
  predicate MergedAlone(input: GroupInput, g: RuleGroup) {
    g == input.group.(
      id := TrimSpace(input.group.id), name := TrimSpace(input.group.name),
      domainSource := "", defaultDomains := [], customized := true,
      schedules := if input.schedules == None then [] else input.schedules.value)
  }

  ghost predicate Merged(existing: seq<RuleGroup>, input: GroupInput, g: RuleGroup) {
    || ((forall k | 0 <= k < |existing| :: existing[k].id != TrimSpace(input.group.id)) && MergedAlone(input, g))
    || exists k :: LastGroup(existing, k, TrimSpace(input.group.id)) && MergedWith(existing[k], input, g)
  }

  lemma MergesExactly(existing: seq<RuleGroup>, input: GroupInput)
    ensures MergedGroup(existing, input).Some? <==> Takeable(existing, input)
    ensures MergedGroup(existing, input).Some? ==> Merged(existing, input, MergedGroup(existing, input).value)
  {
    hide TrimSpace, Known;
    KnownIsLast(existing, TrimSpace(input.group.id));
  }

  ghost predicate AllMerged(existing: seq<RuleGroup>, inputs: seq<GroupInput>, groups: seq<RuleGroup>) {
    |groups| == |inputs| && forall k | 0 <= k < |inputs| :: Merged(existing, inputs[k], groups[k])
  }

  predicate AllTakeable(existing: seq<RuleGroup>, inputs: seq<GroupInput>) {
    forall k | 0 <= k < |inputs| :: Takeable(existing, inputs[k])
  }

  lemma {:induction false} MergesAll(existing: seq<RuleGroup>, inputs: seq<GroupInput>, n: nat)
    requires n <= |inputs|
    ensures MergedGroups(existing, inputs, n).Some? <==> AllTakeable(existing, inputs[..n])
    ensures MergedGroups(existing, inputs, n).Some? ==>
              AllMerged(existing, inputs[..n], MergedGroups(existing, inputs, n).value)
  {
    hide Takeable, Merged, MergedGroup;
    if n > 0 {
      MergesAll(existing, inputs, n - 1);
      MergesExactly(existing, inputs[n - 1]);
      assert inputs[..n][n - 1] == inputs[n - 1];
      assert forall k | 0 <= k < n - 1 :: inputs[..n][k] == inputs[..n - 1][k];
    }
  }

  /** An update whose title and groups can be taken. */
  predicate Sensible(p: Profile, input: ProfileInput) {
    TrimSpace(input.title) != "" && (input.groups.Some? ==> AllTakeable(p.groups, input.groups.value))
  }

  /** The profile an update asks for: the new title, rules, default action, groups and pauses, where the request has
      them, and the next version. */
  ghost predicate Updated(p: Profile, input: ProfileInput, q: Profile) {
    && (if input.groups.Some? then AllMerged(p.groups, input.groups.value, q.groups) else q.groups == p.groups)
    && q == p.(title := TrimSpace(input.title), rules := input.rules, groups := q.groups,
               defaultAction := if input.defaultAction == Unknown("") then Allow else input.defaultAction,
               pauses := if input.pauses == None then p.pauses else input.pauses.value,
               version := p.version + 1)
  }

  lemma EditsExactly(p: Profile, input: ProfileInput)
    ensures Edited(p, input).Some? <==> Sensible(p, input)
    ensures Edited(p, input).Some? ==> Updated(p, input, Edited(p, input).value)
  {
    hide TrimSpace, AllMerged, AllTakeable;
    if input.groups.Some? {
      MergesAll(p.groups, input.groups.value, |input.groups.value|);
      assert input.groups.value[..|input.groups.value|] == input.groups.value;
    }
  }

  // ---- the time zone of its house ------------------------------------------------------

  /** The zone an update asks for can be taken: it is empty or known, and the profile has a house. */
  ghost predicate ZoneTaken(zones: set<string>, cfg: Config, p: Profile, zone: string) {
    (zone == "" || zone in zones) && p.houseId != "" && HasHouse(cfg.houses, p.houseId)
  }

  /** The house of a profile gets that zone, for an empty name the default one. */
  predicate HouseMoved(before: seq<House>, after: seq<House>, houseId: string, zone: string) {
    |after| == |before| && forall h | 0 <= h < |before| ::
      after[h] == if before[h].id != houseId then before[h]
                  else before[h].(timeZone := if zone == "" then "America/Sao_Paulo" else zone)
  }

  /** Another profile once profile `p` was updated: the same, unless its house is the same one and gets another zone. */
  ghost predicate SiblingOf(before: seq<House>, p: Profile, zone: string, r: Profile, after: Profile) {
    if r.houseId != p.houseId
       || exists h :: 0 <= h < |before| && before[h].id == p.houseId && before[h].timeZone == zone
    then after == r
    else after == r.(version := r.version + 1, timeZone := if zone == "" then "America/Sao_Paulo" else zone)
  }

  function ZoneName(zone: string): string {
    if zone == "" then "America/Sao_Paulo" else zone
  }

  lemma OnlyHouse(houses: seq<House>, h: int)
    requires V.UniqueHouses(houses) && 0 <= h < |houses|
    ensures ZoneOf(houses, |houses|, houses[h].id) == houses[h].timeZone
  {
    hide ZoneOf, V.UniqueHouses;
    ZoneOfIsLast(houses, |houses|, houses[h].id);
    var k :| 0 <= k < |houses| && LastOf(houses, k, houses[h].id)
             && houses[k].timeZone == ZoneOf(houses, |houses|, houses[h].id);
    if k != h { OtherHouse(houses, h, k); }
  }

  lemma OtherHouse(houses: seq<House>, h: int, k: int)
    requires V.UniqueHouses(houses) && 0 <= h < |houses| && 0 <= k < |houses| && k != h
    ensures houses[k].id != houses[h].id
  {
    assert k < h ==> houses[k].id != houses[h].id;
  }

  /** The houses after an update with a zone. */
  lemma Moved(zones: set<string>, cfg: Config, h: int, zone: string)
    requires V.Regular(zones, cfg) && 0 <= h < |cfg.houses|
    ensures var houses := WithZones(cfg.houses[h := cfg.houses[h].(timeZone := zone)]);
            && HouseMoved(cfg.houses, houses, cfg.houses[h].id, zone) && V.UniqueHouses(houses)
            && ZoneOf(houses, |houses|, cfg.houses[h].id) == ZoneName(zone)
  {
    hide V.Regular;
    RegularHouses(zones, cfg);
    var houses := WithZones(cfg.houses[h := cfg.houses[h].(timeZone := zone)]);
    forall k | 0 <= k < |cfg.houses|
      ensures k != h ==> cfg.houses[k].id != cfg.houses[h].id && houses[k] == cfg.houses[k]
    {
      assert WithZones(cfg.houses)[k] == WithZone(cfg.houses[k]);
      assert k < h ==> cfg.houses[k].id != cfg.houses[h].id;
    }
    OnlyHouse(houses, h);
  }

  /** What an update with a zone asks of the houses and of another profile. */
  lemma SiblingAsked(zones: set<string>, cfg: Config, id: string, input: ProfileInput, i: nat, h: nat, j: nat)
    requires V.UniqueIds(cfg.profiles) && Put(zones, cfg, id, input).Some?
    requires FindProfile(cfg.profiles, id, 0) == Some(i) && input.timeZone.Some? && j < |cfg.profiles| && j != i
    requires FindHouse(cfg.houses, cfg.profiles[i].houseId, 0) == Some(h)
    ensures var asked, zone := Put(zones, cfg, id, input).value, TrimSpace(input.timeZone.value);
            var moves := cfg.profiles[j].houseId == cfg.profiles[i].houseId && cfg.houses[h].timeZone != zone;
            && asked.houses == cfg.houses[h := cfg.houses[h].(timeZone := zone)]
            && |asked.profiles| == |cfg.profiles|
            && asked.profiles[j] == if moves then Bump(cfg.profiles[j]) else cfg.profiles[j]
  {
    hide TrimSpace, Edited;
    assert i < j ==> cfg.profiles[i].id != cfg.profiles[j].id;
    assert j < i ==> cfg.profiles[j].id != cfg.profiles[i].id;
  }

  /** A profile next to the updated one. */
  lemma SiblingStored(zones: set<string>, st: Control, id: string, input: ProfileInput, writable: bool, after: Control,
                      i: nat, h: nat, j: nat)
    requires V.Regular(zones, st.config) && CommitsTo(zones, st, PutProfile(id, input), writable, after)
    requires FindProfile(st.config.profiles, id, 0) == Some(i) && input.timeZone.Some?
    requires FindHouse(st.config.houses, st.config.profiles[i].houseId, 0) == Some(h)
    requires j < |st.config.profiles| && j != i
    ensures j < |after.config.profiles|
    ensures SiblingOf(st.config.houses, st.config.profiles[i], TrimSpace(input.timeZone.value),
                      st.config.profiles[j], after.config.profiles[j])
  {
    hide V.Regular, Normal, CommitsTo, ProfileStored, TrimSpace, ZoneOf, WithZones, V.ZoneKept, Put, V.UniqueIds,
         V.UniqueHouses, GoodList, AskedAt;
    var cfg, cmd := st.config, PutProfile(id, input);
    CommitStores(zones, st, cmd, writable, after);
    var p, r, zone := cfg.profiles[i], cfg.profiles[j], TrimSpace(input.timeZone.value);
    RegularHouses(zones, cfg);
    SiblingAsked(zones, cfg, id, input, i, h, j);
    if r.houseId != p.houseId || cfg.houses[h].timeZone == zone {
      V.HouseChangedKeepsZones(cfg, Put(zones, cfg, id, input).value, h, cfg.houses[h].(timeZone := zone), r.houseId);
      LeftAlone(zones, st, cmd, writable, after, j, j);
    } else {
      MovedSibling(zones, cfg, cmd, i, h, j, zone);
      forall k | 0 <= k < |cfg.houses| && cfg.houses[k].id == p.houseId
        ensures k == h
      {
        if k != h { OtherHouse(cfg.houses, h, k); }
      }
    }
  }

  lemma MovedSibling(zones: set<string>, cfg: Config, cmd: Command, i: nat, h: nat, j: nat, zone: string)
    requires V.Regular(zones, cfg) && i < |cfg.profiles| && j < |cfg.profiles| && h < |cfg.houses|
    requires cfg.houses[h].id == cfg.profiles[j].houseId
    requires Mutated(zones, cfg, cmd).Some? && j < |Mutated(zones, cfg, cmd).value.profiles|
    requires Mutated(zones, cfg, cmd).value.profiles[j] == Bump(cfg.profiles[j])
    requires Mutated(zones, cfg, cmd).value.houses == cfg.houses[h := cfg.houses[h].(timeZone := zone)]
    ensures var r := cfg.profiles[j];
            Normal(Normal(AskedAt(zones, cfg, cmd, j))) == r.(version := r.version + 1, timeZone := ZoneName(zone))
  {
    hide V.Regular, Normal, ZoneOf, WithZones, Mutated;
    var r := cfg.profiles[j];
    Moved(zones, cfg, h, zone);
    RegularProfile(zones, cfg, j);
    SameRewrites(r, r.(version := r.version + 1, timeZone := ZoneName(zone)));
  }

  /** An update of a profile makes of it what the request says and bumps its version. Without a zone nothing else
      changes; with one, the profile's house gets it and every other profile of that house the zone and, if it is a
      new one, the next version. */
  lemma PutCommitted(zones: set<string>, st: Control, id: string, input: ProfileInput, writable: bool, after: Control)
    returns (i: nat, q: Profile)
    requires V.Regular(zones, st.config) && CommitsTo(zones, st, PutProfile(id, input), writable, after)
    ensures i < |st.config.profiles| == |after.config.profiles| && st.config.profiles[i].id == id
    ensures Sensible(st.config.profiles[i], input) && Updated(st.config.profiles[i], input, q)
    ensures ProfileStored(q.(timeZone := after.config.profiles[i].timeZone), after.config.profiles[i])
    ensures after.config == st.config.(houses := after.config.houses, profiles := after.config.profiles)
    ensures input.timeZone == None ==>
              && after.config.houses == st.config.houses
              && ChangedAt(st.config.profiles, after.config.profiles, i, after.config.profiles[i])
              && after.config.profiles[i].timeZone == st.config.profiles[i].timeZone
    ensures input.timeZone.Some? ==>
              var p, zone := st.config.profiles[i], TrimSpace(input.timeZone.value);
              && ZoneTaken(zones, st.config, p, zone)
              && HouseMoved(st.config.houses, after.config.houses, p.houseId, zone)
              && after.config.profiles[i].timeZone == ZoneName(zone)
              && forall j | 0 <= j < |st.config.profiles| && j != i ::
                   SiblingOf(st.config.houses, p, zone, st.config.profiles[j], after.config.profiles[j])
  {
    hide V.Regular, Normal, CommitsTo, ProfileStored, Edited, TrimSpace, ZoneOf, WithZones, Sensible, Updated,
         SiblingOf, HouseMoved;
    var cfg, cmd := st.config, PutProfile(id, input);
    CommitStores(zones, st, cmd, writable, after);
    i := FindProfile(cfg.profiles, id, 0).value;
    var p := cfg.profiles[i];
    q := Edited(p, input).value;
    EditsExactly(p, input);
    V.EditedIsBump(p, input);
    if input.timeZone.None? {
      OneReplaced(zones, st, cmd, writable, after, i, q);
      KeptZone(q);
    } else {
      var h, zone := FindHouse(cfg.houses, p.houseId, 0).value, TrimSpace(input.timeZone.value);
      Moved(zones, cfg, h, zone);
      assert AskedAt(zones, cfg, cmd, i) == q.(timeZone := ZoneName(zone));
      KeptZone(q.(timeZone := ZoneName(zone)));
      forall j | 0 <= j < |cfg.profiles| && j != i
        ensures SiblingOf(cfg.houses, p, zone, cfg.profiles[j], after.config.profiles[j])
      {
        SiblingStored(zones, st, id, input, writable, after, i, h, j);
      }
    }
  }

  // ---- when an update commits ------------------------------------------------------------

  /** A list with profile `i` replaced by another one of its hostname, and others that at most have another zone, which
      is known, and another version. */
  ghost predicate Reedited(zones: set<string>, before: seq<Profile>, after: seq<Profile>, i: int) {
    && 0 <= i < |before| == |after|
    && after[i].hostname == before[i].hostname && after[i].disabled == before[i].disabled
    && forall j | 0 <= j < |before| && j != i :: Rezoning(zones, before[j], after[j])
  }

  predicate Rezoning(zones: set<string>, r: Profile, after: Profile) {
    after == r.(version := after.version, timeZone := after.timeZone)
    && (after.timeZone == r.timeZone || GoodZone(zones, after.timeZone))
  }

  lemma RezonedGood(zones: set<string>, r: Profile, after: Profile)
    requires Rezoning(zones, r, after) && GoodProfile(zones, r)
    ensures GoodProfile(zones, after)
  {
    hide Named, GoodPauses, GoodRules, GoodGroups, GoodZone;
  }

  lemma GoodReedited(zones: set<string>, before: seq<Profile>, after: seq<Profile>, i: int)
    requires GoodList(zones, before) && Reedited(zones, before, after, i)
    ensures GoodList(zones, after) <==> after[i].disabled || GoodProfile(zones, after[i])
  {
    hide GoodProfile, NoClash, GoodZone;
    forall j, k | 0 <= j < k < |after|
      ensures NoClash(after[j], after[k])
    {
      assert NoClash(before[j], before[k]);
      SameClashes(before[j], before[k], after[j], after[k]);
    }
    forall j | 0 <= j < |after| && j != i && !after[j].disabled
      ensures GoodProfile(zones, after[j])
    {
      RezonedGood(zones, before[j], after[j]);
    }
  }

  lemma {:induction false} ZoneIsGood(zones: set<string>, before: seq<House>, after: seq<House>, n: nat,
                                      houseId: string)
    requires n <= |before| == |after|
    requires forall k | 0 <= k < |after| ::
               after[k].id == before[k].id && after[k].timeZone != "" && after[k].timeZone in zones
    ensures ZoneOf(after, n, houseId) == ZoneOf(before, n, houseId) || GoodZone(zones, ZoneOf(after, n, houseId))
  {
    if n > 0 && before[n - 1].id != houseId {
      ZoneIsGood(zones, before, after, n - 1, houseId);
    }
  }

  /** Another profile of what an update asks for, once zones are filled in. */
  lemma NextSibling(zones: set<string>, cfg: Config, id: string, input: ProfileInput, i: nat, j: nat, next: Config)
    requires V.Regular(zones, cfg) && FindProfile(cfg.profiles, id, 0) == Some(i) && j < |cfg.profiles| && j != i
    requires Next(zones, cfg, PutProfile(id, input)) == Some(next)
    ensures |next.profiles| == |cfg.profiles| && Rezoning(zones, cfg.profiles[j], next.profiles[j])
  {
    hide V.Regular, Edited, TrimSpace, ZoneOf, Normal, GoodZone;
    RegularProfile(zones, cfg, j);
    var asked := Put(zones, cfg, id, input).value;
    forall k | 0 <= k < |cfg.houses|
      ensures next.houses[k].id == cfg.houses[k].id
      ensures next.houses[k].timeZone != "" && next.houses[k].timeZone in zones
    {
      assert next.houses[k] == WithZone(asked.houses[k]) && WithZone(asked.houses[k]).timeZone in zones;
    }
    ZoneIsGood(zones, cfg.houses, next.houses, |cfg.houses|, cfg.profiles[j].houseId);
  }

  /** The zone of the updated profile. */
  function ZoneAfter(p: Profile, input: ProfileInput): string {
    if input.timeZone.Some? then ZoneName(TrimSpace(input.timeZone.value)) else p.timeZone
  }

  lemma NextEdited(zones: set<string>, cfg: Config, id: string, input: ProfileInput, i: nat, q: Profile, next: Config)
    requires V.Regular(zones, cfg) && FindProfile(cfg.profiles, id, 0) == Some(i)
    requires Edited(cfg.profiles[i], input) == Some(q) && Next(zones, cfg, PutProfile(id, input)) == Some(next)
    ensures |next.profiles| == |cfg.profiles|
    ensures next.profiles[i] == q.(timeZone := ZoneAfter(cfg.profiles[i], input))
  {
    hide V.Regular, Edited, TrimSpace, ZoneOf, Normal, WithZones, ZonesKnown, ZonedProfiles, BumpSiblings,
         V.UniqueHouses, V.UniqueIds, GoodList;
    var p := cfg.profiles[i];
    V.EditedIsBump(p, input);
    RegularHouses(zones, cfg);
    RegularProfile(zones, cfg, i);
    if input.timeZone.Some? {
      Moved(zones, cfg, FindHouse(cfg.houses, p.houseId, 0).value, TrimSpace(input.timeZone.value));
    }
  }

  /** An update asks for something exactly when it is sensible and its zone can be taken and is known. */
  lemma PutAsks(zones: set<string>, cfg: Config, id: string, input: ProfileInput, i: nat)
    requires V.Regular(zones, cfg) && FindProfile(cfg.profiles, id, 0) == Some(i)
    ensures Next(zones, cfg, PutProfile(id, input)).Some? <==>
            && Sensible(cfg.profiles[i], input)
            && (input.timeZone.Some? ==>
                  ZoneTaken(zones, cfg, cfg.profiles[i], TrimSpace(input.timeZone.value))
                  && ZoneAfter(cfg.profiles[i], input) in zones)
  {
    hide V.Regular, Edited, TrimSpace, ZoneOf, Normal, Sensible;
    var p := cfg.profiles[i];
    EditsExactly(p, input);
    RegularHouses(zones, cfg);
    if input.timeZone.Some? {
      var found := FindHouse(cfg.houses, p.houseId, 0);
      if found.Some? {
        KnownMoved(zones, cfg.houses, found.value, TrimSpace(input.timeZone.value));
      }
    }
  }

  lemma KnownMoved(zones: set<string>, houses: seq<House>, h: nat, zone: string)
    requires ZonesKnown(zones, houses) && h < |houses|
    ensures ZonesKnown(zones, houses[h := houses[h].(timeZone := zone)]) <==> ZoneName(zone) in zones
  {
    var moved := houses[h := houses[h].(timeZone := zone)];
    assert WithZone(moved[h]).timeZone == ZoneName(zone);
    forall k | 0 <= k < |houses| && k != h
      ensures WithZone(moved[k]).timeZone in zones
    {
      assert moved[k] == houses[k];
    }
  }

  /** An update commits, on settled names, exactly when there is such a profile, the update is sensible, its zone can
      be taken and is known, the file can be written, and the profile it asks for is disabled or meets the
      requirements. */
  lemma PutCommits(zones: set<string>, st: Control, id: string, input: ProfileInput, writable: bool)
    returns (i: nat, q: Profile)
    requires V.Regular(zones, st.config) && ListNames(st.config.profiles) && RequestSettled(PutProfile(id, input))
    ensures HasProfile(st.config.profiles, id) ==> i < |st.config.profiles| && st.config.profiles[i].id == id
    ensures HasProfile(st.config.profiles, id) && Sensible(st.config.profiles[i], input) ==>
              Updated(st.config.profiles[i], input, q)
    ensures Update(zones, st, PutProfile(id, input), writable).1 <==>
            && writable && HasProfile(st.config.profiles, id)
            && var p := st.config.profiles[i];
            && Sensible(p, input)
            && (input.timeZone.Some? ==> ZoneTaken(zones, st.config, p, TrimSpace(input.timeZone.value))
                                         && ZoneAfter(p, input) in zones)
            && (p.disabled || GoodProfile(zones, q.(timeZone := ZoneAfter(p, input))))
  {
    hide V.Regular, Edited, TrimSpace, Normal, Sensible, Updated, Update, Next, ZoneAfter, ZoneTaken, GoodProfile,
         GoodList, AllSettled, ListNames, RulesSettled, InputNames, Rezoning, ProfileSettled, ProfileNames;
    var cfg, cmd := st.config, PutProfile(id, input);
    var found := FindProfile(cfg.profiles, id, 0);
    i, q := if found.Some? then found.value else 0, PlainProfile();
    if found.None? {
      NotAsked(zones, st, cmd, writable);
    } else {
      var p := cfg.profiles[i];
      EditsExactly(p, input);
      PutAsks(zones, cfg, id, input, i);
      if Edited(p, input).Some? { q := Edited(p, input).value; }
      if Next(zones, cfg, cmd).None? {
        NothingAsked(zones, st, cmd, writable);
      } else {
        var next := Next(zones, cfg, cmd).value;
        NextEdited(zones, cfg, id, input, i, q, next);
        forall j: nat | j < |cfg.profiles| && j != i
          ensures Rezoning(zones, cfg.profiles[j], next.profiles[j])
        {
          NextSibling(zones, cfg, id, input, i, j, next);
        }
        EditedSame(p, input);
        RegularHouses(zones, cfg);
        RegularIsSettled(zones, cfg);
        UpdateNames(zones, st, cmd, writable);
        SettledCommitsExactly(zones, st, cmd, writable, next);
        GoodReedited(zones, cfg.profiles, next.profiles, i);
      }
    }
  }

  lemma EditedSame(p: Profile, input: ProfileInput)
    requires Edited(p, input).Some?
    ensures var q := Edited(p, input).value; q.hostname == p.hostname && q.disabled == p.disabled
  {
    hide MergedGroups;
  }

  lemma NothingAsked(zones: set<string>, st: Control, cmd: Command, writable: bool)
    requires Next(zones, st.config, cmd).None?
    ensures !Update(zones, st, cmd, writable).1
  {
    hide Next;
  }
}
