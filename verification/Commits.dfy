/** What a commit leaves behind, read off the fields of the configuration, the file and the active store. */
module Commits {
  import opened Text
  import opened Names
  import opened PolicyTypes
  import opened ConfigTypes
  import opened PolicyStore
  import opened PolicyRevalidation
  import opened AdminModel
  import opened Acceptance
  import V = Versions

  // ---- what a commit stores of a profile -----------------------------------

  /** A commit validates twice and stores the normal form of the normal form. */
  predicate NormalTwice(given: string, kept: string) {
    NormalizeName(given).Some? && NormalizeName(NormalizeName(given).value) == Some(kept)
  }

  predicate AllNormalTwice(given: seq<string>, kept: seq<string>) {
    |kept| == |given| && forall i | 0 <= i < |given| :: NormalTwice(given[i], kept[i])
  }

  predicate RuleStored(given: Rule, kept: Rule) {
    NormalTwice(given.domain, kept.domain) && kept == given.(domain := kept.domain)
  }

  predicate GroupStored(given: RuleGroup, kept: RuleGroup) {
    AllNormalTwice(given.domains, kept.domains) && kept == given.(domains := kept.domains)
  }

  /** A disabled profile is stored as it is; of an enabled one the rule and group domains are rewritten. */
  predicate ProfileStored(given: Profile, kept: Profile) {
    if given.disabled then kept == given
    else
      && kept == given.(rules := kept.rules, groups := kept.groups)
      && |kept.rules| == |given.rules|
      && (forall k | 0 <= k < |given.rules| :: RuleStored(given.rules[k], kept.rules[k]))
      && |kept.groups| == |given.groups|
      && forall k | 0 <= k < |given.groups| :: GroupStored(given.groups[k], kept.groups[k])
  }

  lemma NormalIsRenamed(zones: set<string>, p: Profile)
    requires GoodProfile(zones, p) && !p.disabled
    ensures var n := Normal(p);
            && n == p.(rules := n.rules, groups := n.groups) && |n.rules| == |p.rules| && |n.groups| == |p.groups|
            && (forall k | 0 <= k < |p.rules| :: RuleRenamed(n.rules[k], p.rules[k]))
            && forall k | 0 <= k < |p.groups| :: GroupRenamed(n.groups[k], p.groups[k])
  {
    hide NormalizeName, GoodPauses, GoodSchedules, GoodZone;
    forall k | 0 <= k < |p.rules|
      ensures RuleRenamed(Normal(p).rules[k], p.rules[k])
    {
      assert GoodRule(p.rules[k]);
    }
    forall k | 0 <= k < |p.groups|
      ensures GroupRenamed(Normal(p).groups[k], p.groups[k])
    {
      assert GoodGroup(p.groups[k]);
    }
  }

  lemma RenamedTwice(zones: set<string>, p: Profile)
    requires !p.disabled ==> GoodProfile(zones, p) && GoodProfile(zones, Normal(p))
    ensures ProfileStored(p, Normal(Normal(p)))
  {
    hide NormalizeName, Normal, GoodProfile;
    if !p.disabled {
      NormalIsRenamed(zones, p);
      NormalIsRenamed(zones, Normal(p));
      var once, twice := Normal(p), Normal(Normal(p));
      forall k | 0 <= k < |p.rules|
        ensures RuleStored(p.rules[k], twice.rules[k])
      {
        assert RuleRenamed(once.rules[k], p.rules[k]) && RuleRenamed(twice.rules[k], once.rules[k]);
      }
      forall k | 0 <= k < |p.groups|
        ensures GroupStored(p.groups[k], twice.groups[k])
      {
        assert GroupRenamed(once.groups[k], p.groups[k]) && GroupRenamed(twice.groups[k], once.groups[k]);
      }
    } else {
      DisabledIsNormal(p);
    }
  }

  lemma DisabledIsNormal(p: Profile)
    requires p.disabled
    ensures Normal(p) == p
  {
  }

  // ---- the commit step -------------------------------------------------------

  /** The command commits. */
  predicate CommitsTo(zones: set<string>, st: Control, cmd: Command, writable: bool, after: Control) {
    Update(zones, st, cmd, writable) == (after, true)
  }

  /** A profile as the command asks for it, with the zone of its house. */
  function AskedAt(zones: set<string>, cfg: Config, cmd: Command, j: int): Profile
    requires Mutated(zones, cfg, cmd).Some? && 0 <= j < |Mutated(zones, cfg, cmd).value.profiles|
  {
    var asked := Mutated(zones, cfg, cmd).value;
    var houses := WithZones(asked.houses);
    asked.profiles[j].(timeZone := ZoneOf(houses, |houses|, asked.profiles[j].houseId))
  }

  lemma CommitStores(zones: set<string>, st: Control, cmd: Command, writable: bool, after: Control)
    requires CommitsTo(zones, st, cmd, writable, after)
    ensures Mutated(zones, st.config, cmd).Some?
    ensures var asked := Mutated(zones, st.config, cmd).value;
            && after.config == asked.(houses := WithZones(asked.houses), profiles := after.config.profiles)
            && after.active == after.config.profiles && |after.active| == |asked.profiles|
            && forall j | 0 <= j < |asked.profiles| ::
                 && after.active[j] == Normal(Normal(AskedAt(zones, st.config, cmd, j)))
                 && ProfileStored(AskedAt(zones, st.config, cmd, j), after.active[j])
  {
    hide Mutated, Accept, Normal, ProfileStored, GoodProfile;
    var asked := Mutated(zones, st.config, cmd).value;
    var next := Next(zones, st.config, cmd).value;
    forall j | 0 <= j < |asked.profiles|
      ensures next.profiles[j] == AskedAt(zones, st.config, cmd, j)
      ensures ProfileStored(next.profiles[j], Normal(Normal(next.profiles[j])))
    {
      if !next.profiles[j].disabled {
        AcceptedIsGood(zones, next.profiles, j);
        NormalFields(next.profiles[j]);
        AcceptedIsGood(zones, NormalAll(next.profiles), j);
      }
      RenamedTwice(zones, next.profiles[j]);
    }
  }

  lemma NormalFields(p: Profile)
    ensures var n := Normal(p);
            n.hostname == p.hostname && n.disabled == p.disabled && n.id == p.id && n.version == p.version
  {
  }

  lemma KeptZone(p: Profile)
    ensures Normal(Normal(p)).timeZone == p.timeZone && Normal(Normal(p)).houseId == p.houseId
  {
    V.NormalKeeps(p);
    V.NormalKeeps(Normal(p));
  }

  /** A profile the command leaves alone, in a house whose zone it leaves alone, is the very same afterwards. */
  lemma LeftAlone(zones: set<string>, st: Control, cmd: Command, writable: bool, after: Control, i: int, j: int)
    requires CommitsTo(zones, st, cmd, writable, after) && V.Regular(zones, st.config)
    requires 0 <= i < |st.config.profiles|
    requires var asked := Mutated(zones, st.config, cmd).value;
             && 0 <= j < |asked.profiles| && asked.profiles[j] == st.config.profiles[i]
             && V.ZoneKept(st.config.houses, asked.houses, st.config.profiles[i].houseId)
    ensures j < |after.config.profiles| && after.config.profiles[j] == st.config.profiles[i]
  {
    hide Mutated, Accept, Normal, ProfileStored, CommitsTo;
    CommitStores(zones, st, cmd, writable, after);
    RegularProfile(zones, st.config, i);
  }

  lemma RegularProfile(zones: set<string>, cfg: Config, i: int)
    requires V.Regular(zones, cfg) && 0 <= i < |cfg.profiles|
    ensures Normal(cfg.profiles[i]) == cfg.profiles[i]
    ensures cfg.profiles[i].timeZone == ZoneOf(cfg.houses, |cfg.houses|, cfg.profiles[i].houseId)
  {
    hide Accept, Normal;
    V.ZonedHouses(zones, cfg);
    assert NormalAll(cfg.profiles)[i] == Normal(cfg.profiles[i]);
    assert cfg.profiles[i] in cfg.profiles;
  }

  /** The zone of the last house of that id, or the default zone when there is none. */
  ghost predicate ZoneFrom(houses: seq<House>, houseId: string, zone: string) {
    || (zone == "America/Sao_Paulo" && forall h | 0 <= h < |houses| :: houses[h].id != houseId)
    || exists h :: 0 <= h < |houses| && LastOf(houses, h, houseId) && houses[h].timeZone == zone
  }

  predicate LastOf(houses: seq<House>, h: int, houseId: string)
    requires 0 <= h < |houses|
  {
    houses[h].id == houseId && forall k | h < k < |houses| :: houses[k].id != houseId
  }

  lemma {:induction false} ZoneOfIsLast(houses: seq<House>, n: nat, houseId: string)
    requires n <= |houses| && forall k | n <= k < |houses| :: houses[k].id != houseId
    ensures ZoneFrom(houses, houseId, ZoneOf(houses, n, houseId))
  {
    if n > 0 && houses[n - 1].id == houseId {
      assert LastOf(houses, n - 1, houseId);
    } else if n > 0 {
      ZoneOfIsLast(houses, n - 1, houseId);
    }
  }

  /** After a commit every house has a zone, and every profile has the zone of its house. */
  lemma ZonesFollowHouses(zones: set<string>, st: Control, cmd: Command, writable: bool, after: Control)
    requires CommitsTo(zones, st, cmd, writable, after)
    ensures forall h | 0 <= h < |after.config.houses| ::
              after.config.houses[h].timeZone != "" && after.config.houses[h].timeZone in zones
    ensures forall j | 0 <= j < |after.active| ::
              ZoneFrom(after.config.houses, after.active[j].houseId, after.active[j].timeZone)
  {
    hide Mutated, Accept, Normal, ProfileStored, ZoneFrom;
    CommitStores(zones, st, cmd, writable, after);
    var asked := Mutated(zones, st.config, cmd).value;
    forall j | 0 <= j < |after.active|
      ensures ZoneFrom(after.config.houses, after.active[j].houseId, after.active[j].timeZone)
    {
      var q := AskedAt(zones, st.config, cmd, j);
      KeptZone(q);
      ZoneOfIsLast(after.config.houses, |after.config.houses|, q.houseId);
    }
  }

  // ---- the active store and the file -----------------------------------------

  /** The store finds exactly the enabled profiles of the committed configuration, each by its own hostname. */
  lemma FoundByHostname(zones: set<string>, st: Control, cmd: Command, writable: bool, after: Control,
                        hostname: string, i: nat)
    requires CommitsTo(zones, st, cmd, writable, after)
    ensures ByHostname(after.index, hostname) == Some(i) <==>
            && Live(after.active, i) && NormalizeName(hostname).Some?
            && NormalizeName(hostname) == NormalizeName(after.active[i].hostname)
  {
    hide Mutated, Accept, Normal, NormalizeName;
    var validated := NormalAll(Next(zones, st.config, cmd).value.profiles);
    HostnameFindsExactly(zones, validated, hostname, i);
    if i < |validated| { NormalFields(validated[i]); }
  }

  /** And each by its own first label. */
  lemma FoundByLabel(zones: set<string>, st: Control, cmd: Command, writable: bool, after: Control,
                     title: string, i: nat)
    requires CommitsTo(zones, st, cmd, writable, after)
    ensures ByLabel(after.index, title) == Some(i) <==>
            && Live(after.active, i) && NormalizeName(title).Some? && '.' !in NormalizeName(title).value
            && NormalizeName(after.active[i].hostname).Some?
            && NormalizeName(title).value == FirstLabel(NormalizeName(after.active[i].hostname).value)
  {
    hide Mutated, Accept, Normal, NormalizeName, FirstLabel;
    var validated := NormalAll(Next(zones, st.config, cmd).value.profiles);
    LabelFindsExactly(zones, validated, title, i);
    if i < |validated| { NormalFields(validated[i]); }
  }

  /** What the file holds for a profile: the profile without its zone, with names the profile's are normal forms of. */
  predicate FiledAs(p: Profile, f: Profile) {
    if p.disabled then f == p.(timeZone := "")
    else
      && f == p.(rules := f.rules, groups := f.groups, timeZone := "")
      && |f.rules| == |p.rules| && (forall k | 0 <= k < |p.rules| :: RuleRenamed(p.rules[k], f.rules[k]))
      && |f.groups| == |p.groups| && forall k | 0 <= k < |p.groups| :: GroupRenamed(p.groups[k], f.groups[k])
  }

  /** The file holds the committed configuration. */
  lemma FileHolds(zones: set<string>, st: Control, cmd: Command, writable: bool, after: Control)
    requires CommitsTo(zones, st, cmd, writable, after)
    ensures after.file == after.config.(profiles := after.file.profiles)
    ensures |after.file.profiles| == |after.config.profiles|
    ensures forall j | 0 <= j < |after.file.profiles| :: FiledAs(after.config.profiles[j], after.file.profiles[j])
  {
    hide Mutated, Accept, Normal, FiledAs;
    var validated := NormalAll(Next(zones, st.config, cmd).value.profiles);
    forall j | 0 <= j < |validated|
      ensures FiledAs(Normal(validated[j]), validated[j].(timeZone := ""))
    {
      NormalIsFiled(zones, validated, j);
    }
  }

  lemma NormalIsFiled(zones: set<string>, profiles: seq<Profile>, j: nat)
    requires Accept(zones, profiles).Some? && j < |profiles|
    ensures FiledAs(Normal(profiles[j]), profiles[j].(timeZone := ""))
  {
    hide Accept, Normal, GoodProfile;
    if profiles[j].disabled {
      DisabledIsNormal(profiles[j]);
    } else {
      AcceptedIsGood(zones, profiles, j);
      NormalFields(profiles[j]);
      NormalIsRenamed(zones, profiles[j]);
    }
  }

  // ---- when a commit succeeds ------------------------------------------------

  /** A command that asks for profiles in normal form commits exactly when the file can be written and the profiles
      meet the store's requirements. */
  lemma CommitsExactly(zones: set<string>, st: Control, cmd: Command, writable: bool, next: Config)
    requires Next(zones, st.config, cmd) == Some(next) && NormalAll(next.profiles) == next.profiles
    ensures Update(zones, st, cmd, writable).1 <==> writable && GoodList(zones, next.profiles)
  {
    hide Next, Accept, GoodList, NormalAll;
    AcceptsExactly(zones, next.profiles);
  }

  /** So does one that asks for settled names. */
  lemma SettledCommitsExactly(zones: set<string>, st: Control, cmd: Command, writable: bool, next: Config)
    requires Next(zones, st.config, cmd) == Some(next) && AllSettled(next.profiles)
    ensures Update(zones, st, cmd, writable).1 <==> writable && GoodList(zones, next.profiles)
  {
    hide Next, Accept, GoodList, NormalAll, AllSettled;
    AcceptsExactly(zones, next.profiles);
    if Accept(zones, next.profiles).Some? {
      RevalidationExactly(zones, next.profiles);
    }
  }

  /** The enabled profiles of a regular configuration have settled names. */
  lemma RegularIsSettled(zones: set<string>, cfg: Config)
    requires V.Regular(zones, cfg)
    ensures AllSettled(cfg.profiles)
  {
    hide Accept, NormalAll, AllSettled;
    RevalidationExactly(zones, cfg.profiles);
  }

  lemma NotAsked(zones: set<string>, st: Control, cmd: Command, writable: bool)
    requires Mutated(zones, st.config, cmd).None?
    ensures !Update(zones, st, cmd, writable).1
  {
    hide Mutated;
  }
}
