/** What each command has done once it is committed, field by field, and when it commits. */
module CommandEffects {
  import opened Text
  import opened Names
  import opened PolicyTypes
  import opened ConfigTypes
  import opened PolicyStore
  import opened AdminModel
  import opened Acceptance
  import opened Commits
  import V = Versions

  predicate OnlyProfiles(before: Config, after: Config) {
    after == before.(profiles := after.profiles)
  }

  /** One profile of the list is another one, and nothing else is. */
  predicate ChangedAt(before: seq<Profile>, after: seq<Profile>, i: int, p: Profile) {
    0 <= i < |before| == |after| && after[i] == p && forall j | 0 <= j < |before| && j != i :: after[j] == before[j]
  }

  ghost predicate HasProfile(profiles: seq<Profile>, id: string) {
    exists i :: 0 <= i < |profiles| && profiles[i].id == id
  }

  ghost predicate HasHouse(houses: seq<House>, id: string) {
    exists i :: 0 <= i < |houses| && houses[i].id == id
  }

  // ---- commands that change one profile ----------------------------------------

  /** The command asks for profile `i` to become `q`, in the same house. */
  predicate Replaces(zones: set<string>, cfg: Config, cmd: Command, i: int, q: Profile) {
    && 0 <= i < |cfg.profiles| && Mutated(zones, cfg, cmd) == Some(cfg.(profiles := cfg.profiles[i := q]))
    && q.houseId == cfg.profiles[i].houseId && q.timeZone == cfg.profiles[i].timeZone
  }

  lemma OneReplaced(zones: set<string>, st: Control, cmd: Command, writable: bool, after: Control, i: int, q: Profile)
    requires V.Regular(zones, st.config) && CommitsTo(zones, st, cmd, writable, after)
    requires Replaces(zones, st.config, cmd, i, q)
    ensures OnlyProfiles(st.config, after.config) && |after.active| == |st.config.profiles|
    ensures ChangedAt(st.config.profiles, after.config.profiles, i, Normal(Normal(q)))
    ensures after.active == after.config.profiles && ProfileStored(q, after.active[i])
  {
    hide Mutated, Normal, CommitsTo, ProfileStored, V.Regular;
    RegularHouses(zones, st.config);
    CommitStores(zones, st, cmd, writable, after);
    forall j | 0 <= j < |st.config.profiles|
      ensures j != i ==> after.config.profiles[j] == st.config.profiles[j]
      ensures V.ZoneKept(st.config.houses, st.config.houses, st.config.profiles[j].houseId)
    {
      V.HousesKeepZones(st.config, st.config, st.config.profiles[j].houseId);
      if j != i {
        LeftAlone(zones, st, cmd, writable, after, j, j);
      }
    }
    RegularProfile(zones, st.config, i);
    assert AskedAt(zones, st.config, cmd, i) == q;
  }

  lemma RegularHouses(zones: set<string>, cfg: Config)
    requires V.Regular(zones, cfg)
    ensures WithZones(cfg.houses) == cfg.houses && ZonesKnown(zones, cfg.houses)
    ensures V.UniqueIds(cfg.profiles) && V.UniqueHouses(cfg.houses) && GoodList(zones, cfg.profiles)
  {
    hide Accept, GoodList;
    V.ZonedHouses(zones, cfg);
    AcceptsExactly(zones, cfg.profiles);
  }

  lemma NextReplaced(zones: set<string>, cfg: Config, cmd: Command, i: int, q: Profile)
    requires V.Regular(zones, cfg) && Replaces(zones, cfg, cmd, i, q) && Normal(q) == q
    ensures var profiles := cfg.profiles[i := q];
            Next(zones, cfg, cmd) == Some(cfg.(profiles := profiles)) && NormalAll(profiles) == profiles
  {
    hide Mutated, Normal, V.Regular;
    RegularHouses(zones, cfg);
    var profiles := cfg.profiles[i := q];
    forall j | 0 <= j < |profiles|
      ensures ZonedProfiles(profiles, cfg.houses)[j] == profiles[j] && NormalAll(profiles)[j] == profiles[j]
    {
      RegularProfile(zones, cfg, j);
    }
    assert ZonedProfiles(profiles, cfg.houses) == profiles && NormalAll(profiles) == profiles;
  }

  lemma ClashIsMutual(p: Profile, q: Profile)
    ensures NoClash(p, q) <==> NoClash(q, p)
  {
    hide NormalizeName, FirstLabel;
  }

  lemma GoodReplaced(zones: set<string>, profiles: seq<Profile>, i: int, q: Profile)
    requires GoodList(zones, profiles) && 0 <= i < |profiles|
    ensures GoodList(zones, profiles[i := q]) <==>
            q.disabled
            || (GoodProfile(zones, q) && forall j | 0 <= j < |profiles| && j != i :: NoClash(profiles[j], q))
  {
    hide GoodProfile, NoClash;
    var changed := profiles[i := q];
    assert changed[i] == q && forall j | 0 <= j < |profiles| && j != i :: changed[j] == profiles[j];
    if GoodList(zones, changed) && !q.disabled {
      forall j | 0 <= j < |profiles| && j != i
        ensures NoClash(profiles[j], q)
      {
        ClashIsMutual(profiles[j], q);
        assert j < i ==> NoClash(changed[j], changed[i]);
        assert i < j ==> NoClash(changed[i], changed[j]);
      }
    }
    if q.disabled || (GoodProfile(zones, q) && forall j | 0 <= j < |profiles| && j != i :: NoClash(profiles[j], q)) {
      forall j, k | 0 <= j < k < |profiles|
        ensures NoClash(changed[j], changed[k])
      {
        if q.disabled && (j == i || k == i) {
          DisabledIsApart(changed[j], changed[k]);
        } else if j == i {
          ClashIsMutual(profiles[k], q);
        } else if k != i {
          assert NoClash(profiles[j], profiles[k]);
        }
      }
    }
  }

  // ---- disabling -----------------------------------------------------------------

  /** Disabling a profile disables that profile, bumps its version, and does nothing else; no hostname and no label
      finds it any more, and the file has it disabled. */
  lemma DisableCommitted(zones: set<string>, st: Control, id: string, writable: bool, after: Control) returns (i: nat)
    requires V.Regular(zones, st.config) && CommitsTo(zones, st, Disable(id), writable, after)
    ensures i < |st.config.profiles| && st.config.profiles[i].id == id && OnlyProfiles(st.config, after.config)
    ensures var p := st.config.profiles[i];
            ChangedAt(st.config.profiles, after.config.profiles, i, p.(disabled := true, version := p.version + 1))
    ensures i < |after.file.profiles| && after.file.profiles[i].id == id && after.file.profiles[i].disabled
    ensures forall name: string, j: nat | ByHostname(after.index, name) == Some(j) ::
              j < |after.active| && after.active[j].id != id
    ensures forall name: string, j: nat | ByLabel(after.index, name) == Some(j) ::
              j < |after.active| && after.active[j].id != id
  {
    hide V.Regular, Normal, ByHostname, ByLabel, CommitsTo;
    CommitStores(zones, st, Disable(id), writable, after);
    i := FindProfile(st.config.profiles, id, 0).value;
    OneReplaced(zones, st, Disable(id), writable, after, i, Bump(st.config.profiles[i].(disabled := true)));
    FileHolds(zones, st, Disable(id), writable, after);
    RegularHouses(zones, st.config);
    assert FiledAs(after.config.profiles[i], after.file.profiles[i]);
    forall name: string, j: nat | ByHostname(after.index, name) == Some(j)
      ensures j < |after.active| && after.active[j].id != id
    {
      FoundByHostname(zones, st, Disable(id), writable, after, name, j);
      OtherId(st.config.profiles, after.active, i, j);
    }
    forall name: string, j: nat | ByLabel(after.index, name) == Some(j)
      ensures j < |after.active| && after.active[j].id != id
    {
      FoundByLabel(zones, st, Disable(id), writable, after, name, j);
      OtherId(st.config.profiles, after.active, i, j);
    }
  }

  lemma OtherId(before: seq<Profile>, after: seq<Profile>, i: int, j: int)
    requires V.UniqueIds(before) && 0 <= i < |before| == |after| && 0 <= j < |before| && i != j
    requires ChangedAt(before, after, i, after[i])
    ensures after[j].id != before[i].id
  {
    assert i < j ==> before[i].id != before[j].id;
    assert j < i ==> before[j].id != before[i].id;
  }

  /** It commits exactly when there is such a profile and the file can be written. */
  lemma DisableCommits(zones: set<string>, st: Control, id: string, writable: bool)
    requires V.Regular(zones, st.config)
    ensures Update(zones, st, Disable(id), writable).1 <==> writable && HasProfile(st.config.profiles, id)
  {
    hide V.Regular, Normal, Update, NoClash, GoodProfile, GoodList;
    var found := FindProfile(st.config.profiles, id, 0);
    if found.None? {
      NotAsked(zones, st, Disable(id), writable);
    } else {
      var q := Bump(st.config.profiles[found.value].(disabled := true));
      DisabledIsNormal(q);
      NextReplaced(zones, st.config, Disable(id), found.value, q);
      CommitsExactly(zones, st, Disable(id), writable, st.config.(profiles := st.config.profiles[found.value := q]));
      RegularHouses(zones, st.config);
      GoodReplaced(zones, st.config.profiles, found.value, q);
    }
  }

  // ---- a new endpoint --------------------------------------------------------------

  /** Rotating an endpoint gives that profile the new hostname and the next version and does nothing else; if it is
      enabled, the new hostname finds it, and the old one finds nothing unless it is the same name. */
  lemma RotateCommitted(zones: set<string>, st: Control, id: string, hostname: string, writable: bool, after: Control)
    returns (i: nat)
    requires V.Regular(zones, st.config) && CommitsTo(zones, st, RotateEndpoint(id, hostname), writable, after)
    ensures i < |st.config.profiles| && st.config.profiles[i].id == id && OnlyProfiles(st.config, after.config)
    ensures var p := st.config.profiles[i];
            && ChangedAt(st.config.profiles, after.config.profiles, i,
                         p.(hostname := hostname, version := p.version + 1))
            && (!p.disabled ==> ByHostname(after.index, hostname) == Some(i))
            && (!p.disabled && NormalizeName(p.hostname) != NormalizeName(hostname) ==>
                ByHostname(after.index, p.hostname) == None)
  {
    hide V.Regular, Normal, NormalizeName, CommitsTo, NoClash;
    var cmd := RotateEndpoint(id, hostname);
    CommitStores(zones, st, cmd, writable, after);
    i := FindProfile(st.config.profiles, id, 0).value;
    var p := st.config.profiles[i];
    var q := Bump(p.(hostname := hostname));
    OneReplaced(zones, st, cmd, writable, after, i, q);
    RegularProfile(zones, st.config, i);
    SameRewrites(p, q);
    if !p.disabled {
      StoredIsNamed(zones, st, cmd, writable, after, i);
      FoundByHostname(zones, st, cmd, writable, after, hostname, i);
      var former := ByHostname(after.index, p.hostname);
      if former.Some? && NormalizeName(p.hostname) != NormalizeName(hostname) {
        FoundByHostname(zones, st, cmd, writable, after, p.hostname, former.value);
        NotItsName(zones, st.config, i, former.value);
      }
    }
  }

  lemma SameRewrites(p: Profile, q: Profile)
    requires Normal(p) == p && q.rules == p.rules && q.groups == p.groups && q.disabled == p.disabled
    ensures Normal(q) == q
  {
  }

  /** An enabled profile of a committed configuration has a hostname with a normal form. */
  lemma StoredIsNamed(zones: set<string>, st: Control, cmd: Command, writable: bool, after: Control, i: nat)
    requires CommitsTo(zones, st, cmd, writable, after) && Live(after.active, i)
    ensures NormalizeName(after.active[i].hostname).Some?
  {
    hide Mutated, Accept, Normal, NormalizeName, GoodPauses, GoodRules, GoodGroups, GoodZone;
    var validated := NormalAll(Next(zones, st.config, cmd).value.profiles);
    NormalFields(validated[i]);
    AcceptedIsGood(zones, validated, i);
  }

  /** No two enabled profiles of a regular configuration have one hostname. */
  lemma NotItsName(zones: set<string>, cfg: Config, i: nat, j: nat)
    requires V.Regular(zones, cfg) && Live(cfg.profiles, i) && Live(cfg.profiles, j) && i != j
    ensures NormalizeName(cfg.profiles[i].hostname) != NormalizeName(cfg.profiles[j].hostname)
  {
    hide V.Regular, NormalizeName, GoodProfile, LabelsApart;
    RegularHouses(zones, cfg);
    assert i < j ==> NoClash(cfg.profiles[i], cfg.profiles[j]);
    assert j < i ==> NoClash(cfg.profiles[j], cfg.profiles[i]);
  }

  /** It commits exactly when there is such a profile, the file can be written, and either the profile is disabled or
      the new hostname is a name whose normal form and first label no other enabled profile has. */
  lemma RotateCommits(zones: set<string>, st: Control, id: string, hostname: string, writable: bool)
    requires V.Regular(zones, st.config)
    ensures Update(zones, st, RotateEndpoint(id, hostname), writable).1 <==>
            writable && exists i :: 0 <= i < |st.config.profiles| && st.config.profiles[i].id == id
                          && HostnameFree(st.config.profiles, i, hostname)
  {
    hide V.Regular, Normal, Update, NoClash, GoodProfile, GoodList;
    var cmd, profiles := RotateEndpoint(id, hostname), st.config.profiles;
    var found := FindProfile(profiles, id, 0);
    RegularHouses(zones, st.config);
    if found.None? {
      NotAsked(zones, st, cmd, writable);
    } else {
      var i := found.value;
      var q := Bump(profiles[i].(hostname := hostname));
      RegularProfile(zones, st.config, i);
      SameRewrites(profiles[i], q);
      NextReplaced(zones, st.config, cmd, i, q);
      CommitsExactly(zones, st, cmd, writable, st.config.(profiles := profiles[i := q]));
      GoodReplaced(zones, profiles, i, q);
      GoodRenamed(zones, profiles, i, q);
    }
  }

  /** The profile is disabled, or the name is one that no other enabled profile has, nor its first label. */
  ghost predicate HostnameFree(profiles: seq<Profile>, i: int, hostname: string)
    requires 0 <= i < |profiles|
  {
    profiles[i].disabled
    || (Named(hostname) && forall j | 0 <= j < |profiles| && j != i && !profiles[j].disabled ::
          NamedApart(profiles[j].hostname, hostname) && LabelsApart(profiles[j].hostname, hostname))
  }

  lemma GoodRenamed(zones: set<string>, profiles: seq<Profile>, i: int, q: Profile)
    requires GoodList(zones, profiles) && 0 <= i < |profiles|
    requires q == profiles[i].(hostname := q.hostname, version := q.version)
    ensures HostnameFree(profiles, i, q.hostname) <==>
            q.disabled || (GoodProfile(zones, q) && forall j | 0 <= j < |profiles| && j != i :: NoClash(profiles[j], q))
  {
    hide NormalizeName, FirstLabel, GoodPauses, GoodRules, GoodGroups, GoodZone;
    if !q.disabled {
      assert GoodProfile(zones, profiles[i]);
      assert forall j | 0 <= j < |profiles| && j != i && !profiles[j].disabled :: GoodProfile(zones, profiles[j]);
      if forall j | 0 <= j < |profiles| && j != i :: NoClash(profiles[j], q) {
        assert forall j | 0 <= j < |profiles| && j != i && !profiles[j].disabled :: NoClash(profiles[j], q);
      }
    }
  }
}
