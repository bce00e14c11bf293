/** What adding and editing profiles has done once committed, and when it commits. */
module ProfileEffects {
  import opened Text
  import opened PolicyTypes
  import opened ConfigTypes
  import opened PolicyStore
  import opened PolicyRevalidation
  import opened AdminModel
  import opened Acceptance
  import opened Commits
  import opened CommandEffects
  import V = Versions

  // ---- a new profile ---------------------------------------------------------------

  /** The list has one more profile at its end. */
  predicate Longer(before: seq<Profile>, after: seq<Profile>) {
    |after| == |before| + 1 && after[..|before|] == before
  }

  /** The new profile meets the requirements and has a name of its own. */
  ghost predicate Welcome(zones: set<string>, profiles: seq<Profile>, p: Profile) {
    p.disabled || (GoodProfile(zones, p) && forall j | 0 <= j < |profiles| :: NoClash(profiles[j], p))
  }

  /** A new profile is added at the end with the zone of its house, and nothing else changes. */
  lemma CreateCommitted(zones: set<string>, st: Control, p: Profile, writable: bool, after: Control)
    requires V.Regular(zones, st.config) && CommitsTo(zones, st, CreateProfile(p), writable, after)
    ensures OnlyProfiles(st.config, after.config) && Longer(st.config.profiles, after.config.profiles)
    ensures var last := after.config.profiles[|st.config.profiles|];
            ProfileStored(p.(timeZone := last.timeZone), last) && ZoneFrom(st.config.houses, p.houseId, last.timeZone)
  {
    hide V.Regular, Normal, ProfileStored, ZoneFrom, CommitsTo;
    var cmd := CreateProfile(p);
    RegularHouses(zones, st.config);
    CommitStores(zones, st, cmd, writable, after);
    ZonesFollowHouses(zones, st, cmd, writable, after);
    forall j | 0 <= j < |st.config.profiles|
      ensures after.config.profiles[j] == st.config.profiles[j]
    {
      V.HousesKeepZones(st.config, st.config, st.config.profiles[j].houseId);
      LeftAlone(zones, st, cmd, writable, after, j, j);
    }
    KeptZone(AskedAt(zones, st.config, cmd, |st.config.profiles|));
  }

  lemma GoodLonger(zones: set<string>, profiles: seq<Profile>, p: Profile)
    requires GoodList(zones, profiles)
    ensures GoodList(zones, profiles + [p]) <==> Welcome(zones, profiles, p)
  {
    hide GoodList, GoodProfile, NoClash;
    GoodSnoc(zones, profiles, p);
  }

  lemma SettledLonger(profiles: seq<Profile>, p: Profile)
    requires AllSettled(profiles) && ProfileSettled(p)
    ensures AllSettled(profiles + [p])
  {
    hide ProfileSettled;
  }

  /** A new profile of settled names is added exactly when the file can be written and the profile, with the zone of
      its house, is disabled or meets the requirements and shares no hostname and no label with an enabled one. */
  lemma CreateCommits(zones: set<string>, st: Control, p: Profile, writable: bool) returns (zone: string)
    requires V.Regular(zones, st.config) && ProfileSettled(p)
    ensures ZoneFrom(st.config.houses, p.houseId, zone)
    ensures Update(zones, st, CreateProfile(p), writable).1 <==>
            writable && Welcome(zones, st.config.profiles, p.(timeZone := zone))
  {
    hide V.Regular, Update, GoodList, Welcome, AllSettled, ZoneOf, ZoneFrom, Normal, ZonesKnown, WithZones;
    var cfg := st.config;
    zone := ZoneOf(cfg.houses, |cfg.houses|, p.houseId);
    var q := p.(timeZone := zone);
    ZoneOfIsLast(cfg.houses, |cfg.houses|, p.houseId);
    RegularHouses(zones, cfg);
    var next := cfg.(profiles := cfg.profiles + [q]);
    ZonedLonger(zones, cfg, cfg.houses, p, q);
    RegularIsSettled(zones, cfg);
    SettledLonger(cfg.profiles, q);
    SettledCommitsExactly(zones, st, CreateProfile(p), writable, next);
    GoodLonger(zones, cfg.profiles, q);
  }

  /** Zoning after a profile was added, and possibly a house of which no other profile is. */
  lemma ZonedLonger(zones: set<string>, cfg: Config, houses: seq<House>, p: Profile, q: Profile)
    requires V.Regular(zones, cfg)
    requires forall r | r in cfg.profiles ::
               ZoneOf(houses, |houses|, r.houseId) == ZoneOf(cfg.houses, |cfg.houses|, r.houseId)
    requires q == p.(timeZone := ZoneOf(houses, |houses|, p.houseId))
    ensures ZonedProfiles(cfg.profiles + [p], houses) == cfg.profiles + [q]
  {
    hide V.Regular, ZoneOf, Normal, ZonedProfiles;
    var longer := cfg.profiles + [p];
    var zoned := ZonedProfiles(longer, houses);
    assert longer[|cfg.profiles|] == p;
    forall j | 0 <= j < |cfg.profiles|
      ensures zoned[j] == cfg.profiles[j]
    {
      RegularProfile(zones, cfg, j);
      var r := longer[j];
      assert r == cfg.profiles[j] && r in cfg.profiles;
      assert zoned[j] == r.(timeZone := r.timeZone);
    }
  }

  // ---- a registration ----------------------------------------------------------------

  /** The first invitation with that code that is unused and had not expired at an instant. */
  predicate FirstUsable(invitations: seq<Invitation>, i: int, codeHash: string, now: int) {
    && 0 <= i < |invitations| && CanUse(invitations[i], codeHash, now)
    && forall k | 0 <= k < i :: !CanUse(invitations[k], codeHash, now)
  }

  predicate CanUse(invitation: Invitation, codeHash: string, now: int) {
    invitation.codeHash == codeHash && invitation.usedAt == None && now <= invitation.expiresAt
  }

  lemma {:induction false} FindsFirstUsable(invitations: seq<Invitation>, codeHash: string, now: int, i: nat)
    requires i <= |invitations| && forall k | 0 <= k < i :: !CanUse(invitations[k], codeHash, now)
    ensures var found := FindInvitation(invitations, codeHash, now, i);
            (found.Some? ==> FirstUsable(invitations, found.value, codeHash, now))
            && (found.None? ==> forall k | 0 <= k < |invitations| :: !CanUse(invitations[k], codeHash, now))
    decreases |invitations| - i
  {
    if i < |invitations| && !CanUse(invitations[i], codeHash, now) {
      FindsFirstUsable(invitations, codeHash, now, i + 1);
    }
  }

  /** A house with the zone it is stored with. */
  function Settle(house: House): House {
    if house.timeZone == "" then house.(timeZone := "America/Sao_Paulo") else house
  }

  /** A registration on new ids uses up the first usable invitation with its code, removing its address, and adds the
      house and the profile at the end; nothing else changes. */
  lemma RegisterCommitted(zones: set<string>, st: Control, cmd: Command, writable: bool, after: Control)
    returns (i: nat)
    requires V.Regular(zones, st.config) && cmd.RegisterHouse? && V.FreshFor(st.config, cmd)
    requires CommitsTo(zones, st, cmd, writable, after)
    ensures FirstUsable(st.config.invitations, i, cmd.codeHash, cmd.checkedAt)
    ensures var used := st.config.invitations[i].(usedAt := Some(cmd.usedAt), email := "");
            after.config == st.config.(invitations := st.config.invitations[i := used],
                                       houses := st.config.houses + [Settle(cmd.house)],
                                       profiles := after.config.profiles)
    ensures Longer(st.config.profiles, after.config.profiles)
    ensures var last := after.config.profiles[|st.config.profiles|];
            && ProfileStored(cmd.profile.(timeZone := last.timeZone), last)
            && ZoneFrom(after.config.houses, cmd.profile.houseId, last.timeZone)
  {
    hide V.Regular, Normal, ProfileStored, ZoneFrom, CommitsTo, V.ZoneKept;
    CommitStores(zones, st, cmd, writable, after);
    ZonesFollowHouses(zones, st, cmd, writable, after);
    FindsFirstUsable(st.config.invitations, cmd.codeHash, cmd.checkedAt, 0);
    i := FindInvitation(st.config.invitations, cmd.codeHash, cmd.checkedAt, 0).value;
    RegularHouses(zones, st.config);
    var asked := Mutated(zones, st.config, cmd).value;
    HouseAppended(st.config.houses, cmd.house);
    forall j | 0 <= j < |st.config.profiles|
      ensures after.config.profiles[j] == st.config.profiles[j]
    {
      V.HouseAddedKeepsZones(st.config, asked, cmd.house, st.config.profiles[j].houseId);
      LeftAlone(zones, st, cmd, writable, after, j, j);
    }
    KeptZone(AskedAt(zones, st.config, cmd, |st.config.profiles|));
  }

  lemma HouseAppended(houses: seq<House>, house: House)
    requires WithZones(houses) == houses
    ensures WithZones(houses + [house]) == houses + [Settle(house)]
  {
    assert forall h | 0 <= h < |houses| :: WithZones(houses)[h] == WithZone(houses[h]);
  }

  /** It commits, on settled names, exactly when there is a usable invitation with the code, the zone of the house is
      known, the profile is welcome, and the file can be written. */
  lemma RegisterCommits(zones: set<string>, st: Control, cmd: Command, writable: bool) returns (zone: string)
    requires V.Regular(zones, st.config) && cmd.RegisterHouse? && V.FreshFor(st.config, cmd)
    requires ProfileSettled(cmd.profile)
    ensures ZoneFrom(st.config.houses + [Settle(cmd.house)], cmd.profile.houseId, zone)
    ensures Update(zones, st, cmd, writable).1 <==>
            && writable
            && (exists i :: FirstUsable(st.config.invitations, i, cmd.codeHash, cmd.checkedAt))
            && Settle(cmd.house).timeZone in zones
            && Welcome(zones, st.config.profiles, cmd.profile.(timeZone := zone))
  {
    hide V.Regular, Update, GoodList, Welcome, AllSettled, ZoneOf, ZoneFrom, Normal, ZonesKnown, WithZones, V.ZoneKept,
         CanUse, ProfileSettled;
    var cfg := st.config;
    var houses := cfg.houses + [Settle(cmd.house)];
    zone := ZoneOf(houses, |houses|, cmd.profile.houseId);
    var q := cmd.profile.(timeZone := zone);
    ZoneOfIsLast(houses, |houses|, cmd.profile.houseId);
    FindsFirstUsable(cfg.invitations, cmd.codeHash, cmd.checkedAt, 0);
    RegularHouses(zones, cfg);
    if Mutated(zones, cfg, cmd).None? {
      NotAsked(zones, st, cmd, writable);
    } else {
      HouseAppended(cfg.houses, cmd.house);
      KnownLonger(zones, cfg.houses, cmd.house);
      FreshHouseKeepsZones(zones, cfg, cmd);
      ZonedLonger(zones, cfg, houses, cmd.profile, q);
      RegularIsSettled(zones, cfg);
      ZoneKeepsSettled(cmd.profile, zone);
      SettledLonger(cfg.profiles, q);
      var asked := Mutated(zones, cfg, cmd).value;
      if Settle(cmd.house).timeZone in zones {
        var next := asked.(houses := houses, profiles := cfg.profiles + [q]);
        SettledCommitsExactly(zones, st, cmd, writable, next);
        GoodLonger(zones, cfg.profiles, q);
      } else {
        NotZoned(zones, st, cmd, writable);
      }
    }
  }

  lemma ZoneKeepsSettled(p: Profile, zone: string)
    requires ProfileSettled(p)
    ensures ProfileSettled(p.(timeZone := zone))
  {
  }

  lemma NotZoned(zones: set<string>, st: Control, cmd: Command, writable: bool)
    requires Mutated(zones, st.config, cmd).Some?
    requires !ZonesKnown(zones, Mutated(zones, st.config, cmd).value.houses)
    ensures !Update(zones, st, cmd, writable).1
  {
    hide Mutated;
  }

  lemma KnownLonger(zones: set<string>, houses: seq<House>, house: House)
    requires ZonesKnown(zones, houses)
    ensures ZonesKnown(zones, houses + [house]) <==> Settle(house).timeZone in zones
  {
    var longer := houses + [house];
    assert longer[|houses|] == house;
    if Settle(house).timeZone in zones {
      forall h | 0 <= h < |longer|
        ensures WithZone(longer[h]).timeZone in zones
      {
        if h < |houses| { assert longer[h] == houses[h]; }
      }
    }
  }

  lemma FreshHouseKeepsZones(zones: set<string>, cfg: Config, cmd: Command)
    requires cmd.RegisterHouse? && V.FreshFor(cfg, cmd)
    ensures var houses := cfg.houses + [Settle(cmd.house)];
            forall r | r in cfg.profiles ::
              ZoneOf(houses, |houses|, r.houseId) == ZoneOf(cfg.houses, |cfg.houses|, r.houseId)
  {
    var houses := cfg.houses + [Settle(cmd.house)];
    forall r | r in cfg.profiles
      ensures ZoneOf(houses, |houses|, r.houseId) == ZoneOf(cfg.houses, |cfg.houses|, r.houseId)
    {
      V.ZonePrefix(houses, cfg.houses, |cfg.houses|, r.houseId);
    }
  }
}
