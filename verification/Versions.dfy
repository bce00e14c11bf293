/** A profile's version pins its policy over whole runs of the control plane. */
module Versions {
  import opened Text
  import opened PolicyTypes
  import opened ConfigTypes
  import opened PolicyStore
  import opened PolicyRevalidation
  import opened AdminModel
  import opened AdminRuns

  // ---- regular configurations -----------------------------------------------------

  ghost predicate UniqueIds(profiles: seq<Profile>) {
    forall i, j | 0 <= i < j < |profiles| :: profiles[i].id != profiles[j].id
  }

  ghost predicate UniqueHouses(houses: seq<House>) {
    forall i, j | 0 <= i < j < |houses| :: houses[i].id != houses[j].id
  }

  /** Ids are unique, every profile has the zone of its house, and validation accepts the profiles and leaves them
      alone. */
  ghost predicate Regular(zones: set<string>, cfg: Config) {
    && UniqueIds(cfg.profiles) && UniqueHouses(cfg.houses)
    && Zoned(zones, cfg) == Some(cfg) && Accept(zones, cfg.profiles).Some? && NormalAll(cfg.profiles) == cfg.profiles
  }

  function NewProfile(cmd: Command): Option<Profile> {
    match cmd
    case RegisterHouse(_, _, profile, _, _) => Some(profile)
    case CreateProfile(profile) => Some(profile)
    case _ => None
  }

  /** Ids drawn for a new house and a new profile are in no use. */
  predicate FreshFor(cfg: Config, cmd: Command) {
    && (NewProfile(cmd).Some? ==> forall p | p in cfg.profiles :: p.id != NewProfile(cmd).value.id)
    && (cmd.RegisterHouse? ==>
          && (forall h | h in cfg.houses :: h.id != cmd.house.id)
          && (forall p | p in cfg.profiles :: p.houseId != cmd.house.id))
  }

  // ---- zones of houses --------------------------------------------------------------

  /** A house list gives houses of that id the same zone as another one of the same length. */
  lemma {:induction false} SameZone(a: seq<House>, b: seq<House>, n: nat, houseId: string)
    requires n <= |a| == |b|
    requires forall k | 0 <= k < n :: a[k].id == b[k].id && (a[k].id == houseId ==> a[k].timeZone == b[k].timeZone)
    ensures ZoneOf(a, n, houseId) == ZoneOf(b, n, houseId)
  {
    if n > 0 {
      SameZone(a, b, n - 1, houseId);
    }
  }

  lemma {:induction false} ZonePrefix(a: seq<House>, b: seq<House>, n: nat, houseId: string)
    requires n <= |a| && n <= |b| && forall k | 0 <= k < n :: a[k] == b[k]
    ensures ZoneOf(a, n, houseId) == ZoneOf(b, n, houseId)
  {
    if n > 0 {
      ZonePrefix(a, b, n - 1, houseId);
    }
  }

  lemma {:induction false} ZoneWithout(a: seq<House>, i: nat, n: nat, houseId: string)
    requires i < n <= |a| && a[i].id != houseId
    ensures ZoneOf(a[..i] + a[i + 1..], n - 1, houseId) == ZoneOf(a, n, houseId)
  {
    var b := a[..i] + a[i + 1..];
    if i == n - 1 {
      ZonePrefix(a, b, n - 1, houseId);
    } else {
      ZoneWithout(a, i, n - 1, houseId);
      assert b[n - 2] == a[n - 1];
    }
  }

  lemma ZonedHouses(zones: set<string>, cfg: Config)
    requires Zoned(zones, cfg) == Some(cfg)
    ensures WithZones(cfg.houses) == cfg.houses
    ensures forall h | h in cfg.houses :: WithZone(h) == h
    ensures forall p | p in cfg.profiles :: p.timeZone == ZoneOf(cfg.houses, |cfg.houses|, p.houseId)
  {
    forall i | 0 <= i < |cfg.profiles|
      ensures cfg.profiles[i].timeZone == ZoneOf(cfg.houses, |cfg.houses|, cfg.profiles[i].houseId)
    {
      assert ZonedProfiles(cfg.profiles, cfg.houses)[i] == cfg.profiles[i];
    }
    forall h | h in cfg.houses
      ensures WithZone(h) == h
    {
      var i :| 0 <= i < |cfg.houses| && cfg.houses[i] == h;
      assert WithZones(cfg.houses)[i] == WithZone(h);
    }
  }

  // ---- one command ------------------------------------------------------------------

  /** The zone of the house is what it was. */
  predicate ZoneKept(before: seq<House>, after: seq<House>, houseId: string) {
    var zoned := WithZones(after);
    ZoneOf(zoned, |zoned|, houseId) == ZoneOf(before, |before|, houseId)
  }

  /** A profile before and after a command: bumped, or the same in a house whose zone is the same. */
  predicate Carried(cfg: Config, next: Config, p: Profile, q: Profile) {
    && q.id == p.id && q.houseId == p.houseId
    && (q.version > p.version || (q == p && ZoneKept(cfg.houses, next.houses, p.houseId)))
  }

  ghost predicate Comes(cfg: Config, next: Config, cmd: Command, q: Profile) {
    NewProfile(cmd) == Some(q) || exists i :: 0 <= i < |cfg.profiles| && Carried(cfg, next, cfg.profiles[i], q)
  }

  /** Every profile after a command is new or carried. */
  ghost predicate AllCome(cfg: Config, next: Config, cmd: Command) {
    forall j | 0 <= j < |next.profiles| :: Comes(cfg, next, cmd, next.profiles[j])
  }

  lemma HousesKeepZones(cfg: Config, next: Config, houseId: string)
    requires WithZones(cfg.houses) == cfg.houses && next.houses == cfg.houses
    ensures ZoneKept(cfg.houses, next.houses, houseId)
  {
  }

  lemma HouseAddedKeepsZones(cfg: Config, next: Config, h: House, houseId: string)
    requires WithZones(cfg.houses) == cfg.houses && next.houses == cfg.houses + [h] && houseId != h.id
    ensures ZoneKept(cfg.houses, next.houses, houseId)
  {
    var n := |cfg.houses|;
    var zoned := WithZones(next.houses);
    assert forall k | 0 <= k < n :: zoned[k] == WithZones(cfg.houses)[k];
    ZonePrefix(zoned, cfg.houses, n, houseId);
    assert zoned[n].id == h.id;
  }

  lemma HouseRemovedKeepsZones(cfg: Config, next: Config, i: nat, houseId: string)
    requires WithZones(cfg.houses) == cfg.houses && i < |cfg.houses| && houseId != cfg.houses[i].id
    requires next.houses == cfg.houses[..i] + cfg.houses[i + 1..]
    ensures ZoneKept(cfg.houses, next.houses, houseId)
  {
    var zoned := WithZones(next.houses);
    forall k | 0 <= k < |next.houses|
      ensures zoned[k] == next.houses[k]
    {
      var from := if k < i then k else k + 1;
      assert WithZones(cfg.houses)[from] == WithZone(cfg.houses[from]);
    }
    assert zoned == next.houses;
    ZoneWithout(cfg.houses, i, |cfg.houses|, houseId);
  }

  /** One house changed, keeping its id and, if it is the one asked for, its zone. */
  lemma HouseChangedKeepsZones(cfg: Config, next: Config, i: nat, h: House, houseId: string)
    requires WithZones(cfg.houses) == cfg.houses && i < |cfg.houses| && h.id == cfg.houses[i].id
    requires next.houses == cfg.houses[i := h] && (h.id == houseId ==> h.timeZone == cfg.houses[i].timeZone)
    ensures ZoneKept(cfg.houses, next.houses, houseId)
  {
    var zoned := WithZones(next.houses);
    forall k | 0 <= k < |cfg.houses|
      ensures zoned[k].id == cfg.houses[k].id
              && (zoned[k].id == houseId ==> zoned[k].timeZone == cfg.houses[k].timeZone)
    {
      assert WithZones(cfg.houses)[k] == WithZone(cfg.houses[k]);
    }
    SameZone(zoned, cfg.houses, |cfg.houses|, houseId);
  }

  lemma SameComes(cfg: Config, next: Config, cmd: Command, i: nat)
    requires i < |cfg.profiles| && ZoneKept(cfg.houses, next.houses, cfg.profiles[i].houseId)
    ensures Comes(cfg, next, cmd, cfg.profiles[i])
  {
    hide ZoneKept;
    assert Carried(cfg, next, cfg.profiles[i], cfg.profiles[i]);
  }

  /** Commands that leave the houses' zones alone and bump one profile. */
  lemma OneBumped(cfg: Config, next: Config, cmd: Command, i: nat, q: Profile)
    requires WithZones(cfg.houses) == cfg.houses && next.houses == cfg.houses && UniqueIds(cfg.profiles)
    requires i < |cfg.profiles| && next.profiles == cfg.profiles[i := q]
    requires q.id == cfg.profiles[i].id && q.houseId == cfg.profiles[i].houseId && q.version > cfg.profiles[i].version
    ensures AllCome(cfg, next, cmd) && UniqueIds(next.profiles)
  {
    hide ZoneKept, Comes;
    forall j | 0 <= j < |next.profiles|
      ensures Comes(cfg, next, cmd, next.profiles[j])
    {
      if j == i {
        BumpedComes(cfg, next, cmd, i, q);
      } else {
        HousesKeepZones(cfg, next, cfg.profiles[j].houseId);
        SameComes(cfg, next, cmd, j);
      }
    }
  }

  lemma BumpedComes(cfg: Config, next: Config, cmd: Command, i: nat, q: Profile)
    requires i < |cfg.profiles|
    requires q.id == cfg.profiles[i].id && q.houseId == cfg.profiles[i].houseId && q.version > cfg.profiles[i].version
    ensures Comes(cfg, next, cmd, q)
  {
    hide ZoneKept;
    assert Carried(cfg, next, cfg.profiles[i], q);
  }

  /** Commands that add a profile, and at most a house of which no profile is. */
  lemma OneAdded(cfg: Config, next: Config, cmd: Command)
    requires NewProfile(cmd).Some? && next.profiles == cfg.profiles + [NewProfile(cmd).value]
    requires FreshFor(cfg, cmd) && UniqueIds(cfg.profiles)
    requires forall p | p in cfg.profiles :: ZoneKept(cfg.houses, next.houses, p.houseId)
    ensures AllCome(cfg, next, cmd) && UniqueIds(next.profiles)
  {
    hide ZoneKept;
    forall j | 0 <= j < |next.profiles|
      ensures Comes(cfg, next, cmd, next.profiles[j])
    {
      if j < |cfg.profiles| { SameComes(cfg, next, cmd, j); }
    }
  }

  /** The remaining profiles keep their order: the last one kept so far was at some earlier position. */
  lemma {:induction false} RemainingAt(profiles: seq<Profile>, houseId: string, n: nat, j: nat) returns (i: nat)
    requires n <= |profiles| && j < |Remaining(profiles, houseId, n)|
    ensures i < n && Remaining(profiles, houseId, n)[j] == profiles[i] && profiles[i].houseId != houseId
  {
    var before := Remaining(profiles, houseId, n - 1);
    if j < |before| {
      i := RemainingAt(profiles, houseId, n - 1, j);
    } else {
      i := n - 1;
    }
  }

  lemma {:induction false} RemainingUnique(profiles: seq<Profile>, houseId: string, n: nat)
    requires n <= |profiles| && UniqueIds(profiles)
    ensures UniqueIds(Remaining(profiles, houseId, n))
  {
    if n > 0 {
      RemainingUnique(profiles, houseId, n - 1);
      var before := Remaining(profiles, houseId, n - 1);
      forall j | 0 <= j < |before|
        ensures before[j].id != profiles[n - 1].id
      {
        var i := RemainingAt(profiles, houseId, n - 1, j);
      }
    }
  }

  lemma DeleteComes(cfg: Config, next: Config, cmd: Command, houseId: string)
    requires Deleted(cfg, houseId) == Some(next) && WithZones(cfg.houses) == cfg.houses
    requires UniqueIds(cfg.profiles) && UniqueHouses(cfg.houses)
    ensures AllCome(cfg, next, cmd) && UniqueIds(next.profiles) && UniqueHouses(next.houses)
  {
    hide ZoneKept, Comes;
    var h := FindHouse(cfg.houses, houseId, 0).value;
    RemainingUnique(cfg.profiles, houseId, |cfg.profiles|);
    forall j | 0 <= j < |next.profiles|
      ensures Comes(cfg, next, cmd, next.profiles[j])
    {
      var i := RemainingAt(cfg.profiles, houseId, |cfg.profiles|, j);
      HouseRemovedKeepsZones(cfg, next, h, cfg.profiles[i].houseId);
      SameComes(cfg, next, cmd, i);
    }
  }

  lemma EditedIsBump(p: Profile, input: ProfileInput)
    requires Edited(p, input).Some?
    ensures var q := Edited(p, input).value; q.id == p.id && q.houseId == p.houseId && q.version == p.version + 1
    ensures Edited(p, input).value.timeZone == p.timeZone
  {
    hide MergedGroups;
  }

  /** An update without a zone, or with the zone the house has, bumps one profile; a new zone bumps every profile of
      the house and changes no other profile. */
  lemma PutComes(zones: set<string>, cfg: Config, next: Config, id: string, input: ProfileInput)
    requires Put(zones, cfg, id, input) == Some(next) && WithZones(cfg.houses) == cfg.houses
    requires UniqueIds(cfg.profiles) && UniqueHouses(cfg.houses)
    ensures AllCome(cfg, next, PutProfile(id, input)) && UniqueIds(next.profiles) && UniqueHouses(next.houses)
  {
    hide ZoneKept, Comes, Edited, WithZones;
    var i := FindProfile(cfg.profiles, id, 0).value;
    var p := cfg.profiles[i];
    EditedIsBump(p, input);
    if input.timeZone.None? {
      OneBumped(cfg, next, PutProfile(id, input), i, Edited(p, input).value);
    } else {
      PutZoneComes(zones, cfg, next, id, input, i);
    }
  }

  lemma PutZoneComes(zones: set<string>, cfg: Config, next: Config, id: string, input: ProfileInput, i: nat)
    requires Put(zones, cfg, id, input) == Some(next) && WithZones(cfg.houses) == cfg.houses
    requires UniqueIds(cfg.profiles) && UniqueHouses(cfg.houses)
    requires FindProfile(cfg.profiles, id, 0) == Some(i) && input.timeZone.Some?
    ensures AllCome(cfg, next, PutProfile(id, input)) && UniqueIds(next.profiles) && UniqueHouses(next.houses)
  {
    hide ZoneKept, Comes, Edited, WithZones;
    var p := cfg.profiles[i];
    var zone := TrimSpace(input.timeZone.value);
    var h := FindHouse(cfg.houses, p.houseId, 0).value;
    var house := cfg.houses[h];
    EditedIsBump(p, input);
    forall j | 0 <= j < |next.profiles|
      ensures Comes(cfg, next, PutProfile(id, input), next.profiles[j])
      ensures next.profiles[j].id == cfg.profiles[j].id
    {
      var before := cfg.profiles[j];
      if j == i || (house.timeZone != zone && before.houseId == p.houseId) {
        BumpedComes(cfg, next, PutProfile(id, input), j, next.profiles[j]);
      } else {
        HouseChangedKeepsZones(cfg, next, h, house.(timeZone := zone), before.houseId);
        SameComes(cfg, next, PutProfile(id, input), j);
      }
    }
  }

  lemma EmailsKeepHouses(cfg: Config, next: Config, houseId: string, emails: seq<string>)
    requires WithEmails(cfg, houseId, emails) == Some(next) && WithZones(cfg.houses) == cfg.houses
    requires UniqueHouses(cfg.houses)
    ensures UniqueHouses(next.houses) && forall p | p in cfg.profiles :: ZoneKept(cfg.houses, next.houses, p.houseId)
  {
    hide ZoneKept, WithZones;
    var i := FindHouse(cfg.houses, houseId, 0).value;
    forall p | p in cfg.profiles
      ensures ZoneKept(cfg.houses, next.houses, p.houseId)
    {
      HouseChangedKeepsZones(cfg, next, i, next.houses[i], p.houseId);
    }
  }

  lemma AllSame(cfg: Config, next: Config, cmd: Command)
    requires next.profiles == cfg.profiles
             && forall p | p in cfg.profiles :: ZoneKept(cfg.houses, next.houses, p.houseId)
    ensures AllCome(cfg, next, cmd)
  {
    hide ZoneKept, Comes;
    forall j | 0 <= j < |next.profiles|
      ensures Comes(cfg, next, cmd, next.profiles[j])
    {
      SameComes(cfg, next, cmd, j);
    }
  }

  lemma MutatedComes(zones: set<string>, cfg: Config, next: Config, cmd: Command)
    requires Mutated(zones, cfg, cmd) == Some(next) && FreshFor(cfg, cmd) && WithZones(cfg.houses) == cfg.houses
    requires UniqueIds(cfg.profiles) && UniqueHouses(cfg.houses)
    ensures AllCome(cfg, next, cmd) && UniqueIds(next.profiles) && UniqueHouses(next.houses)
  {
    hide AllCome, UniqueIds, WithZones, Put, WithPackage, Deleted;
    forall p | p in cfg.profiles
      ensures next.houses == cfg.houses ==> ZoneKept(cfg.houses, next.houses, p.houseId)
    {
      if next.houses == cfg.houses { HousesKeepZones(cfg, next, p.houseId); }
    }
    hide ZoneKept;
    match cmd
    case RegisterHouse(codeHash, house, profile, checkedAt, usedAt) =>
      forall p | p in cfg.profiles ensures ZoneKept(cfg.houses, next.houses, p.houseId) {
        HouseAddedKeepsZones(cfg, next, house, p.houseId);
      }
      OneAdded(cfg, next, cmd);
    case CreateInvitation(codeHash, email, now) => AllSame(cfg, next, cmd);
    case JoinWaitlist(email, now) => AllSame(cfg, next, cmd);
    case SetHouseEmails(houseId, emails) =>
      EmailsKeepHouses(cfg, next, houseId, emails);
      AllSame(cfg, next, cmd);
    case DeleteHouse(houseId) => DeleteComes(cfg, next, cmd, houseId);
    case CreateProfile(profile) => OneAdded(cfg, next, cmd);
    case PutProfile(id, input) => PutComes(zones, cfg, next, id, input);
    case Disable(id) =>
      var i := FindProfile(cfg.profiles, id, 0).value;
      OneBumped(cfg, next, cmd, i, next.profiles[i]);
    case SetPackage(id, package, enabled, action) =>
      var i := FindProfile(cfg.profiles, id, 0).value;
      OneBumped(cfg, next, cmd, i, next.profiles[i]);
    case RotateEndpoint(id, hostname) =>
      var i := FindProfile(cfg.profiles, id, 0).value;
      OneBumped(cfg, next, cmd, i, next.profiles[i]);
  }

  // ---- one commit ---------------------------------------------------------------------

  /** A later form of a profile: the very same, or one with a higher version. */
  predicate Later(p: Profile, q: Profile) {
    q.id == p.id && (q == p || q.version > p.version)
  }

  ghost predicate Descends(profiles: seq<Profile>, q: Profile) {
    exists i :: 0 <= i < |profiles| && Later(profiles[i], q)
  }

  function NewId(cmd: Command): Option<string> {
    if NewProfile(cmd).Some? then Some(NewProfile(cmd).value.id) else None
  }

  lemma NormalKeeps(p: Profile)
    ensures Normal(p).id == p.id && Normal(p).version == p.version && Normal(p).houseId == p.houseId
    ensures Normal(p).timeZone == p.timeZone
  {
  }

  /** Zoning and normalising what a command made of a regular configuration. */
  lemma FinishedDescends(zones: set<string>, cfg: Config, next: Config, zoned: Config, cmd: Command, j: nat)
    requires Regular(zones, cfg) && AllCome(cfg, next, cmd) && Zoned(zones, next) == Some(zoned) && j < |next.profiles|
    ensures NewId(cmd) == Some(NormalAll(zoned.profiles)[j].id) || Descends(cfg.profiles, NormalAll(zoned.profiles)[j])
  {
    var q := next.profiles[j];
    var r := zoned.profiles[j];
    NormalKeeps(r);
    ZonedHouses(zones, cfg);
    assert Comes(cfg, next, cmd, q);
    hide Accept, Normal, UniqueIds, UniqueHouses, AllCome;
    assert r == q.(timeZone := ZoneOf(zoned.houses, |zoned.houses|, q.houseId));
    if NewProfile(cmd) != Some(q) {
      var i :| 0 <= i < |cfg.profiles| && Carried(cfg, next, cfg.profiles[i], q);
      var p := cfg.profiles[i];
      if q.version <= p.version {
        assert r == p;
        assert NormalAll(cfg.profiles)[i] == Normal(p);
      }
      assert Later(p, NormalAll(zoned.profiles)[j]);
    }
  }

  lemma SameIdsUnique(a: seq<Profile>, b: seq<Profile>)
    requires |a| == |b| && UniqueIds(a) && forall j | 0 <= j < |a| :: b[j].id == a[j].id
    ensures UniqueIds(b)
  {
  }

  /** Zoning again changes nothing, also after normalising. */
  lemma ZonedAgain(zones: set<string>, next: Config, zoned: Config)
    requires Zoned(zones, next) == Some(zoned)
    ensures Zoned(zones, NormalConfig(zoned)) == Some(NormalConfig(zoned))
  {
    hide Normal;
    var final := NormalConfig(zoned);
    assert WithZones(zoned.houses) == zoned.houses;
    forall j | 0 <= j < |final.profiles|
      ensures ZonedProfiles(final.profiles, zoned.houses)[j] == final.profiles[j]
    {
      NormalKeeps(zoned.profiles[j]);
      var p := final.profiles[j];
      assert p.timeZone == ZoneOf(zoned.houses, |zoned.houses|, p.houseId);
      assert p.(timeZone := p.timeZone) == p;
    }
    assert ZonedProfiles(final.profiles, zoned.houses) == final.profiles;
    forall i | 0 <= i < |zoned.houses|
      ensures WithZone(zoned.houses[i]).timeZone in zones
    {
      assert WithZone(next.houses[i]).timeZone in zones;
    }
  }

  /** What one commit does to a regular configuration on fresh ids and settled names. */
  lemma CommitStep(zones: set<string>, st: Control, cmd: Command, writable: bool)
    requires Regular(zones, st.config) && FreshFor(st.config, cmd)
    requires Next(zones, st.config, cmd).Some? ==> AllSettled(Next(zones, st.config, cmd).value.profiles)
    ensures var after := Update(zones, st, cmd, writable).0.config;
            && Regular(zones, after)
            && forall q | q in after.profiles :: NewId(cmd) == Some(q.id) || Descends(st.config.profiles, q)
  {
    var cfg := st.config;
    var after := Update(zones, st, cmd, writable).0.config;
    if Update(zones, st, cmd, writable).1 {
      var next := Mutated(zones, cfg, cmd).value;
      var zoned := Next(zones, cfg, cmd).value;
      RevalidationExactly(zones, zoned.profiles);
      hide Accept, Mutated, AllSettled, FreshFor, Normal;
      ZonedHouses(zones, cfg);
      MutatedComes(zones, cfg, next, cmd);
      ZonedAgain(zones, next, zoned);
      forall j | 0 <= j < |next.profiles|
        ensures after.profiles[j].id == next.profiles[j].id
        ensures NewId(cmd) == Some(after.profiles[j].id) || Descends(cfg.profiles, after.profiles[j])
      {
        NormalKeeps(zoned.profiles[j]);
        FinishedDescends(zones, cfg, next, zoned, cmd, j);
      }
      SameIdsUnique(next.profiles, after.profiles);
      HousesStayUnique(next.houses);
    } else {
      forall q | q in after.profiles
        ensures Descends(cfg.profiles, q)
      {
        var i :| 0 <= i < |cfg.profiles| && cfg.profiles[i] == q;
        assert Later(cfg.profiles[i], q);
      }
    }
  }

  lemma HousesStayUnique(houses: seq<House>)
    requires UniqueHouses(houses)
    ensures UniqueHouses(WithZones(houses))
  {
    forall i, j | 0 <= i < j < |houses|
      ensures WithZones(houses)[i].id != WithZones(houses)[j].id
    {
      assert houses[i].id != houses[j].id;
    }
  }

  /** The configuration the first server publishes is regular when ids are unique and names settled. */
  lemma StartsRegular(zones: set<string>, cfg: Config, zoned: Config)
    requires Zoned(zones, cfg) == Some(zoned) && Accept(zones, zoned.profiles).Some? && AllSettled(zoned.profiles)
    requires UniqueIds(cfg.profiles) && UniqueHouses(cfg.houses)
    ensures Regular(zones, NormalConfig(zoned))
  {
    RevalidationExactly(zones, zoned.profiles);
    ZonedAgain(zones, cfg, zoned);
    hide Accept, AllSettled, Normal;
    forall j | 0 <= j < |cfg.profiles|
      ensures NormalConfig(zoned).profiles[j].id == cfg.profiles[j].id
    {
      NormalKeeps(zoned.profiles[j]);
    }
    SameIdsUnique(cfg.profiles, NormalConfig(zoned).profiles);
    HousesStayUnique(cfg.houses);
  }

  // ---- a change of zone -----------------------------------------------------------------

  lemma PutZone(zones: set<string>, cfg: Config, id: string, input: ProfileInput, i: nat, h: nat, j: nat)
    requires Put(zones, cfg, id, input).Some? && WithZones(cfg.houses) == cfg.houses
    requires FindProfile(cfg.profiles, id, 0) == Some(i) && input.timeZone.Some? && UniqueIds(cfg.profiles)
    requires FindHouse(cfg.houses, cfg.profiles[i].houseId, 0) == Some(h)
    requires cfg.houses[h].timeZone != TrimSpace(input.timeZone.value) && j < |cfg.profiles|
    ensures var next := Put(zones, cfg, id, input).value;
            && |next.profiles| == |cfg.profiles| && next.profiles[j].id == cfg.profiles[j].id
            && (cfg.profiles[j].houseId == cfg.profiles[i].houseId ==>
                next.profiles[j].version == cfg.profiles[j].version + 1)
            && (cfg.profiles[j].houseId != cfg.profiles[i].houseId ==>
                  next.profiles[j] == cfg.profiles[j] && ZoneKept(cfg.houses, next.houses, cfg.profiles[j].houseId))
  {
    hide ZoneKept, Edited, WithZones;
    EditedIsBump(cfg.profiles[i], input);
    if cfg.profiles[j].houseId != cfg.profiles[i].houseId {
      var zone := TrimSpace(input.timeZone.value);
      HouseChangedKeepsZones(cfg, Put(zones, cfg, id, input).value, h, cfg.houses[h].(timeZone := zone),
                             cfg.profiles[j].houseId);
    }
  }

  /** A commit on settled names stores the zoned profiles in normal form. */
  lemma Committed(zones: set<string>, st: Control, cmd: Command, j: nat)
    requires Update(zones, st, cmd, true).1 && AllSettled(Next(zones, st.config, cmd).value.profiles)
    requires j < |Next(zones, st.config, cmd).value.profiles|
    ensures var zoned := Next(zones, st.config, cmd).value.profiles;
            var after := Update(zones, st, cmd, true).0.config.profiles;
            |after| == |zoned| && after[j] == Normal(zoned[j])
  {
    RevalidationExactly(zones, Next(zones, st.config, cmd).value.profiles);
    hide Accept, AllSettled, Normal, Next;
  }

  /** When an update changes the time zone of the profile's house, every profile of that house gets the next version,
      and every profile of another house, or of none, stays exactly as it was. */
  lemma ZoneChangeBumpsItsHouse(zones: set<string>, st: Control, id: string, input: ProfileInput, i: nat, h: nat,
                                j: nat)
    requires Regular(zones, st.config) && Update(zones, st, PutProfile(id, input), true).1
    requires AllSettled(Next(zones, st.config, PutProfile(id, input)).value.profiles)
    requires FindProfile(st.config.profiles, id, 0) == Some(i) && input.timeZone.Some?
    requires FindHouse(st.config.houses, st.config.profiles[i].houseId, 0) == Some(h)
    requires st.config.houses[h].timeZone != TrimSpace(input.timeZone.value) && j < |st.config.profiles|
    ensures var before, after := st.config.profiles, Update(zones, st, PutProfile(id, input), true).0.config.profiles;
            && |after| == |before| && after[j].id == before[j].id
            && (before[j].houseId == before[i].houseId ==> after[j].version == before[j].version + 1)
            && (before[j].houseId != before[i].houseId ==> after[j] == before[j])
  {
    hide Accept, AllSettled, Normal, Put, ZonesKnown, ZoneOf;
    var cfg := st.config;
    var next := Put(zones, cfg, id, input).value;
    var zoned := Next(zones, cfg, PutProfile(id, input)).value;
    ZonedHouses(zones, cfg);
    PutZone(zones, cfg, id, input, i, h, j);
    Committed(zones, st, PutProfile(id, input), j);
    NormalKeeps(zoned.profiles[j]);
    if cfg.profiles[j].houseId != cfg.profiles[i].houseId {
      var z := ZoneOf(zoned.houses, |zoned.houses|, next.profiles[j].houseId);
      assert zoned.profiles[j] == next.profiles[j].(timeZone := z);
      assert zoned.profiles[j] == cfg.profiles[j];
      assert NormalAll(cfg.profiles)[j] == Normal(cfg.profiles[j]);
    }
  }

  // ---- whole runs -------------------------------------------------------------------------

  predicate HasId(profiles: seq<Profile>, id: string) {
    exists i :: 0 <= i < |profiles| && profiles[i].id == id
  }

  /** The ids the request brings in are in no use; a profile id was in none before either. */
  predicate FreshIdsAt(requests: seq<Request>, states: seq<Control>, k: nat)
    requires k < |requests| && |states| == |requests| + 1
  {
    && FreshFor(states[k].config, requests[k].cmd)
    && (NewId(requests[k].cmd).Some? ==>
          forall m | 0 <= m <= k :: !HasId(states[m].config.profiles, NewId(requests[k].cmd).value))
  }

  /** The request asks for settled names and brings in new ids only. */
  predicate CarefulAt(zones: set<string>, requests: seq<Request>, states: seq<Control>, k: nat)
    requires k < |requests| && |states| == |requests| + 1
  {
    SettledAt(zones, requests, states, k) && FreshIdsAt(requests, states, k)
  }

  lemma NextStep(zones: set<string>, requests: seq<Request>, states: seq<Control>, k: nat)
    requires Behaviour(zones, requests, states) && k < |requests| && CarefulAt(zones, requests, states, k)
    requires Regular(zones, states[k].config)
    ensures Regular(zones, states[k + 1].config)
    ensures forall q | q in states[k + 1].config.profiles ::
              NewId(requests[k].cmd) == Some(q.id) || Descends(states[k].config.profiles, q)
  {
    hide Update, Regular, Descends, FreshFor, Next, AllSettled;
    assert Stepped(zones, requests, states, k);
    CommitStep(zones, states[k], requests[k].cmd, requests[k].writable);
  }

  /** Regular configurations stay regular. */
  lemma {:induction false} StaysRegular(zones: set<string>, requests: seq<Request>, states: seq<Control>, k: nat)
    requires Behaviour(zones, requests, states) && k <= |requests| && Regular(zones, states[0].config)
    requires forall m | 0 <= m < |requests| :: CarefulAt(zones, requests, states, m)
    ensures Regular(zones, states[k].config)
  {
    hide Update, Regular, CarefulAt, Descends;
    if k > 0 {
      StaysRegular(zones, requests, states, k - 1);
      assert CarefulAt(zones, requests, states, k - 1);
      NextStep(zones, requests, states, k - 1);
    }
  }

  lemma OnlyOne(profiles: seq<Profile>, p: Profile, q: Profile)
    requires UniqueIds(profiles) && p in profiles && q in profiles && p.id == q.id
    ensures p == q
  {
  }

  /** A version pins a policy: over every run on unique ids and settled names a profile's version never decreases, and
      two states that show the same version of a profile show the very same profile. */
  lemma {:induction false} VersionPinsPolicy(zones: set<string>, requests: seq<Request>, states: seq<Control>, i: nat,
                                             j: nat,
                                             p: Profile, q: Profile)
    requires Behaviour(zones, requests, states) && i <= j <= |requests| && Regular(zones, states[0].config)
    requires forall m | 0 <= m < |requests| :: CarefulAt(zones, requests, states, m)
    requires p in states[i].config.profiles && q in states[j].config.profiles && p.id == q.id
    ensures p.version <= q.version && (p.version == q.version ==> p == q)
  {
    hide Update, Regular, Descends, FreshFor, SettledAt;
    if i == j {
      StaysRegular(zones, requests, states, i);
      RegularIds(zones, states[i].config);
      OnlyOne(states[i].config.profiles, p, q);
    } else {
      StaysRegular(zones, requests, states, j - 1);
      assert CarefulAt(zones, requests, states, j - 1);
      NextStep(zones, requests, states, j - 1);
      var at :| 0 <= at < |states[i].config.profiles| && states[i].config.profiles[at] == p;
      assert HasId(states[i].config.profiles, p.id);
      var r := Ancestor(states[j - 1].config.profiles, q);
      VersionPinsPolicy(zones, requests, states, i, j - 1, p, r);
    }
  }

  lemma RegularIds(zones: set<string>, cfg: Config)
    requires Regular(zones, cfg)
    ensures UniqueIds(cfg.profiles)
  {
  }

  lemma Ancestor(profiles: seq<Profile>, q: Profile) returns (r: Profile)
    requires Descends(profiles, q)
    ensures r in profiles && Later(r, q)
  {
    var i :| 0 <= i < |profiles| && Later(profiles[i], q);
    r := profiles[i];
  }
}
