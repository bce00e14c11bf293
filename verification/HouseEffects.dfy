/** What the commands on houses, invitations and the waiting list have done once committed, and when they commit. */
module HouseEffects {
  import opened Text
  import opened PolicyTypes
  import opened ConfigTypes
  import opened PolicyStore
  import opened AdminModel
  import opened Acceptance
  import opened Commits
  import opened CommandEffects
  import V = Versions

  // ---- commands that leave profiles and zones alone ----------------------------

  predicate KeepsZones(zones: set<string>, cfg: Config, cmd: Command) {
    Mutated(zones, cfg, cmd).Some?
    && var asked := Mutated(zones, cfg, cmd).value;
       asked.profiles == cfg.profiles && |asked.houses| == |cfg.houses|
       && forall h | 0 <= h < |cfg.houses| ::
            asked.houses[h].id == cfg.houses[h].id && asked.houses[h].timeZone == cfg.houses[h].timeZone
  }

  lemma ZonesStay(zones: set<string>, cfg: Config, houses: seq<House>)
    requires V.Regular(zones, cfg) && |houses| == |cfg.houses|
    requires forall h | 0 <= h < |houses| ::
               houses[h].id == cfg.houses[h].id && houses[h].timeZone == cfg.houses[h].timeZone
    ensures WithZones(houses) == houses && ZonesKnown(zones, houses)
    ensures forall id: string :: ZoneOf(houses, |houses|, id) == ZoneOf(cfg.houses, |cfg.houses|, id)
    ensures forall id: string :: V.ZoneKept(cfg.houses, houses, id)
  {
    hide V.Regular;
    RegularHouses(zones, cfg);
    forall h | 0 <= h < |houses|
      ensures WithZone(houses[h]) == houses[h] && WithZone(houses[h]).timeZone in zones
    {
      assert WithZones(cfg.houses)[h] == WithZone(cfg.houses[h]);
    }
    assert WithZones(houses) == houses;
    forall id: string
      ensures ZoneOf(houses, |houses|, id) == ZoneOf(cfg.houses, |cfg.houses|, id)
    {
      V.SameZone(houses, cfg.houses, |houses|, id);
    }
  }

  /** Such a command changes only what it asks for and commits whenever the file can be written. */
  lemma ZonesKeptCommitted(zones: set<string>, st: Control, cmd: Command, writable: bool)
    requires V.Regular(zones, st.config) && KeepsZones(zones, st.config, cmd)
    ensures var after := Update(zones, st, cmd, writable);
            && (after.1 <==> writable)
            && (after.1 ==> after.0.config == Mutated(zones, st.config, cmd).value)
  {
    hide Mutated, Normal, V.Regular, V.ZoneKept, ZoneOf, GoodList;
    var cfg, asked := st.config, Mutated(zones, st.config, cmd).value;
    RegularHouses(zones, cfg);
    ZonesStay(zones, cfg, asked.houses);
    forall j | 0 <= j < |cfg.profiles|
      ensures ZonedProfiles(cfg.profiles, asked.houses)[j] == cfg.profiles[j]
      ensures NormalAll(cfg.profiles)[j] == cfg.profiles[j]
    {
      RegularProfile(zones, cfg, j);
    }
    assert ZonedProfiles(cfg.profiles, asked.houses) == cfg.profiles && NormalAll(cfg.profiles) == cfg.profiles;
    assert Next(zones, cfg, cmd) == Some(asked);
    CommitsExactly(zones, st, cmd, writable, asked);
  }

  // ---- the waiting list and invitations -----------------------------------------

  /** An address joins the waiting list at its end, unless it is listed already in whatever case. */
  lemma WaitlistCommitted(zones: set<string>, st: Control, email: string, now: int, writable: bool)
    requires V.Regular(zones, st.config)
    ensures var after := Update(zones, st, JoinWaitlist(email, now), writable);
            && (after.1 <==> writable)
            && ((exists i :: 0 <= i < |st.config.waitlist| && Lower(st.config.waitlist[i].email) == Lower(email)) ==>
                after.0.config == st.config)
            && (writable && (forall i | 0 <= i < |st.config.waitlist| ::
                               Lower(st.config.waitlist[i].email) != Lower(email)) ==>
                after.0.config == st.config.(waitlist := st.config.waitlist + [WaitlistEntry(email, now)]))
  {
    hide V.Regular, Lower, Update;
    ZonesKeptCommitted(zones, st, JoinWaitlist(email, now), writable);
    RefusedChangesNothing(zones, st, JoinWaitlist(email, now), writable);
  }

  lemma RefusedChangesNothing(zones: set<string>, st: Control, cmd: Command, writable: bool)
    ensures !Update(zones, st, cmd, writable).1 ==> Update(zones, st, cmd, writable).0.config == st.config
  {
    hide Next, Accept;
  }

  /** A new invitation is added at the end, unused, and can be used for seven days. */
  lemma InvitationCommitted(zones: set<string>, st: Control, codeHash: string, email: string, now: int, writable: bool)
    requires V.Regular(zones, st.config)
    ensures var after := Update(zones, st, CreateInvitation(codeHash, email, now), writable);
            && (after.1 <==> writable)
            && (writable ==> after.0.config == st.config.(invitations :=
                  st.config.invitations + [Invitation(codeHash, email, now, now + 604800, None)]))
  {
    hide V.Regular, Update;
    ZonesKeptCommitted(zones, st, CreateInvitation(codeHash, email, now), writable);
  }

  // ---- the addresses of a house ---------------------------------------------------

  /** The house gets the new addresses, the first of which becomes its address, and nothing else changes; this commits
      exactly when there is such a house and the file can be written. */
  lemma EmailsCommitted(zones: set<string>, st: Control, houseId: string, emails: seq<string>, writable: bool)
    requires V.Regular(zones, st.config)
    ensures var after := Update(zones, st, SetHouseEmails(houseId, emails), writable);
            && (after.1 <==> writable && HasHouse(st.config.houses, houseId))
            && (after.1 ==>
                  && after.0.config == st.config.(houses := after.0.config.houses)
                  && |after.0.config.houses| == |st.config.houses|
                  && forall h | 0 <= h < |st.config.houses| ::
                       after.0.config.houses[h] ==
                       if st.config.houses[h].id != houseId then st.config.houses[h]
                       else st.config.houses[h].(emails := emails, email := if emails == [] then "" else emails[0]))
  {
    hide V.Regular, Update;
    RegularHouses(zones, st.config);
    var found := FindHouse(st.config.houses, houseId, 0);
    if found.None? {
      NotAsked(zones, st, SetHouseEmails(houseId, emails), writable);
    } else {
      ZonesKeptCommitted(zones, st, SetHouseEmails(houseId, emails), writable);
    }
  }

  // ---- removing a house -------------------------------------------------------------

  /** The second list is what remains of the first, in its order, when the profiles of a house are left out; `kept`
      says where each one was. */
  ghost predicate RemainsOf(before: seq<Profile>, after: seq<Profile>, kept: seq<nat>, houseId: string) {
    && |kept| == |after|
    && (forall k | 0 <= k < |kept| :: kept[k] < |before| && after[k] == before[kept[k]])
    && (forall k, l | 0 <= k < l < |kept| :: kept[k] < kept[l])
    && forall i: nat | i < |before| :: before[i].houseId != houseId <==> i in kept
  }

  lemma RemainsSnoc(before: seq<Profile>, after: seq<Profile>, kept: seq<nat>, houseId: string, p: Profile)
    requires RemainsOf(before, after, kept, houseId)
    ensures if p.houseId == houseId then RemainsOf(before + [p], after, kept, houseId)
            else RemainsOf(before + [p], after + [p], kept + [|before|], houseId)
  {
    var longer := before + [p];
    assert longer[|before|] == p && forall i: nat | i < |before| :: longer[i] == before[i];
    if p.houseId != houseId {
      var more := kept + [|before|];
      forall i: nat | i < |longer|
        ensures longer[i].houseId != houseId <==> i in more
      {
        assert more[|kept|] == |before|;
        assert i < |before| ==> (i in more <==> i in kept);
      }
    }
  }

  lemma {:induction false} RemainingRemains(profiles: seq<Profile>, houseId: string, n: nat) returns (kept: seq<nat>)
    requires n <= |profiles|
    ensures RemainsOf(profiles[..n], Remaining(profiles, houseId, n), kept, houseId)
  {
    hide RemainsOf;
    if n == 0 {
      kept := [];
      NothingRemains(profiles[..n], houseId);
    } else {
      var p, others := profiles[n - 1], Remaining(profiles, houseId, n - 1);
      kept := RemainingRemains(profiles, houseId, n - 1);
      RemainsSnoc(profiles[..n - 1], others, kept, houseId, p);
      assert profiles[..n] == profiles[..n - 1] + [p] && others + [] == others;
      if p.houseId != houseId {
        kept := kept + [n - 1];
      }
    }
  }

  lemma NothingRemains(before: seq<Profile>, houseId: string)
    requires before == []
    ensures RemainsOf(before, [], [], houseId)
  {
  }

  lemma RemainsGood(zones: set<string>, before: seq<Profile>, after: seq<Profile>, kept: seq<nat>, houseId: string)
    requires GoodList(zones, before) && RemainsOf(before, after, kept, houseId)
    ensures GoodList(zones, after)
  {
    hide GoodProfile, NoClash;
    forall k, l | 0 <= k < l < |after|
      ensures NoClash(after[k], after[l])
    {
      assert NoClash(before[kept[k]], before[kept[l]]);
    }
  }

  /** Deleting a house removes that house and every profile of it, and leaves all other houses and profiles the very
      same and in their order; it commits exactly when there is such a house and the file can be written. */
  lemma DeleteCommitted(zones: set<string>, st: Control, houseId: string, writable: bool)
    returns (h: nat, kept: seq<nat>)
    requires V.Regular(zones, st.config)
    ensures var after := Update(zones, st, DeleteHouse(houseId), writable);
            && (after.1 <==> writable && HasHouse(st.config.houses, houseId))
            && (after.1 ==>
                  && h < |st.config.houses| && st.config.houses[h].id == houseId
                  && after.0.config == st.config.(houses := st.config.houses[..h] + st.config.houses[h + 1..],
                                                  profiles := after.0.config.profiles)
                  && RemainsOf(st.config.profiles, after.0.config.profiles, kept, houseId))
  {
    hide V.Regular, Update, GoodList, RemainsOf;
    var cfg, cmd := st.config, DeleteHouse(houseId);
    RegularHouses(zones, cfg);
    kept := RemainingRemains(cfg.profiles, houseId, |cfg.profiles|);
    assert cfg.profiles[..|cfg.profiles|] == cfg.profiles;
    var found := FindHouse(cfg.houses, houseId, 0);
    if found.None? {
      h := 0;
      NotAsked(zones, st, cmd, writable);
    } else {
      h := found.value;
      var next := Deleted(cfg, houseId).value;
      DeletedNext(zones, cfg, houseId, h, next, kept);
      RemainsGood(zones, cfg.profiles, next.profiles, kept, houseId);
      CommitsExactly(zones, st, cmd, writable, next);
      CommittedNormal(zones, st, cmd, writable, next);
    }
  }

  lemma CommittedNormal(zones: set<string>, st: Control, cmd: Command, writable: bool, next: Config)
    requires Next(zones, st.config, cmd) == Some(next) && NormalAll(next.profiles) == next.profiles
    ensures Update(zones, st, cmd, writable).1 ==> Update(zones, st, cmd, writable).0.config == next
  {
    hide Next, Accept, NormalAll;
  }

  lemma ZoneStaysWithout(before: seq<House>, h: nat, houses: seq<House>, id: string)
    requires h < |before| && houses == before[..h] + before[h + 1..] && id != before[h].id
    ensures ZoneOf(houses, |houses|, id) == ZoneOf(before, |before|, id)
  {
    hide ZoneOf;
    V.ZoneWithout(before, h, |before|, id);
  }

  lemma FewerKnown(zones: set<string>, before: seq<House>, h: nat, houses: seq<House>)
    requires WithZones(before) == before && ZonesKnown(zones, before)
    requires h < |before| && houses == before[..h] + before[h + 1..]
    ensures WithZones(houses) == houses && ZonesKnown(zones, houses)
  {
    hide WithZone;
    forall k | 0 <= k < |houses|
      ensures WithZone(houses[k]) == houses[k] && WithZone(houses[k]).timeZone in zones
    {
      var from := if k < h then k else k + 1;
      assert houses[k] == before[from] && WithZones(before)[from] == WithZone(before[from]);
    }
    assert WithZones(houses) == houses;
  }

  lemma DeletedNext(zones: set<string>, cfg: Config, houseId: string, h: nat, next: Config, kept: seq<nat>)
    requires V.Regular(zones, cfg) && Deleted(cfg, houseId) == Some(next)
    requires FindHouse(cfg.houses, houseId, 0) == Some(h)
    requires RemainsOf(cfg.profiles, next.profiles, kept, houseId)
    ensures Next(zones, cfg, DeleteHouse(houseId)) == Some(next) && NormalAll(next.profiles) == next.profiles
  {
    hide V.Regular, Normal, ZoneOf, WithZones, ZonesKnown, Remaining, GoodList, V.UniqueIds, V.UniqueHouses;
    RegularHouses(zones, cfg);
    FewerKnown(zones, cfg.houses, h, next.houses);
    forall k | 0 <= k < |kept|
      ensures ZonedProfiles(next.profiles, next.houses)[k] == next.profiles[k]
      ensures NormalAll(next.profiles)[k] == next.profiles[k]
    {
      RegularProfile(zones, cfg, kept[k]);
      assert kept[k] in kept;
      ZoneStaysWithout(cfg.houses, h, next.houses, next.profiles[k].houseId);
    }
    assert ZonedProfiles(next.profiles, next.houses) == next.profiles && NormalAll(next.profiles) == next.profiles;
  }
}
