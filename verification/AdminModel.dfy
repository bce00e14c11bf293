/** The control plane on values: what each command makes of the configuration, and the commit step. */
module AdminModel {
  import opened Text
  import opened Names
  import opened PolicyTypes
  import opened ConfigTypes
  import opened PolicyStore
  import opened PolicyRevalidation

  /** Seven days, in seconds. */
  const INVITATION_VALIDITY := 7 * 24 * 3600

  /** A group of a profile update; `schedules` is `None` when the request leaves them out. */
  datatype GroupInput = GroupInput(group: RuleGroup, schedules: Option<seq<ScheduledAction>>)

  datatype ProfileInput = ProfileInput(
    title: string, defaultAction: Action, rules: seq<Rule>, groups: Option<seq<GroupInput>>,
    pauses: Option<seq<TimeWindow>>, timeZone: Option<string>)

  /** A change of the configuration, with what its handler drew or read before asking for the commit. */
  datatype Command =
    | RegisterHouse(codeHash: string, house: House, profile: Profile, checkedAt: int, usedAt: int)
    | CreateInvitation(codeHash: string, email: string, now: int)
    | JoinWaitlist(email: string, now: int)
    | SetHouseEmails(houseId: string, emails: seq<string>)
    | DeleteHouse(houseId: string)
    | CreateProfile(profile: Profile)
    | PutProfile(id: string, input: ProfileInput)
    | Disable(id: string)
    | SetPackage(id: string, package: RuleGroup, enabled: bool, action: Action)
    | RotateEndpoint(id: string, hostname: string)

  // ---- lookups ------------------------------------------------------------------

  /** The first house, from position `i` on, with that id. */
  function FindHouse(houses: seq<House>, id: string, i: nat): (r: Option<nat>)
    requires i <= |houses|
    ensures r.Some? ==> i <= r.value < |houses| && houses[r.value].id == id
    ensures r.Some? ==> forall k | i <= k < r.value :: houses[k].id != id
    ensures r.None? ==> forall k | i <= k < |houses| :: houses[k].id != id
    decreases |houses| - i
  {
    if i == |houses| then None else if houses[i].id == id then Some(i) else FindHouse(houses, id, i + 1)
  }

  function FindProfile(profiles: seq<Profile>, id: string, i: nat): (r: Option<nat>)
    requires i <= |profiles|
    ensures r.Some? ==> i <= r.value < |profiles| && profiles[r.value].id == id
    ensures r.Some? ==> forall k | i <= k < r.value :: profiles[k].id != id
    ensures r.None? ==> forall k | i <= k < |profiles| :: profiles[k].id != id
    decreases |profiles| - i
  {
    if i == |profiles| then None else if profiles[i].id == id then Some(i) else FindProfile(profiles, id, i + 1)
  }

  function FindGroup(groups: seq<RuleGroup>, id: string, i: nat): (r: Option<nat>)
    requires i <= |groups|
    ensures r.Some? ==> i <= r.value < |groups| && groups[r.value].id == id
    decreases |groups| - i
  {
    if i == |groups| then None else if groups[i].id == id then Some(i) else FindGroup(groups, id, i + 1)
  }

  /** An invitation that can still be used with that code. */
  predicate Usable(invitation: Invitation, codeHash: string, now: int) {
    invitation.usedAt.None? && now <= invitation.expiresAt && invitation.codeHash == codeHash
  }

  function FindInvitation(invitations: seq<Invitation>, codeHash: string, now: int, i: nat): (r: Option<nat>)
    requires i <= |invitations|
    ensures r.Some? ==> i <= r.value < |invitations| && Usable(invitations[r.value], codeHash, now)
    ensures r.None? ==> forall k | i <= k < |invitations| :: !Usable(invitations[k], codeHash, now)
    decreases |invitations| - i
  {
    if i == |invitations| then None
    else if Usable(invitations[i], codeHash, now) then Some(i)
    else FindInvitation(invitations, codeHash, now, i + 1)
  }

  // ---- the commands -------------------------------------------------------------

  function Registered(cfg: Config, codeHash: string, house: House, profile: Profile, checkedAt: int,
                      usedAt: int): Option<Config> {
    match FindInvitation(cfg.invitations, codeHash, checkedAt, 0)
    case None => None
    case Some(i) =>
      Some(cfg.(invitations := cfg.invitations[i := cfg.invitations[i].(usedAt := Some(usedAt), email := "")],
                houses := cfg.houses + [house], profiles := cfg.profiles + [profile]))
  }

  function Invited(codeHash: string, email: string, now: int): Invitation {
    Invitation(codeHash, email, now, now + INVITATION_VALIDITY, None)
  }

  predicate Waiting(waitlist: seq<WaitlistEntry>, email: string) {
    exists i :: 0 <= i < |waitlist| && Lower(waitlist[i].email) == Lower(email)
  }

  function Waitlisted(cfg: Config, email: string, now: int): Config {
    if Waiting(cfg.waitlist, email) then cfg else cfg.(waitlist := cfg.waitlist + [WaitlistEntry(email, now)])
  }

  function WithEmails(cfg: Config, houseId: string, emails: seq<string>): Option<Config> {
    match FindHouse(cfg.houses, houseId, 0)
    case None => None
    case Some(i) =>
      var first := if emails != [] then emails[0] else "";
      Some(cfg.(houses := cfg.houses[i := cfg.houses[i].(emails := emails, email := first)]))
  }

  /** The profiles of other houses. */
  function Remaining(profiles: seq<Profile>, houseId: string, n: nat): seq<Profile>
    requires n <= |profiles|
  {
    if n == 0 then []
    else Remaining(profiles, houseId, n - 1) + if profiles[n - 1].houseId == houseId then [] else [profiles[n - 1]]
  }

  function Deleted(cfg: Config, houseId: string): Option<Config> {
    match FindHouse(cfg.houses, houseId, 0)
    case None => None
    case Some(i) =>
      Some(cfg.(houses := cfg.houses[..i] + cfg.houses[i + 1..],
                profiles := Remaining(cfg.profiles, houseId, |cfg.profiles|)))
  }

  /** The last group with that id, as a map filled in order keeps it. */
  function Known(existing: seq<RuleGroup>, id: string): (r: Option<RuleGroup>)
    ensures r.Some? ==> r.value in existing && r.value.id == id
    ensures r.None? ==> forall g | g in existing :: g.id != id
  {
    if existing == [] then None
    else if existing[|existing| - 1].id == id then Some(existing[|existing| - 1])
    else Known(existing[..|existing| - 1], id)
  }

  function MergedGroup(existing: seq<RuleGroup>, input: GroupInput): Option<RuleGroup> {
    var g := input.group.(id := TrimSpace(input.group.id), name := TrimSpace(input.group.name));
    var known := Known(existing, g.id);
    if g.id == "" || g.name == "" then None
    else if g.domains == [] && known.None? then None
    else
      match known
      case Some(stored) =>
        Some(g.(domainSource := stored.domainSource, defaultDomains := stored.defaultDomains,
                schedules := if input.schedules.None? then stored.schedules else input.schedules.value,
                domains := if !g.customized && stored.defaultDomains != [] then stored.defaultDomains else g.domains))
      case None =>
        Some(g.(domainSource := "", defaultDomains := [], customized := true,
                schedules := if input.schedules.None? then [] else input.schedules.value))
  }

  function MergedGroups(existing: seq<RuleGroup>, inputs: seq<GroupInput>, n: nat): (r: Option<seq<RuleGroup>>)
    requires n <= |inputs|
    ensures r.Some? ==> |r.value| == n
  {
    if n == 0 then Some([])
    else
      var before := MergedGroups(existing, inputs, n - 1);
      var group := MergedGroup(existing, inputs[n - 1]);
      if before.None? || group.None? then None else Some(before.value + [group.value])
  }

  function Bump(p: Profile): Profile {
    p.(version := p.version + 1)
  }

  /** The version bump of the other profiles of a house whose time zone changes. */
  function BumpSiblings(profiles: seq<Profile>, houseId: string, id: string): (r: seq<Profile>)
    ensures |r| == |profiles|
    ensures forall i | 0 <= i < |profiles| ::
              r[i] == if profiles[i].houseId == houseId && profiles[i].id != id then Bump(profiles[i]) else profiles[i]
  {
    seq(|profiles|, i requires 0 <= i < |profiles| =>
      if profiles[i].houseId == houseId && profiles[i].id != id then Bump(profiles[i]) else profiles[i])
  }

  /** The time-zone part of a profile update. An empty name loads, as the zone that the empty name stands for. */
  function Rezoned(zones: set<string>, cfg: Config, p: Profile, timeZone: Option<string>): Option<Config> {
    match timeZone
    case None => Some(cfg)
    case Some(raw) =>
      var zone := TrimSpace(raw);
      if zone != "" && zone !in zones then None
      else if p.houseId == "" then None
      else
        match FindHouse(cfg.houses, p.houseId, 0)
        case None => None
        case Some(h) =>
          var moved := cfg.houses[h].timeZone != zone;
          var profiles := if moved then BumpSiblings(cfg.profiles, p.houseId, p.id) else cfg.profiles;
          Some(cfg.(houses := cfg.houses[h := cfg.houses[h].(timeZone := zone)], profiles := profiles))
  }

  function Edited(p: Profile, input: ProfileInput): Option<Profile> {
    var groups := if input.groups.None? then Some(p.groups)
                  else MergedGroups(p.groups, input.groups.value, |input.groups.value|);
    if TrimSpace(input.title) == "" || groups.None? then None
    else Some(Bump(p.(title := TrimSpace(input.title), rules := input.rules, groups := groups.value,
                      defaultAction := if input.defaultAction == Unknown("") then Allow else input.defaultAction,
                      pauses := if input.pauses.None? then p.pauses else input.pauses.value)))
  }

  function Put(zones: set<string>, cfg: Config, id: string, input: ProfileInput): Option<Config> {
    match FindProfile(cfg.profiles, id, 0)
    case None => None
    case Some(i) =>
      var edited := Edited(cfg.profiles[i], input);
      var rezoned := Rezoned(zones, cfg, cfg.profiles[i], input.timeZone);
      if edited.None? || rezoned.None? then None
      else Some(rezoned.value.(profiles := rezoned.value.profiles[i := edited.value]))
  }

  /** Replaces the profile with that id, if there is one. */
  function Replaced(cfg: Config, i: nat, p: Profile): Config
    requires i < |cfg.profiles|
  {
    cfg.(profiles := cfg.profiles[i := p])
  }

  function Disabled(cfg: Config, id: string): Option<Config> {
    match FindProfile(cfg.profiles, id, 0)
    case None => None
    case Some(i) => Some(Replaced(cfg, i, Bump(cfg.profiles[i].(disabled := true))))
  }

  function WithPackage(groups: seq<RuleGroup>, package: RuleGroup, enabled: bool, action: Action): seq<RuleGroup> {
    match FindGroup(groups, package.id, 0)
    case Some(g) =>
      if !enabled then groups[..g] + groups[g + 1..]
      else if groups[g].domains != [] then groups[g := groups[g].(action := action)]
      else groups[g := package.(action := action)]
    case None => if enabled then groups + [package.(action := action)] else groups
  }

  function Packaged(cfg: Config, id: string, package: RuleGroup, enabled: bool, action: Action): Option<Config> {
    match FindProfile(cfg.profiles, id, 0)
    case None => None
    case Some(i) =>
      if !ValidAction(action) then None
      else
        var groups := WithPackage(cfg.profiles[i].groups, package, enabled, action);
        Some(Replaced(cfg, i, Bump(cfg.profiles[i].(groups := groups))))
  }

  function Rotated(cfg: Config, id: string, hostname: string): Option<Config> {
    match FindProfile(cfg.profiles, id, 0)
    case None => None
    case Some(i) => Some(Replaced(cfg, i, Bump(cfg.profiles[i].(hostname := hostname))))
  }

  function Mutated(zones: set<string>, cfg: Config, cmd: Command): Option<Config> {
    match cmd
    case RegisterHouse(codeHash, house, profile, checkedAt, usedAt) =>
      Registered(cfg, codeHash, house, profile, checkedAt, usedAt)
    case CreateInvitation(codeHash, email, now) =>
      Some(cfg.(invitations := cfg.invitations + [Invited(codeHash, email, now)]))
    case JoinWaitlist(email, now) => Some(Waitlisted(cfg, email, now))
    case SetHouseEmails(houseId, emails) => WithEmails(cfg, houseId, emails)
    case DeleteHouse(houseId) => Deleted(cfg, houseId)
    case CreateProfile(profile) => Some(cfg.(profiles := cfg.profiles + [profile]))
    case PutProfile(id, input) => Put(zones, cfg, id, input)
    case Disable(id) => Disabled(cfg, id)
    case SetPackage(id, package, enabled, action) => Packaged(cfg, id, package, enabled, action)
    case RotateEndpoint(id, hostname) => Rotated(cfg, id, hostname)
  }

  // ---- time zones -----------------------------------------------------------------

  function WithZone(h: House): House {
    if h.timeZone == "" then h.(timeZone := DEFAULT_ZONE) else h
  }

  function WithZones(houses: seq<House>): (r: seq<House>)
    ensures |r| == |houses| && forall i | 0 <= i < |houses| :: r[i] == WithZone(houses[i])
  {
    seq(|houses|, i requires 0 <= i < |houses| => WithZone(houses[i]))
  }

  /** The zone of the last of the first `n` houses with that id, or the default zone. */
  function ZoneOf(houses: seq<House>, n: nat, houseId: string): string
    requires n <= |houses|
  {
    if n == 0 then DEFAULT_ZONE
    else if houses[n - 1].id == houseId then houses[n - 1].timeZone
    else ZoneOf(houses, n - 1, houseId)
  }

  function ZonedProfiles(profiles: seq<Profile>, houses: seq<House>): (r: seq<Profile>)
    ensures |r| == |profiles|
    ensures forall i | 0 <= i < |profiles| ::
              r[i] == profiles[i].(timeZone := ZoneOf(houses, |houses|, profiles[i].houseId))
  {
    seq(|profiles|, i requires 0 <= i < |profiles| =>
      profiles[i].(timeZone := ZoneOf(houses, |houses|, profiles[i].houseId)))
  }

  predicate ZonesKnown(zones: set<string>, houses: seq<House>) {
    forall i | 0 <= i < |houses| :: WithZone(houses[i]).timeZone in zones
  }

  function Zoned(zones: set<string>, cfg: Config): Option<Config> {
    if !ZonesKnown(zones, cfg.houses) then None
    else
      var houses := WithZones(cfg.houses);
      Some(cfg.(houses := houses, profiles := ZonedProfiles(cfg.profiles, houses)))
  }

  // ---- the commit step --------------------------------------------------------------

  /** The configuration a command asks for, before validation. */
  function Next(zones: set<string>, cfg: Config, cmd: Command): Option<Config> {
    match Mutated(zones, cfg, cmd)
    case None => None
    case Some(next) => Zoned(zones, next)
  }

  function NormalConfig(cfg: Config): Config {
    cfg.(profiles := NormalAll(cfg.profiles))
  }

  /** What the file holds: profiles without their zones, which come back from the houses. */
  function Saved(cfg: Config): Config {
    cfg.(profiles := Zoneless(cfg.profiles))
  }

  function Zoneless(profiles: seq<Profile>): (r: seq<Profile>)
    ensures |r| == |profiles| && forall i | 0 <= i < |profiles| :: r[i] == profiles[i].(timeZone := "")
  {
    seq(|profiles|, i requires 0 <= i < |profiles| => profiles[i].(timeZone := ""))
  }

  /** The server's configuration, its file, and the profiles and index of the active store. */
  datatype Control = Control(config: Config, file: Config, active: seq<Profile>, index: Index)

  /** One commit; `writable` says whether the file could be replaced. */
  function Update(zones: set<string>, st: Control, cmd: Command, writable: bool): (Control, bool) {
    match Next(zones, st.config, cmd)
    case None => (st, false)
    case Some(next) =>
      if Accept(zones, next.profiles).None? || !writable then (st, false)
      else
        var written := NormalConfig(next);
        match Accept(zones, written.profiles)
        case None => (st.(file := Saved(written)), false)
        case Some(ix) =>
          var config := NormalConfig(written);
          (Control(config, Saved(written), config.profiles, ix), true)
  }

  /** File and active store both reflect the configuration. */
  ghost predicate InSync(zones: set<string>, st: Control) {
    && st.file == Saved(st.config) && st.active == st.config.profiles
    && Accept(zones, st.config.profiles) == Some(st.index)
  }

  /** The file restores the configuration it was saved from. */
  lemma FileRestores(zones: set<string>, cfg: Config)
    requires Zoned(zones, cfg) == Some(cfg)
    ensures Zoned(zones, Saved(cfg)) == Some(cfg)
  {
    var houses := WithZones(cfg.houses);
    assert ZonedProfiles(Zoneless(cfg.profiles), houses) == ZonedProfiles(cfg.profiles, houses);
  }

  lemma NormalKeepsZone(p: Profile)
    ensures Normal(p).timeZone == p.timeZone
  {
  }

  lemma SavedNormal(profiles: seq<Profile>)
    ensures Zoneless(NormalAll(profiles)) == Zoneless(profiles) <==> NormalAll(profiles) == profiles
  {
    if Zoneless(NormalAll(profiles)) == Zoneless(profiles) {
      forall i | 0 <= i < |profiles|
        ensures NormalAll(profiles)[i] == profiles[i]
      {
        NormalKeepsZone(profiles[i]);
        assert Zoneless(NormalAll(profiles))[i] == Zoneless(profiles)[i];
        var a, b := NormalAll(profiles)[i], profiles[i];
        assert a.(timeZone := "") == b.(timeZone := "") && a.timeZone == b.timeZone;
        assert a == a.(timeZone := "").(timeZone := a.timeZone);
      }
    }
  }

  /** The commit is all or nothing exactly on settled names: once validation has accepted the new configuration and
      the file can be written, the commit succeeds with file and active store in step with the configuration if and
      only if every name in an enabled profile is settled. */
  lemma CommitIsSoundExactly(zones: set<string>, st: Control, cmd: Command)
    requires Next(zones, st.config, cmd).Some? && Accept(zones, Next(zones, st.config, cmd).value.profiles).Some?
    ensures var after := Update(zones, st, cmd, true);
            after.1 && InSync(zones, after.0) <==> AllSettled(Next(zones, st.config, cmd).value.profiles)
  {
    hide Next, Accept, AllSettled;
    var next := Next(zones, st.config, cmd).value;
    RevalidationExactly(zones, next.profiles);
    SavedNormal(NormalAll(next.profiles));
  }

  /** On settled names every commit either changes nothing or leaves configuration, file and active store in step. */
  lemma CommitIsAllOrNothing(zones: set<string>, st: Control, cmd: Command, writable: bool)
    requires Next(zones, st.config, cmd).Some? ==> AllSettled(Next(zones, st.config, cmd).value.profiles)
    ensures var after := Update(zones, st, cmd, writable);
            if after.1 then InSync(zones, after.0) else after.0 == st
  {
    hide Next, Accept, AllSettled, InSync;
    if Next(zones, st.config, cmd).Some? && Accept(zones, Next(zones, st.config, cmd).value.profiles).Some? {
      CommitIsSoundExactly(zones, st, cmd);
    }
  }

  /** A commit whose validation has passed writes the file and is then refused, leaving configuration and active
      store as they were, exactly when a name it rewrote is lost or two of one group become the same. */
  lemma HalfWrittenExactly(zones: set<string>, st: Control, cmd: Command)
    requires Next(zones, st.config, cmd).Some? && Accept(zones, Next(zones, st.config, cmd).value.profiles).Some?
    ensures var next := Next(zones, st.config, cmd).value;
            Update(zones, st, cmd, true) == (st.(file := Saved(NormalConfig(next))), false)
            <==> exists i :: 0 <= i < |next.profiles| && Collapses(next.profiles[i])
  {
    hide Next, Accept, Collapses, Saved;
    SecondValidationExactly(zones, Next(zones, st.config, cmd).value.profiles);
  }

  // ---- an update that is written and then refused -----------------------------------

  function DoubleDotGroup(): RuleGroup {
    RuleGroup("g", "g", Block, "", "", ["a..", "a"], [], "", true, [])
  }

  function DoubleDotInput(): ProfileInput {
    ProfileInput("t", Allow, [], Some([GroupInput(DoubleDotGroup(), None)]), None, None)
  }

  function PlainProfile(): Profile {
    Profile("p", "", "t", "x.dns", false, Allow, 1, [], [], [], DEFAULT_ZONE)
  }

  /** The profile the update makes. */
  function DoubleDotProfile(): Profile {
    PlainProfile().(version := 2, groups := [DoubleDotGroup()])
  }

  lemma DoubleDotNext(zones: set<string>, cfg: Config)
    requires cfg.profiles == [PlainProfile()] && cfg.houses == []
    ensures Next(zones, cfg, PutProfile("p", DoubleDotInput())) == Some(cfg.(profiles := [DoubleDotProfile()]))
  {
    hide TrimSpace;
    TrimKeeps("g");
    TrimKeeps("t");
    var p, inputs, none: nat := PlainProfile(), DoubleDotInput().groups.value, 0;
    assert MergedGroups(p.groups, inputs, none) == Some([]);
    assert [] + [DoubleDotGroup()] == [DoubleDotGroup()];
    assert MergedGroups(p.groups, inputs, none + 1) == Some([DoubleDotGroup()]);
    assert cfg.profiles[0 := DoubleDotProfile()] == [DoubleDotProfile()];
    assert WithZones(cfg.houses) == cfg.houses;
    assert ZonedProfiles([DoubleDotProfile()], cfg.houses) == [DoubleDotProfile()];
  }

  lemma DoubleDotAccepted(zones: set<string>)
    requires DEFAULT_ZONE in zones
    ensures ProfileOK(zones, DoubleDotProfile())
  {
    hide NormalizeName, Lower;
    var p, none: nat := DoubleDotProfile(), 0;
    var domains := DoubleDotGroup().domains;
    DoubleDotIsNotIdempotent();
    StableCharacterised("a");
    StableCharacterised(p.hostname);
    assert DomainsOK(domains, none) && Forms(domains, none) == {};
    assert DomainsOK(domains, none + 1) && Forms(domains, none + 1) == {"a."};
    assert GroupsOK(p.groups, none) && GroupsOK(p.groups, none + 1);
  }

  /** A commit that is not all or nothing: this update leaves a new file and the old configuration. */
  lemma DoubleDotIsHalfWritten(zones: set<string>, st: Control)
    requires st.config.profiles == [PlainProfile()] && st.config.houses == []
    requires InSync(zones, st) && DEFAULT_ZONE in zones
    ensures var after := Update(zones, st, PutProfile("p", DoubleDotInput()), true);
            !after.1 && after.0 == st.(file := after.0.file) && after.0.file != st.file
  {
    hide Next, Accept, ProfileOK, Collapses;
    var p := DoubleDotProfile();
    var next := st.config.(profiles := [p]);
    DoubleDotNext(zones, st.config);
    DoubleDotAccepted(zones);
    DoubleDotCollapses(zones, p, DoubleDotGroup());
    assert Saved(NormalConfig(next)).profiles[0].version == 2 && Saved(st.config).profiles[0].version == 1;
  }
}
