/** The mutations of the control plane's handlers, in place on a copy of the configuration. */
module Commands {
  import opened Text
  import opened PolicyTypes
  import opened ConfigTypes
  import opened PolicyStore
  import opened PolicyManager
  import opened AdminModel
  import opened Configuration

  // ---- lists of profiles ---------------------------------------------------------------

  lemma ValuesReplace(ps: seq<ProfileRec>, i: nat, p: ProfileRec)
    requires i < |ps|
    ensures ProfileValues(ps[i := p]) == ProfileValues(ps)[i := ProfileValue(p)]
  {
    hide ProfileValue;
  }

  lemma ValuesAppend(ps: seq<ProfileRec>, p: ProfileRec)
    ensures ProfileValues(ps + [p]) == ProfileValues(ps) + [ProfileValue(p)]
  {
    hide ProfileValue;
  }

  /** A profile's own arrays, or ones nobody has, can replace it. */
  ghost predicate Fits(ps: seq<ProfileRec>, i: nat, p: ProfileRec)
    requires i < |ps|
  {
    && SeparateGroups(p.groups)
    && (p.rules == ps[i].rules || p.rules !in RuleArrays(ps))
    && forall a | a in DomainArrays(p.groups) :: a in DomainArrays(ps[i].groups) || a !in AllDomainArrays(ps)
  }

  lemma SeparateReplace(ps: seq<ProfileRec>, i: nat, p: ProfileRec)
    requires i < |ps| && Separate(ps) && Fits(ps, i, p)
    ensures Separate(ps[i := p])
    ensures RuleArrays(ps[i := p]) <= RuleArrays(ps) + {p.rules}
    ensures AllDomainArrays(ps[i := p]) <= AllDomainArrays(ps) + DomainArrays(p.groups)
  {
    hide SeparateGroups;
    var after := ps[i := p];
    forall j | 0 <= j < |ps| && j != i
      ensures Apart(ps[j], p) && Apart(p, ps[j])
    {
      ApartArrays(ps, i, j);
      assert ps[j] in ps;
    }
    forall j, k | 0 <= j < k < |ps|
      ensures Apart(after[j], after[k])
    {
      if j != i && k != i { assert Apart(ps[j], ps[k]); }
    }
  }

  /** The same arrays in the same places. */
  ghost predicate SameArrays(a: seq<ProfileRec>, b: seq<ProfileRec>) {
    |a| == |b| && forall i | 0 <= i < |a| :: b[i].rules == a[i].rules && b[i].groups == a[i].groups
  }

  lemma SameArraysWithin(a: seq<ProfileRec>, b: seq<ProfileRec>)
    requires SameArrays(a, b)
    ensures RuleArrays(b) <= RuleArrays(a) && AllDomainArrays(b) <= AllDomainArrays(a)
  {
    forall q | q in b
      ensures q.rules in RuleArrays(a) && forall g | g in q.groups :: g.domains in AllDomainArrays(a)
    {
      var i :| 0 <= i < |b| && b[i] == q;
      assert a[i] in a;
    }
  }

  lemma SameArraysSeparate(a: seq<ProfileRec>, b: seq<ProfileRec>)
    requires SameArrays(a, b) && Separate(a)
    ensures Separate(b) && RuleArrays(b) == RuleArrays(a) && AllDomainArrays(b) == AllDomainArrays(a)
  {
    SameArraysWithin(a, b);
    SameArraysWithin(b, a);
    hide SeparateGroups, RuleArrays, AllDomainArrays, DomainArrays;
    forall i, j | 0 <= i < j < |b|
      ensures Apart(b[i], b[j])
    {
      assert Apart(a[i], a[j]);
    }
  }

  /** Arrays a command leaves in the configuration were there before or are new. */
  twostate predicate Grown(c: Cell)
    reads c, c.profiles
  {
    && (c.houses == old(c.houses) || fresh(c.houses))
    && (c.invitations == old(c.invitations) || fresh(c.invitations))
    && (c.profiles == old(c.profiles) || fresh(c.profiles))
    && (forall a | a in RuleArrays(c.profiles[..]) :: a in old(RuleArrays(c.profiles[..])) || fresh(a))
    && (forall a | a in AllDomainArrays(c.profiles[..]) :: a in old(AllDomainArrays(c.profiles[..])) || fresh(a))
  }

  /** Writes one profile. */
  method SetProfile(c: Cell, i: nat, p: ProfileRec)
    requires c.Valid() && i < c.profiles.Length && Fits(c.profiles[..], i, p)
    modifies c.profiles
    ensures c.Valid() && c.profiles[..] == old(c.profiles[..])[i := p]
    ensures RuleArrays(c.profiles[..]) <= old(RuleArrays(c.profiles[..])) + {p.rules}
    ensures AllDomainArrays(c.profiles[..]) <= old(AllDomainArrays(c.profiles[..])) + DomainArrays(p.groups)
    ensures c.Value() == old(c.Value()).(profiles := old(c.Value()).profiles[i := old(ProfileValue(p))])
  {
    hide ProfileValue, ProfileValues, Separate, RuleArrays, AllDomainArrays, Fits;
    ghost var ps := c.profiles[..];
    ValuesReplace(ps, i, p);
    SeparateReplace(ps, i, p);
    c.profiles[i] := p;
    assert c.profiles[..] == ps[i := p];
    ValuesStay(ps[i := p]);
  }

  // ---- searches ---------------------------------------------------------------------------

  method IndexOfHouse(c: Cell, id: string) returns (r: Option<nat>)
    ensures r == FindHouse(c.Value().houses, id, 0) && c.Value() == old(c.Value())
  {
    hide ProfileValues;
    for i := 0 to c.houses.Length
      invariant c.Value() == old(c.Value())
      invariant FindHouse(c.Value().houses, id, 0) == FindHouse(c.Value().houses, id, i)
    {
      if c.houses[i].id == id { return Some(i); }
    }
    return None;
  }

  lemma ValueIds(c: Cell, i: nat)
    requires i < c.profiles.Length
    ensures c.Value().profiles[i].id == c.profiles[i].head.id
    ensures c.Value().profiles[i] == ProfileValue(c.profiles[i])
  {
  }

  method IndexOfProfile(c: Cell, id: string) returns (r: Option<nat>)
    ensures r == FindProfile(c.Value().profiles, id, 0) && c.Value() == old(c.Value())
    ensures r.Some? ==> r.value < c.profiles.Length
  {
    hide ProfileValues, ProfileValue;
    for i := 0 to c.profiles.Length
      invariant c.Value() == old(c.Value())
      invariant FindProfile(c.Value().profiles, id, 0) == FindProfile(c.Value().profiles, id, i)
    {
      ValueIds(c, i);
      if c.profiles[i].head.id == id { return Some(i); }
    }
    return None;
  }

  method IndexOfGroup(groups: seq<GroupRec>, id: string) returns (r: Option<nat>)
    ensures r == FindGroup(GroupValues(groups), id, 0)
  {
    for i := 0 to |groups|
      invariant FindGroup(GroupValues(groups), id, 0) == FindGroup(GroupValues(groups), id, i)
    {
      if groups[i].head.id == id { return Some(i); }
    }
    return None;
  }

  method FindValidInvitation(invitations: array<Invitation>, codeHash: string, now: int) returns (r: Option<nat>)
    ensures r == FindInvitation(invitations[..], codeHash, now, 0)
  {
    for i := 0 to invitations.Length
      invariant FindInvitation(invitations[..], codeHash, now, 0) == FindInvitation(invitations[..], codeHash, now, i)
    {
      if invitations[i].usedAt.Some? || now > invitations[i].expiresAt { continue; }
      if invitations[i].codeHash == codeHash { return Some(i); }
    }
    return None;
  }

  // ---- commands that add --------------------------------------------------------------------

  method NewGroup(g: RuleGroup) returns (r: GroupRec)
    ensures GroupValue(r) == g && fresh(r.domains)
  {
    var domains := Copy(g.domains);
    r := GroupRec(g, domains);
  }

  method NewGroups(groups: seq<RuleGroup>) returns (r: seq<GroupRec>)
    ensures GroupValues(r) == groups && SeparateGroups(r) && fresh(DomainArrays(r))
  {
    r := [];
    for i := 0 to |groups|
      invariant |r| == i && SeparateGroups(r) && fresh(DomainArrays(r))
      invariant forall k | 0 <= k < i :: GroupValue(r[k]) == groups[k]
    {
      var g := NewGroup(groups[i]);
      DomainArraysMore(r, g);
      r := r + [g];
    }
  }

  method NewProfileRec(p: Profile) returns (r: ProfileRec)
    ensures ProfileValue(r) == p && SeparateGroups(r.groups) && fresh(r.rules) && fresh(DomainArrays(r.groups))
  {
    var rules := Copy(p.rules);
    var groups := NewGroups(p.groups);
    r := ProfileRec(p, rules, groups);
    assert p.(rules := p.rules, groups := p.groups) == p;
  }

  /** Appends a new profile. */
  method AddProfile(c: Cell, p: Profile)
    requires c.Valid()
    modifies c`profiles
    ensures c.Valid() && fresh(c.profiles)
    ensures forall a | a in RuleArrays(c.profiles[..]) :: a in old(RuleArrays(c.profiles[..])) || fresh(a)
    ensures forall a | a in AllDomainArrays(c.profiles[..]) :: a in old(AllDomainArrays(c.profiles[..])) || fresh(a)
    ensures c.Value() == old(c.Value()).(profiles := old(c.Value()).profiles + [p])
  {
    hide ProfileValue, ProfileValues, Separate, SeparateGroups, RuleArrays, AllDomainArrays;
    ghost var ps := c.profiles[..];
    var rec := NewProfileRec(p);
    NotYetReached(ps, rec);
    SeparateMore(ps, rec);
    ArraysMore(ps, rec);
    ValuesAppend(ps, rec);
    ValuesStay(ps);
    label Made:
    var profiles := Copy(c.profiles[..] + [rec]);
    c.profiles := profiles;
    ValuesStay@Made(ps + [rec]);
    assert c.profiles[..] == ps + [rec];
  }

  /** Arrays that were just allocated are not among those a list reached before. */
  twostate lemma NotYetReached(ps: seq<ProfileRec>, new p: ProfileRec)
    requires fresh(p.rules) && fresh(DomainArrays(p.groups))
    ensures p.rules !in RuleArrays(ps) && DomainArrays(p.groups) !! AllDomainArrays(ps)
  {
  }

  method Register(c: Cell, codeHash: string, house: House, profile: Profile, checkedAt: int, usedAt: int)
    returns (ok: bool)
    requires c.Valid()
    modifies c, c.invitations
    ensures ok == Registered(old(c.Value()), codeHash, house, profile, checkedAt, usedAt).Some?
    ensures ok ==> Registered(old(c.Value()), codeHash, house, profile, checkedAt, usedAt) == Some(c.Value())
    ensures ok ==> c.Valid() && Grown(c)
  {
    hide ProfileValue, ProfileValues, Separate, RuleArrays, AllDomainArrays;
    var i := FindValidInvitation(c.invitations, codeHash, checkedAt);
    if i.None? { return false; }
    ghost var ps := c.profiles[..];
    ghost var before := c.invitations[..];
    c.invitations[i.value] := c.invitations[i.value].(usedAt := Some(usedAt), email := "");
    assert c.invitations[..] == before[i.value := before[i.value].(usedAt := Some(usedAt), email := "")];
    var houses := Copy(c.houses[..] + [house]);
    c.houses := houses;
    ValuesStay(c.profiles[..]);
    assert c.profiles[..] == ps;
    AddProfile(c, profile);
    return true;
  }

  method Invite(c: Cell, codeHash: string, email: string, now: int)
    requires c.Valid()
    modifies c`invitations
    ensures c.Value() == old(c.Value()).(invitations := old(c.Value()).invitations + [Invited(codeHash, email, now)])
    ensures c.Valid() && Grown(c)
  {
    hide ProfileValue, ProfileValues, Separate, RuleArrays, AllDomainArrays;
    var invitations := Copy(c.invitations[..] + [Invitation(codeHash, email, now, now + INVITATION_VALIDITY, None)]);
    c.invitations := invitations;
    ValuesStay(c.profiles[..]);
  }

  method Wait(c: Cell, email: string, now: int)
    requires c.Valid()
    modifies c`waitlist
    ensures c.Value() == Waitlisted(old(c.Value()), email, now)
    ensures c.Valid() && Grown(c)
  {
    hide ProfileValue, ProfileValues, Separate, RuleArrays, AllDomainArrays, Lower;
    for i := 0 to |c.waitlist|
      invariant c.waitlist == old(c.waitlist)
      invariant forall k | 0 <= k < i :: Lower(c.waitlist[k].email) != Lower(email)
    {
      if Lower(c.waitlist[i].email) == Lower(email) { return; }
    }
    c.waitlist := c.waitlist + [WaitlistEntry(email, now)];
    ValuesStay(c.profiles[..]);
  }

  method SetEmails(c: Cell, houseId: string, emails: seq<string>) returns (ok: bool)
    requires c.Valid()
    modifies c.houses
    ensures ok == WithEmails(old(c.Value()), houseId, emails).Some?
    ensures ok ==> WithEmails(old(c.Value()), houseId, emails) == Some(c.Value())
    ensures ok ==> c.Valid() && Grown(c)
  {
    hide ProfileValue, ProfileValues, Separate, RuleArrays, AllDomainArrays;
    var i := IndexOfHouse(c, houseId);
    if i.None? { return false; }
    ghost var before := c.houses[..];
    var house := c.houses[i.value].(emails := emails);
    if |emails| > 0 {
      house := house.(email := emails[0]);
    } else {
      house := house.(email := "");
    }
    c.houses[i.value] := house;
    assert c.houses[..] == before[i.value := house];
    ValuesStay(c.profiles[..]);
    return true;
  }

  lemma RemainingSnoc(ps: seq<ProfileRec>, houseId: string, i: nat)
    requires i < |ps|
    ensures Remaining(ProfileValues(ps), houseId, i + 1) ==
            Remaining(ProfileValues(ps), houseId, i)
            + if ps[i].head.houseId == houseId then [] else [ProfileValue(ps[i])]
  {
    assert ProfileValue(ps[i]).houseId == ps[i].head.houseId;
  }

  /** Some of a list's profiles, in their order, are as separate as the list. */
  ghost predicate Picked(ps: seq<ProfileRec>, kept: seq<ProfileRec>, at: seq<nat>) {
    && |at| == |kept| && (forall j | 0 <= j < |at| :: at[j] < |ps| && kept[j] == ps[at[j]])
    && forall j, k | 0 <= j < k < |at| :: at[j] < at[k]
  }

  lemma PickedMore(ps: seq<ProfileRec>, kept: seq<ProfileRec>, at: seq<nat>, k: nat)
    requires Picked(ps, kept, at) && k < |ps| && forall a | a in at :: a < k
    ensures Picked(ps, kept + [ps[k]], at + [k]) && forall a | a in at + [k] :: a < k + 1
  {
    var more := at + [k];
    forall i, j | 0 <= i < j < |more|
      ensures more[i] < more[j]
    {
      if j == |at| { assert at[i] in at; }
    }
  }

  lemma PickedSeparate(ps: seq<ProfileRec>, kept: seq<ProfileRec>, at: seq<nat>)
    requires Separate(ps) && Picked(ps, kept, at)
    ensures Separate(kept) && RuleArrays(kept) <= RuleArrays(ps) && AllDomainArrays(kept) <= AllDomainArrays(ps)
  {
    hide SeparateGroups;
    forall j, k | 0 <= j < k < |kept|
      ensures Apart(kept[j], kept[k])
    {
      assert Apart(ps[at[j]], ps[at[k]]);
    }
    assert forall p | p in kept :: p in ps;
  }

  /** The loop that keeps the profiles of other houses. */
  method KeepOthers(ps: seq<ProfileRec>, houseId: string) returns (remaining: seq<ProfileRec>)
    requires Separate(ps)
    ensures ProfileValues(remaining) == Remaining(ProfileValues(ps), houseId, |ps|)
    ensures Separate(remaining) && RuleArrays(remaining) <= RuleArrays(ps)
            && AllDomainArrays(remaining) <= AllDomainArrays(ps)
  {
    hide ProfileValue, ProfileValues, Separate, RuleArrays, AllDomainArrays, Remaining;
    remaining := [];
    ghost var at: seq<nat> := [];
    EmptyValues(ps, houseId);
    for k := 0 to |ps|
      invariant ProfileValues(remaining) == Remaining(ProfileValues(ps), houseId, k)
      invariant Picked(ps, remaining, at) && forall a | a in at :: a < k
    {
      RemainingSnoc(ps, houseId, k);
      if ps[k].head.houseId == houseId { continue; }
      ValuesAppend(remaining, ps[k]);
      PickedMore(ps, remaining, at, k);
      remaining, at := remaining + [ps[k]], at + [k];
    }
    PickedSeparate(ps, remaining, at);
  }

  /** Removes the first house with that id and the profiles of houses with that id. */
  method Delete(c: Cell, houseId: string) returns (ok: bool)
    requires c.Valid()
    modifies c
    ensures ok == Deleted(old(c.Value()), houseId).Some?
    ensures ok ==> Deleted(old(c.Value()), houseId) == Some(c.Value())
    ensures ok ==> c.Valid() && Grown(c)
  {
    hide ProfileValue, ProfileValues, Separate, RuleArrays, AllDomainArrays, Remaining;
    var i := IndexOfHouse(c, houseId);
    if i.None? { return false; }
    var houses := Copy(c.houses[..i.value] + c.houses[i.value + 1..]);
    c.houses := houses;
    ghost var ps := c.profiles[..];
    var remaining := KeepOthers(c.profiles[..], houseId);
    ValuesStay(ps);
    label Picking:
    var profiles := Copy(remaining);
    c.profiles := profiles;
    ValuesStay@Picking(remaining);
    assert c.profiles[..] == remaining;
    assert c.Value().profiles == Deleted(old(c.Value()), houseId).value.profiles;
    return true;
  }

  lemma EmptyValues(ps: seq<ProfileRec>, houseId: string)
    ensures ProfileValues([]) == Remaining(ProfileValues(ps), houseId, 0) && Picked(ps, [], [])
  {
  }

  // ---- commands that change one profile ------------------------------------------------------

  /** A profile with another head keeps its rules and groups. */
  lemma HeadChange(p: ProfileRec, head: Profile)
    ensures ProfileValue(p.(head := head)) == head.(rules := ProfileValue(p).rules, groups := ProfileValue(p).groups)
  {
  }

  lemma OwnArraysFit(ps: seq<ProfileRec>, i: nat, p: ProfileRec)
    requires i < |ps| && Separate(ps) && p.rules == ps[i].rules && SeparateGroups(p.groups)
    requires DomainArrays(p.groups) <= DomainArrays(ps[i].groups)
    ensures Fits(ps, i, p)
    ensures RuleArrays(ps) + {p.rules} == RuleArrays(ps)
    ensures AllDomainArrays(ps) + DomainArrays(p.groups) == AllDomainArrays(ps)
  {
    assert ps[i] in ps;
  }

  lemma GroupsAt(ps: seq<ProfileRec>, i: nat)
    requires i < |ps| && Separate(ps)
    ensures SeparateGroups(ps[i].groups)
  {
  }

  /** Writes another head into a profile. */
  method SetHead(c: Cell, i: nat, head: Profile)
    requires c.Valid() && i < c.profiles.Length
    modifies c.profiles
    ensures c.Valid() && Grown(c)
    ensures c.profiles[..] == old(c.profiles[..])[i := old(c.profiles[i]).(head := head)]
    ensures var p := old(c.Value()).profiles[i];
            c.Value() ==
            old(c.Value()).(profiles := old(c.Value()).profiles[i := head.(rules := p.rules, groups := p.groups)])
  {
    hide ProfileValue, Separate, RuleArrays, AllDomainArrays, Fits, SeparateGroups;
    ghost var ps := c.profiles[..];
    GroupsAt(ps, i);
    OwnArraysFit(ps, i, ps[i].(head := head));
    HeadChange(ps[i], head);
    SetProfile(c, i, c.profiles[i].(head := head));
  }

  method DisableProfile(c: Cell, id: string) returns (ok: bool)
    requires c.Valid()
    modifies c.profiles
    ensures ok == Disabled(old(c.Value()), id).Some?
    ensures ok ==> Disabled(old(c.Value()), id) == Some(c.Value())
    ensures ok ==> c.Valid() && Grown(c)
  {
    hide ProfileValue, ProfileValues, Separate, RuleArrays, AllDomainArrays;
    var i := IndexOfProfile(c, id);
    if i.None? { return false; }
    var head := c.profiles[i.value].head;
    HeadIs(c, i.value);
    SetHead(c, i.value, head.(disabled := true, version := head.version + 1));
    return true;
  }

  /** What a profile's head says of its value. */
  lemma HeadIs(c: Cell, i: nat)
    requires i < c.profiles.Length
    ensures var v, head := c.Value().profiles[i], c.profiles[i].head; v == head.(rules := v.rules, groups := v.groups)
    ensures c.Value().profiles[i].groups == GroupValues(c.profiles[i].groups)
    ensures c.Value().profiles[i] == ProfileValue(c.profiles[i])
  {
  }

  method Rotate(c: Cell, id: string, hostname: string) returns (ok: bool)
    requires c.Valid()
    modifies c.profiles
    ensures ok == Rotated(old(c.Value()), id, hostname).Some?
    ensures ok ==> Rotated(old(c.Value()), id, hostname) == Some(c.Value())
    ensures ok ==> c.Valid() && Grown(c)
  {
    hide ProfileValue, ProfileValues, Separate, RuleArrays, AllDomainArrays;
    var i := IndexOfProfile(c, id);
    if i.None? { return false; }
    var head := c.profiles[i.value].head;
    HeadIs(c, i.value);
    SetHead(c, i.value, head.(hostname := hostname, version := head.version + 1));
    return true;
  }

  // ---- packages --------------------------------------------------------------------------------

  lemma GroupsSplit(groups: seq<GroupRec>, g: nat)
    requires g < |groups|
    ensures GroupValues(groups[..g] + groups[g + 1..]) == GroupValues(groups)[..g] + GroupValues(groups)[g + 1..]
    ensures DomainArrays(groups[..g] + groups[g + 1..]) <= DomainArrays(groups)
    ensures SeparateGroups(groups) ==> SeparateGroups(groups[..g] + groups[g + 1..])
  {
    var left := groups[..g] + groups[g + 1..];
    assert forall i | 0 <= i < |left| :: left[i] == groups[if i < g then i else i + 1];
  }

  lemma GroupsReplace(groups: seq<GroupRec>, g: nat, r: GroupRec)
    requires g < |groups|
    ensures GroupValues(groups[g := r]) == GroupValues(groups)[g := GroupValue(r)]
    ensures DomainArrays(groups[g := r]) <= DomainArrays(groups) + {r.domains}
    ensures SeparateGroups(groups) && (r.domains == groups[g].domains || r.domains !in DomainArrays(groups))
            ==> SeparateGroups(groups[g := r])
  {
    hide GroupValue;
    assert forall i | 0 <= i < |groups| :: groups[i].domains in DomainArrays(groups);
  }

  lemma GroupsAppend(groups: seq<GroupRec>, r: GroupRec)
    ensures GroupValues(groups + [r]) == GroupValues(groups) + [GroupValue(r)]
    ensures DomainArrays(groups + [r]) <= DomainArrays(groups) + {r.domains}
    ensures SeparateGroups(groups) && r.domains !in DomainArrays(groups) ==> SeparateGroups(groups + [r])
  {
    hide GroupValue;
    DomainArraysMore(groups, r);
    assert forall i | 0 <= i < |groups| :: groups[i].domains in DomainArrays(groups);
  }

  /** Switches a package on or off among a profile's groups. */
  method ChangePackage(groups: seq<GroupRec>, package: RuleGroup, enabled: bool, action: Action)
    returns (r: seq<GroupRec>)
    requires SeparateGroups(groups)
    ensures GroupValues(r) == WithPackage(GroupValues(groups), package, enabled, action)
    ensures SeparateGroups(r) && forall a | a in DomainArrays(r) :: a in DomainArrays(groups) || fresh(a)
  {
    hide SeparateGroups, DomainArrays, GroupValues;
    var g := IndexOfGroup(groups, package.id);
    GroupsStay(groups);
    if !enabled {
      if g.None? { return groups; }
      GroupsSplit(groups, g.value);
      return groups[..g.value] + groups[g.value + 1..];
    }
    if g.Some? && groups[g.value].domains.Length > 0 {
      var changed := groups[g.value].(head := groups[g.value].head.(action := action));
      GroupsReplace(groups, g.value, changed);
      OwnDomains(groups, g.value);
      return groups[g.value := changed];
    }
    assert g.Some? ==> GroupValues(groups)[g.value].domains == [];
    var group := NewGroup(package.(action := action));
    NotADomainArray(groups, group);
    GroupsStay(groups);
    if g.Some? {
      GroupsReplace(groups, g.value, group);
      return groups[g.value := group];
    }
    GroupsAppend(groups, group);
    return groups + [group];
  }

  lemma OwnDomains(groups: seq<GroupRec>, g: nat)
    requires g < |groups|
    ensures groups[g].domains in DomainArrays(groups)
  {
  }

  twostate lemma NotADomainArray(groups: seq<GroupRec>, new r: GroupRec)
    requires fresh(r.domains)
    ensures r.domains !in DomainArrays(groups)
  {
  }

  /** A new array is not among those a list reached before. */
  twostate lemma NotAmong(ps: seq<ProfileRec>, new a: array<string>)
    requires fresh(a)
    ensures a !in AllDomainArrays(ps)
  {
  }

  lemma OwnReached(ps: seq<ProfileRec>, i: nat)
    requires i < |ps|
    ensures ps[i].rules in RuleArrays(ps) && DomainArrays(ps[i].groups) <= AllDomainArrays(ps)
  {
    assert ps[i] in ps;
  }

  method SwitchPackage(c: Cell, id: string, package: RuleGroup, enabled: bool, action: Action) returns (ok: bool)
    requires c.Valid()
    modifies c.profiles
    ensures ok == Packaged(old(c.Value()), id, package, enabled, action).Some?
    ensures ok ==> Packaged(old(c.Value()), id, package, enabled, action) == Some(c.Value())
    ensures ok ==> c.Valid() && Grown(c)
  {
    hide ProfileValue, ProfileValues, Separate, SeparateGroups, RuleArrays, AllDomainArrays, DomainArrays,
         WithPackage;
    if !ValidAction(action) { return false; }
    var i := IndexOfProfile(c, id);
    if i.None? { return false; }
    ghost var ps := c.profiles[..];
    var p := c.profiles[i.value];
    GroupsAt(ps, i.value);
    HeadIs(c, i.value);
    var groups := ChangePackage(p.groups, package, enabled, action);
    var changed := ProfileRec(p.head.(version := p.head.version + 1), p.rules, groups);
    ValuesStay(ps);
    GroupsStay(p.groups);
    HeadIs(c, i.value);
    RecValue(p, changed);
    forall a | a in DomainArrays(groups) && a !in DomainArrays(p.groups)
      ensures a !in AllDomainArrays(ps)
    {
      NotAmong(ps, a);
    }
    OwnReached(ps, i.value);
    SetProfile(c, i.value, changed);
    forall a | a in AllDomainArrays(c.profiles[..])
      ensures a in AllDomainArrays(ps) || fresh(a)
    {
    }
    return true;
  }

  /** The value of a profile whose head, rules or groups were exchanged. */
  lemma RecValue(p: ProfileRec, q: ProfileRec)
    ensures ProfileValue(q) == q.head.(rules := q.rules[..], groups := GroupValues(q.groups))
    ensures q.rules == p.rules ==> q.rules[..] == ProfileValue(p).rules
  {
  }

  // ---- updates of a profile ------------------------------------------------------------------------

  lemma KnownSnoc(groups: seq<RuleGroup>, i: nat, id: string)
    requires i < |groups|
    ensures Known(groups[..i + 1], id) == if groups[i].id == id then Some(groups[i]) else Known(groups[..i], id)
  {
    assert groups[..i + 1][..i] == groups[..i];
  }

  /** The map holds, for every id, the last of the groups with it, apart from its domains. */
  ghost predicate KnownAs(known: map<string, RuleGroup>, groups: seq<RuleGroup>) {
    && (forall id :: id in known <==> Known(groups, id).Some?)
    && (forall id | id in known :: Known(groups, id).value == known[id].(domains := Known(groups, id).value.domains))
  }

  lemma KnownMore(known: map<string, RuleGroup>, groups: seq<RuleGroup>, i: nat, head: RuleGroup)
    requires i < |groups| && KnownAs(known, groups[..i]) && groups[i] == head.(domains := groups[i].domains)
    ensures KnownAs(known[head.id := head], groups[..i + 1])
  {
    hide Known;
    var more := known[head.id := head];
    forall id
      ensures id in more <==> Known(groups[..i + 1], id).Some?
      ensures id in more ==>
                Known(groups[..i + 1], id).value == more[id].(domains := Known(groups[..i + 1], id).value.domains)
    {
      KnownSnoc(groups, i, id);
    }
  }

  /** The map the merge fills from the groups a profile has. */
  method KnownGroups(existing: seq<GroupRec>) returns (known: map<string, RuleGroup>)
    ensures KnownAs(known, GroupValues(existing))
  {
    ghost var values := GroupValues(existing);
    hide KnownAs;
    known := map[];
    NoneKnown();
    for i := 0 to |existing|
      invariant values == GroupValues(existing) && KnownAs(known, values[..i])
    {
      KnownMore(known, values, i, existing[i].head);
      known := known[existing[i].head.id := existing[i].head];
    }
    assert values[..|existing|] == values;
  }

  lemma NoneKnown()
    ensures KnownAs(map[], [])
  {
  }

  /** One group of the request, merged with the one the profile has. */
  method MergeGroup(known: map<string, RuleGroup>, ghost existing: seq<RuleGroup>, input: GroupInput)
    returns (r: Option<GroupRec>)
    requires KnownAs(known, existing)
    ensures r.Some? <==> MergedGroup(existing, input).Some?
    ensures r.Some? ==> GroupValue(r.value) == MergedGroup(existing, input).value && fresh(r.value.domains)
  {
    var group := input.group.(id := TrimSpace(input.group.id), name := TrimSpace(input.group.name));
    if group.id == "" || group.name == "" { return None; }
    var stays := group.id in known;
    if |group.domains| == 0 && !stays { return None; }
    if stays {
      var stored := known[group.id];
      group := group.(domainSource := stored.domainSource, defaultDomains := stored.defaultDomains);
      if input.schedules.None? {
        group := group.(schedules := stored.schedules);
      } else {
        group := group.(schedules := input.schedules.value);
      }
      if !group.customized && |group.defaultDomains| > 0 {
        group := group.(domains := group.defaultDomains);
      }
    } else {
      group := group.(domainSource := "", defaultDomains := [], customized := true,
                      schedules := if input.schedules.None? then [] else input.schedules.value);
    }
    assert Some(group) == MergedGroup(existing, input);
    var rec := NewGroup(group);
    return Some(rec);
  }

  lemma {:induction false} MergedStops(existing: seq<RuleGroup>, inputs: seq<GroupInput>, k: nat, n: nat)
    requires k <= n <= |inputs| && MergedGroups(existing, inputs, k).None?
    ensures MergedGroups(existing, inputs, n).None?
  {
    hide MergedGroup;
    if k < n {
      MergedStops(existing, inputs, k, n - 1);
    }
  }

  /** All groups of a request; the domains of each are a list of their own. */
  method MergeGroups(existing: seq<GroupRec>, inputs: seq<GroupInput>) returns (r: Option<seq<GroupRec>>)
    ensures r.Some? <==> MergedGroups(old(GroupValues(existing)), inputs, |inputs|).Some?
    ensures r.Some? ==> GroupValues(r.value) == MergedGroups(old(GroupValues(existing)), inputs, |inputs|).value
    ensures r.Some? ==> SeparateGroups(r.value) && fresh(DomainArrays(r.value))
  {
    hide GroupValue, MergedGroup, KnownAs;
    ghost var values := GroupValues(existing);
    var known := KnownGroups(existing);
    GroupsStay(existing);
    var result: seq<GroupRec> := [];
    for i := 0 to |inputs|
      invariant |result| == i && SeparateGroups(result) && fresh(DomainArrays(result))
      invariant MergedGroups(values, inputs, i) == Some(GroupValues(result))
    {
      label Before:
      var group := MergeGroup(known, values, inputs[i]);
      if group.None? {
        MergedStops(values, inputs, i + 1, |inputs|);
        return None;
      }
      GroupsStay@Before(result);
      NotADomainArray@Before(result, group.value);
      GroupsAppend(result, group.value);
      DomainArraysMore(result, group.value);
      result := result + [group.value];
    }
    return Some(result);
  }

  // ---- time zones -----------------------------------------------------------------------------------

  function BumpedRec(p: ProfileRec, houseId: string, id: string): ProfileRec {
    if p.head.houseId == houseId && p.head.id != id then p.(head := Bump(p.head)) else p
  }

  lemma BumpedValue(p: ProfileRec, houseId: string, id: string)
    ensures var v := ProfileValue(p);
            ProfileValue(BumpedRec(p, houseId, id)) == if v.houseId == houseId && v.id != id then Bump(v) else v
  {
  }

  lemma BumpedValues(ps: seq<ProfileRec>, after: seq<ProfileRec>, houseId: string, id: string)
    requires |after| == |ps| && forall k | 0 <= k < |ps| :: after[k] == BumpedRec(ps[k], houseId, id)
    ensures ProfileValues(after) == BumpSiblings(ProfileValues(ps), houseId, id) && SameArrays(ps, after)
  {
    forall k | 0 <= k < |ps|
      ensures ProfileValues(after)[k] == BumpSiblings(ProfileValues(ps), houseId, id)[k]
    {
      BumpedValue(ps[k], houseId, id);
    }
  }

  /** The next version for the other profiles of a house. */
  method BumpOthers(c: Cell, houseId: string, id: string)
    requires c.Valid()
    modifies c.profiles
    ensures c.Value() == old(c.Value()).(profiles := BumpSiblings(old(c.Value()).profiles, houseId, id))
    ensures SameArrays(old(c.profiles[..]), c.profiles[..])
    ensures forall k | 0 <= k < c.profiles.Length && old(c.profiles[k]).head.id == id ::
              c.profiles[k] == old(c.profiles[k])
  {
    hide ProfileValue, ProfileValues, Separate, RuleArrays, AllDomainArrays, SameArrays;
    ghost var ps := c.profiles[..];
    for i := 0 to c.profiles.Length
      invariant forall k | 0 <= k < i :: c.profiles[k] == BumpedRec(ps[k], houseId, id)
      invariant forall k | i <= k < c.profiles.Length :: c.profiles[k] == ps[k]
    {
      var p := c.profiles[i];
      if p.head.houseId == houseId && p.head.id != id {
        c.profiles[i] := p.(head := p.head.(version := p.head.version + 1));
      }
    }
    BumpedValues(ps, c.profiles[..], houseId, id);
    ValuesStay(ps);
  }

  /** Checks and sets the zone of a profile's house. */
  method Rezone(c: Cell, zones: set<string>, i: nat, raw: string) returns (ok: bool)
    requires c.Valid() && i < c.profiles.Length
    modifies c.houses, c.profiles
    ensures var rezoned := Rezoned(zones, old(c.Value()), old(c.Value()).profiles[i], Some(raw));
            ok == rezoned.Some? && (ok ==> rezoned == Some(c.Value()))
    ensures ok ==> SameArrays(old(c.profiles[..]), c.profiles[..]) && c.profiles[i] == old(c.profiles[i])
  {
    hide ProfileValue, ProfileValues, Separate, RuleArrays, AllDomainArrays, SameArrays;
    var head := c.profiles[i].head;
    HeadIs(c, i);
    var zone := TrimSpace(raw);
    if zone != "" && zone !in zones { return false; }
    if head.houseId == "" { return false; }
    var h := IndexOfHouse(c, head.houseId);
    if h.None? { return false; }
    ghost var houses := c.houses[..];
    if c.houses[h.value].timeZone != zone {
      BumpOthers(c, head.houseId, head.id);
    } else {
      AlwaysSameArrays(c.profiles[..]);
    }
    label Bumped:
    c.houses[h.value] := c.houses[h.value].(timeZone := zone);
    assert c.houses[..] == houses[h.value := houses[h.value].(timeZone := zone)];
    ValuesStay@Bumped(c.profiles[..]);
    return true;
  }

  lemma AlwaysSameArrays(ps: seq<ProfileRec>)
    ensures SameArrays(ps, ps)
  {
  }

  /** The groups an update leaves a profile with. */
  method NextGroups(existing: seq<GroupRec>, inputs: Option<seq<GroupInput>>) returns (r: Option<seq<GroupRec>>)
    requires SeparateGroups(existing)
    ensures var merged := if inputs.None? then Some(old(GroupValues(existing)))
                          else MergedGroups(old(GroupValues(existing)), inputs.value, |inputs.value|);
            && (r.Some? <==> merged.Some?)
            && (r.Some? ==> GroupValues(r.value) == merged.value && SeparateGroups(r.value))
    ensures r.Some? ==> forall a | a in DomainArrays(r.value) :: a in DomainArrays(existing) || fresh(a)
  {
    if inputs.None? { return Some(existing); }
    r := MergeGroups(existing, inputs.value);
  }

  /** The head an update gives a profile. */
  function EditedHead(head: Profile, input: ProfileInput): Profile {
    head.(title := TrimSpace(input.title),
          defaultAction := if input.defaultAction == Unknown("") then Allow else input.defaultAction,
          pauses := if input.pauses.None? then head.pauses else input.pauses.value,
          version := head.version + 1)
  }

  lemma EditedValue(v: Profile, head: Profile, input: ProfileInput, groups: seq<RuleGroup>)
    requires v == head.(rules := v.rules, groups := v.groups) && TrimSpace(input.title) != ""
    requires Some(groups) == if input.groups.None? then Some(v.groups)
                             else MergedGroups(v.groups, input.groups.value, |input.groups.value|)
    ensures Edited(v, input) == Some(EditedHead(head, input).(rules := input.rules, groups := groups))
  {
  }

  /** Everything of an update but the zone. */
  method EditOne(c: Cell, i: nat, input: ProfileInput) returns (ok: bool)
    requires c.Valid() && i < c.profiles.Length && TrimSpace(input.title) != ""
    modifies c.profiles
    ensures var edited := Edited(old(c.Value()).profiles[i], input);
            && ok == edited.Some?
            && (ok ==> c.Value() == old(c.Value()).(profiles := old(c.Value()).profiles[i := edited.value]))
    ensures ok ==> c.Valid() && Grown(c)
  {
    hide ProfileValue, ProfileValues, Separate, SeparateGroups, RuleArrays, AllDomainArrays, DomainArrays, MergedGroups,
         EditedHead;
    ghost var ps := c.profiles[..];
    var p := c.profiles[i];
    HeadIs(c, i);
    GroupsAt(ps, i);
    var rules := Copy(input.rules);
    GroupsStay(p.groups);
    var groups := NextGroups(p.groups, input.groups);
    if groups.None? { return false; }
    EditedValue(old(c.Value()).profiles[i], p.head, input, GroupValues(groups.value));
    var changed := ProfileRec(EditedHead(p.head, input), rules, groups.value);
    NotAmongRules(ps, rules);
    forall a | a in DomainArrays(changed.groups) && a !in DomainArrays(p.groups)
      ensures a !in AllDomainArrays(ps)
    {
      NotAmong(ps, a);
    }
    OwnReached(ps, i);
    ValuesStay(ps);
    RecValue(p, changed);
    SetProfile(c, i, changed);
    forall a | a in AllDomainArrays(c.profiles[..])
      ensures a in AllDomainArrays(ps) || fresh(a)
    {
    }
    return true;
  }

  method PutOne(c: Cell, zones: set<string>, id: string, input: ProfileInput) returns (ok: bool)
    requires c.Valid()
    modifies c.houses, c.profiles
    ensures ok == Put(zones, old(c.Value()), id, input).Some?
    ensures ok ==> Put(zones, old(c.Value()), id, input) == Some(c.Value())
    ensures ok ==> c.Valid() && Grown(c)
  {
    hide ProfileValue, ProfileValues, Separate, RuleArrays, AllDomainArrays, SameArrays, Rezoned;
    var i := IndexOfProfile(c, id);
    if i.None? { return false; }
    if TrimSpace(input.title) == "" { return false; }
    ghost var ps := c.profiles[..];
    ghost var before := c.Value();
    if input.timeZone.Some? {
      ok := Rezone(c, zones, i.value, input.timeZone.value);
      if !ok { return false; }
    } else {
      AlwaysSameArrays(ps);
      NotRezoned(zones, before, before.profiles[i.value]);
    }
    SameArraysSeparate(ps, c.profiles[..]);
    ValueStays(ps[i.value]);
    ValueIds(c, i.value);
    ok := EditOne(c, i.value, input);
  }

  twostate lemma NotAmongRules(ps: seq<ProfileRec>, new a: array<Rule>)
    requires fresh(a)
    ensures a !in RuleArrays(ps)
  {
  }

  lemma NotRezoned(zones: set<string>, cfg: Config, p: Profile)
    ensures Rezoned(zones, cfg, p, None) == Some(cfg)
  {
  }

  function ZonedRec(p: ProfileRec, houses: seq<House>): ProfileRec {
    p.(head := p.head.(timeZone := ZoneOf(houses, |houses|, p.head.houseId)))
  }

  lemma ZonedRecs(ps: seq<ProfileRec>, after: seq<ProfileRec>, houses: seq<House>)
    requires |after| == |ps| && forall k | 0 <= k < |ps| :: after[k] == ZonedRec(ps[k], houses)
    ensures ProfileValues(after) == ZonedProfiles(ProfileValues(ps), houses) && SameArrays(ps, after)
  {
    hide ZoneOf;
    forall k | 0 <= k < |ps|
      ensures ProfileValues(after)[k] == ZonedProfiles(ProfileValues(ps), houses)[k]
    {
      HeadChange(ps[k], after[k].head);
    }
  }

  /** The map gives the zones of the first `n` houses. */
  ghost predicate ZoneMap(found: map<string, string>, houses: seq<House>, n: nat)
    requires n <= |houses|
  {
    forall id :: (if id in found then found[id] else DEFAULT_ZONE) == ZoneOf(houses, n, id)
  }

  lemma NoZones(houses: seq<House>)
    ensures ZoneMap(map[], houses, 0)
  {
  }

  lemma ZoneMapMore(found: map<string, string>, houses: seq<House>, n: nat)
    requires n < |houses| && ZoneMap(found, houses, n)
    ensures ZoneMap(found[houses[n].id := houses[n].timeZone], houses, n + 1)
  {
  }

  /** The zones of the houses by id, as the loop over houses collects them; it also fills in missing ones. */
  method CollectZones(c: Cell, zones: set<string>) returns (houseZones: Option<map<string, string>>)
    modifies c.houses
    ensures houseZones.Some? <==> ZonesKnown(zones, old(c.houses[..]))
    ensures houseZones.Some? ==> c.houses[..] == WithZones(old(c.houses[..]))
    ensures houseZones.Some? ==> ZoneMap(houseZones.value, c.houses[..], c.houses.Length)
  {
    hide ZoneMap, ZoneOf;
    ghost var before := c.houses[..];
    ghost var zoned := WithZones(before);
    var found: map<string, string> := map[];
    assert ZoneMap(found, zoned, 0) by { NoZones(zoned); }
    for i := 0 to c.houses.Length
      invariant forall k | 0 <= k < i :: c.houses[k] == zoned[k] && WithZone(before[k]).timeZone in zones
      invariant forall k | i <= k < c.houses.Length :: c.houses[k] == before[k]
      invariant ZoneMap(found, zoned, i)
    {
      var house := c.houses[i];
      if house.timeZone == "" { house := house.(timeZone := DEFAULT_ZONE); }
      assert house == WithZone(before[i]);
      c.houses[i] := house;
      if house.timeZone !in zones { return None; }
      ZoneMapMore(found, zoned, i);
      found := found[house.id := house.timeZone];
    }
    assert c.houses[..] == zoned;
    return Some(found);
  }

  /** The loop over profiles. */
  method SetZones(c: Cell, houseZones: map<string, string>, ghost houses: seq<House>)
    requires c.Valid()
    requires ZoneMap(houseZones, houses, |houses|)
    modifies c.profiles
    ensures ProfileValues(c.profiles[..]) == ZonedProfiles(old(ProfileValues(c.profiles[..])), houses)
    ensures c.Valid() && SameArrays(old(c.profiles[..]), c.profiles[..])
  {
    hide ProfileValue, ProfileValues, Separate, RuleArrays, AllDomainArrays, SameArrays, ZoneOf;
    ghost var ps := c.profiles[..];
    for i := 0 to c.profiles.Length
      invariant forall k | 0 <= k < i :: c.profiles[k] == ZonedRec(ps[k], houses)
      invariant forall k | i <= k < c.profiles.Length :: c.profiles[k] == ps[k]
    {
      var p := c.profiles[i];
      var zone := DEFAULT_ZONE;
      if p.head.houseId in houseZones { zone := houseZones[p.head.houseId]; }
      c.profiles[i] := p.(head := p.head.(timeZone := zone));
    }
    ZonedRecs(ps, c.profiles[..], houses);
    SameArraysSeparate(ps, c.profiles[..]);
    ValuesStay(ps);
  }

  method ApplyHouseTimeZones(c: Cell, zones: set<string>) returns (ok: bool)
    requires c.Valid()
    modifies c.houses, c.profiles
    ensures ok == Zoned(zones, old(c.Value())).Some?
    ensures ok ==> Zoned(zones, old(c.Value())) == Some(c.Value())
    ensures ok ==> c.Valid() && SameArrays(old(c.profiles[..]), c.profiles[..])
  {
    hide ProfileValue, ProfileValues, Separate, RuleArrays, AllDomainArrays, SameArrays, ZonesKnown, WithZones, ZoneOf;
    var houseZones := CollectZones(c, zones);
    if houseZones.None? { return false; }
    ValuesStay(c.profiles[..]);
    SetZones(c, houseZones.value, c.houses[..]);
    return true;
  }

  /** A handler's mutation of the copy. When it fails the copy may be half changed. */
  method Mutate(c: Cell, zones: set<string>, cmd: Command) returns (ok: bool)
    requires c.Valid()
    modifies c, c.houses, c.invitations, c.profiles
    ensures ok == Mutated(zones, old(c.Value()), cmd).Some?
    ensures ok ==> Mutated(zones, old(c.Value()), cmd) == Some(c.Value())
    ensures ok ==> c.Valid() && Grown(c)
  {
    hide ProfileValue, ProfileValues, Separate, Grown, Registered, Waitlisted, WithEmails, Deleted, Put, Disabled,
         Packaged, Rotated;
    match cmd
    case RegisterHouse(codeHash, house, profile, checkedAt, usedAt) =>
      ok := Register(c, codeHash, house, profile, checkedAt, usedAt);
    case CreateInvitation(codeHash, email, now) =>
      Invite(c, codeHash, email, now);
      ok := true;
    case JoinWaitlist(email, now) =>
      Wait(c, email, now);
      ok := true;
    case SetHouseEmails(houseId, emails) => ok := SetEmails(c, houseId, emails);
    case DeleteHouse(houseId) => ok := Delete(c, houseId);
    case CreateProfile(profile) =>
      AddProfile(c, profile);
      AddedIsGrown(c);
      ok := true;
    case PutProfile(id, input) => ok := PutOne(c, zones, id, input);
    case Disable(id) => ok := DisableProfile(c, id);
    case SetPackage(id, package, enabled, action) => ok := SwitchPackage(c, id, package, enabled, action);
    case RotateEndpoint(id, hostname) => ok := Rotate(c, id, hostname);
  }

  twostate lemma AddedIsGrown(c: Cell)
    requires c.houses == old(c.houses) && c.invitations == old(c.invitations) && fresh(c.profiles)
    requires forall a | a in RuleArrays(c.profiles[..]) :: a in old(RuleArrays(c.profiles[..])) || fresh(a)
    requires forall a | a in AllDomainArrays(c.profiles[..]) :: a in old(AllDomainArrays(c.profiles[..])) || fresh(a)
    ensures Grown(c)
  {
  }
}
