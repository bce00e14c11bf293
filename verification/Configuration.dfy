/** The configuration on the heap: lists that commands and validation change in place, and the deep copy. */
module Configuration {
  import opened ConfigTypes
  import opened PolicyManager

  class Cell {
    var houses: array<House>
    var invitations: array<Invitation>
    var waitlist: seq<WaitlistEntry>
    var profiles: array<ProfileRec>

    constructor (houses: array<House>, invitations: array<Invitation>, waitlist: seq<WaitlistEntry>,
                 profiles: array<ProfileRec>)
      ensures this.houses == houses && this.invitations == invitations
      ensures this.waitlist == waitlist && this.profiles == profiles
    {
      this.houses, this.invitations, this.waitlist, this.profiles := houses, invitations, waitlist, profiles;
    }

    /** The configuration as a value. */
    function Value(): Config
      reads this, houses, invitations, profiles, RuleArrays(profiles[..]), AllDomainArrays(profiles[..])
    {
      Config(houses[..], invitations[..], waitlist, ProfileValues(profiles[..]))
    }

    /** No two profiles or groups share an array. */
    ghost predicate Valid()
      reads this, profiles
    {
      Separate(profiles[..])
    }
  }

  // ---- the deep copy -----------------------------------------------------------------

  lemma DomainArraysMore(groups: seq<GroupRec>, g: GroupRec)
    ensures DomainArrays(groups + [g]) == DomainArrays(groups) + {g.domains}
  {
    assert forall x :: x in groups + [g] <==> x in groups || x == g;
  }

  lemma ArraysMore(ps: seq<ProfileRec>, p: ProfileRec)
    ensures RuleArrays(ps + [p]) == RuleArrays(ps) + {p.rules}
    ensures AllDomainArrays(ps + [p]) == AllDomainArrays(ps) + DomainArrays(p.groups)
  {
    assert forall x :: x in ps + [p] <==> x in ps || x == p;
  }

  /** Profiles keep their values while their arrays do. */
  twostate lemma ValuesStay(ps: seq<ProfileRec>)
    requires forall i | 0 <= i < |ps| :: unchanged(ps[i].rules)
    requires forall i, k | 0 <= i < |ps| && 0 <= k < |ps[i].groups| :: unchanged(ps[i].groups[k].domains)
    ensures ProfileValues(ps) == old(ProfileValues(ps))
  {
    forall i | 0 <= i < |ps|
      ensures ProfileValue(ps[i]) == old(ProfileValue(ps[i]))
    {
      ValueStays(ps[i]);
    }
  }

  twostate lemma GroupsStay(groups: seq<GroupRec>)
    requires forall k | 0 <= k < |groups| :: unchanged(groups[k].domains)
    ensures GroupValues(groups) == old(GroupValues(groups))
  {
    forall i | 0 <= i < |groups|
      ensures GroupValue(groups[i]) == old(GroupValue(groups[i]))
    {
    }
  }

  twostate lemma ValueStays(p: ProfileRec)
    requires unchanged(p.rules) && forall k | 0 <= k < |p.groups| :: unchanged(p.groups[k].domains)
    ensures ProfileValue(p) == old(ProfileValue(p))
  {
    GroupsStay(p.groups);
  }

  /** A new array with the given contents. */
  method Copy<T>(s: seq<T>) returns (a: array<T>)
    ensures fresh(a) && a[..] == s
  {
    a := new T[|s|](i requires 0 <= i < |s| => s[i]);
  }

  method CloneGroups(groups: seq<GroupRec>) returns (r: seq<GroupRec>)
    ensures GroupValues(r) == GroupValues(groups)
    ensures SeparateGroups(r) && fresh(DomainArrays(r))
  {
    r := [];
    for i := 0 to |groups|
      invariant |r| == i && SeparateGroups(r) && fresh(DomainArrays(r))
      invariant forall k | 0 <= k < i :: GroupValue(r[k]) == GroupValue(groups[k])
    {
      var domains := Copy(groups[i].domains[..]);
      DomainArraysMore(r, GroupRec(groups[i].head, domains));
      r := r + [GroupRec(groups[i].head, domains)];
    }
  }

  method CloneProfile(p: ProfileRec) returns (r: ProfileRec)
    ensures ProfileValue(r) == ProfileValue(p)
    ensures SeparateGroups(r.groups) && fresh(r.rules) && fresh(DomainArrays(r.groups))
  {
    var rules := Copy(p.rules[..]);
    var groups := CloneGroups(p.groups);
    r := ProfileRec(p.head, rules, groups);
  }

  method CloneProfiles(ps: seq<ProfileRec>) returns (r: seq<ProfileRec>)
    ensures ProfileValues(r) == ProfileValues(ps) && Separate(r)
    ensures fresh(RuleArrays(r)) && fresh(AllDomainArrays(r))
  {
    hide SeparateGroups, Separate, ProfileValue;
    r := [];
    NoneSeparate();
    for i := 0 to |ps|
      invariant |r| == i && Separate(r)
      invariant fresh(RuleArrays(r)) && fresh(AllDomainArrays(r))
      invariant forall k | 0 <= k < i :: ProfileValue(r[k]) == ProfileValue(ps[k])
    {
      label Before:
      var p := CloneProfile(ps[i]);
      forall k | 0 <= k < i
        ensures ProfileValue(r[k]) == ProfileValue(ps[k])
      {
        ValueStays@Before(r[k]);
        ValueStays@Before(ps[k]);
      }
      SeparateMore(r, p);
      ArraysMore(r, p);
      r := r + [p];
    }
  }

  lemma NoneSeparate()
    ensures Separate([])
  {
  }

  /** A profile whose arrays no earlier one has can be appended. */
  lemma SeparateMore(ps: seq<ProfileRec>, p: ProfileRec)
    requires Separate(ps) && SeparateGroups(p.groups)
    requires p.rules !in RuleArrays(ps) && DomainArrays(p.groups) !! AllDomainArrays(ps)
    ensures Separate(ps + [p])
  {
    hide SeparateGroups;
    forall i | 0 <= i < |ps|
      ensures Apart(ps[i], p)
    {
      assert ps[i] in ps;
    }
  }

  method CloneConfig(cfg: Cell) returns (r: Cell)
    ensures r.Value() == cfg.Value() && r.Valid()
    ensures fresh(r) && fresh(r.houses) && fresh(r.invitations) && fresh(r.profiles)
    ensures fresh(RuleArrays(r.profiles[..])) && fresh(AllDomainArrays(r.profiles[..]))
  {
    hide ProfileValues, ProfileValue, Separate, RuleArrays, AllDomainArrays;
    var ps := CloneProfiles(cfg.profiles[..]);
    label Cloned:
    var houses := Copy(cfg.houses[..]);
    var invitations := Copy(cfg.invitations[..]);
    var profiles := Copy(ps);
    r := new Cell(houses, invitations, cfg.waitlist, profiles);
    ValuesStay@Cloned(ps);
    ValuesStay@Cloned(cfg.profiles[..]);
  }
}
