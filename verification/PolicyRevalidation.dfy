/** Validating twice: the commit step validates a list, writes it, and validates the rewritten list again. */
module PolicyRevalidation {
  import opened Text
  import opened Names
  import opened PolicyTypes
  import opened Occupancy
  import opened PolicyStore

  predicate RulesSettled(rules: seq<Rule>) {
    forall i | 0 <= i < |rules| :: Settled(rules[i].domain)
  }

  predicate DomainsSettled(domains: seq<string>) {
    forall i | 0 <= i < |domains| :: Settled(domains[i])
  }

  predicate GroupsSettled(groups: seq<RuleGroup>) {
    forall i | 0 <= i < |groups| :: DomainsSettled(groups[i].domains)
  }

  /** Every name that validation rewrites is settled. */
  predicate ProfileSettled(p: Profile) {
    p.disabled || (RulesSettled(p.rules) && GroupsSettled(p.groups))
  }

  predicate AllSettled(profiles: seq<Profile>) {
    forall i | 0 <= i < |profiles| :: ProfileSettled(profiles[i])
  }

  /** One name: its normal form has the same normal form exactly when it is settled. */
  lemma CanonicalTwice(value: string)
    requires NormalizeName(value).Some?
    ensures NormalizeName(Canonical(value)) == Some(Canonical(value)) <==> Settled(value)
  {
    NormalFormIsStable(value, Canonical(value));
  }

  lemma RulesTwice(rules: seq<Rule>)
    requires RulesOK(rules)
    ensures RulesOK(NormalRules(rules)) && NormalRules(NormalRules(rules)) == NormalRules(rules) <==>
            RulesSettled(rules)
  {
    var once := NormalRules(rules);
    if RulesSettled(rules) {
      forall i | 0 <= i < |rules|
        ensures RuleOK(once[i]) && NormalRule(once[i]) == once[i]
      {
        assert RuleOK(rules[i]);
        CanonicalTwice(rules[i].domain);
      }
    } else {
      var i :| 0 <= i < |rules| && !Settled(rules[i].domain);
      assert RuleOK(rules[i]);
      CanonicalTwice(rules[i].domain);
      assert !RuleOK(once[i]) || NormalRules(once)[i] != once[i];
    }
  }

  lemma {:induction false} SettledDomainsOK(domains: seq<string>, n: nat)
    requires n <= |domains| && DomainsOK(domains, n) && DomainsSettled(domains)
    ensures DomainsOK(NormalDomains(domains), n) && Forms(NormalDomains(domains), n) == Forms(domains, n)
  {
    hide NormalizeName, Settled;
    if n > 0 {
      SettledDomainsOK(domains, n - 1);
      assert Settled(domains[n - 1]);
      CanonicalTwice(domains[n - 1]);
    }
  }

  lemma DomainsTwice(domains: seq<string>)
    requires DomainsOK(domains, |domains|)
    ensures DomainsOK(NormalDomains(domains), |domains|)
            && NormalDomains(NormalDomains(domains)) == NormalDomains(domains)
            <==> DomainsSettled(domains)
  {
    hide NormalizeName, Settled;
    var once := NormalDomains(domains);
    if DomainsSettled(domains) {
      SettledDomainsOK(domains, |domains|);
      forall i | 0 <= i < |domains|
        ensures Canonical(once[i]) == once[i]
      {
        DomainsOKAt(domains, i);
        CanonicalTwice(domains[i]);
      }
    } else {
      var i :| 0 <= i < |domains| && !Settled(domains[i]);
      DomainsOKAt(domains, i);
      CanonicalTwice(domains[i]);
      if DomainsOK(once, |domains|) {
        DomainsOKAt(once, i);
        assert NormalDomains(once)[i] != once[i];
      }
    }
  }

  lemma GroupTwice(g: RuleGroup)
    requires GroupOK(g)
    ensures GroupOK(NormalGroup(g)) && NormalGroup(NormalGroup(g)) == NormalGroup(g) <==> DomainsSettled(g.domains)
  {
    DomainsTwice(g.domains);
  }

  lemma {:induction false} SameIds(groups: seq<RuleGroup>, n: nat)
    requires n <= |groups|
    ensures GroupIds(NormalGroups(groups), n) == GroupIds(groups, n)
  {
    if n > 0 {
      SameIds(groups, n - 1);
    }
  }

  lemma {:induction false} SettledGroupsOK(groups: seq<RuleGroup>, n: nat)
    requires n <= |groups| && GroupsOK(groups, n) && GroupsSettled(groups)
    ensures GroupsOK(NormalGroups(groups), n)
  {
    hide GroupOK;
    if n > 0 {
      SettledGroupsOK(groups, n - 1);
      SameIds(groups, n - 1);
      assert DomainsSettled(groups[n - 1].domains);
      GroupTwice(groups[n - 1]);
    }
  }

  lemma GroupsTwice(groups: seq<RuleGroup>)
    requires GroupsOK(groups, |groups|)
    ensures GroupsOK(NormalGroups(groups), |groups|) && NormalGroups(NormalGroups(groups)) == NormalGroups(groups)
            <==> GroupsSettled(groups)
  {
    hide GroupOK;
    var once := NormalGroups(groups);
    if GroupsSettled(groups) {
      SettledGroupsOK(groups, |groups|);
      forall i | 0 <= i < |groups|
        ensures NormalGroup(once[i]) == once[i]
      {
        GroupsOKAt(groups, i);
        GroupTwice(groups[i]);
      }
    } else {
      var i :| 0 <= i < |groups| && !DomainsSettled(groups[i].domains);
      GroupsOKAt(groups, i);
      GroupTwice(groups[i]);
      if GroupsOK(once, |groups|) {
        GroupsOKAt(once, i);
        assert NormalGroups(once)[i] != once[i];
      }
    }
  }

  lemma ProfileTwice(zones: set<string>, p: Profile)
    requires ProfileOK(zones, p) && !p.disabled
    ensures ProfileOK(zones, Normal(p)) && Normal(Normal(p)) == Normal(p) <==> ProfileSettled(p)
  {
    RulesTwice(p.rules);
    GroupsTwice(p.groups);
  }

  /** The second validation fails at a profile the first accepted exactly when one of its rewritten names has no
      normal form or two in one group have the same. */
  predicate Collapses(p: Profile) {
    !p.disabled && (!RulesOK(NormalRules(p.rules)) || !GroupsOK(NormalGroups(p.groups), |p.groups|))
  }

  lemma CollapsedIsRefused(zones: set<string>, p: Profile)
    requires ProfileOK(zones, p) && !p.disabled
    ensures ProfileOK(zones, Normal(p)) <==> !Collapses(p)
  {
  }

  lemma {:induction false} RebuildSame(zones: set<string>, profiles: seq<Profile>, n: nat)
    requires n <= |profiles| && Build(zones, profiles, n).Some?
    requires forall i | 0 <= i < n :: !Collapses(profiles[i])
    ensures Build(zones, NormalAll(profiles), n) == Build(zones, profiles, n)
  {
    hide ProfileOK, Collapses;
    if n > 0 {
      RebuildSame(zones, profiles, n - 1);
      assert NormalAll(profiles)[n - 1] == Normal(profiles[n - 1]);
      if !profiles[n - 1].disabled {
        CollapsedIsRefused(zones, profiles[n - 1]);
      }
    }
  }

  lemma {:induction false} RebuildStops(zones: set<string>, profiles: seq<Profile>, n: nat, i: nat)
    requires i < n <= |profiles| && !profiles[i].disabled && !ProfileOK(zones, Normal(profiles[i]))
    ensures Build(zones, NormalAll(profiles), n).None?
  {
    hide ProfileOK;
    if i < n - 1 {
      RebuildStops(zones, profiles, n - 1, i);
    } else {
      assert NormalAll(profiles)[i] == Normal(profiles[i]);
    }
  }

  /** After a list was accepted, validating its rewritten form again is refused exactly when some enabled profile
      collapses, and otherwise builds the same indexes. */
  lemma SecondValidationExactly(zones: set<string>, profiles: seq<Profile>)
    requires Accept(zones, profiles).Some?
    ensures Accept(zones, NormalAll(profiles)).None? <==> exists i :: 0 <= i < |profiles| && Collapses(profiles[i])
    ensures Accept(zones, NormalAll(profiles)).Some? ==> Accept(zones, NormalAll(profiles)) == Accept(zones, profiles)
  {
    if i :| 0 <= i < |profiles| && Collapses(profiles[i]) {
      AcceptedProfile(zones, profiles, |profiles|, i);
      CollapsedIsRefused(zones, profiles[i]);
      RebuildStops(zones, profiles, |profiles|, i);
    } else {
      RebuildSame(zones, profiles, |profiles|);
    }
  }

  /** After a list was accepted, validating its rewritten form again passes and changes nothing exactly when every
      name in an enabled profile is settled. */
  lemma RevalidationExactly(zones: set<string>, profiles: seq<Profile>)
    requires Accept(zones, profiles).Some?
    ensures Accept(zones, NormalAll(profiles)).Some? && NormalAll(NormalAll(profiles)) == NormalAll(profiles)
            <==> AllSettled(profiles)
  {
    var once := NormalAll(profiles);
    SecondValidationExactly(zones, profiles);
    forall i | 0 <= i < |profiles|
      ensures !Collapses(profiles[i]) && Normal(once[i]) == once[i] <==> ProfileSettled(profiles[i])
    {
      if !profiles[i].disabled {
        AcceptedProfile(zones, profiles, |profiles|, i);
        ProfileTwice(zones, profiles[i]);
      }
    }
    if !AllSettled(profiles) {
      var i :| 0 <= i < |profiles| && !ProfileSettled(profiles[i]);
      assert Collapses(profiles[i]) || NormalAll(once)[i] != once[i];
    }
  }

  lemma TwoDomains(x: string, y: string)
    ensures NormalDomains([x, y]) == [Canonical(x), Canonical(y)]
    ensures DomainsOK([x, y], 2) ==> Canonical(x) != Canonical(y)
  {
    hide NormalizeName, Canonical;
    var domains := [x, y];
    DomainsOKAt(domains, 1);
    assert Forms(domains, 1) == Forms(domains, 0) + {Canonical(domains[0])};
  }

  /** Two names of one group that become the same only when normalised twice: accepted, and then refused. */
  lemma SecondNormalFormsCollide(zones: set<string>, p: Profile, g: RuleGroup, x: string, y: string)
    requires !p.disabled && ProfileOK(zones, p) && p.groups == [g] && g.domains == [x, y]
    requires Canonical(Canonical(x)) == Canonical(Canonical(y))
    ensures Accept(zones, [p]).Some? ==> Accept(zones, NormalAll([p])).None?
  {
    hide SchedulesOK, DomainsOK, PausesOK, RulesOK, Canonical;
    TwoDomains(x, y);
    TwoDomains(Canonical(x), Canonical(y));
    assert NormalGroups(p.groups)[0].domains == [Canonical(x), Canonical(y)];
    GroupsOKAt(NormalGroups(p.groups), 0);
    assert !ProfileOK(zones, Normal(p));
    RebuildStops(zones, [p], 1, 0);
  }

  lemma DoubleDotForms()
    ensures Canonical(Canonical("a..")) == Canonical(Canonical("a"))
  {
    DoubleDotIsNotIdempotent();
    TrimKeeps("a");
    assert Lower("a") == "a";
  }

  /** A group listing "a.." and "a": accepted, written out as "a." and "a", and then refused. */
  lemma DoubleDotCollapses(zones: set<string>, p: Profile, g: RuleGroup)
    requires !p.disabled && ProfileOK(zones, p) && p.groups == [g] && g.domains == ["a..", "a"]
    ensures Accept(zones, [p]).Some? && Accept(zones, NormalAll([p])).None?
  {
    hide ProfileOK, Canonical;
    DoubleDotForms();
    var x, y := "a..", "a";
    assert Build(zones, [p], 0).Some?;
    SecondNormalFormsCollide(zones, p, g, x, y);
  }
}
