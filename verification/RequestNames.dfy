/** Names over whole runs: when every request brings in settled names only, every commit is asked for settled names. */
module RequestNames {
  import opened Text
  import opened Names
  import opened PolicyTypes
  import opened ConfigTypes
  import opened PolicyStore
  import opened PolicyRevalidation
  import opened AdminModel
  import opened AdminRuns
  import V = Versions

  predicate GroupNames(g: RuleGroup) {
    DomainsSettled(g.domains) && DomainsSettled(g.defaultDomains)
  }

  predicate AllGroupNames(groups: seq<RuleGroup>) {
    forall i | 0 <= i < |groups| :: GroupNames(groups[i])
  }

  predicate ProfileNames(p: Profile) {
    RulesSettled(p.rules) && AllGroupNames(p.groups)
  }

  /** Every rule, domain and default domain of a list of profiles, disabled ones included, is settled. */
  predicate ListNames(profiles: seq<Profile>) {
    forall i | 0 <= i < |profiles| :: ProfileNames(profiles[i])
  }

  predicate InputNames(inputs: seq<GroupInput>) {
    forall i | 0 <= i < |inputs| :: DomainsSettled(inputs[i].group.domains)
  }

  /** The names a request brings in are settled. */
  predicate RequestSettled(cmd: Command) {
    match cmd
    case RegisterHouse(_, _, profile, _, _) => ProfileNames(profile)
    case CreateProfile(profile) => ProfileNames(profile)
    case PutProfile(_, input) => RulesSettled(input.rules) && (input.groups.Some? ==> InputNames(input.groups.value))
    case SetPackage(_, package, _, _) => GroupNames(package)
    case _ => true
  }

  // ---- one command ------------------------------------------------------------------------

  lemma MergedNames(existing: seq<RuleGroup>, input: GroupInput)
    requires AllGroupNames(existing) && DomainsSettled(input.group.domains) && MergedGroup(existing, input).Some?
    ensures GroupNames(MergedGroup(existing, input).value)
  {
    hide DomainsSettled;
    NoNames();
    var known := Known(existing, TrimSpace(input.group.id));
    if known.Some? {
      var i :| 0 <= i < |existing| && existing[i] == known.value;
      assert GroupNames(existing[i]);
    }
  }

  lemma NoNames()
    ensures DomainsSettled([])
  {
  }

  lemma {:induction false} AllMergedNames(existing: seq<RuleGroup>, inputs: seq<GroupInput>, n: nat)
    requires n <= |inputs| && AllGroupNames(existing) && InputNames(inputs) && MergedGroups(existing, inputs, n).Some?
    ensures AllGroupNames(MergedGroups(existing, inputs, n).value)
  {
    hide GroupNames, MergedGroup, DomainsSettled;
    if n > 0 {
      AllMergedNames(existing, inputs, n - 1);
      assert DomainsSettled(inputs[n - 1].group.domains);
      MergedNames(existing, inputs[n - 1]);
    }
  }

  lemma EditedNames(p: Profile, input: ProfileInput)
    requires ProfileNames(p) && RulesSettled(input.rules) && (input.groups.Some? ==> InputNames(input.groups.value))
    requires Edited(p, input).Some?
    ensures ProfileNames(Edited(p, input).value)
  {
    hide AllGroupNames, InputNames, RulesSettled, MergedGroups;
    if input.groups.Some? {
      AllMergedNames(p.groups, input.groups.value, |input.groups.value|);
    }
  }

  lemma PackageNames(groups: seq<RuleGroup>, package: RuleGroup, enabled: bool, action: Action)
    requires AllGroupNames(groups) && GroupNames(package)
    ensures AllGroupNames(WithPackage(groups, package, enabled, action))
  {
    hide DomainsSettled;
    var after := WithPackage(groups, package, enabled, action);
    forall i | 0 <= i < |after|
      ensures GroupNames(after[i])
    {
      if i < |groups| { assert GroupNames(groups[i]); }
      if i + 1 < |groups| { assert GroupNames(groups[i + 1]); }
    }
  }

  lemma ReplacedNames(profiles: seq<Profile>, i: nat, q: Profile)
    requires ListNames(profiles) && i < |profiles| && ProfileNames(q)
    ensures ListNames(profiles[i := q])
  {
    hide ProfileNames;
  }

  lemma AppendedNames(profiles: seq<Profile>, q: Profile)
    requires ListNames(profiles) && ProfileNames(q)
    ensures ListNames(profiles + [q])
  {
    hide ProfileNames;
  }

  lemma RemainingNames(profiles: seq<Profile>, houseId: string)
    requires ListNames(profiles)
    ensures ListNames(Remaining(profiles, houseId, |profiles|))
  {
    hide ProfileNames;
    forall j | 0 <= j < |Remaining(profiles, houseId, |profiles|)|
      ensures ProfileNames(Remaining(profiles, houseId, |profiles|)[j])
    {
      var i := V.RemainingAt(profiles, houseId, |profiles|, j);
      assert ProfileNames(profiles[i]);
    }
  }

  /** Two profiles with the same rules and groups have the same names. */
  lemma SameNames(p: Profile, q: Profile)
    requires q.rules == p.rules && q.groups == p.groups && ProfileNames(p)
    ensures ProfileNames(q)
  {
  }

  lemma AllSameNames(a: seq<Profile>, b: seq<Profile>)
    requires |a| == |b| && ListNames(a)
    requires forall i | 0 <= i < |a| :: b[i].rules == a[i].rules && b[i].groups == a[i].groups
    ensures ListNames(b)
  {
    hide ProfileNames;
    forall i | 0 <= i < |b|
      ensures ProfileNames(b[i])
    {
      assert ProfileNames(a[i]);
      SameNames(a[i], b[i]);
    }
  }

  lemma PutNames(zones: set<string>, cfg: Config, next: Config, id: string, input: ProfileInput)
    requires ListNames(cfg.profiles) && RequestSettled(PutProfile(id, input))
             && Put(zones, cfg, id, input) == Some(next)
    ensures ListNames(next.profiles)
  {
    hide ProfileNames, ListNames, RulesSettled, InputNames, Edited;
    var i := FindProfile(cfg.profiles, id, 0).value;
    var rezoned := Rezoned(zones, cfg, cfg.profiles[i], input.timeZone).value;
    AllSameNames(cfg.profiles, rezoned.profiles);
    NamesAt(cfg.profiles, i);
    EditedNames(cfg.profiles[i], input);
    ReplacedNames(rezoned.profiles, i, Edited(cfg.profiles[i], input).value);
  }

  lemma NamesAt(profiles: seq<Profile>, i: nat)
    requires ListNames(profiles) && i < |profiles|
    ensures ProfileNames(profiles[i])
  {
  }

  lemma MutatedNames(zones: set<string>, cfg: Config, next: Config, cmd: Command)
    requires ListNames(cfg.profiles) && RequestSettled(cmd) && Mutated(zones, cfg, cmd) == Some(next)
    ensures ListNames(next.profiles)
  {
    hide ListNames, RulesSettled, AllGroupNames, InputNames, Put, WithPackage, GroupNames;
    match cmd
    case RegisterHouse(codeHash, house, profile, checkedAt, usedAt) => AppendedNames(cfg.profiles, profile);
    case CreateInvitation(codeHash, email, now) =>
    case JoinWaitlist(email, now) =>
    case SetHouseEmails(houseId, emails) =>
    case DeleteHouse(houseId) => RemainingNames(cfg.profiles, houseId);
    case CreateProfile(profile) => AppendedNames(cfg.profiles, profile);
    case PutProfile(id, input) => PutNames(zones, cfg, next, id, input);
    case Disable(id) =>
      var i := FindProfile(cfg.profiles, id, 0).value;
      NamesAt(cfg.profiles, i);
      ReplacedNames(cfg.profiles, i, next.profiles[i]);
    case SetPackage(id, package, enabled, action) =>
      var i := FindProfile(cfg.profiles, id, 0).value;
      NamesAt(cfg.profiles, i);
      PackageNames(cfg.profiles[i].groups, package, enabled, action);
      ReplacedNames(cfg.profiles, i, next.profiles[i]);
    case RotateEndpoint(id, hostname) =>
      var i := FindProfile(cfg.profiles, id, 0).value;
      NamesAt(cfg.profiles, i);
      ReplacedNames(cfg.profiles, i, next.profiles[i]);
  }

  lemma NamesAreSettled(profiles: seq<Profile>)
    requires ListNames(profiles)
    ensures AllSettled(profiles)
  {
    hide RulesSettled, DomainsSettled;
    forall i | 0 <= i < |profiles|
      ensures ProfileSettled(profiles[i])
    {
      NamesAt(profiles, i);
      assert forall k | 0 <= k < |profiles[i].groups| :: GroupNames(profiles[i].groups[k]);
    }
  }

  // ---- validation keeps names settled -------------------------------------------------------

  lemma StableIsSettled(value: string)
    requires NormalizeName(value).Some? && Settled(value)
    ensures Settled(Canonical(value))
  {
    CanonicalTwice(value);
    CanonicalTwice(Canonical(value));
  }

  lemma DomainsStaySettled(domains: seq<string>)
    requires DomainsOK(domains, |domains|) && DomainsSettled(domains)
    ensures DomainsSettled(NormalDomains(domains))
  {
    hide NormalizeName, Canonical, Settled;
    forall i | 0 <= i < |domains|
      ensures Settled(NormalDomains(domains)[i])
    {
      DomainsOKAt(domains, i);
      StableIsSettled(domains[i]);
    }
  }

  lemma NormalNames(zones: set<string>, p: Profile)
    requires ProfileNames(p) && (p.disabled || ProfileOK(zones, p))
    ensures ProfileNames(Normal(p))
  {
    hide NormalizeName, Canonical, Settled, PausesOK;
    if !p.disabled {
      forall i | 0 <= i < |p.rules|
        ensures Settled(NormalRules(p.rules)[i].domain)
      {
        assert RuleOK(p.rules[i]);
        StableIsSettled(p.rules[i].domain);
      }
      forall i | 0 <= i < |p.groups|
        ensures GroupNames(NormalGroups(p.groups)[i])
      {
        GroupsOKAt(p.groups, i);
        assert GroupNames(p.groups[i]);
        DomainsStaySettled(p.groups[i].domains);
      }
    }
  }

  lemma AllNormalNames(zones: set<string>, profiles: seq<Profile>)
    requires ListNames(profiles) && Accept(zones, profiles).Some?
    ensures ListNames(NormalAll(profiles))
  {
    hide ProfileNames, Normal, ProfileOK;
    forall i | 0 <= i < |profiles|
      ensures ProfileNames(NormalAll(profiles)[i])
    {
      NamesAt(profiles, i);
      if !profiles[i].disabled { AcceptedProfile(zones, profiles, |profiles|, i); }
      NormalNames(zones, profiles[i]);
    }
  }

  // ---- whole runs ----------------------------------------------------------------------------

  /** A settled request in a state of settled names asks for settled names, and a commit keeps them settled. */
  lemma UpdateNames(zones: set<string>, st: Control, cmd: Command, writable: bool)
    requires ListNames(st.config.profiles) && RequestSettled(cmd)
    ensures var next := Next(zones, st.config, cmd); next.Some? ==> AllSettled(next.value.profiles)
    ensures ListNames(Update(zones, st, cmd, writable).0.config.profiles)
  {
    hide ListNames, RequestSettled, Mutated, Accept, AllSettled, NormalAll, ZonesKnown;
    var mutated := Mutated(zones, st.config, cmd);
    if mutated.Some? && Next(zones, st.config, cmd).Some? {
      var next := Next(zones, st.config, cmd).value;
      MutatedNames(zones, st.config, mutated.value, cmd);
      AllSameNames(mutated.value.profiles, next.profiles);
      NamesAreSettled(next.profiles);
      if Accept(zones, next.profiles).Some? {
        RevalidationExactly(zones, next.profiles);
        AllNormalNames(zones, next.profiles);
      }
    }
  }

  predicate SettledRequest(requests: seq<Request>, k: nat)
    requires k < |requests|
  {
    RequestSettled(requests[k].cmd)
  }

  lemma NextNames(zones: set<string>, requests: seq<Request>, states: seq<Control>, k: nat)
    requires Behaviour(zones, requests, states) && k < |requests| && SettledRequest(requests, k)
    requires ListNames(states[k].config.profiles)
    ensures SettledAt(zones, requests, states, k) && ListNames(states[k + 1].config.profiles)
  {
    hide ListNames, RequestSettled, Next, AllSettled, Update;
    assert Stepped(zones, requests, states, k);
    UpdateNames(zones, states[k], requests[k].cmd, requests[k].writable);
  }

  lemma {:induction false} NamesStaySettled(zones: set<string>, requests: seq<Request>, states: seq<Control>, k: nat)
    requires Behaviour(zones, requests, states) && k <= |requests| && ListNames(states[0].config.profiles)
    requires forall m | 0 <= m < |requests| :: SettledRequest(requests, m)
    ensures ListNames(states[k].config.profiles)
  {
    hide ListNames, SettledRequest, Update;
    if k > 0 {
      NamesStaySettled(zones, requests, states, k - 1);
      assert SettledRequest(requests, k - 1);
      NextNames(zones, requests, states, k - 1);
    }
  }

  lemma EveryCommitIsSettled(zones: set<string>, requests: seq<Request>, states: seq<Control>)
    requires Behaviour(zones, requests, states) && ListNames(states[0].config.profiles)
    requires forall m | 0 <= m < |requests| :: SettledRequest(requests, m)
    ensures forall m | 0 <= m < |requests| :: SettledAt(zones, requests, states, m)
  {
    hide ListNames, SettledRequest, SettledAt, Update;
    forall m | 0 <= m < |requests|
      ensures SettledAt(zones, requests, states, m)
    {
      NamesStaySettled(zones, requests, states, m);
      assert SettledRequest(requests, m);
      NextNames(zones, requests, states, m);
    }
  }

  /** When every request brings in settled names only, file and active store reflect the configuration in every state
      of every run that starts so. */
  lemma SettledRequestsStayInSync(zones: set<string>, requests: seq<Request>, states: seq<Control>, k: nat)
    requires Behaviour(zones, requests, states) && k <= |requests|
    requires InSync(zones, states[0]) && ListNames(states[0].config.profiles)
    requires forall m | 0 <= m < |requests| :: SettledRequest(requests, m)
    ensures InSync(zones, states[k])
  {
    hide ListNames, SettledRequest, SettledAt, InSync, Update;
    EveryCommitIsSettled(zones, requests, states);
    AlwaysInSync(zones, requests, states, k);
  }

  /** When every request brings in settled names and new ids only, a version pins a policy. */
  lemma SettledRequestsPinPolicies(zones: set<string>, requests: seq<Request>, states: seq<Control>, i: nat, j: nat,
                                   p: Profile, q: Profile)
    requires Behaviour(zones, requests, states) && i <= j <= |requests|
    requires V.Regular(zones, states[0].config) && ListNames(states[0].config.profiles)
    requires forall m | 0 <= m < |requests| :: SettledRequest(requests, m)
    requires forall m | 0 <= m < |requests| :: V.FreshIdsAt(requests, states, m)
    requires p in states[i].config.profiles && q in states[j].config.profiles && p.id == q.id
    ensures p.version <= q.version && (p.version == q.version ==> p == q)
  {
    hide ListNames, SettledRequest, SettledAt, Update, V.FreshIdsAt, V.Regular;
    EveryCommitIsSettled(zones, requests, states);
    forall m | 0 <= m < |requests|
      ensures V.CarefulAt(zones, requests, states, m)
    {
      assert SettledAt(zones, requests, states, m) && V.FreshIdsAt(requests, states, m);
    }
    V.VersionPinsPolicy(zones, requests, states, i, j, p, q);
  }
}
