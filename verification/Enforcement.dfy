/** The whole way, over whole runs: from the requests a family makes to what its browser redirects. */
module Enforcement {
  import opened Text
  import opened Names
  import opened PolicyTypes
  import opened ConfigTypes
  import opened PolicyStore
  import opened PolicyRevalidation
  import opened Decision
  import opened DnrCompiler
  import opened DnrCorrectness
  import opened PolicyPipeline
  import opened AdminModel
  import opened AdminRuns
  import opened RequestNames
  import opened ServedPolicy
  import RuleCache

  /** The active store holds the published profiles, which validation leaves as they are. What the file holds does
      not matter. */
  ghost predicate Serving(zones: set<string>, st: Control) {
    && st.active == st.config.profiles && Accept(zones, st.config.profiles) == Some(st.index)
    && NormalAll(st.config.profiles) == st.config.profiles
  }

  /** A server that starts on settled names is serving, whatever its file holds. */
  lemma StartsServing(zones: set<string>, zoned: Config, file: Config, index: Index)
    requires Accept(zones, zoned.profiles) == Some(index) && ListNames(zoned.profiles)
    ensures var st := Control(NormalConfig(zoned), file, NormalAll(zoned.profiles), index);
            Serving(zones, st) && ListNames(st.config.profiles)
  {
    hide Accept, ListNames, AllSettled;
    NamesAreSettled(zoned.profiles);
    RevalidationExactly(zones, zoned.profiles);
    SecondValidationExactly(zones, zoned.profiles);
    AllNormalNames(zones, zoned.profiles);
  }

  lemma KeepsServing(zones: set<string>, st: Control, cmd: Command, writable: bool)
    requires Serving(zones, st)
    requires Next(zones, st.config, cmd).Some? ==> AllSettled(Next(zones, st.config, cmd).value.profiles)
    ensures Serving(zones, Update(zones, st, cmd, writable).0)
  {
    hide Next, Accept, AllSettled, NormalAll;
    CommitIsAllOrNothing(zones, st, cmd, writable);
    if Update(zones, st, cmd, writable).1 {
      RevalidationExactly(zones, Next(zones, st.config, cmd).value.profiles);
    }
  }

  lemma {:induction false} StaysServing(zones: set<string>, requests: seq<Request>, states: seq<Control>, k: nat)
    requires Behaviour(zones, requests, states) && k <= |requests| && Serving(zones, states[0])
    requires forall m | 0 <= m < |requests| :: SettledAt(zones, requests, states, m)
    ensures Serving(zones, states[k])
  {
    hide Update, Serving, AllSettled, Next;
    if k > 0 {
      StaysServing(zones, requests, states, k - 1);
      assert Stepped(zones, requests, states, k - 1) && SettledAt(zones, requests, states, k - 1);
      KeepsServing(zones, states[k - 1], requests[k - 1].cmd, requests[k - 1].writable);
    }
  }

  lemma PublishedIsNormal(zones: set<string>, st: Control, i: nat)
    requires Serving(zones, st) && i < |st.config.profiles|
    ensures Normal(st.config.profiles[i]) == st.config.profiles[i]
  {
    assert NormalAll(st.config.profiles)[i] == Normal(st.config.profiles[i]);
  }

  lemma EnforcedWhileServing(zones: set<string>, st: Control, i: nat, clock: Clock, extensionId: string, host: string)
    requires Serving(zones, st) && i < |st.config.profiles| && !st.config.profiles[i].disabled && Stable(host)
    requires Compile(st.config.profiles[i], clock, extensionId).Compiled?
    ensures ByHostname(st.index, st.config.profiles[i].hostname) == Some(i) && i < |st.active|
    ensures DecisionGo(Kept(st.active[i]), host, clock).Some?
    ensures Redirected(Compile(st.config.profiles[i], clock, extensionId).rules, host) <==>
            !Under(extensionId, host) && DecisionGo(Kept(st.active[i]), host, clock).value.action == Block
  {
    hide Accept, NormalAll, ByHostname, Compile, Redirected, DecisionGo, Kept, Stable, Normal;
    PublishedIsNormal(zones, st, i);
    HostnameFindsProfile(zones, st.config.profiles, i);
    BrowserEnforcesTheStore(zones, st.config.profiles, i, clock, extensionId, host);
  }

  /** In every state of every run of settled requests, for every enabled profile of the published configuration, every
      clock and every normalised host: the resolver finds the profile under its hostname, and a browser that compiled
      what is served of it redirects exactly the hosts, other than the extension's own, that the resolver blocks. */
  lemma EveryStateIsEnforced(zones: set<string>, requests: seq<Request>, states: seq<Control>, k: nat, i: nat,
                             clock: Clock, extensionId: string, host: string)
    requires Behaviour(zones, requests, states) && k <= |requests|
    requires Serving(zones, states[0]) && ListNames(states[0].config.profiles)
    requires forall m | 0 <= m < |requests| :: SettledRequest(requests, m)
    requires i < |states[k].config.profiles| && !states[k].config.profiles[i].disabled && Stable(host)
    requires Compile(Served(states[k].config.profiles[i]), clock, extensionId).Compiled?
    ensures var st, p := states[k], states[k].config.profiles[i];
            && ByHostname(st.index, p.hostname) == Some(i) && i < |st.active|
            && DecisionGo(Kept(st.active[i]), host, clock).Some?
            && (Redirected(Compile(Served(p), clock, extensionId).rules, host) <==>
                  !Under(extensionId, host) && DecisionGo(Kept(st.active[i]), host, clock).value.action == Block)
  {
    hide Serving, ListNames, SettledRequest, SettledAt, Update, Compile, Redirected, DecisionGo, Kept, Stable,
         ByHostname, Served;
    ServedIsEnough(states[k].config.profiles[i], host, clock, extensionId);
    EveryCommitIsSettled(zones, requests, states);
    StaysServing(zones, requests, states, k);
    EnforcedWhileServing(zones, states[k], i, clock, extensionId, host);
  }

  /** And through the extension's worker: once it has stored what some state of the run serves, whatever steps it has
      taken before, its next recompute leaves the browser enforcing what that state's resolver does. */
  lemma WorkerEnforcesEveryState(zones: set<string>, requests: seq<Request>, states: seq<Control>, k: nat, i: nat,
                                 steps: seq<RuleCache.Step>, clock: Clock, extensionId: string, host: string)
    requires Behaviour(zones, requests, states) && k <= |requests|
    requires Serving(zones, states[0]) && ListNames(states[0].config.profiles)
    requires forall m | 0 <= m < |requests| :: SettledRequest(requests, m)
    requires i < |states[k].config.profiles| && !states[k].config.profiles[i].disabled && Stable(host)
    requires Compile(Served(states[k].config.profiles[i]), clock, extensionId).Compiled?
    requires RuleCache.NoBadStep(steps, extensionId)
    requires var worker := RuleCache.Run(steps, extensionId);
             worker.work.Idle? && worker.stored.snapshot == Some(Served(states[k].config.profiles[i]))
    ensures i < |states[k].active| && DecisionGo(Kept(states[k].active[i]), host, clock).Some?
    ensures var worker := RuleCache.Run(steps, extensionId);
            Redirected(RuleCache.Recompute(worker, Some(clock), extensionId).sessionRules, host) <==>
            !Under(extensionId, host) && DecisionGo(Kept(states[k].active[i]), host, clock).value.action == Block
  {
    hide Serving, ListNames, SettledRequest, Update, Compile, Redirected, DecisionGo, Kept, Stable, ByHostname, Served,
         RuleCache.Sound, RuleCache.Describes, RuleCache.Recompute, RuleCache.Run, RuleCache.NoBadStep;
    EveryStateIsEnforced(zones, requests, states, k, i, clock, extensionId, host);
    RuleCache.SignatureAlwaysDescribes(steps, extensionId);
    RuleCache.RecomputeInstallsCurrent(RuleCache.Run(steps, extensionId), clock, extensionId);
  }
}
