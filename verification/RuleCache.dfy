/** The background worker's rule cache: a stored signature that lets a recompute skip the rebuild. */
module RuleCache {
  import opened Text
  import opened Names
  import opened PolicyTypes
  import opened Matching
  import opened ExtensionDecision
  import opened DnrCompiler
  import opened DnrEmission
  import opened DnrCorrectness

  /** The stored `rulesSig`: absent, `null`, or the text of compiled rules. The text stands for the
      rules it prints: `JSON.stringify` keeps every field of a rule list apart. */
  datatype Sig = Unset | Null | Signature(rules: seq<DnrRule>)

  /** What the extension keeps in storage, as far as the rules go. */
  datatype Stored = Stored(snapshot: Option<Profile>, rulesSig: Sig)

  /** Where a recompute stands: it is to install rules, has installed them, or has read the state that it is to store
      with their signature; or, without a snapshot, it is to remove all rules, or has removed them, and keeps the state
      it has read. Recomputes are queued, so there is one at a time. */
  datatype Work =
    | Idle
    | Planned(rules: seq<DnrRule>, sig: Sig) | Written(sig: Sig) | Signing(sig: Sig, read: Stored)
    | Clearing(read: Stored) | Cleared(read: Stored)

  datatype Cache = Cache(stored: Stored, sessionRules: seq<DnrRule>, work: Work)

  const FRESH_INSTALL := Cache(Stored(None, Unset), [], Idle)

  // ---- the signature determines the rules ----------------------------------

  function Excluded(rule: DnrRule, extensionId: string): DnrRule {
    rule.(condition := rule.condition.(excluded := Excluding(extensionId)))
  }

  /** Compiled rules with the extension's own host taken out of each. */
  function WithExclusion(rules: seq<DnrRule>, extensionId: string): (r: seq<DnrRule>)
    ensures |r| == |rules|
  {
    if rules == [] then []
    else WithExclusion(rules[..|rules| - 1], extensionId) + [Excluded(rules[|rules| - 1], extensionId)]
  }

  function ExcludeAll(output: Compiled, extensionId: string): Compiled {
    match output
    case RangeError => RangeError
    case Compiled(rules) => Compiled(WithExclusion(rules, extensionId))
  }

  lemma ExclusionSnoc(rules: seq<DnrRule>, rule: DnrRule, extensionId: string)
    ensures WithExclusion(rules + [rule], extensionId) ==
            WithExclusion(rules, extensionId) + [Excluded(rule, extensionId)]
  {
    assert (rules + [rule])[..|rules|] == rules;
  }

  lemma {:induction false} AddCandidatesExcludes(before: seq<DnrRule>, cs: seq<Candidate>, n: nat, extensionId: string)
    ensures AddCandidates(Compiled(WithExclusion(before, extensionId)), cs, n, extensionId) ==
            ExcludeAll(AddCandidates(Compiled(before), cs, n, ""), extensionId)
  {
    if cs != [] {
      var c, init := cs[|cs| - 1], cs[..|cs| - 1];
      AddCandidatesExcludes(before, init, n, extensionId);
      var out := AddCandidates(Compiled(before), init, n, "");
      if out.Compiled? && ActionForPolicy(c.action).Some? && Fits(c, n) {
        ExclusionSnoc(out.rules, RuleFor(|out.rules| + 1, c, ActionForPolicy(c.action).value, n, ""), extensionId);
      }
    }
  }

  /** Compiling with the extension id is compiling without it and excluding it from every rule: so
      the signature, computed without the id, determines the rules installed with it. */
  lemma SignatureDeterminesRules(p: Profile, clock: Clock, extensionId: string)
    ensures Compile(p, clock, extensionId) == ExcludeAll(Compile(p, clock, ""), extensionId)
  {
    var live := LiveAtJs(p, clock);
    CatchAllExcludes(PAUSE_PRIORITY, extensionId);
    CatchAllExcludes(DEFAULT_BLOCK_PRIORITY, extensionId);
    if live.pause.None? {
      AddCandidatesExcludes(DefaultRules(p.defaultAction, ""), Candidates(live), SourceCount(live), extensionId);
    }
  }

  lemma CatchAllExcludes(priority: nat, extensionId: string)
    ensures WithExclusion([CatchAll(priority, "")], extensionId) == [CatchAll(priority, extensionId)]
  {
    var r := CatchAll(priority, "");
    assert [r][..0] == [];
    assert Excluded(r, extensionId) == CatchAll(priority, extensionId);
  }

  // ---- the steps -----------------------------------------------------------

  /** The first half of `recomputeRulesNow`: read the stored state and decide what to install.
      `None` is a clock the host could not resolve. */
  function Begin(st: Cache, clock: Option<Clock>, extensionId: string): Cache {
    if !st.work.Idle? then st
    else
      match st.stored.snapshot
      case None => st.(work := Clearing(st.stored))
      case Some(p) =>
        if clock.None? then st
        else
          SignatureDeterminesRules(p, clock.value, extensionId);
          match Compile(p, clock.value, "")
          case RangeError => st
          case Compiled(rules) =>
            if st.stored.rulesSig == Signature(rules) then st
            else st.(work := Planned(Compile(p, clock.value, extensionId).rules, Signature(rules)))
  }

  /** `updateSessionRules`: the browser replaces all rules, or rejects and changes none. */
  function Install(st: Cache, accepted: bool): Cache {
    match st.work
    case Planned(rules, sig) => if accepted then st.(sessionRules := rules, work := Written(sig)) else st.(work := Idle)
    case Clearing(read) => if accepted then st.(sessionRules := [], work := Cleared(read)) else st.(work := Idle)
    case _ => st
  }

  /** The second read of a recompute that has installed rules. */
  function Reread(st: Cache): Cache {
    match st.work
    case Written(sig) => st.(work := Signing(sig, st.stored))
    case _ => st
  }

  /** The end of a recompute: the signature is stored beside what was read last. After removing all rules that is the
      state read at the beginning, and nothing is stored when its signature was already `null`. */
  function Commit(st: Cache): Cache {
    match st.work
    case Signing(sig, read) => st.(stored := read.(rulesSig := sig), work := Idle)
    case Cleared(read) =>
      if read.rulesSig == Null then st.(work := Idle) else st.(stored := read.(rulesSig := Null), work := Idle)
    case _ => st
  }

  /** The rest of a recompute under way, when nothing interrupts it and the browser accepts. */
  function Finished(st: Cache): Cache {
    Commit(Reread(Install(st, true)))
  }

  /** What an operation writes over the state it has read: a failed sync writes it back, pairing and sync store a
      snapshot, unpairing and a change of server forget it, and bootstrap clears a signature. */
  datatype Change = Keep | Store(p: Profile) | Forget | ClearSignature

  function Changed(read: Stored, change: Change): Stored {
    match change
    case Keep => read
    case Store(p) => read.(snapshot := Some(p))
    case Forget => Stored(None, Null)
    case ClearSignature => read.(rulesSig := Null)
  }

  /** Bootstrap writes only when it has read a signature. */
  predicate Writes(read: Stored, change: Change) {
    change.ClearSignature? ==> read.rulesSig.Signature?
  }

  function Write(st: Cache, read: Stored, change: Change): Cache {
    if Writes(read, change) then st.(stored := Changed(read, change)) else st
  }

  /** A browser start drops the session rules and any work, and clears a signature. */
  function BrowserStart(st: Cache): Cache {
    var cleared := if st.stored.rulesSig.Signature? then st.stored.(rulesSig := Null) else st.stored;
    Cache(cleared, [], Idle)
  }

  /** The browser stops the worker, at any moment: what is stored and installed stays, the work is forgotten. */
  function Stop(st: Cache): Cache {
    st.(work := Idle)
  }

  /** A write names the moment its operation read the state: after the first `at` steps of the run. */
  datatype Step =
    | DoBegin(clock: Option<Clock>) | DoInstall(accepted: bool) | DoReread | DoCommit
    | DoWrite(at: nat, change: Change) | DoBrowserStart | DoStop

  function Next(st: Cache, step: Step, read: Option<Stored>, extensionId: string): Cache {
    match step
    case DoBegin(clock) => Begin(st, clock, extensionId)
    case DoInstall(accepted) => Install(st, accepted)
    case DoReread => Reread(st)
    case DoCommit => Commit(st)
    case DoWrite(_, change) => if read.Some? then Write(st, read.value, change) else st
    case DoBrowserStart => BrowserStart(st)
    case DoStop => Stop(st)
  }

  predicate Stops(step: Step) {
    step.DoStop? || step.DoBrowserStart?
  }

  /** An operation that read the state after the first `at` steps is still running. */
  predicate Alive(steps: seq<Step>, at: nat) {
    at <= |steps| && forall j | at <= j < |steps| :: !Stops(steps[j])
  }

  /** The state that the operation behind a write had read. */
  function ReadBy(before: seq<Step>, step: Step, extensionId: string): Option<Stored>
    decreases |before|, 1
  {
    if step.DoWrite? && Alive(before, step.at) then Some(Run(before[..step.at], extensionId).stored) else None
  }

  /** The state that a sequence of steps leads to from a fresh install; any number of operations interleave. */
  function Run(steps: seq<Step>, extensionId: string): Cache
    decreases |steps|, 0
  {
    if steps == [] then FRESH_INSTALL
    else
      var before, step := steps[..|steps| - 1], steps[|steps| - 1];
      Next(Run(before, extensionId), step, ReadBy(before, step, extensionId), extensionId)
  }

  lemma RunSnoc(before: seq<Step>, step: Step, extensionId: string)
    ensures Run(before + [step], extensionId) ==
            Next(Run(before, extensionId), step, ReadBy(before, step, extensionId), extensionId)
  {
    assert (before + [step])[..|before|] == before;
  }

  // ---- soundness -----------------------------------------------------------

  predicate Describes(sig: Sig, rules: seq<DnrRule>, extensionId: string) {
    sig.Signature? ==> rules == WithExclusion(sig.rules, extensionId)
  }

  /** Unless a recompute is to overwrite it, the stored signature describes the installed rules, and also the empty
      list when that is to be installed under it; a signature to be stored describes the rules it comes with. */
  predicate Sound(st: Cache, extensionId: string) {
    match st.work
    case Idle => Describes(st.stored.rulesSig, st.sessionRules, extensionId)
    case Planned(rules, sig) =>
      Describes(st.stored.rulesSig, st.sessionRules, extensionId) && Describes(sig, rules, extensionId)
    case Written(sig) => Describes(sig, st.sessionRules, extensionId)
    case Signing(sig, _) => Describes(sig, st.sessionRules, extensionId)
    case Clearing(read) =>
      && Describes(st.stored.rulesSig, st.sessionRules, extensionId)
      && (read.rulesSig == Null ==> Describes(st.stored.rulesSig, [], extensionId))
    case Cleared(read) => read.rulesSig == Null ==> Describes(st.stored.rulesSig, st.sessionRules, extensionId)
  }

  /** A stop that leaves new rules installed under the signature of others. */
  predicate BadStop(st: Cache, step: Step, extensionId: string) {
    && step.DoStop? && (st.work.Written? || st.work.Signing? || st.work.Cleared?)
    && !Describes(st.stored.rulesSig, st.sessionRules, extensionId)
  }

  /** A signature that does not describe the rules installed, or about to be installed under it. */
  predicate Misleads(st: Cache, sig: Sig, extensionId: string) {
    match st.work
    case Written(_) => false
    case Signing(_, _) => false
    case Clearing(read) =>
      || !Describes(sig, st.sessionRules, extensionId)
      || (read.rulesSig == Null && !Describes(sig, [], extensionId))
    case Cleared(read) => read.rulesSig == Null && !Describes(sig, st.sessionRules, extensionId)
    case _ => !Describes(sig, st.sessionRules, extensionId)
  }

  /** A late write that brings such a signature back. */
  predicate BadWrite(st: Cache, step: Step, read: Option<Stored>, extensionId: string) {
    && step.DoWrite? && read.Some? && (step.change.Keep? || step.change.Store?)
    && Misleads(st, read.value.rulesSig, extensionId)
  }

  /** Every step keeps the cache sound but such a stop or write, which never does. */
  lemma SoundStepExactly(st: Cache, step: Step, read: Option<Stored>, extensionId: string)
    requires Sound(st, extensionId)
    ensures Sound(Next(st, step, read, extensionId), extensionId) <==>
            !BadStop(st, step, extensionId) && !BadWrite(st, step, read, extensionId)
  {
    if step.DoBegin? && step.clock.Some? && st.stored.snapshot.Some? {
      SignatureDeterminesRules(st.stored.snapshot.value, step.clock.value, extensionId);
    }
  }

  /** No step of the run is such a stop or write. */
  predicate NoBadStep(steps: seq<Step>, extensionId: string) {
    steps == [] || (
      var before, step := steps[..|steps| - 1], steps[|steps| - 1];
      var st := Run(before, extensionId);
      && NoBadStep(before, extensionId)
      && !BadStop(st, step, extensionId) && !BadWrite(st, step, ReadBy(before, step, extensionId), extensionId))
  }

  /** In every run, however the reads and writes of pairings, syncs, unpairings, starts and stops interleave with the
      parts of a recompute, a stored signature describes the installed rules whenever no recompute is under way, as
      long as no stop and no late write leaves a signature that describes others. */
  lemma {:induction false} SignatureAlwaysDescribes(steps: seq<Step>, extensionId: string)
    requires NoBadStep(steps, extensionId)
    ensures var st := Run(steps, extensionId);
            Sound(st, extensionId) && (st.work.Idle? ==> Describes(st.stored.rulesSig, st.sessionRules, extensionId))
  {
    if steps != [] {
      var before, step := steps[..|steps| - 1], steps[|steps| - 1];
      SignatureAlwaysDescribes(before, extensionId);
      SoundStepExactly(Run(before, extensionId), step, ReadBy(before, step, extensionId), extensionId);
    }
  }

  /** A whole recompute that nothing interrupts and the browser accepts. */
  function Recompute(st: Cache, clock: Option<Clock>, extensionId: string): Cache {
    Finished(Begin(st, clock, extensionId))
  }

  /** After a recompute with a clock the installed rules are those of the current snapshot and clock,
      also when the rebuild was skipped. */
  lemma RecomputeInstallsCurrent(st: Cache, clock: Clock, extensionId: string)
    requires Sound(st, extensionId) && st.work.Idle?
    ensures var done, snapshot := Recompute(st, Some(clock), extensionId), st.stored.snapshot;
            && done.work.Idle? && done.stored.snapshot == snapshot
            && (snapshot.None? ==> done.sessionRules == [] && done.stored.rulesSig == Null)
            && (snapshot.Some? && Compile(snapshot.value, clock, extensionId).Compiled? ==>
                  done.sessionRules == Compile(snapshot.value, clock, extensionId).rules)
            && (snapshot.Some? && Compile(snapshot.value, clock, extensionId).RangeError? ==> done == st)
  {
    if st.stored.snapshot.Some? {
      SignatureDeterminesRules(st.stored.snapshot.value, clock, extensionId);
    }
  }

  /** From any idle state of such a run, a recompute makes the browser redirect exactly the normalised
      hosts that the stored policy blocks at that clock, apart from the extension's own. */
  lemma RecomputeEnforcesPolicy(steps: seq<Step>, clock: Clock, extensionId: string, host: string)
    requires NoBadStep(steps, extensionId)
    requires var st := Run(steps, extensionId);
             && st.work.Idle? && st.stored.snapshot.Some? && ValidActions(st.stored.snapshot.value)
             && Compile(st.stored.snapshot.value, clock, extensionId).Compiled?
    requires Stable(host)
    ensures var st := Run(steps, extensionId);
            Redirected(Recompute(st, Some(clock), extensionId).sessionRules, host) <==>
            !Under(extensionId, host) && DecisionJs(st.stored.snapshot.value, host, clock).action == Block
  {
    var st := Run(steps, extensionId);
    SignatureAlwaysDescribes(steps, extensionId);
    RecomputeInstallsCurrent(st, clock, extensionId);
    CompilationPreservesMeaning(st.stored.snapshot.value, clock, extensionId, host);
  }

  // ---- the worker ----------------------------------------------------------

  /** A recompute that ends in an error: the browser rejects the update, or the policy does not compile. */
  predicate Throws(st: Cache, clock: Option<Clock>, accepted: bool, extensionId: string) {
    match st.stored.snapshot
    case None => !accepted
    case Some(p) =>
      clock.Some? &&
      match Compile(p, clock.value, "")
      case RangeError => true
      case Compiled(rules) => st.stored.rulesSig != Signature(rules) && !accepted
  }

  /** A sync that nothing interrupts, and whether it reports success; `fetched` is `None` when nothing was fetched. */
  function Synced(st: Cache, fetched: Option<Profile>, clock: Option<Clock>, accepted: bool, extensionId: string)
    : (Cache, bool)
  {
    match fetched
    case None => (st, false)
    case Some(p) =>
      var next := Write(st, st.stored, Store(p));
      if Throws(next, clock, accepted, extensionId) then (st, false)
      else (Commit(Reread(Install(Begin(next, clock, extensionId), accepted))), true)
  }

  /** Signature and rules after a recompute of policy `p`: what they were when the clock cannot be resolved or the
      signature is that of the policy's rules; otherwise, if the policy compiles and the browser accepts, the signature
      and the rules of the policy; and failing that an error. */
  predicate Reconciles(p: Profile, clock: Option<Clock>, accepted: bool, extensionId: string, sigBefore: Sig,
                       rulesBefore: seq<DnrRule>, ok: bool, sigAfter: Sig, rulesAfter: seq<DnrRule>) {
    if clock.None? then ok && sigAfter == sigBefore && rulesAfter == rulesBefore
    else
      var text := Compile(p, clock.value, "");
      if text.RangeError? then !ok
      else if sigBefore == Signature(text.rules) then ok && sigAfter == sigBefore && rulesAfter == rulesBefore
      else
        && (ok <==> accepted)
        && (ok ==> sigAfter == Signature(text.rules) && Compiled(rulesAfter) == Compile(p, clock.value, extensionId))
  }

  class Worker {
    const extensionId: string
    var snapshot: Option<Profile>
    var rulesSig: Sig
    var sessionRules: seq<DnrRule>

    ghost function State(): Cache
      reads this
    {
      Cache(Stored(snapshot, rulesSig), sessionRules, Idle)
    }

    constructor (extensionId: string)
      ensures this.extensionId == extensionId && State() == FRESH_INSTALL
    {
      this.extensionId := extensionId;
      snapshot, rulesSig, sessionRules := None, Unset, [];
    }

    /** `accepted` says whether the browser takes the rules; when it rejects them, or the policy does not compile, the
        error ends the method. */
    method RecomputeRulesNow(clock: Option<Clock>, accepted: bool) returns (ok: bool)
      modifies this
      ensures ok <==> !Throws(old(State()), clock, accepted, extensionId)
      ensures State() == Commit(Reread(Install(Begin(old(State()), clock, extensionId), accepted)))
      ensures snapshot == old(snapshot)
      ensures !ok || (snapshot.Some? && clock.None?) ==> State() == old(State())
      ensures snapshot.None? ==> (ok <==> accepted) && (ok ==> rulesSig == Null && sessionRules == [])
      ensures snapshot.Some? ==> Reconciles(snapshot.value, clock, accepted, extensionId, old(rulesSig),
                                            old(sessionRules), ok, rulesSig, sessionRules)
    {
      if snapshot.None? {
        if !accepted { return false; }
        sessionRules := [];
        if rulesSig != Null {
          rulesSig := Null;
        }
        return true;
      }
      if clock.None? { return true; }
      var signature := BuildRules(snapshot.value, clock.value, "");
      if signature.RangeError? { return false; }
      if rulesSig == Signature(signature.rules) { return true; }
      SignatureDeterminesRules(snapshot.value, clock.value, extensionId);
      var output := BuildRules(snapshot.value, clock.value, extensionId);
      if !accepted { return false; }
      sessionRules := output.rules;
      rulesSig := Signature(signature.rules);
      return true;
    }

    /** A failed sync writes back the state it has read, over the snapshot it may have stored. */
    method SyncNow(fetched: Option<Profile>, clock: Option<Clock>, accepted: bool) returns (ok: bool)
      modifies this
      ensures (State(), ok) == Synced(old(State()), fetched, clock, accepted, extensionId)
      ensures ok ==> fetched.Some? && snapshot == fetched
      ensures !ok ==> State() == old(State())
      ensures fetched.Some? && clock.None? ==>
                ok && State() == Cache(Stored(fetched, old(rulesSig)), old(sessionRules), Idle)
      ensures fetched.Some? && ok ==> Reconciles(fetched.value, clock, accepted, extensionId, old(rulesSig),
                                                 old(sessionRules), ok, rulesSig, sessionRules)
      ensures ok <==>
                && fetched.Some?
                && (clock.Some? ==>
                      var text := Compile(fetched.value, clock.value, "");
                      text.Compiled? && (accepted || old(rulesSig) == Signature(text.rules)))
    {
      var state := (snapshot, rulesSig);
      ok := fetched.Some?;
      if ok {
        snapshot := fetched;
        ok := RecomputeRulesNow(clock, accepted);
      }
      if !ok {
        snapshot, rulesSig := state.0, state.1;
      }
    }

    method Unpair()
      modifies this
      ensures State() == Write(old(State()), old(State()).stored, Forget)
      ensures snapshot == None && rulesSig == Null && sessionRules == old(sessionRules)
    {
      snapshot := None;
      rulesSig := Null;
    }

    method Start(browserStarted: bool)
      modifies this
      ensures State() == if browserStarted then BrowserStart(old(State()))
                         else Write(old(State()), old(State()).stored, ClearSignature)
      ensures snapshot == old(snapshot) && rulesSig == if old(rulesSig).Signature? then Null else old(rulesSig)
      ensures sessionRules == if browserStarted then [] else old(sessionRules)
    {
      if browserStarted {
        sessionRules := [];
      }
      if rulesSig.Signature? {
        rulesSig := Null;
      }
    }
  }
}
