/** Runs of the extension's worker: exactly when its cache works, and which snapshot is stored. */
module RuleCacheRuns {
  import opened Text
  import opened PolicyTypes
  import opened DnrCompiler
  import opened RuleCache

  // ---- exactly when the cache works ----------------------------------------

  /** The signature, if there is one, was computed from some policy at some clock. */
  ghost predicate Computed(sig: Sig) {
    sig.Signature? ==> exists p, clock :: Compile(p, clock, "") == Compiled(sig.rules)
  }

  /** What holds in every run, bad stops and writes included: the signatures were computed, and a signature to be
      stored describes the rules it comes with. */
  ghost predicate Coherent(st: Cache, extensionId: string) {
    && Computed(st.stored.rulesSig)
    && match st.work
       case Idle => true
       case Planned(rules, sig) => Computed(sig) && Describes(sig, rules, extensionId)
       case Written(sig) => Computed(sig) && Describes(sig, st.sessionRules, extensionId)
       case Signing(sig, _) => Computed(sig) && Describes(sig, st.sessionRules, extensionId)
       case Clearing(read) => read.snapshot.None?
       case Cleared(read) => read.snapshot.None? && st.sessionRules == []
  }

  lemma CoherentStep(st: Cache, step: Step, read: Option<Stored>, extensionId: string)
    requires Coherent(st, extensionId) && (read.Some? ==> Computed(read.value.rulesSig))
    ensures Coherent(Next(st, step, read, extensionId), extensionId)
  {
    if step.DoBegin? && step.clock.Some? && st.stored.snapshot.Some? {
      var p, clock := st.stored.snapshot.value, step.clock.value;
      SignatureDeterminesRules(p, clock, extensionId);
      if Compile(p, clock, "").Compiled? {
        assert Computed(Signature(Compile(p, clock, "").rules));
      }
    }
  }

  lemma {:induction false} RunsAreCoherent(steps: seq<Step>, extensionId: string)
    ensures Coherent(Run(steps, extensionId), extensionId)
    decreases |steps|
  {
    if steps != [] {
      var before, step := steps[..|steps| - 1], steps[|steps| - 1];
      RunsAreCoherent(before, extensionId);
      if step.DoWrite? && Alive(before, step.at) {
        RunsAreCoherent(before[..step.at], extensionId);
      }
      CoherentStep(Run(before, extensionId), step, ReadBy(before, step, extensionId), extensionId);
    }
  }

  /** Whatever policy is stored next, at whatever clock, the next recompute installs it. */
  ghost predicate AlwaysInstalls(st: Cache, extensionId: string) {
    forall p, clock | Compile(p, clock, extensionId).Compiled? :: Installs(st, p, clock, extensionId)
  }

  predicate Installs(st: Cache, p: Profile, clock: Clock, extensionId: string)
    requires Compile(p, clock, extensionId).Compiled?
  {
    Recompute(Write(st, st.stored, Store(p)), Some(clock), extensionId).sessionRules ==
    Compile(p, clock, extensionId).rules
  }

  /** With a computed signature an idle cache always installs if and only if the signature describes the rules. */
  lemma AlwaysInstallsExactly(st: Cache, extensionId: string)
    requires st.work.Idle? && Computed(st.stored.rulesSig)
    ensures AlwaysInstalls(st, extensionId) <==> Describes(st.stored.rulesSig, st.sessionRules, extensionId)
  {
    if Describes(st.stored.rulesSig, st.sessionRules, extensionId) {
      forall p, clock | Compile(p, clock, extensionId).Compiled?
        ensures Installs(st, p, clock, extensionId)
      {
        RecomputeInstallsCurrent(Write(st, st.stored, Store(p)), clock, extensionId);
      }
    } else {
      var p, clock :| Compile(p, clock, "") == Compiled(st.stored.rulesSig.rules);
      SignatureDeterminesRules(p, clock, extensionId);
      assert !Installs(st, p, clock, extensionId);
    }
  }

  /** In every run, wherever stops and late writes fall, a stop leaves a cache that always installs if and only if the
      stored signature, if there is one, describes the installed rules. */
  lemma StopIsHarmlessExactly(steps: seq<Step>, extensionId: string)
    ensures var st := Run(steps, extensionId);
            AlwaysInstalls(Stop(st), extensionId) <==>
            !(st.stored.rulesSig.Signature? && st.sessionRules != WithExclusion(st.stored.rulesSig.rules, extensionId))
  {
    RunsAreCoherent(steps, extensionId);
    AlwaysInstallsExactly(Stop(Run(steps, extensionId)), extensionId);
  }

  /** The first stop that can do harm falls after rules were installed or removed and before that is stored, or while
      a late write has misled a removal. */
  lemma OnlyStopsBeforeTheSignatureHarm(steps: seq<Step>, extensionId: string)
    requires NoBadStep(steps, extensionId)
    ensures var st := Run(steps, extensionId);
            AlwaysInstalls(Stop(st), extensionId) <==>
            !((st.work.Written? || st.work.Signing? || st.work.Cleared?) && st.stored.rulesSig.Signature? &&
              st.sessionRules != WithExclusion(st.stored.rulesSig.rules, extensionId))
  {
    StopIsHarmlessExactly(steps, extensionId);
    SignatureAlwaysDescribes(steps, extensionId);
  }

  /** The signature will be overwritten by the recompute under way, or describes the rules that this one leaves. */
  predicate Outlived(st: Cache, sig: Sig, extensionId: string) {
    match st.work
    case Idle => Describes(sig, st.sessionRules, extensionId)
    case Clearing(read) => read.rulesSig == Null ==> Describes(sig, [], extensionId)
    case Cleared(read) => read.rulesSig == Null ==> Describes(sig, [], extensionId)
    case _ => true
  }

  /** Whatever is stored meanwhile, finishing the recompute under way leaves an idle cache whose signature describes the
      rules if and only if what is stored is outlived. */
  lemma FinishedDescribesExactly(st: Cache, stored: Stored, extensionId: string)
    requires Coherent(st, extensionId) && Computed(stored.rulesSig)
    ensures var done := Finished(st.(stored := stored));
            && done.work.Idle? && Computed(done.stored.rulesSig)
            && (Describes(done.stored.rulesSig, done.sessionRules, extensionId) <==>
                  Outlived(st, stored.rulesSig, extensionId))
  {
    hide Compile, WithExclusion;
  }

  lemma RunIsComputed(steps: seq<Step>, extensionId: string)
    ensures Computed(Run(steps, extensionId).stored.rulesSig)
  {
    hide Run;
    RunsAreCoherent(steps, extensionId);
  }

  /** In every run and at every moment, a late write leaves a cache that, once a recompute under way has finished,
      always installs if and only if the signature it writes is outlived. */
  lemma LateWriteIsHarmlessExactly(steps: seq<Step>, at: nat, change: Change, extensionId: string)
    requires Alive(steps, at) && !change.ClearSignature?
    ensures var st, read := Run(steps, extensionId), Run(steps[..at], extensionId).stored;
            AlwaysInstalls(Finished(Run(steps + [DoWrite(at, change)], extensionId)), extensionId) <==>
            Outlived(st, Changed(read, change).rulesSig, extensionId)
  {
    hide Compile, Run, Coherent, Computed, AlwaysInstalls, Finished, Outlived, Describes;
    var st, read := Run(steps, extensionId), Run(steps[..at], extensionId).stored;
    RunSnoc(steps, DoWrite(at, change), extensionId);
    RunsAreCoherent(steps, extensionId);
    RunIsComputed(steps[..at], extensionId);
    NoSignatureIsComputed();
    FinishedDescribesExactly(st, Changed(read, change), extensionId);
    AlwaysInstallsExactly(Finished(st.(stored := Changed(read, change))), extensionId);
  }

  lemma NoSignatureIsComputed()
    ensures Computed(Null)
  {
  }

  // ---- the stored snapshot -------------------------------------------------

  /** The last step of a run is the write of a pairing, sync or unpairing. */
  predicate Stores(before: seq<Step>, step: Step) {
    step.DoWrite? && Alive(before, step.at) && (step.change.Store? || step.change.Forget?)
  }

  /** The snapshot of the last pairing, sync or unpairing of a run. */
  function LastStored(steps: seq<Step>): Option<Profile> {
    if steps == [] then None
    else
      var before, step := steps[..|steps| - 1], steps[|steps| - 1];
      if Stores(before, step) then (if step.change.Store? then Some(step.change.p) else None) else LastStored(before)
  }

  /** For a step that writes back a snapshot it has read: after how many steps that snapshot had been stored. */
  function BackTo(before: seq<Step>, step: Step, extensionId: string): Option<nat>
    decreases |before|, 1
  {
    var work := Run(before, extensionId).work;
    if step.DoWrite? && Alive(before, step.at) && (step.change.Keep? || step.change.ClearSignature?)
       && Writes(Run(before[..step.at], extensionId).stored, step.change)
    then Some(Source(before[..step.at], extensionId))
    else if step.DoCommit? && (work.Signing? || (work.Cleared? && work.read.rulesSig != Null))
    then Some(WorkSource(before, extensionId))
    else None
  }

  /** After how many steps of a run the snapshot now stored had been stored. */
  function Source(steps: seq<Step>, extensionId: string): nat
    decreases |steps|, 0
  {
    if steps == [] then 0
    else
      var before, step := steps[..|steps| - 1], steps[|steps| - 1];
      match BackTo(before, step, extensionId)
      case Some(m) => m
      case None => if Stores(before, step) then |steps| else Source(before, extensionId)
  }

  /** The same for the snapshot that the recompute under way has read last. */
  function WorkSource(steps: seq<Step>, extensionId: string): nat
    decreases |steps|, 0
  {
    if steps == [] then 0
    else
      var before, step := steps[..|steps| - 1], steps[|steps| - 1];
      var work := Run(before, extensionId).work;
      if (step.DoBegin? && work.Idle?) || (step.DoReread? && work.Written?) then Source(before, extensionId)
      else WorkSource(before, extensionId)
  }

  /** The state the recompute under way is to write back, if any. */
  function WorkRead(work: Work): Option<Stored> {
    match work
    case Signing(_, read) => Some(read)
    case Clearing(read) => Some(read)
    case Cleared(read) => Some(read)
    case _ => None
  }

  /** What a step stores, and what it leaves a recompute to write back. */
  lemma SnapshotStep(st: Cache, step: Step, read: Option<Stored>, extensionId: string)
    ensures var next := Next(st, step, read, extensionId);
            && next.stored.snapshot ==
               (match step
                case DoWrite(_, change) =>
                  if read.Some? && Writes(read.value, change) then Changed(read.value, change).snapshot
                  else st.stored.snapshot
                case DoCommit =>
                  if st.work.Signing? || (st.work.Cleared? && st.work.read.rulesSig != Null) then st.work.read.snapshot
                  else st.stored.snapshot
                case _ => st.stored.snapshot)
            && (WorkRead(next.work).Some? ==>
                  if (step.DoBegin? && st.work.Idle?) || (step.DoReread? && st.work.Written?)
                  then WorkRead(next.work).value.snapshot == st.stored.snapshot
                  else WorkRead(next.work) == WorkRead(st.work))
  {
    hide Compile, WithExclusion;
  }

  lemma SourceSnoc(before: seq<Step>, step: Step, extensionId: string)
    ensures Source(before + [step], extensionId) ==
            (match BackTo(before, step, extensionId)
             case Some(m) => m
             case None => if Stores(before, step) then |before| + 1 else Source(before, extensionId))
    ensures WorkSource(before + [step], extensionId) ==
            var work := Run(before, extensionId).work;
            if (step.DoBegin? && work.Idle?) || (step.DoReread? && work.Written?) then Source(before, extensionId)
            else WorkSource(before, extensionId)
  {
    hide Alive, BackTo, Run;
    assert (before + [step])[..|before|] == before;
  }

  lemma LastStoredSnoc(before: seq<Step>, step: Step)
    ensures LastStored(before + [step]) ==
            if Stores(before, step) then (if step.change.Store? then Some(step.change.p) else None)
            else LastStored(before)
  {
    assert (before + [step])[..|before|] == before;
  }

  /** What is stored, and what the recompute under way has read, had been stored by its source. */
  predicate Sourced(steps: seq<Step>, extensionId: string) {
    var st, m, w := Run(steps, extensionId), Source(steps, extensionId), WorkSource(steps, extensionId);
    && m <= |steps| && st.stored.snapshot == LastStored(steps[..m])
    && w <= |steps| && (WorkRead(st.work).Some? ==> WorkRead(st.work).value.snapshot == LastStored(steps[..w]))
  }

  lemma SourcedSnoc(before: seq<Step>, step: Step, extensionId: string)
    requires Sourced(before, extensionId)
    requires step.DoWrite? && Alive(before, step.at) ==> Sourced(before[..step.at], extensionId)
    ensures Sourced(before + [step], extensionId)
  {
    hide Next, Run, Source, WorkSource, LastStored, Stops;
    var steps := before + [step];
    RunSnoc(before, step, extensionId);
    SourceSnoc(before, step, extensionId);
    LastStoredSnoc(before, step);
    SnapshotStep(Run(before, extensionId), step, ReadBy(before, step, extensionId), extensionId);
    assert steps[..Source(before, extensionId)] == before[..Source(before, extensionId)];
    assert steps[..WorkSource(before, extensionId)] == before[..WorkSource(before, extensionId)];
    assert steps[..|before| + 1] == steps;
    if step.DoWrite? && Alive(before, step.at) {
      var m := Source(before[..step.at], extensionId);
      assert steps[..m] == before[..step.at][..m];
    }
  }

  lemma NothingSourced(extensionId: string)
    ensures Sourced([], extensionId)
  {
  }

  /** In every run, stops and late writes included, what is stored is the snapshot of the last pairing, sync or
      unpairing up to its source: an operation that writes back what it has read takes the run back to what had been
      stored by then. */
  lemma {:induction false} SnapshotComesFromSource(steps: seq<Step>, extensionId: string)
    ensures Sourced(steps, extensionId)
    decreases |steps|
  {
    hide Sourced, Run;
    NothingSourced(extensionId);
    if steps != [] {
      var before, step := steps[..|steps| - 1], steps[|steps| - 1];
      SnapshotComesFromSource(before, extensionId);
      if step.DoWrite? && Alive(before, step.at) {
        SnapshotComesFromSource(before[..step.at], extensionId);
      }
      SourcedSnoc(before, step, extensionId);
      assert before + [step] == steps;
    }
  }

  /** In every run the snapshot of the last pairing, sync or unpairing is stored if and only if none was stored since
      the source, or the last of them stored the same again. */
  lemma LastSnapshotIsStoredExactly(steps: seq<Step>, extensionId: string)
    ensures Source(steps, extensionId) <= |steps|
    ensures Run(steps, extensionId).stored.snapshot == LastStored(steps) <==>
            LastStored(steps[..Source(steps, extensionId)]) == LastStored(steps)
  {
    SnapshotComesFromSource(steps, extensionId);
  }

  /** A run that has kept the last snapshot keeps it over a step if and only if the step writes nothing back, or takes
      the run back to the same snapshot. */
  lemma SnapshotStepExactly(before: seq<Step>, step: Step, extensionId: string)
    requires Run(before, extensionId).stored.snapshot == LastStored(before)
    ensures var back := BackTo(before, step, extensionId);
            && (back.Some? ==> back.value <= |before|)
            && (Run(before + [step], extensionId).stored.snapshot == LastStored(before + [step]) <==>
                  back.Some? ==> LastStored(before[..back.value]) == LastStored(before))
  {
    hide Run, Source, WorkSource, LastStored, Alive;
    var steps, back := before + [step], BackTo(before, step, extensionId);
    SnapshotComesFromSource(before, extensionId);
    SnapshotComesFromSource(steps, extensionId);
    SourceSnoc(before, step, extensionId);
    LastStoredSnoc(before, step);
    assert steps[..|steps|] == steps;
    if step.DoWrite? && Alive(before, step.at) {
      AliveAt(before, step.at);
      SnapshotComesFromSource(before[..step.at], extensionId);
    }
    if back.Some? {
      assert steps[..back.value] == before[..back.value];
    } else {
      assert steps[..Source(before, extensionId)] == before[..Source(before, extensionId)];
    }
  }

  lemma AliveAt(steps: seq<Step>, at: nat)
    requires Alive(steps, at)
    ensures at <= |steps|
  {
  }

  /** The write of a failed sync does no harm, to the rules that are installed next or to the stored snapshot, if and
      only if the signature it had read is outlived and the snapshot it had read is still the last one. */
  lemma FailedSyncIsHarmlessExactly(steps: seq<Step>, at: nat, extensionId: string)
    requires Alive(steps, at) && Run(steps[..at], extensionId).stored.snapshot == LastStored(steps[..at])
    ensures var all := steps + [DoWrite(at, Keep)];
            && (AlwaysInstalls(Finished(Run(all, extensionId)), extensionId) <==>
                  Outlived(Run(steps, extensionId), Run(steps[..at], extensionId).stored.rulesSig, extensionId))
            && (Run(all, extensionId).stored.snapshot == LastStored(all) <==>
                  LastStored(steps[..at]) == LastStored(steps))
  {
    hide Run, LastStored, AlwaysInstalls, Finished, Outlived;
    RunSnoc(steps, DoWrite(at, Keep), extensionId);
    LastStoredSnoc(steps, DoWrite(at, Keep));
    LateWriteIsHarmlessExactly(steps, at, Keep, extensionId);
  }

  /** No step writes back a snapshot other than the one stored. */
  predicate NoneOvertaken(steps: seq<Step>, extensionId: string) {
    steps == [] || (
      var before, step := steps[..|steps| - 1], steps[|steps| - 1];
      var back := BackTo(before, step, extensionId);
      NoneOvertaken(before, extensionId) && (back.Some? ==> back.value == Source(before, extensionId)))
  }

  lemma NothingStored(extensionId: string)
    ensures Run([], extensionId).stored.snapshot == LastStored([])
  {
  }

  /** In every such run the last snapshot is stored. */
  lemma {:induction false} LastSnapshotIsStored(steps: seq<Step>, extensionId: string)
    requires NoneOvertaken(steps, extensionId)
    ensures Run(steps, extensionId).stored.snapshot == LastStored(steps)
  {
    hide Run, LastStored, BackTo, Source, WorkSource, Stores;
    NothingStored(extensionId);
    if steps != [] {
      var before, step := steps[..|steps| - 1], steps[|steps| - 1];
      LastSnapshotIsStored(before, extensionId);
      LastSnapshotIsStoredExactly(before, extensionId);
      SnapshotStepExactly(before, step, extensionId);
      assert before + [step] == steps;
    }
  }

  // ---- a sync as a run -----------------------------------------------------

  /** The steps of a sync that fetches a policy, when nothing interrupts it. */
  function SyncSteps(at: nat, p: Profile, clock: Option<Clock>, accepted: bool, throws: bool): seq<Step> {
    [DoWrite(at, Store(p)), DoBegin(clock), DoInstall(accepted), DoReread, DoCommit]
    + if throws then [DoWrite(at, Keep)] else []
  }

  /** A sync from an idle state, as the worker's method makes it, is a run of these steps. */
  lemma SyncIsRun(steps: seq<Step>, p: Profile, clock: Option<Clock>, accepted: bool, extensionId: string)
    requires Run(steps, extensionId).work.Idle?
    ensures var st := Run(steps, extensionId);
            var throws := Throws(Write(st, st.stored, Store(p)), clock, accepted, extensionId);
            Run(steps + SyncSteps(|steps|, p, clock, accepted, throws), extensionId) ==
            Synced(st, Some(p), clock, accepted, extensionId).0
  {
    hide Run, Compile;
    var st := Run(steps, extensionId);
    var throws := Throws(Write(st, st.stored, Store(p)), clock, accepted, extensionId);
    var s1 := steps + [DoWrite(|steps|, Store(p))];
    var s2 := s1 + [DoBegin(clock)];
    var s3 := s2 + [DoInstall(accepted)];
    var s4 := s3 + [DoReread];
    var s5 := s4 + [DoCommit];
    assert steps[..|steps|] == steps && s5[..|steps|] == steps;
    RunSnoc(steps, DoWrite(|steps|, Store(p)), extensionId);
    RunSnoc(s1, DoBegin(clock), extensionId);
    RunSnoc(s2, DoInstall(accepted), extensionId);
    RunSnoc(s3, DoReread, extensionId);
    RunSnoc(s4, DoCommit, extensionId);
    RunSnoc(s5, DoWrite(|steps|, Keep), extensionId);
    assert steps + SyncSteps(|steps|, p, clock, accepted, throws) ==
           if throws then s5 + [DoWrite(|steps|, Keep)] else s5;
  }

  // ---- the harm done -------------------------------------------------------

  /** The write at the end of a failed sync restores the state read before the network calls. */
  function StaleWrite(st: Cache, read: Cache): Cache {
    Write(st, read.stored, Keep)
  }

  /** Let two recomputes of different rules come between the read and the write, and the next recompute skips and leaves
      the wrong policy installed. */
  lemma StaleWriteBreaksTheCache(st: Cache, p: Profile, q: Profile, clock: Clock, extensionId: string)
    requires Sound(st, extensionId) && st.work.Idle?
    requires Compile(p, clock, extensionId).Compiled? && Compile(q, clock, extensionId).Compiled?
    requires Compile(p, clock, extensionId) != Compile(q, clock, extensionId)
    ensures var read := Recompute(Write(st, st.stored, Store(p)), Some(clock), extensionId);
            var moved := Recompute(Write(read, read.stored, Store(q)), Some(clock), extensionId);
            var after := Recompute(StaleWrite(moved, read), Some(clock), extensionId);
            && after.stored.snapshot == Some(p) && after.sessionRules == Compile(q, clock, extensionId).rules
            && after.sessionRules != Compile(p, clock, extensionId).rules
  {
    var read := Recompute(Write(st, st.stored, Store(p)), Some(clock), extensionId);
    SignatureDeterminesRules(p, clock, extensionId);
    SignatureDeterminesRules(q, clock, extensionId);
    RecomputeInstallsCurrent(Write(st, st.stored, Store(p)), clock, extensionId);
    assert Sound(read, extensionId);
    RecomputeInstallsCurrent(Write(read, read.stored, Store(q)), clock, extensionId);
    assert read.stored.rulesSig == Signature(Compile(p, clock, "").rules);
  }

  /** Stopped between installing rules and storing their signature, with the earlier policy back, the next recompute
      skips and leaves the wrong policy installed. */
  lemma StoppedWorkerBreaksTheCache(st: Cache, p: Profile, q: Profile, clock: Clock, extensionId: string)
    requires Sound(st, extensionId) && st.work.Idle?
    requires Compile(p, clock, extensionId).Compiled? && Compile(q, clock, extensionId).Compiled?
    requires Compile(p, clock, extensionId) != Compile(q, clock, extensionId)
    ensures var before := Recompute(Write(st, st.stored, Store(p)), Some(clock), extensionId);
            var stopped := Stop(Install(Begin(Write(before, before.stored, Store(q)), Some(clock), extensionId), true));
            var after := Recompute(Write(stopped, stopped.stored, Store(p)), Some(clock), extensionId);
            && after.stored.snapshot == Some(p) && after.sessionRules == Compile(q, clock, extensionId).rules
            && after.sessionRules != Compile(p, clock, extensionId).rules
  {
    var before := Recompute(Write(st, st.stored, Store(p)), Some(clock), extensionId);
    SignatureDeterminesRules(p, clock, extensionId);
    SignatureDeterminesRules(q, clock, extensionId);
    RecomputeInstallsCurrent(Write(st, st.stored, Store(p)), clock, extensionId);
    assert before.stored.rulesSig == Signature(Compile(p, clock, "").rules);
  }

  /** The first steps of a run: a pairing, and a second operation that read the state after it. */
  lemma TwoWrites(p: Profile, change: Change, extensionId: string)
    requires change.Store? || change.Forget?
    ensures var steps := [DoWrite(0, Store(p)), DoWrite(1, change)];
            && Run(steps[..1], extensionId) == Write(FRESH_INSTALL, FRESH_INSTALL.stored, Store(p))
            && Run(steps, extensionId) ==
               Write(Run(steps[..1], extensionId), Run(steps[..1], extensionId).stored, change)
            && LastStored(steps) == if change.Store? then Some(change.p) else None
  {
    var none: seq<Step> := [];
    var first, second := DoWrite(0, Store(p)), DoWrite(1, change);
    RunSnoc(none, first, extensionId);
    RunSnoc([first], second, extensionId);
    LastStoredSnoc([first], second);
    assert none + [first] == [first] && [first] + [second] == [first, second] && [first, second][..1] == [first];
    assert none[..0] == none && [first][..1] == [first];
  }

  /** A sync that reads, an unpairing, and the sync fails: the cache works, but the unpairing is undone and the next
      recompute installs the policy again. */
  lemma UnpairingIsUndone(p: Profile, clock: Clock, extensionId: string)
    requires Compile(p, clock, extensionId).Compiled?
    ensures var steps := [DoWrite(0, Store(p)), DoWrite(1, Forget)] + [DoWrite(1, Keep)];
            var st := Run(steps, extensionId);
            && LastStored(steps) == None && st.stored.snapshot == Some(p) && AlwaysInstalls(st, extensionId)
            && Recompute(st, Some(clock), extensionId).sessionRules == Compile(p, clock, extensionId).rules
  {
    var two := [DoWrite(0, Store(p)), DoWrite(1, Forget)];
    TwoWrites(p, Forget, extensionId);
    hide Run, LastStored;
    RunSnoc(two, DoWrite(1, Keep), extensionId);
    LastStoredSnoc(two, DoWrite(1, Keep));
    var st := Run(two + [DoWrite(1, Keep)], extensionId);
    AlwaysInstallsExactly(st, extensionId);
    RecomputeInstallsCurrent(st, clock, extensionId);
  }

  /** A sync that stores a newer policy and whose recompute the browser rejects puts the older one back. */
  lemma RejectedSyncIsUndone(p: Profile, q: Profile, clock: Option<Clock>, extensionId: string)
    ensures var steps := [DoWrite(0, Store(p)), DoWrite(1, Store(q))] + [DoBegin(clock)] + [DoInstall(false)]
                         + [DoWrite(1, Keep)];
            LastStored(steps) == Some(q) && Run(steps, extensionId).stored.snapshot == Some(p)
  {
    var two := [DoWrite(0, Store(p)), DoWrite(1, Store(q))];
    TwoWrites(p, Store(q), extensionId);
    hide Run, LastStored, Next;
    var three := two + [DoBegin(clock)];
    var four := three + [DoInstall(false)];
    LastStoredSnoc(two, DoBegin(clock));
    LastStoredSnoc(three, DoInstall(false));
    LastStoredSnoc(four, DoWrite(1, Keep));
    RunSnoc(four, DoWrite(1, Keep), extensionId);
    SnapshotStep(Run(four, extensionId), DoWrite(1, Keep), ReadBy(four, DoWrite(1, Keep), extensionId), extensionId);
    assert four[..1] == two[..1];
  }

  /** A first pairing's snapshot that arrives while a fresh install's first recompute awaits the browser is lost. */
  lemma FirstSnapshotIsLost(p: Profile, clock: Option<Clock>, extensionId: string)
    ensures var steps := [DoBegin(clock)] + [DoInstall(true)] + [DoWrite(2, Store(p))] + [DoCommit];
            LastStored(steps) == Some(p) && Run(steps, extensionId).stored.snapshot == None
  {
    var none: seq<Step> := [];
    var one := [DoBegin(clock)];
    var two := one + [DoInstall(true)];
    var three := two + [DoWrite(2, Store(p))];
    assert none + one == one && two[..2] == two;
    RunSnoc(none, DoBegin(clock), extensionId);
    RunSnoc(one, DoInstall(true), extensionId);
    RunSnoc(two, DoWrite(2, Store(p)), extensionId);
    RunSnoc(three, DoCommit, extensionId);
    LastStoredSnoc(two, DoWrite(2, Store(p)));
    LastStoredSnoc(three, DoCommit);
    hide Run, LastStored;
  }
}
