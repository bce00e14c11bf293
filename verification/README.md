# teenDNS: policy engine and control plane, verified

teenDNS lets a family attach a policy to a DNS profile: rules, groups of domains with weekly schedules, and pauses.
A resolver decides each query by the policy. A browser extension mirrors the policy and compiles it into the browser's
own rules. A control plane stores the policies, pairs devices, logs families in and mails them a digest.

This project models those parts in Dafny and proves what they promise. `dafny verify dfyconfig.toml` checks all of it.

## What is modelled

**Names and times.** `Text`, `Names` and `Schedule` hold the two normalisers, the two time parsers and the weekly
windows. A window has two readings in the code: a case analysis on today and yesterday, and a set of minutes of a
week of 10,080 minutes. They are proved to denote one set (`Schedule.WeekCircle`), except for windows that start
and end at the same time (`Schedule.WeekCircleExactly`). `Occupancy` proves that the server's minute-by-minute check
accepts a list of schedules exactly when no two are ever active together, and exactly when the web form's check
agrees (`Occupancy.FormAgreesExactly`).

**Deciding.** `Matching`, `Decision` and `ExtensionDecision` hold both interpreters. Their running-best loops find the
first entry of maximal length, whatever the order of entries for different domains, and they agree on every query. The
schedule label is not part of that: `Matching.LabelIsStaleExactly` says when it belongs to another group. `Outcomes`
reads the same decisions off the fields of a profile: which domain decides, and by what action at that instant.

**Compiling.** `DnrCompiler`, `DnrEmission` and `DnrCorrectness` hold the compiler to browser rules. The packed
priority is an order isomorphism, and for every policy that compiles the highest-priority matching rule redirects
exactly when the interpreter, left with the rules and groups of known actions, blocks (`DnrCorrectness.LiveCorrect`);
`DnrCorrectness.CompilationPreservesMeaning` says exactly when that is what the interpreter itself decides. `RuleCache`
models the extension's worker: its queued recomputes, its cache of a rule signature, and reads and writes of its storage
that interleave with each other, with stops and with starts. `RuleCacheRuns` proves for every such run exactly when the
cache works and which snapshot is stored.

**The store.** `PolicyStore`, `PolicyRevalidation` and `PolicyManager` hold validation: nested loops that rewrite
domain arrays in place and fill two maps. `Acceptance` says what is accepted field by field, what one more rule,
pause, group, schedule, domain or profile must be, and what a lookup finds. `PolicyPipeline` joins the ends: for every
accepted configuration the browser redirects exactly what the resolver's own copy of the profile blocks
(`PolicyPipeline.BrowserEnforcesTheStore`). `Enforcement` lifts this to whole runs: in every state that requests of
settled names lead to, resolver, published profile and browser agree, also through the extension's worker and its
cache. `ServedPolicy` shows that the part of a profile that the server sends to the extension is all that interpreter
and compiler read.

**The control plane.** `AdminModel` says on values what each command makes of a configuration and what a commit is.
`Configuration`, `Commands` and `AdminServer` are the same on the heap: deep copy, in-place change, validation, write,
activation, publication. `AdminServer.Server.Update` may write nothing but the server's own fields and the manager's
store pointer, so published lists and arrays never change. `Commits`, `CommandEffects`, `HouseEffects`,
`ProfileEffects` and `EditEffects` say what each command has left in configuration, file and lookups once it is
committed, and exactly when it commits. `AdminRuns`, `Versions`, `RequestNames` and `Invitations` are about whole runs
of commits.

**Tokens and counters.** `Pairing` and `MagicLink` are the two token managers with their runs (`PairingRuns`,
`PairingLife`, `MagicLinkRuns`). `Digest` is the counter store and its saved file, `DigestRuns` follows the fate of
every recorded observation while reports are taken and sent, `DigestLosses` counts exactly what is never reported,
`DigestReport` holds the alphabetical order of a report, `DigestScheduler` shows that a tick of the scheduler is such
a run, and `DigestCadence` says which houses a tick mails.

Three ideas recur. A *stable* name is one that normalisation leaves alone; a *settled* name is one whose normal form is
stable. A *run* is a sequence of events with the sequence of states they lead to. A class has a function that gives
its value, and each method's contract ties the new value to the old one; the properties are then proved about values.

## Where the code falls short of a plain claim

- Normalising is not idempotent: `a..` becomes `a.` and then `a`. A commit validates, writes the file and validates
  again. `AdminModel.CommitIsSoundExactly` proves that an accepted commit is sound if and only if every name is settled,
  and `AdminModel.HalfWrittenExactly` when it writes a file and then refuses to activate it. A profile update with the
  domains `a..` and `a` does that (`AdminModel.DoubleDotIsHalfWritten`).
- A label lookup finds its profile if and only if the label is a stable name (`PolicyStore.LabelFindsProfileExactly`).
  A profile on the hostname `.dns` is accepted and has a label that finds nothing (`PolicyStore.EmptyLabelIsLost`).
- The schedule label of a verdict can be another group's: `Matching.LabelIsStaleExactly` says when, and
  `PolicyPipeline.StaleLabelIsServed` gives an accepted profile and a clock.
- The compiler passes over rules and groups of an unknown action, which the interpreters report. They disagree with the
  compiled rules exactly where the interpreter's action is unknown while the known rules and groups block
  (`DnrCorrectness.CompilationPreservesMeaning`, with an example in `DnrCorrectness.UnknownActionMiscompiles`). No
  accepted store serves such a policy (`PolicyPipeline.AcceptedProfilesAreRegular`).
- The extension's worker can be left with the wrong rules installed. Stopping it is harmless if and only if the stored
  signature describes the installed rules (`RuleCacheRuns.StopIsHarmlessExactly`), which in runs without an earlier bad
  step can fail only between installing or removing rules and storing that
  (`RuleCacheRuns.OnlyStopsBeforeTheSignatureHarm`). `RuleCacheRuns.StoppedWorkerBreaksTheCache` is a scenario.
- The worker's operations write back a state they read before others wrote. At any moment of any run such a write is
  harmless to the installed rules if and only if its signature is overwritten by the recompute under way or describes
  the rules that one leaves (`RuleCacheRuns.LateWriteIsHarmlessExactly`). The last snapshot is stored if and only if the
  last one as of the source of the stored one is the same (`RuleCacheRuns.LastSnapshotIsStoredExactly`, and step by step
  `RuleCacheRuns.SnapshotStepExactly`). A failed sync can thus undo an unpairing while the cache works
  (`RuleCacheRuns.UnpairingIsUndone`), put an older policy back without any concurrency
  (`RuleCacheRuns.RejectedSyncIsUndone`) and make the next recompute skip wrongly
  (`RuleCacheRuns.StaleWriteBreaksTheCache`); a recompute that began unpaired can lose a first pairing
  (`RuleCacheRuns.FirstSnapshotIsLost`).
- Observations that arrive while a report is being mailed are deleted unreported when the mail goes out
  (`DigestLosses.OneObservationIsLost`). `DigestLosses.DiscardedExactly` counts, for every run, exactly what is lost:
  observations recorded between a check and its send, those deleted, and a report whose counters were deleted and whose
  mail failed. `DigestLosses.NothingIsLostExactly` and `DigestLosses.NothingIsLostOnQuietSends` say when
  nothing is.
- The web form lets hours out of range through, which the server refuses (`Occupancy.FormLetsHoursOutOfRange`);
  `Occupancy.FormAgreesExactly` is the exact condition. A browser's own time field does not produce such texts.
- `extension/README.md:64-65` says that the overlap of groups is decided arbitrarily in the compiled rules. The code at
  `extension/rules.js:72-82` keeps the order of sources; the model follows the code.

## Model

| member | source | states |
|---|---|---|
| Names.NormalizersAgree | extension/decision.js:70-79 | The extension's normaliser and the server's give the same result on every ASCII value. |
| Names.StableCharacterised | internal/policy/policy.go:306-315 | A name is left alone exactly when it is non-empty, lower-case, free of forbidden characters, not edged by white space and not ending in a dot. |
| Names.NormalFormIsStable | internal/policy/policy.go:306-315 | Normalising twice equals normalising once if and only if the trimmed value does not end in a dot after a dot or white space. |
| Names.NormalFormExists | internal/policy/policy.go:306-315 | A value has a normal form exactly when trimming it and dropping one final dot leave something without blank, slash, colon and at sign, and it is that in lower case. |
| Names.NormalizeIgnoresCase | internal/policy/policy.go:307 | The case of a value does not change its normal form. |
| Names.NormalizeIgnoresSpace | internal/policy/policy.go:307 | White space before or after a value does not change its normal form. |
| Names.NormalizeDropsDot | internal/policy/policy.go:307 | A stable name followed by a dot has that name as its normal form. |
| Names.EqualLengthCover | internal/policy/policy.go:269-291 | Two matching domains of one length are the same string. |
| Names.DoubleDotIsNotIdempotent | internal/policy/policy.go:306-315 | A concrete value whose normal form changes when normalised again. |
| Schedule.ParsersAgree | extension/decision.js:19-29 | The regular-expression parser, the parse-and-print parser and the reference parser accept the same texts and read them alike. |
| Schedule.ParseMinuteIsFormatInverse | internal/policy/schedule.go:65-71 | A text is accepted exactly when it is the two-digit print of that minute of the day. |
| Schedule.ValidateWindow | internal/policy/schedule.go:24-63 | No error exactly for valid windows; each error exactly when it is the first that applies, and a weekday error names the first day that is out of range or repeated. |
| Schedule.WindowActiveMirrored | extension/decision.js:33-56 | Both interpreters find the same windows active when the times parse. |
| Schedule.CellIsModulo | internal/policy/schedule.go:113-115 | Walking minute by minute around the week ends where the modulus says. |
| Schedule.ArcMember | internal/policy/schedule.go:112-120 | The cells of one day's loop are those less than the duration after its start, around the week. |
| Schedule.DaysDoNotMeet | internal/policy/schedule.go:105-123 | The cells of one window on two weekdays are disjoint. |
| Schedule.WeekCircle | internal/policy/schedule.go:73-123 | A valid window is active at a clock exactly when that minute of the week is among the cells it fills, overnight and Saturday-to-Sunday included. |
| Schedule.WeekCircleExactly | internal/policy/schedule.go:46-48 | For every window on weekdays the two readings agree at all clocks if and only if its times differ or it has no day. |
| Schedule.ActiveAroundTheWeek | internal/policy/schedule.go:73-94 | A valid window is active exactly at the minutes of the week less than its length after its start on one of its days, counted around the week. |
| Schedule.ClockOfMinute | internal/policy/schedule.go:113-115 | Every minute of the week is the minute of a valid clock. |
| Occupancy.Occupied.OccupyWindow | internal/policy/schedule.go:105-123 | Reports a conflict exactly when a cell is taken, names the window found there, and otherwise adds exactly the window's cells under its id. |
| Occupancy.Occupied.FillDays | internal/policy/schedule.go:112-121 | The loop over weekdays adds all their cells or reports a cell that was taken before. |
| Occupancy.Occupied.FillDay | internal/policy/schedule.go:114-120 | The loop over offsets adds one arc or reports a taken cell of it. |
| Occupancy.CheckSchedules | internal/policy/policy.go:181-197 | The incremental loop accepts exactly the lists whose schedules are valid, distinctly named and cell-disjoint from earlier ones. |
| Occupancy.AcceptedMeans | internal/policy/policy.go:181-197 | Acceptance without the order: all valid, distinct ids, pairwise disjoint windows. |
| Occupancy.OverlapIsSharedInstant | internal/policy/schedule.go:73-123 | Two valid windows share a cell if and only if some clock finds both active. |
| Occupancy.AcceptedIffNeverTogether | internal/policy/policy.go:181-197 | Otherwise valid schedules are accepted if and only if no two are ever active together. |
| Occupancy.AtMostOneActive | internal/policy/schedule.go:96-103 | In an accepted list at most one schedule is active at any instant. |
| Occupancy.ScheduledActionIgnoresOrder | internal/policy/schedule.go:96-103 | On an accepted list the first active schedule is the same in every order of the list. |
| Occupancy.Fill | web/src/pages/Panel.tsx:294-303 | The form's set for a window of two-digit times, in range or not; on times of day it is the set of cells the server fills. |
| Occupancy.WindowsOverlap | web/src/pages/Panel.tsx:292-308 | The form reports an overlap exactly when the sets it computes share a cell. |
| Occupancy.AddSchedule | web/src/pages/Panel.tsx:450-470 | The form appends exactly a schedule that passes its checks and, as it computes, meets none of the list. |
| Occupancy.FormAgreesExactly | web/src/pages/Panel.tsx:450-470 | To a list it accepts, the server accepts the addition of a schedule that passes the form's checks if and only if the form lets it through, its times are times of day, and its weekdays are in range and listed once. |
| Occupancy.FormRefusesRightly | web/src/pages/Panel.tsx:451-454 | A schedule that fails the form's checks, with a label of at most 80 characters, the server refuses too. |
| Occupancy.FormLetsHoursOutOfRange | web/src/pages/Panel.tsx:450-470 | The form lets "24:00" to "25:00" through and the server refuses it. |
| Occupancy.FormFindsEveryOverlap | web/src/pages/Panel.tsx:292-308 | The server accepts a list of valid schedules with distinct ids if and only if the form finds no two of them overlapping. |
| Matching.LiveMirrored | extension/decision.js:60-67 | At every clock both interpreters see the same pause, rules and active schedules when the times parse. |
| Matching.WinnerIsFirstLongest | internal/policy/policy.go:267-301 | The running-best loop ends with the first matching entry of maximal length, and with none exactly when nothing matches. |
| Matching.WinnerIgnoresOrderAcrossDomains | internal/policy/policy.go:269-301 | Reordering entries without reordering those of one domain leaves the winner's action, category, reason, domain and group. |
| Matching.LabelIsStaleExactly | internal/policy/policy.go:290-299 | The schedule label is the winner's own if and only if the winner has an active schedule or no improving match on the way had one. |
| PolicyPipeline.StaleLabelIsServed | internal/policy/policy.go:296-299 | An accepted profile and a clock at which the resolver's verdict names one group and carries the schedule label of another. |
| Decision.DecideAt | internal/policy/policy.go:240-304 | The resolver's loops compute the verdict: normalise, first active pause, else the best of rules and groups. |
| Decision.DecideRules | internal/policy/policy.go:269-283 | The loop over rules keeps the verdict of the entries seen so far. |
| Decision.DecideGroups | internal/policy/policy.go:284-301 | The loop over groups keeps the verdict of rules and groups seen so far. |
| Decision.DecideGroup | internal/policy/policy.go:285-300 | The loop over one group's domains keeps the verdict, the active schedule overriding the group's action. |
| Decision.VerdictIsFirstLongest | internal/policy/policy.go:240-304 | Outside pauses the verdict is the first entry, rules before groups, of maximal length, else the default action. |
| Outcomes.ResolverFollowsFields | internal/policy/policy.go:240-304 | The resolver decides by the fields of the profile: the first active pause, else the first longest matching domain, with the action of its rule, of the first active schedule of its group, or of the group, and with their category, reason and name. |
| Outcomes.SomethingRules | internal/policy/policy.go:240-304 | For every profile, name and clock the fields determine such a decision. |
| Outcomes.ScheduleOverridesGroup | internal/policy/policy.go:296-299 | When a domain of a group with accepted schedules is the first longest match outside pauses and one of those schedules is active, resolver and extension decide its action, the resolver reports its label, and the browser redirects exactly if it blocks. |
| Outcomes.GroupActsUnscheduled | internal/policy/policy.go:290-299 | When none of the schedules is active, they follow the group's own action. |
| Outcomes.NoNameNoMatch | internal/policy/policy.go:240-244 | A query without a normal form is an error for the resolver, and matches nothing for the extension. |
| Outcomes.PauseLabels | internal/policy/policy.go:259-267 | The verdict during pauses blocks and carries the label of the first active one. |
| ExtensionDecision.DecideAtJs | extension/decision.js:129-197 | The extension's loops compute its verdict, with null for absent texts. |
| ExtensionDecision.DecideGroupsJs | extension/decision.js:176-194 | The extension's group loops keep the verdict so far. |
| Outcomes.ExtensionFollowsFields | extension/decision.js:129-197 | The extension decides by the same fields, as its own reading of times finds windows active. |
| ExtensionDecision.InterpretersAgree | extension/decision.js:129-197 | On policies whose times parse and whose domains are not empty both interpreters give the same answer to every query at every clock. |
| DnrCompiler.BuildRules | extension/rules.js:109-171 | The imperative compiler, with its entries and length buckets, builds the rules of the specification or fails like it. |
| DnrCompiler.FillBuckets | extension/rules.js:150-155 | The insertion-ordered map of lengths holds each domain once under its length, in order of first use. |
| DnrCompiler.EmitRules | extension/rules.js:166-170 | Emission numbers rules consecutively, skips unknown actions and stops at the first priority that does not fit. |
| DnrEmission.PriorityOrder | extension/rules.js:72-82 | The packed number compares as (longer domain, then earlier source), tells any two apart, and exceeds the default's priority. |
| DnrEmission.CeilingIsOutOfReach | extension/rules.js:78-80 | All domains of at most 253 characters fit below the ceiling if and only if there are at most 8,454,659 sources. |
| DnrEmission.EmitAll | extension/rules.js:84-104 | Compilation fails exactly when the priority of a candidate of known action does not fit, and otherwise appends one rule per such candidate in order. |
| DnrEmission.PrioritiesOrderCandidates | extension/rules.js:136-169 | In the compiled list priorities order the candidates of known action, are all distinct, and lie strictly between default and pause. |
| DnrEmission.CompileThrowsExactly | extension/rules.js:78-80 | The range error is thrown exactly when, outside pauses, the priority of some candidate of known action does not fit. |
| DnrEmission.OrdinaryPoliciesCompile | extension/rules.js:78-80 | Domains of at most 253 characters (section 2.3.4 of RFC 1035) from at most 8,454,659 sources always compile. |
| DnrCorrectness.CarrierPrevails | extension/rules.js:166-170 | The candidate of the winning entry outranks every other matching candidate. |
| DnrCorrectness.KnownWinner | extension/decision.js:155-194 | Without the entries of unknown action the winner is no longer, and a winner of known action stays the winner. |
| DnrCorrectness.LiveCorrect | extension/rules.js:109-171 | For every policy at an instant that compiles, the rules redirect a host exactly when it is not the extension's own and the interpreter, left with the rules and groups of known actions, blocks it. |
| DnrCorrectness.CompilationPreservesMeaning | extension/rules.js:109-171 | For every policy that compiles, clock and normalised host, the browser redirects exactly what the interpreter blocks if and only if the host is the extension's own, the interpreter's action is known, or the known rules and groups do not block; always, with valid actions. |
| Outcomes.BrowserFollowsFields | extension/rules.js:109-171 | With the compiled rules the browser redirects a host exactly when the fields say block and the host is not the extension's own. |
| DnrCorrectness.UnknownActionMiscompiles | extension/rules.js:57-70 | A policy of that exception: with an unknown action on the longer domain the rules redirect what the interpreter does not block. |
| RuleCache.SignatureDeterminesRules | extension/rules.js:175-177 | Rules with the extension id are the rules without it, each excluding that id, so the signature determines them. |
| RuleCache.SoundStepExactly | extension/background.js:151-209 | Every step of the worker and its surroundings keeps the cache sound, except a stop after new rules are in and before that is stored, and a late write that brings back a signature of other rules; those never do. |
| RuleCache.SignatureAlwaysDescribes | extension/background.js:137-209 | In every run without such a step, however reads and writes, other stops and starts interleave, a stored signature describes the installed rules whenever no recompute is in the middle. |
| RuleCache.RecomputeInstallsCurrent | extension/background.js:182-209 | After a recompute with a clock the installed rules are those of the current snapshot and clock, also when skipped. |
| RuleCache.RecomputeEnforcesPolicy | extension/background.js:182-209 | From every idle state of such a run a recompute makes the browser redirect exactly what the stored policy blocks. |
| RuleCacheRuns.AlwaysInstallsExactly | extension/background.js:198-208 | An idle cache installs the right rules for every policy and clock that come next if and only if its signature, if any, describes the installed rules. |
| RuleCacheRuns.StopIsHarmlessExactly | extension/background.js:202-208 | In every run, stops anywhere included, a stop leaves such a cache if and only if the stored signature, if any, describes the installed rules. |
| RuleCacheRuns.OnlyStopsBeforeTheSignatureHarm | extension/background.js:186-208 | Without an earlier bad stop, a stop is harmful exactly after rules were installed or removed, before that is stored, while the stored signature describes others. |
| RuleCacheRuns.LateWriteIsHarmlessExactly | extension/background.js:137-164 | In every run and at every moment, a late write of a sync, pairing or unpairing leaves a cache that, once a recompute under way has finished, always installs the right rules if and only if the signature it writes is overwritten by that recompute or describes the rules it leaves. |
| RuleCacheRuns.FailedSyncIsHarmlessExactly | extension/background.js:151-164 | The write of a failed sync is harmless to the installed rules under that condition, and to the stored snapshot if and only if the last snapshot when it read is the last one still. |
| RuleCacheRuns.SnapshotComesFromSource | extension/background.js:137-209 | In every run, late writes and stops included, what is stored is the last pairing, sync or unpairing as of its source, the point to which operations that write back what they read have taken the run. |
| RuleCacheRuns.LastSnapshotIsStoredExactly | extension/background.js:137-209 | In every run the snapshot of the last pairing, sync or unpairing is stored if and only if the last one as of the source is the same. |
| RuleCacheRuns.LastSnapshotIsStored | extension/background.js:137-209 | It is stored in every run in which no operation writes back a snapshot other than the one stored by then. |
| RuleCacheRuns.SnapshotStepExactly | extension/background.js:137-209 | A run that has kept the last snapshot keeps it over a step if and only if the step writes nothing back or takes the run back to the same snapshot. |
| RuleCacheRuns.FirstSnapshotIsLost | extension/background.js:182-192 | The run in which a first pairing arrives while a fresh install's first recompute awaits the browser, and is lost. |
| RuleCacheRuns.UnpairingIsUndone | extension/background.js:151-164 | The run in which a failed sync undoes an unpairing and the next recompute installs the policy again, although the cache works. |
| RuleCacheRuns.RejectedSyncIsUndone | extension/background.js:151-164 | The run of one sync whose recompute the browser rejects: the older policy is put back over the one just stored. |
| RuleCacheRuns.SyncIsRun | extension/background.js:137-209 | A sync from an idle state, with its recompute accepted, rejected or failing, is a run of these steps. |
| RuleCacheRuns.StaleWriteBreaksTheCache | extension/background.js:151-164 | A scenario: a write of a state read before two other recomputes makes the next recompute skip although other rules are installed. |
| RuleCacheRuns.StoppedWorkerBreaksTheCache | extension/background.js:202-208 | A scenario: stopped between installing rules and storing their signature, a return to the earlier policy leaves the wrong rules installed. |
| RuleCache.Worker.RecomputeRulesNow | extension/background.js:182-209 | The worker's method makes the state of the recompute steps. It keeps everything when the clock cannot be resolved or the signature is already the policy's, and otherwise installs the policy's rules and signature, or fails when it does not compile or the browser rejects it. |
| RuleCache.Worker.SyncNow | extension/background.js:137-164 | Succeeds exactly when a policy was fetched and either the clock cannot be resolved, which changes nothing but the stored policy, or the policy compiles and is already installed or accepted; otherwise everything is as it was. |
| RuleCache.Worker.Unpair | extension/background.js:356-366 | Unpairing forgets policy and signature and leaves the rules, which the recompute after it removes. |
| RuleCache.Worker.Start | extension/background.js:289-304 | Bootstrap clears the signature, and a browser start the installed rules. |
| PairingNames.OwnNamesAreRecognised | internal/pairing/manager.go:91-99 | The manager recognises the names it hands out if and only if its suffix is non-empty and does not end in white space. |
| Pairing.Manager.Create | internal/pairing/manager.go:62-82 | Creates exactly below the limit and with both tokens; the new state and the name handed out. |
| Pairing.Manager.Observe | internal/pairing/manager.go:86-119 | True exactly for a live challenge's own name that is bound or can be bound; the first observer binds it and mints a session. |
| Pairing.Manager.GetStatus | internal/pairing/manager.go:121-134 | The status of a challenge after cleaning up. |
| Pairing.Manager.Outcome | internal/pairing/manager.go:140-153 | The observing profile of a challenge after cleaning up, never a token. |
| Pairing.Manager.Profile | internal/pairing/manager.go:155-165 | The profile of a live session after cleaning up. |
| Pairing.Manager.Cleanup | internal/pairing/manager.go:167-180 | Removes exactly the expired challenges with their DNS tokens and the expired sessions, in any iteration order. |
| PairingRuns.MapsStayInverse | internal/pairing/manager.go:62-180 | In every run with fresh tokens the two maps are mutual inverses and at most 10,000 challenges are pending. |
| PairingRuns.FirstObserverStays | internal/pairing/manager.go:108-117 | A bound challenge keeps its first observer and token as long as it lives. |
| PairingRuns.MintsAtMostOnce | internal/pairing/manager.go:108-117 | A challenge observed by a profile with an id mints no second session. |
| PairingRuns.EmptyProfileMintsAgain | internal/pairing/manager.go:108-117 | A profile with an empty id mints again whenever it minted. |
| PolicyPipeline.StoredProfilesMintOnce | internal/gateway/server.go:259 | Observers are stored profiles, which have ids, so no challenge mints a second session. |
| PairingRuns.PairedSessionsResolve | internal/pairing/manager.go:121-165 | When sessions live as long as challenges and the clock never goes back, a paired status has a live session of the profile the outcome names. |
| PairingRuns.ResolvesExactlyWhenSessionsOutlive | internal/pairing/manager.go:121-165 | That holds in every run if and only if the session lifetime is at least the challenge lifetime. |
| PairingLife.SessionResolvesUntilExpiry | internal/pairing/manager.go:115-116 | The session an observation mints resolves to the observing profile until its life, counted from the observation, is over, and never after. |
| PairingLife.ResolvedWasMinted | internal/pairing/manager.go:155-165 | A token resolves only to a profile whose observation minted it and only while that session lives. |
| PairingLife.StatusFollowsObservations | internal/pairing/manager.go:121-138 | The status of a challenge by the events alone: none exactly once its life, counted from its creation, is over; pending exactly until a profile with an id observes it; then paired, with that observation's token and session expiry. |
| PairingLife.MintsExactly | internal/pairing/manager.go:86-119 | An observation mints for a challenge exactly when it names it while it lives, can draw a token, and no profile with an id has observed it. |
| MagicLink.Manager.IssueLink | internal/magiclink/manager.go:50-64 | Issues exactly below the limit and with a token; the new state. |
| MagicLink.Manager.RedeemLink | internal/magiclink/manager.go:69-88 | Removes the link in any case, and mints a session for its house exactly when it was there, not expired, and a token could be drawn. |
| MagicLink.Manager.HouseID | internal/magiclink/manager.go:93-103 | The house of a live session after cleaning up. |
| MagicLinkRuns.PendingLinksAreBounded | internal/magiclink/manager.go:50-64 | In every run at most 10,000 links are pending, and only generated tokens are keys. |
| MagicLinkRuns.RedeemedAtMostOnce | internal/magiclink/manager.go:66-88 | With fresh tokens a redeemed link is never redeemed again. |
| MagicLinkRuns.RedemptionHonoursIssue | internal/magiclink/manager.go:69-88 | A redemption logs in to the house its link was issued for, no later than the link's expiry. |
| MagicLinkRuns.SessionResolvesUntilExpiry | internal/magiclink/manager.go:86-103 | The session resolves to that house until its expiry and never after. |
| MagicLinkRuns.RedeemedExactly | internal/magiclink/manager.go:69-91 | An issued link logs in to its house exactly when it is tried for the first time, no later than its expiry, and a session token can be drawn. |
| Digest.Store.constructor | internal/digest/store.go:68-110 | A new store holds exactly what the saved file lists. |
| Digest.Store.Save | internal/digest/store.go:115-138 | A successful save into a path leaves a file that loads back to exactly these counters and send times; a failed one leaves the file alone. |
| Digest.Store.Write | internal/digest/store.go:145-163 | Only observed queries with a matched domain count: one more for their profile, part of the day and domain. |
| Digest.Store.Digest | internal/digest/store.go:195-237 | In any iteration order each cell of the report is the sum of the stored counts that belong there, with a cell exactly where there is a counter, each category titled by one of its counters, and all of it listed in alphabetical order. |
| DigestReport.BelowIsAlphabetical | internal/digest/sort.go:8-15 | The order is that of a dictionary: at the first place where two texts part, the lower one ends or has the smaller character. |
| DigestReport.ListCategories | internal/digest/sort.go:5-17 | Lists every category once in alphabetical order with its name, reason and domains, and every domain of it once in alphabetical order with its counts. |
| DigestReport.ReportListIsUnique | internal/digest/store.go:192-194 | What was accumulated can be listed in one way only, so the order of a report does not depend on map iteration. |
| Digest.ReportAddsUp | internal/digest/store.go:208-227 | All the numbers of a report add up to the stored counts of its profiles. |
| Digest.WriteCounts | internal/digest/store.go:145-163 | An observed query of a listed domain makes the counter of its profile, domain and part of the day one higher and stores its category, reason and group name; every other query and counter is left alone. |
| Digest.ObservationIsShown | internal/digest/store.go:195-237 | A report after such a query shows one more under its category, domain and part of the day, where the counter moves if it was stored with another category, and is otherwise the same. |
| Digest.OthersChangeNoReport | internal/digest/store.go:145-148 | A query with another action, of no listed domain or of another profile changes no report. |
| Digest.Store.IsDue | internal/digest/store.go:241-249 | Due exactly when never sent or the interval has passed. |
| Digest.Store.CompleteDigest | internal/digest/store.go:254-269 | Removes exactly the counters of the profiles, records the send time and saves. |
| Digest.Store.Forget | internal/digest/store.go:273-288 | Removes exactly the counters of the profiles and the house's send time and saves. |
| DigestRuns.FatesAreCounted | internal/digest/scheduler.go:54-75 | In every run the stored counter counts the observations not yet reported or discarded, the reports sent count each reported observation once, and every recorded observation has a fate. |
| DigestRuns.Conservation | internal/digest/scheduler.go:65-71 | Whenever no report is being sent, recorded observations are those stored, those in sent reports and those discarded. |
| DigestLosses.DiscardedExactly | internal/digest/store.go:254-288 | In every run the discarded observations are exactly those recorded between a check and its send, those deleted while in no report, and those in a report whose counters were deleted before its mail failed. |
| DigestLosses.ConservationWithLosses | internal/digest/scheduler.go:65-71 | Whenever no report is being sent, recorded observations are those stored, those in sent reports and those so lost. |
| DigestLosses.NothingIsLostExactly | internal/digest/scheduler.go:65-71 | No observation is lost if and only if no event of the run loses one. |
| DigestLosses.NothingIsLostOnQuietSends | internal/digest/scheduler.go:65-71 | In a run without deletions of the profile, no observation is lost if and only if none is recorded between the check and the send of a report on it that goes out. |
| DigestLosses.MailingLosesWhatArrives | internal/digest/scheduler.go:65-71 | One mailing, with writes, checks and deletions of other profiles meanwhile, loses exactly the observations recorded between its check and its send. |
| DigestLosses.OneObservationIsLost | internal/digest/scheduler.go:65-71 | The run of a check, an observation and a send: the observation is in no report and no longer stored. |
| DigestRuns.DigestsAreSpaced | internal/digest/store.go:241-249 | Two digests of a house that is not forgotten in between are at least the interval apart on the scheduler's clock. |
| DigestRuns.TalliesMoved | internal/digest/store.go:254-288 | What an event does to the numbers of observations of each fate. |
| DigestScheduler.Scheduler.ProfileIDsForHouse | internal/digest/scheduler.go:77-85 | Lists the ids of exactly the profiles of the house. |
| DigestScheduler.Scheduler.CheckHouse | internal/digest/scheduler.go:57-74 | One house of a tick is a run of arriving observations and deletions, check, more arrivals and outcome; a report is mailed exactly when the check takes one, and shows exactly the counters taken. |
| DigestScheduler.Scheduler.CheckAndSend | internal/digest/scheduler.go:54-75 | A tick is the run of its houses' events, one after the other, and each report is that of its house's turn. |
| DigestScheduler.RunsAreAfter | internal/digest/scheduler.go:54-75 | The states of a run are what its events lead to, so the run theorems apply to ticks. |
| DigestCadence.CheckTakesExactly | internal/digest/scheduler.go:57-65 | In every run a check takes a report exactly when none is being sent, the house has an address, and it has had no digest since it was last forgotten or the check of its last one is at least the interval back. |
| DigestCadence.TickMailsExactly | internal/digest/scheduler.go:54-75 | After every history, each house of a tick is mailed a report exactly then, on the counters of exactly its own profiles. |
| DigestCadence.TurnEnds | internal/digest/scheduler.go:65-74 | A delivered report has its counters removed and the tick's instant remembered; without delivery only what arrived changes. |
| PolicyStore.IndexesHoldEnabledProfiles | internal/policy/policy.go:114-216 | In an accepted store both indexes hold the enabled profiles, each exactly once under its own name. |
| PolicyStore.AcceptedProfile | internal/policy/policy.go:120-210 | Every enabled profile of an accepted list passes all checks. |
| Acceptance.AcceptsExactly | internal/policy/policy.go:114-216 | A list is accepted if and only if every enabled profile meets the requirements, stated field by field, and no two enabled ones share a hostname or a first label. |
| Acceptance.AppendRule | internal/policy/policy.go:158-167 | One more rule in an enabled profile is accepted if and only if its domain has a normal form and its action is allow, block or observe. |
| Acceptance.AppendPause | internal/policy/policy.go:146-155 | One more pause is accepted if and only if it is a good window with an id of its own. |
| Acceptance.AppendGroup | internal/policy/policy.go:168-180 | One more group is accepted if and only if it has a name, an id of its own, a known action, good schedules and good domains. |
| Acceptance.AppendSchedule | internal/policy/policy.go:181-197 | One more schedule is accepted if and only if it is a good window that allows or blocks, has an id of its own and is never active together with another of its group. |
| Acceptance.AppendDomain | internal/policy/policy.go:198-209 | One more domain is accepted if and only if it has a normal form that no other domain of the group has. |
| Acceptance.AppendProfile | internal/policy/policy.go:120-137 | One more profile is accepted if and only if it is disabled, or meets the requirements and shares no hostname and no first label with an enabled one. |
| Acceptance.KeepsAllButNames | internal/policy/policy.go:157-212 | What the store keeps of a profile is the profile with hostname, rule domains and group domains in normal form, and nothing else changed. |
| Acceptance.HostnameFindsExactly | internal/policy/policy.go:218-225 | A hostname finds exactly the enabled profile whose hostname has the same normal form. |
| Text.FirstLabelEndsAtDot | internal/policy/policy.go:134 | The first label is what comes before the first dot, or the whole name. |
| Acceptance.LabelFindsExactly | internal/policy/policy.go:227-234 | A single label finds exactly the enabled profile whose hostname, in normal form, starts with it. |
| PolicyStore.HostnameFindsProfile | internal/policy/policy.go:218-225 | Looking an enabled profile up by its configured hostname finds it. |
| PolicyStore.LabelFindsProfileExactly | internal/policy/policy.go:227-234 | Looking it up by its first label finds it if and only if that label is a stable name. |
| PolicyStore.EmptyLabelIsLost | internal/policy/policy.go:227-234 | A profile on the hostname ".dns" is accepted, and its label finds nothing. |
| PolicyRevalidation.CanonicalTwice | internal/policy/policy.go:306-315 | A normal form is its own normal form if and only if the name is settled. |
| PolicyRevalidation.ProfileTwice | internal/policy/policy.go:158-209 | The rewritten profile passes again unchanged if and only if its names are settled. |
| PolicyRevalidation.SecondValidationExactly | internal/policy/policy.go:97-104 | After acceptance the second validation refuses exactly when some rewritten name has no normal form or two in one group have the same, and otherwise builds the same indexes. |
| PolicyRevalidation.RevalidationExactly | internal/policy/policy.go:97-104 | After acceptance the second validation passes and changes nothing if and only if all names are settled. |
| PolicyRevalidation.SecondNormalFormsCollide | internal/policy/policy.go:198-209 | Two domains of a group whose second normal forms are equal are accepted and then refused. |
| PolicyRevalidation.DoubleDotCollapses | internal/policy/policy.go:198-209 | The concrete pair of domains with which an accepted list is refused when validated again. |
| PolicyManager.NormalizeRules | internal/policy/policy.go:158-167 | Accepts exactly the rules with normal forms and valid actions, and then the array holds the normal forms. |
| PolicyManager.NormalizeDomains | internal/policy/policy.go:198-209 | Accepts exactly the lists whose normal forms exist and are distinct, and then the array holds them. |
| PolicyManager.CheckPauses | internal/policy/policy.go:146-155 | Accepts exactly valid pauses with distinct ids. |
| PolicyManager.CheckGroups | internal/policy/policy.go:168-210 | Accepts exactly acceptable groups with distinct ids, and then their domain arrays hold the normal forms. |
| PolicyManager.CheckAt | internal/policy/policy.go:138-210 | The checks on one profile rewrite its arrays and leave every other profile as it was. |
| PolicyManager.NewStore | internal/policy/policy.go:114-216 | Accepts exactly the acceptable lists; on success both maps hold the profiles the indexes name and all arrays hold normal forms. |
| PolicyManager.LookupsFollowIndex | internal/policy/policy.go:218-234 | The store's lookups return the profile the index names, under its normalised hostname. |
| PolicyManager.Manager.Replace | internal/policy/policy.go:97-104 | Swaps the store exactly when validation accepts, and otherwise leaves it. |
| PolicyPipeline.AcceptedProfilesAreRegular | internal/policy/policy.go:114-216 | An accepted profile has known actions, parsing times and no empty domain. |
| PolicyPipeline.BrowserEnforcesTheStore | extension/rules.js:109-171 | For every accepted configuration, enabled profile, clock and normalised host, if the policy compiles, the browser redirects exactly the hosts that the resolver's own copy of the profile blocks. |
| PolicyPipeline.AcceptedSchedulesNeverClash | internal/policy/policy.go:181-197 | In an accepted store at most one schedule of a group is active at any instant. |
| ServedPolicy.ServedIsEnough | internal/admin/server.go:873-898 | On what the server sends of a profile, interpreter and compiler answer exactly as on the profile. |
| Enforcement.StartsServing | internal/admin/server.go:255-285 | A server that starts on settled names has an active store of exactly the published profiles, which validation leaves alone. |
| Enforcement.EveryStateIsEnforced | extension/rules.js:109-171 | In every state of every run of settled requests, for each enabled published profile, clock and normalised host, the resolver finds the profile under its hostname and a browser that compiled what is served of it redirects exactly what the resolver blocks. |
| Enforcement.WorkerEnforcesEveryState | extension/background.js:182-209 | The same through the worker: once it has stored what is served of the profile, whatever steps it took before, short of a bad one, its next recompute makes the browser enforce what the resolver of that state does. |
| AdminModel.FileRestores | internal/config/config.go:113-133 | The saved file, which has no profile zones, restores the configuration when its zones are applied. |
| AdminModel.CommitIsSoundExactly | internal/admin/server.go:1253-1279 | An accepted and writable commit succeeds with file and active store in step if and only if all names are settled. |
| AdminModel.CommitIsAllOrNothing | internal/admin/server.go:1253-1279 | On settled names a commit changes nothing or leaves configuration, file and active store in step. |
| AdminModel.HalfWrittenExactly | internal/admin/server.go:1263-1276 | An accepted commit writes the file and is then refused, the rest unchanged, if and only if some rewritten name has no normal form or two in one group have the same. |
| AdminModel.DoubleDotIsHalfWritten | internal/admin/server.go:1263-1276 | A profile update that leaves a new file and the old configuration and store. |
| Commits.CommitStores | internal/admin/server.go:1253-1279 | A commit stores each profile as asked with the zone of its house: a disabled one as it is, an enabled one with its names normalised twice. |
| Commits.LeftAlone | internal/admin/server.go:1253-1279 | A profile that a command and its house's zone leave alone is the very same after the commit. |
| Commits.ZonesFollowHouses | internal/config/config.go:113-133 | After a commit every house has a known zone and every profile the zone of its house, or the default one without a house. |
| Commits.FoundByHostname | internal/admin/server.go:1272-1276 | After a commit a hostname finds exactly the enabled profile of the new configuration that has it. |
| Commits.FoundByLabel | internal/admin/server.go:1272-1276 | And a label exactly the enabled profile whose hostname starts with it. |
| Commits.FileHolds | internal/admin/server.go:1268-1271 | The file holds the committed configuration: everything but the zones of profiles, with names whose normal forms are the committed ones. |
| Commits.SettledCommitsExactly | internal/admin/server.go:1257-1276 | A command that asks for settled names commits exactly when the file can be written and the profiles meet the requirements. |
| CommandEffects.DisableCommitted | internal/admin/server.go:1054-1063 | A disabled profile is disabled in the configuration and the file, has the next version, and is found by no hostname and no label; nothing else changes. |
| CommandEffects.DisableCommits | internal/admin/server.go:1054-1063 | Disabling commits exactly when there is such a profile and the file can be written. |
| CommandEffects.RotateCommitted | internal/admin/server.go:1232-1241 | A rotated profile has the new hostname and the next version, is found under it if enabled, and the old name finds nothing; nothing else changes. |
| CommandEffects.RotateCommits | internal/admin/server.go:1232-1241 | Rotating commits exactly when there is such a profile, the file can be written, and the profile is disabled or the new name is free. |
| HouseEffects.WaitlistCommitted | internal/admin/server.go:596-604 | An address joins the waiting list at its end, unless it is listed in whatever case; this always commits if the file can be written. |
| HouseEffects.InvitationCommitted | internal/admin/server.go:451-461 | An invitation is added at the end, unused, for seven days. |
| HouseEffects.EmailsCommitted | internal/admin/server.go:700-713 | The house has the new addresses and the first of them as its address, nothing else changes, and it commits exactly when there is such a house. |
| HouseEffects.DeleteCommitted | internal/admin/server.go:751-767 | The house and exactly its profiles are gone, all others are the very same in their order, and it commits exactly when there is such a house. |
| ProfileEffects.CreateCommitted | internal/admin/server.go:926-939 | A new profile is added at the end with the zone of its house, and nothing else changes. |
| ProfileEffects.CreateCommits | internal/admin/server.go:926-939 | On settled names it is added exactly when it is disabled or meets the requirements and shares no hostname and no label with an enabled one. |
| ProfileEffects.RegisterCommitted | internal/admin/server.go:404-415 | A registration uses up the first usable invitation with its code, removing its address, and adds house and profile at the end; nothing else changes. |
| ProfileEffects.RegisterCommits | internal/admin/server.go:362-415 | On settled names it commits exactly when there is such an invitation, the zone is known and the profile is welcome. |
| EditEffects.PackageCommitted | internal/admin/server.go:1193-1217 | A package switched off is gone, one switched on decides by the action and is filled if it listed no domain, or is added at the end; nothing else of the configuration changes but the version. |
| EditEffects.PackageCommits | internal/admin/server.go:1193-1217 | On settled names it commits exactly when profile and action exist and the profile is disabled or its groups then meet the requirements. |
| EditEffects.PutCommitted | internal/admin/server.go:997-1042 | An update makes of a profile what the request says; a zone goes to its house and to all profiles of it, with the next version if it is new; nothing else changes. |
| EditEffects.PutCommits | internal/admin/server.go:997-1042 | On settled names it commits exactly when the profile exists, title and groups can be taken, the zone is known and the profile has a house, and the result is disabled or meets the requirements. |
| EditEffects.MergesExactly | internal/admin/server.go:1300-1335 | A group of an update can be taken exactly when it has an id and a name and lists domains or is known, and then keeps source, default domains and schedules of the stored one, or stands alone as customized. |
| AdminRuns.AlwaysInSync | internal/admin/server.go:1253-1279 | On settled names file and active store reflect the configuration in every state of every run. |
| RequestNames.UpdateNames | internal/admin/server.go:1253-1279 | A request of settled names in a state of settled names asks for settled names, and its commit keeps them settled. |
| RequestNames.SettledRequestsStayInSync | internal/admin/server.go:1253-1279 | When all requests bring in settled names only, file and active store reflect the configuration in every state of every run. |
| RequestNames.SettledRequestsPinPolicies | internal/admin/server.go:997-1251 | When all requests bring in settled names and new ids only, versions never decrease and equal versions mean the very same profile. |
| Versions.StartsRegular | internal/admin/server.go:255-271 | What the first server publishes satisfies the premise of the run theorems when ids are unique and names settled. |
| Versions.MutatedComes | internal/admin/server.go:997-1062 | Every command bumps each profile it changes and leaves the house zone of the others. |
| Versions.CommitStep | internal/admin/server.go:1253-1279 | After a commit every profile is new, the very same, or of a higher version, and ids stay unique. |
| Versions.ZoneChangeBumpsItsHouse | internal/admin/server.go:1008-1028 | A change of zone gives every profile of that house the next version and leaves every other profile exactly as it was. |
| Versions.StaysRegular | internal/admin/server.go:1253-1279 | Unique ids, applied zones and accepted normal forms hold in every state of a run. |
| Versions.VersionPinsPolicy | internal/admin/server.go:997-1251 | Over every run versions never decrease, and two states with one version of a profile show the very same profile. |
| Invitations.UpdateInvitations | internal/admin/server.go:404-415 | A registration marks the first usable invitation with its code, an invitation is appended, and nothing else touches them. |
| Invitations.RegistrationsUseInvitations | internal/admin/server.go:362-415 | In every run the number of registrations is the number of invitations newly used. |
| Invitations.InvitationsAreUsedOnce | internal/admin/server.go:404-412 | Invitations are never removed; each stays as it was or becomes used once, losing its address. |
| Invitations.RegistrationHonoursInvitation | internal/admin/server.go:1395-1405 | A registration uses an unused invitation with its own code that had not expired when checked. |
| Invitations.EachCodeRegistersOnce | internal/admin/server.go:362-415 | With distinct codes each code registers at most one house, whatever was found before the commit. |
| Invitations.UsedMeansRedacted | internal/config/config.go:32-42 | A used invitation has no address in any state of a run. |
| Configuration.CloneConfig | internal/admin/server.go:1588-1612 | An equal configuration of which every list and array is new and no two profiles or groups share one. |
| Configuration.CloneProfiles | internal/admin/server.go:1597-1610 | Equal profiles on new, unshared arrays. |
| Configuration.CloneGroups | internal/admin/server.go:1602-1608 | Equal groups on new, unshared domain arrays. |
| Commands.FindValidInvitation | internal/admin/server.go:1395-1405 | The first unused, unexpired invitation with the code. |
| Commands.Register | internal/admin/server.go:404-415 | Marks the invitation and adds house and profile, or fails when no invitation can be used. |
| Commands.Wait | internal/admin/server.go:596-604 | Adds the address unless one that differs only in case is listed. |
| Commands.SetEmails | internal/admin/server.go:700-713 | Replaces the addresses of the first house with the id; the first one is primary. |
| Commands.Delete | internal/admin/server.go:751-767 | Removes the house and exactly its profiles, keeping the order of the others. |
| Commands.DisableProfile | internal/admin/server.go:1054-1063 | Disables the profile and bumps its version. |
| Commands.SwitchPackage | internal/admin/server.go:1193-1217 | Removes, re-actions, refills or adds the package's group and bumps the version. |
| Commands.Rotate | internal/admin/server.go:1232-1241 | Gives the profile a new hostname and version. |
| Commands.MergeGroups | internal/admin/server.go:1300-1335 | Merges each group of a request with the stored one of its id, on domain arrays of its own, or fails at the first bad one. |
| Commands.Rezone | internal/admin/server.go:1008-1028 | Checks the zone, bumps the other profiles of the house if it changes, and sets it. |
| Commands.PutOne | internal/admin/server.go:997-1042 | The whole update of a profile, or failure. |
| Commands.ApplyHouseTimeZones | internal/config/config.go:113-133 | Fills in missing zones, fails exactly on an unknown one, and gives each profile the zone of its house. |
| Commands.Mutate | internal/admin/server.go:1253-1260 | Every command's in-place change of the copy makes the value its specification says, on old or new arrays only. |
| AdminServer.Prepare | internal/admin/server.go:1257-1263 | The changed copy reaches nothing that existed before. |
| AdminServer.Server.Update | internal/admin/server.go:1253-1279 | One commit makes exactly the state and outcome of the specification, writing no list or array that the published configuration or active store reaches. |
| AdminServer.NewServer | internal/admin/server.go:255-285 | The first server publishes a copy of the zoned and validated configuration and activates the original. |

## Left out

- Non-ASCII text: names, addresses and labels are ASCII, so lower-casing and white space are the ASCII ones.
- Time-zone databases and `Intl`: a clock is a weekday, an hour and a minute, and the known zone names are a parameter.
- The browser's rule engine: `requestDomains` is a suffix match on label boundaries, an exact rule also compares the
  whole host, and the highest priority wins. Its own validation of rules is not modelled.
- Random tokens and random-source failures are inputs; that tokens are fresh is a premise of the run theorems.
- Files are one cell that an atomic write replaces or leaves alone; JSON, file modes and unreadable files are left out.
- Error texts: an operation says that it failed, not how. Validation errors of a window are the exception.
- Requests are taken as parsed; authorisation, house scopes and the reads a handler does before its commit are left out,
  except that two registrations may both have found their invitation valid.
- `Reload` may install any configuration, so no run theorem covers it; the catalog files a load or a preset reads are
  inputs.
- Schedules, pauses and default domains of a configuration are values: the code copies them but never writes into them.
- A browser start and the clearing of the signature that follows it are one step. Of the stored state only snapshot and
  signature are modelled; session tokens, network calls and the pages' badges are not.
- Digest.Store.Digest: which group name and reason title a category with several groups depends on map order, so only
  that it is one of them is stated.
- Digest.Store.constructor: a missing file is an empty store; a file that cannot be read or decoded is not modelled.
- Occupancy.Fill: asks for times of two digits, a colon and two digits, which the form's pattern and the server's
  validation ensure; on other texts the form would compute with values that are not numbers.
- Occupancy.WindowsOverlap: asks for such times as well, and for weekdays that are not negative.
- Occupancy.AddSchedule: asks for such times in the list and for weekdays that are not negative, as the picker's are.
- Configuration.CloneConfig: waiting list and addresses of houses are values, so only the arrays are shown to be new.
- Configuration.CloneProfiles: pauses are values, so only rule and domain arrays are shown to be new.
- Configuration.CloneGroups: schedules and default domains are values, so only domain arrays are shown to be new.
- Schedule.ValidateWindow: lengths count characters, which are bytes here.
- DNS and TLS traffic, event buffers, mail contents, device set-up files, the classifier, HTTP and the web pages.
