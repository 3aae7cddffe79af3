# Nexus kernel: models and proofs

Dafny models of the governed parts of the Nexus kernel, and proofs of what they
promise. Each module follows one source file. Objects the source updates in
place are classes with its fields and methods; pure rules are functions.

Calls that leave the modelled code (a ledger append, a grant revocation, a file
operation, an audit write, a clock, a lock taken by another thread) answer
freely, so what is proved holds whatever fails on the way. Where a result needs
the absence of failures, the method returns a ghost flag that says whether one
occurred, and the clause is conditional on it. Hashes, digests, derived keys and
encryption are ideal: a digest stands for what it hashes, and an envelope opens
exactly under the key that sealed it.

| file | source | contents |
|---|---|---|
| `EmergencyStop.dfy` | `kernel/src/emergency_stop.rs` | the stop, its watches and the halt log as a transition system over every interleaving, and the class that refines it |
| `Scope.dfy`, `Snapshot.dfy` | `kernel/src/coding_run.rs`, `kernel/src/coding_run/scope.rs` | path scopes and the snapshot copy |
| `Structural.dfy`, `Candidates.dfy` | `kernel/src/coding_run/structural.rs`, `kernel/src/coding_run.rs` | the structural scan, and the candidate it judges as a value: snapshot, edits, contents |
| `RunLedger.dfy`, `CodingRuns.dfy` | `kernel/src/coding_run.rs`, `kernel/src/coding_run/ledger.rs` | the ledger protocol of a coding run, the run itself, and whole runs |
| `Consent.dfy` | `kernel/src/consent.rs` | the approval queue, the consent runtime, and whole runs |
| `ConfigFile.dfy` | `kernel/src/config.rs` | which key seals the configuration file |
| `GovernedPath.dfy`, `Restore.dfy` | `kernel/src/governed_path.rs`, `kernel/src/backup.rs` | the path grammar, and both passes of a restore |
| `HistoricalMemory.dfy` | `kernel/src/hm.rs`, `persistence/src/hm.rs` | the T0 migration, the ledger checks, label binding |
| `FuelLedger.dfy`, `FuelContexts.dfy` | `kernel/src/fuel_hardening.rs` | budgets, thresholds, anomalies, reports, reservations |
| `ComputerControl.dfy` | `kernel/src/computer_control.rs` | the input rate limiter |
| `Common.dfy`, `Text.dfy` | | options, results, saturating arithmetic; ASCII case, UTF-8 lengths |

Whole-run results have two shapes. The stop is a pure transition system: `Run`
is the state after any sequence of atomic steps, and lemmas speak of every
`Run(steps)`. The others have a driver method `AnyRun` that builds the object,
performs any sequence of calls on it, and promises something about every state
it observed. A class keeps a history where such a promise needs one: the trace of
the approval queue, the snapshot, accepted edits and lost grants of a coding run.

## Where the code is not what one would expect

- A resume of stop k never lifts a later stop, except when the stop number is
  saturated; `LiftAtSaturation` gives that exception. A watch admitted at the
  saturated number is never halted (`HaltedIffStoppedSince`).
- The order and repetition of scope entries never matter to a snapshot, but an
  entry inside another one can turn success into a refusal
  (`RedundantEntryCanRefuse`). `OverlapExactly` says exactly when: it names a
  directory as a file, or something on its way is not a directory.
- Alert thresholds are exact for a cap iff cap times percent is at most the
  largest multiple of 100 in a u64 (`ReachedExactlyWhen`); above it they come
  early (`EarlyAlert`).
- A report restores a fuel ledger iff its alerts are those of its present cap
  (`ReportRoundTrip`), which for a whole run means that exactly the thresholds
  its cap has now were announced in its period (`RestorableExactly`). A cap
  change breaks that iff it moves a threshold across the present spend
  (`CapChangeRestorable`, `RaisedCapIsNotRestored`).
- T0's checks pass after any write, and still say nothing about labels that are
  deleted: no trigger refuses that, nor a change of a record's key. Members stay
  guarded iff no write takes the label or the key from a member without a
  tombstone (`GuardedThroughoutExactly`); `DeletedLabelLoosens` and
  `MovedRowIsMissing` are the two ways out.
- An accepted archive is restored only if the filesystem keeps its places apart
  (`RestoreBackup`). It does so for every accepted archive iff its name identity
  is no coarser than lower-casing (`NoCoarserExactly`): for any coarser one
  `CoarserIsBlocked` gives an accepted archive whose second entry is blocked.
- A run that is over holds no live grant unless its state says a revocation
  failed, with one exception: a panic while an allocation still owns its lease
  leaves the revocation to the lease's drop, and if that fails the run requires
  recovery for the panic only, with a live grant (`LosesAGrant`). Without such a
  panic it cannot happen (`CodingRuns.AnyRun`).
- A run's ledger ends with one terminal event, its state, again with one
  exception: a panic inside the recording of an end, once that is durable, leaves
  the run live to the recovery, which records a second end (`RecordsTwoEnds`).
  Without such a panic it cannot happen (`CodingRuns.AnyRun`).
- Edits are checked one by one, the caps on file count and total size only by
  the final scan: so an untampered candidate is rejected exactly when its files
  together exceed one of those caps (`HonestCandidate`).
- The comment on `set_cedar_engine` says an explicit Allow bypasses the consent
  tiers. The code lets Allow bypass only Tier0 and Tier1; the model follows the
  code.

## Model

| member | source | states |
|---|---|---|
| EmergencyStop.RunNumberInv | kernel/src/emergency_stop.rs:292-324 | in every interleaving the locked number counts the engagements (saturating) and places every watch among them |
| EmergencyStop.HaltedIffStoppedSince | kernel/src/emergency_stop.rs:506-534 | a watch is halted iff a stop was engaged after its admission, below saturation of the number it was admitted at |
| EmergencyStop.HaltedForever | kernel/src/emergency_stop.rs:506-534 | a halted watch is halted in every later state, resumes included |
| EmergencyStop.WatchesAndStopsOnlyGrow | kernel/src/emergency_stop.rs:292-324 | watches and engagements are never forgotten by a longer history |
| EmergencyStop.StopHaltsEveryWatch | kernel/src/emergency_stop.rs:292-324 | while a stop is in force every watch ever admitted is halted, one admitted at the saturated number excepted |
| EmergencyStop.MirrorAgreesWhenUnlocked | kernel/src/emergency_stop.rs:292-303 | the lock-free mirror equals the locked number whenever the lock is free and is at most one stop behind it otherwise |
| EmergencyStop.LiftNeverLiftsALaterStop | kernel/src/emergency_stop.rs:444-458 | lifting with a confirmed number leaves a later stop in force |
| EmergencyStop.LiftAtSaturation | kernel/src/emergency_stop.rs:444-458 | the exact exception: at the saturated number a confirmation lifts a later stop |
| EmergencyStop.RecordNamesFirstStop | kernel/src/emergency_stop.rs:338-366 | the record of a halted watch names the first stop engaged after its admission |
| EmergencyStop.RunAuditInv | kernel/src/emergency_stop.rs:338-385 | in every interleaving each model-call halt is in exactly one place: log, recorder, backlog, audit or lost |
| EmergencyStop.HandedAtMostOnce | kernel/src/emergency_stop.rs:465-487 | no halt is handed to the audit twice |
| EmergencyStop.QuiescentHandedOrLost | kernel/src/emergency_stop.rs:465-487 | at quiescence after attachment a halt was handed over or had left the bounded log before attachment |
| EmergencyStop.UnrecordedCountsLostAndRefused | kernel/src/emergency_stop.rs:382-394 | once every refusal is counted, the unrecorded count is the lost plus the refused halts, saturating |
| EmergencyStop.StopAuthority.MintController | kernel/src/emergency_stop.rs:277-284 | the right to lift is minted at most once, whoever asks |
| EmergencyStop.StopAuthority.ClaimController | kernel/src/emergency_stop.rs:259-264 | mints it for a fresh authority, and never for the process's own |
| EmergencyStop.StopAuthority.ClaimGlobalController | kernel/src/emergency_stop.rs:273-275 | the first claim on the process's own authority gets it, and no later one |
| EmergencyStop.StopAuthority.Engage | kernel/src/emergency_stop.rs:292-303 | engaging is three steps of the transition system under one lock and returns the new number |
| EmergencyStop.StopAuthority.Admit | kernel/src/emergency_stop.rs:315-324 | admission is refused under a stop and otherwise captures the locked number |
| EmergencyStop.StopAuthority.Lift | kernel/src/emergency_stop.rs:444-458 | lifts iff the confirmed number is the current one, and then no stop is in force |
| EmergencyStop.StopAuthority.RecordLocked | kernel/src/emergency_stop.rs:338-366 | the locked part of recording is one step of the transition system |
| EmergencyStop.StopAuthority.AttachLocked | kernel/src/emergency_stop.rs:465-487 | attachment happens once, and the backlog it returns names exactly the durable halts not yet handed over, in order |
| EmergencyStop.StopAuthority.CountUnrecorded | kernel/src/emergency_stop.rs:367-385 | refusals are added saturating, as the matching steps |
| EmergencyStop.FilterDurable | kernel/src/emergency_stop.rs:465-487 | the backlog loop keeps exactly the durable halts in order |
| Snapshot.ScopeFilesExact | kernel/src/coding_run.rs:1455-1473 | a scope selects exactly the non-Git regular files it covers, with their bytes |
| Snapshot.SameCoverageSameFiles | kernel/src/coding_run.rs:1455-1473 | scopes that cover the same paths select the same files |
| Snapshot.OrderDoesNotMatter | kernel/src/coding_run.rs:1455-1473 | files and success do not depend on order or repetition of entries |
| Snapshot.RedundantEntryCanRefuse | kernel/src/coding_run.rs:2313-2355 | a concrete project where an entry that covers nothing new is refused |
| Snapshot.OverlapExactly | kernel/src/coding_run.rs:2313-2355 | an entry within another changes no file, and success iff it names no node of the wrong kind |
| Snapshot.PrefixFits | kernel/src/coding_run.rs:2412-2446 | the caps met at the end were met at every point of the walk |
| Snapshot.SnapshotCopy.EnsureDir | kernel/src/coding_run.rs:2485-2494 | makes one directory, with names a run may use, and nothing else |
| Snapshot.SnapshotCopy.CopyFile | kernel/src/coding_run.rs:2412-2446 | stages one file iff its node is acceptable and the caps still hold; a file already staged is not counted again |
| Snapshot.SnapshotCopy.CopyDir | kernel/src/coding_run.rs:2373-2410 | stages exactly the files below a directory iff the walk is acceptable and they fit |
| Snapshot.SnapshotCopy.CopyChild | kernel/src/coding_run.rs:2373-2410 | one child of that walk, Git metadata skipped |
| Snapshot.SnapshotCopy.CopyEntry | kernel/src/coding_run.rs:2313-2355 | one scope entry, its way included; a missing target selects nothing |
| Snapshot.SnapshotCopy.CopyTarget | kernel/src/coding_run.rs:2313-2355 | the node an entry names: a file, a tree, or a refusal |
| Snapshot.CopyReadScope | kernel/src/coding_run.rs:1455-1473 | absent I/O failures it succeeds iff the snapshot is acceptable; success leaves manifest, staging and byte counter exactly those of the selected files, under usable names and the file cap |
| Snapshot.CopiedExactlyTheCoveredFiles | kernel/src/coding_run.rs:1455-1473 | path by path, what a successful copy staged is what the scope covers |
| Scope.ContainedCovers | kernel/src/coding_run/scope.rs:211-226 | what an inner scope covers, the scope that contains it covers |
| Structural.WalkDirs | kernel/src/coding_run/structural.rs:155-186 | a walk that every directory answered finds nothing iff all their names can be used |
| Structural.WalkFiles | kernel/src/coding_run/structural.rs:187-230 | a walk that every file answered finds nothing iff names, sizes, count and total are within the limits; it then lists every file, and which changed ones are text |
| Structural.FileViolations | kernel/src/coding_run/structural.rs:240-252 | none iff the file is in the read scope and, if it is not as in the base, editable |
| Structural.CheckAgainstBase | kernel/src/coding_run/structural.rs:233-269 | finds nothing iff every file is within the scopes, none of the base is missing and every changed one is text |
| Structural.Scan | kernel/src/coding_run/structural.rs:107-269 | absent redirections and read failures the scan finds nothing iff the tree is within the structural policy; with one it always finds something |
| Candidates.UneditableUnchanged | kernel/src/coding_run.rs:1549-1564 | no sequence of accepted edits changes a path outside the write scope or a protected one |
| Candidates.LastEditWins | kernel/src/coding_run.rs:1631-1653 | the last accepted edit of a path decides its bytes |
| Candidates.FileOrigin | kernel/src/coding_run.rs:1631-1653 | the bytes of every file are the snapshot's or those of an accepted edit of that path |
| Candidates.ChangedFilesHaveTheirBase | kernel/src/coding_run.rs:1530-1547 | every base file that differs from its base has its base bytes kept, and was editable |
| Candidates.EditKeepsContents | kernel/src/coding_run.rs:1631-1653 | an allowed edit keeps staging equal to the snapshot with the accepted edits applied in order |
| Candidates.HonestCandidate | kernel/src/coding_run.rs:1688-1710 | whatever edits were accepted, the candidate is within the structural policy iff its files together are within the caps on count and total size |
| RunLedger.OpsIncrease | kernel/src/coding_run.rs:1277-1312 | prepared operations are numbered strictly upwards |
| RunLedger.OutcomeAnswersOnce | kernel/src/coding_run.rs:1277-1312 | every outcome follows the prepared record of its operation and no operation has two outcomes |
| RunLedger.UnmatchedMeans | kernel/src/coding_run/ledger.rs:268-289 | an unmatched operation is one prepared with no outcome after it |
| RunLedger.OpenOperations | kernel/src/coding_run/ledger.rs:268-289 | the analysis loop returns exactly the unmatched operations |
| RunLedger.AtMostOneEnd | kernel/src/coding_run.rs:1068-1114 | the trail of a state has at most one terminal event, its last, naming that state |
| RunLedger.LedgerEndsOnce | kernel/src/coding_run.rs:2289-2297 | in a ledger that agrees with a state a terminal event names that state, is the only one and is the last state-bearing event |
| CodingRuns.CodingRun.constructor | kernel/src/coding_run.rs:873-955 | a created run is valid, has one ledger event, holds no staging and has lost no grant |
| CodingRuns.CodingRun.RevokeGrant | kernel/src/coding_run.rs:608-617 | revocation is idempotent and a confirmed one removes the grant from the live set |
| CodingRuns.CodingRun.CloseProjectRead | kernel/src/coding_run.rs:704-714 | closes the run's own project read grant, idempotently |
| CodingRuns.CodingRun.CloseLease | kernel/src/coding_run.rs:629-659 | reports discarded only with the grant revoked and the directory gone; staging only loses files |
| CodingRuns.CodingRun.CloseStaging | kernel/src/coding_run.rs:1176-1183 | drops the lease iff it is fully closed and sets the cleanup status accordingly |
| CodingRuns.CodingRun.CloseAuthority | kernel/src/coding_run.rs:1068-1080 | attempts both revocations, loses no confirmed one and revokes no other grant |
| CodingRuns.CodingRun.EnterTerminal | kernel/src/coding_run.rs:1068-1099 | authority closes first, the state is the one that closure and recording allow, and the ledger gains at most that one event |
| CodingRuns.CodingRun.RecordEnd | kernel/src/coding_run.rs:1102-1114 | an end that is not recorded becomes recovery required unless a revocation failure already is |
| CodingRuns.CodingRun.ForceRecovery | kernel/src/coding_run.rs:1126-1148 | the run requires recovery for the stated or a worse reason whether or not that is recorded |
| CodingRuns.CodingRun.Fail | kernel/src/coding_run.rs:1250-1271 | an error ends a live run in its matching state and never changes an ended one |
| CodingRuns.CodingRun.StopRefusal | kernel/src/coding_run.rs:1199-1207 | a watch once seen halted refuses for ever while the stop ends the run |
| CodingRuns.CodingRun.HaltIfStopped | kernel/src/coding_run.rs:1237-1246 | a stop ends a live run or a verified, unapplied candidate as revoked, logs it once and withdraws the candidate |
| CodingRuns.CodingRun.Resolve | kernel/src/coding_run.rs:1006-1021 | a grant the registry no longer holds never resolves, nor any grant of a stopped run |
| CodingRuns.CodingRun.RevalidateProject | kernel/src/coding_run.rs:1025-1037 | passes only while an owned project grant is live |
| CodingRuns.CodingRun.RevalidateStaging | kernel/src/coding_run.rs:1041-1054 | passes only with a staging grant that is live |
| CodingRuns.CodingRun.Prepare | kernel/src/coding_run.rs:1277-1312 | an operation is numbered and prepared before anything is done for it |
| CodingRuns.CodingRun.Conclude | kernel/src/coding_run.rs:1277-1312 | an outcome closes its own open operation |
| CodingRuns.CodingRun.Settle | kernel/src/coding_run.rs:1277-1312 | an unrecorded outcome or a failed mutation ends the run; only a recorded success goes on |
| CodingRuns.CodingRun.Allocate | kernel/src/coding_run.rs:549-600 | demands its open prepared record; success holds exactly one fresh live staging grant, failure holds none |
| CodingRuns.CodingRun.Grant | kernel/src/coding_run.rs:1318-1411 | success is recorded as prepared, outcome, granted in that order; every error leaves the state its error names; a new grant has its newly prepared allocation in the ledger |
| CodingRuns.CodingRun.TakeSnapshot | kernel/src/coding_run.rs:1416-1453 | needs live grants; success stages exactly the files of the frozen read scope under one prepared operation; whatever is new in staging, failed or not, has that operation in the ledger |
| CodingRuns.CodingRun.CopyInto | kernel/src/coding_run.rs:1455-1473 | demands its open prepared record; success stages the selected files, all of them in the read scope |
| CodingRuns.CodingRun.ProbeTarget | kernel/src/coding_run.rs:1590-1629 | a replacement needs a staged file, a creation a missing path; anything else is refused or ends the run |
| CodingRuns.CodingRun.ApplyEdit | kernel/src/coding_run.rs:1631-1653 | demands its open prepared record; success changes exactly the edited path and makes only directories on its way |
| CodingRuns.CodingRun.CaptureBase | kernel/src/coding_run.rs:1530-1547 | keeps a file's base bytes before its first replacement and never replaces kept bytes |
| CodingRuns.CodingRun.RejectEdit | kernel/src/coding_run.rs:1566-1587 | a refused edit is recorded or the run requires recovery |
| CodingRuns.CodingRun.Edit | kernel/src/coding_run.rs:1478-1526 | an accepted edit had live grants, is allowed, prepared, applied to its path alone, recorded and is the next of the accepted edits; a refused one leaves the files of a live run alone; whatever is new in staging has a newly prepared edit |
| CodingRuns.CodingRun.VerifyStructural | kernel/src/coding_run.rs:1659-1750 | unless an entry was redirected or unreadable, passes iff the files are within the caps on count and total size; only a recorded pass with both grants revoked reaches StructurallyVerified, bytes unchanged |
| CodingRuns.CodingRun.AnalyzeLedger | kernel/src/coding_run.rs:1672-1687 | the run's own ledger has no open operation here, so it is never refused for one |
| CodingRuns.CodingRun.Review | kernel/src/coding_run.rs:1758-1807 | a review is recorded; a changed candidate is withdrawn for good |
| CodingRuns.CodingRun.PinModel | kernel/src/coding_run.rs:1987-2005 | pins once, in Staged, and only when recorded |
| CodingRuns.CodingRun.ReadStaged | kernel/src/coding_run.rs:2032-2074 | returns the bytes of a read-scope file within both limits, after recording the read |
| CodingRuns.CodingRun.FailWorker | kernel/src/coding_run.rs:2124-2137 | ends a live run as failed and leaves an ended one alone |
| CodingRuns.CodingRun.Cancel | kernel/src/coding_run.rs:2199-2208 | succeeds iff the run actually ended cancelled |
| CodingRuns.CodingRun.Revoke | kernel/src/coding_run.rs:2210-2219 | succeeds iff the run actually ended revoked |
| CodingRuns.CodingRun.WorkerPanics | kernel/src/coding_run.rs:2182-2195 | a panic anywhere, inside an operation, an allocation or the recording of an end included, leaves recovery required and an ended run unchanged; a grant is lost exactly when the allocation's own lease could not revoke it, and a second end can be recorded exactly when a first one had been |
| CodingRuns.CodingRun.InterruptAllocation | kernel/src/coding_run.rs:1353-1392 | a lease dropped inside the allocation leaves its grant live iff its revocation failed |
| CodingRuns.LosesAGrant | kernel/src/coding_run.rs:667-673 | the run that ends so: recovery required for the panic, no revocation failure reported, and a live staging grant |
| CodingRuns.CodingRun.EndTwice | kernel/src/coding_run.rs:1068-1099 | a panic between the recording of an end and its state: authority is closed again, and the ledger gains that end and perhaps the recovery's |
| CodingRuns.RecordsTwoEnds | kernel/src/coding_run.rs:1068-1099 | the run that does so: a recorded cancellation followed by a recorded recovery |
| RunLedger.ToldTwice | kernel/src/coding_run.rs:1126-1148 | after both records the trail is a live one followed by those two ends, the last of them the state |
| CodingRuns.CodingRun.DiscardStaging | kernel/src/coding_run.rs:2226-2245 | only after the end, never reopening a closure, with the cleanup status it achieved |
| CodingRuns.Observe | kernel/src/coding_run.rs:1068-1148 | in every state between calls: over without a revocation failure means no live grant but one lost to a panic, unmatched operations mean failed or recovery, the ledger agrees with the state, up to a first end recorded when a panic struck, staging is the recorded snapshot with the accepted edits, all allowed, base bytes kept, and a verified candidate is within the caps |
| CodingRuns.AnyRun | kernel/src/coding_run.rs:1068-1148 | all of that for every sequence of calls and failures; and step by step: each state on the way is entered by its own successful call, whatever is new in staging has a newly prepared copy or edit in the ledger, a new grant a newly prepared allocation, the snapshot is what the successful snapshot call selected, each accepted edit is that of the successful edit call, a grant is lost only to a panic inside an allocation, and a second end is recorded only after a panic inside the recording of a first |
| Consent.OneOpenRecord | kernel/src/consent.rs:628-686 | at most one unexecuted record per fingerprint |
| Consent.OpenKept | kernel/src/consent.rs:628-686 | opening a record keeps the index exact even if its id is taken, since only an executed record can have it |
| Consent.DecideKept | kernel/src/consent.rs:688-769 | a decision keeps the index exact and every approval traceable to an allowed person |
| Consent.UseKept | kernel/src/consent.rs:803-840 | using a record up removes exactly its index entry |
| Consent.UseLawful | kernel/src/consent.rs:803-840 | a use is the first of its record, is backed by the approvals its tier needs and follows no denial of its fingerprint |
| Consent.ReloadExact | kernel/src/consent.rs:586-614 | reading a stored listing back, in any order, rebuilds the same records and the same index |
| Consent.Listing | kernel/src/consent.rs:842-856 | the stored listing holds every record and nothing else |
| Consent.Reload | kernel/src/consent.rs:586-614 | the loading loop is that rebuild; a missing file is an empty queue, a damaged one an error |
| Consent.PerformThenReload | kernel/src/consent.rs:586-614 | after every successful call that changed a file-backed queue, loading its file gives the same records and the same index |
| Consent.Refusal | kernel/src/consent.rs:688-735 | an accepted decision comes from an allowed person who is not the requester and has not decided yet |
| Consent.ApprovalQueue.RequestOrGet | kernel/src/consent.rs:628-686 | the open request of the fingerprint if there is one, else one fresh record without approvals |
| Consent.ApprovalQueue.SubmitDecision | kernel/src/consent.rs:688-769 | a refusal changes nothing; otherwise exactly one decision is added, and kept even if the audit fails |
| Consent.ApprovalQueue.MarkExecuted | kernel/src/consent.rs:803-840 | uses up a record iff it is open, not denied, not timed out and approved enough; the answer in every other case |
| Consent.RouteOf | kernel/src/consent.rs:952-1035 | a critical operation is asked for at Tier3 whatever the policies say; only a default tier below Tier2 can be let through unasked |
| Consent.ConsentRuntime.EnforceOperation | kernel/src/consent.rs:952-1035 | an operation let through above Tier0 used up a record of its own; a denied open request is always refused |
| Consent.ConsentRuntime.EnforceWithTier | kernel/src/consent.rs:1037-1087 | the same for one tier; approval is required only while approvals are too few |
| Consent.ConsentRuntime.SubmitVerdict | kernel/src/consent.rs:1089-1137 | a verdict counts only from an approver the policy in force allows, and success records exactly one |
| Consent.TwoApprovers | kernel/src/consent.rs:32-45 | a Tier3 use was approved before by two different allowed people, neither the requester |
| Consent.FindBackers | kernel/src/consent.rs:688-769 | behind every use stand as many earlier approving calls as it has approvers, of different people then allowed, all about the record it used up |
| Consent.BackersDisjoint | kernel/src/consent.rs:803-840 | two calls let through share no approving call |
| Consent.SufficientApproved | kernel/src/consent.rs:32-45 | before a call let through at Tier2 somebody else allowed approved, and at Tier3 two different people did |
| Consent.CriticalNeedsTwo | kernel/src/consent.rs:952-1035 | a critical operation is let through only at Tier3, so by two earlier approvals of different people |
| Consent.StillUnspent | kernel/src/consent.rs:803-840 | a request named as open stays unused until a call routed to its fingerprint takes effect |
| Consent.DenialIsFinal | kernel/src/consent.rs:803-840 | after a recorded denial no call is let through for its fingerprint, unless the record had been used up between a call that named it as open and the denial |
| Consent.AnyRun | kernel/src/consent.rs:952-1137 | for every sequence of calls, policies and failures: calls let through are backed by disjoint sets of earlier approving calls, one at Tier2 and two people's at Tier3, where every critical operation is; and a denial of an open request is final for its fingerprint |
| ConfigFile.IntroducesExactly | kernel/src/config.rs:838-860 | a save introduces credentials iff it holds one that was not stored in the same place |
| ConfigFile.OpenEnvelopeExactly | kernel/src/config.rs:912-937 | an envelope opens iff its key is among the keys tried, and with that key |
| ConfigFile.WritesExactlyWhen | kernel/src/config.rs:511-558 | a save is let through iff the file is absent or opens, and new credentials have an operator key |
| ConfigFile.WrittenIffSameKey | kernel/src/config.rs:511-558 | for an existing file the outcome is Written iff the sealing key did not change, and the other outcomes name their cause |
| ConfigFile.ChosenKeyOpens | kernel/src/config.rs:737-744 | the key a save chooses is one its own key material tries |
| ConfigFile.SaveThenOpen | kernel/src/config.rs:903-937 | what was saved is what the same key material opens |
| ConfigFile.SaveKeepsProtected | kernel/src/config.rs:511-558 | a save never puts a credential under the ambient key that the first file did not hold, nor a file under a blank key that did not seal the first, and never back from an operator key |
| ConfigFile.ConfigStore.WriteEnvelope | kernel/src/config.rs:960-983 | replaces the file or leaves it |
| ConfigFile.ConfigStore.Save | kernel/src/config.rs:511-558 | a refused or failed save changes nothing; a successful one reads back |
| ConfigFile.ConfigStore.Load | kernel/src/config.rs:371-388 | never changes an existing file; a missing one becomes the default or stays missing |
| ConfigFile.AnyRun | kernel/src/config.rs:371-388 | from any first file, over any loads and saves with any operator values: the file is the first one or an envelope, credentials under the ambient key were all in the first file, any other key is not blank unless it sealed the first, and operator-keyed files stay so |
| GovernedPath.SplitHasNoSeparator | kernel/src/governed_path.rs:44-56 | parts hold no separator |
| GovernedPath.JoinSplit | kernel/src/governed_path.rs:44-56 | splitting loses nothing, so different names have different parts |
| GovernedPath.ValidateRelative | kernel/src/governed_path.rs:44-56 | the loop accepts iff length, depth and every component are valid |
| GovernedPath.WalkStaysBeneath | kernel/src/governed_path.rs:157-164 | valid components lead exactly where they say, beneath the root |
| GovernedPath.JoinRelative | kernel/src/governed_path.rs:157-164 | joins iff the text is valid, and then strictly beneath the root |
| Restore.AcceptsExactly | kernel/src/backup.rs:630-688 | the scan finds no error iff counts and sizes are within limits, every entry is fine and folded names are distinct with none above another |
| Restore.OrderDoesNotMatter | kernel/src/backup.rs:630-688 | acceptance is the same for every order of the entries |
| Restore.LookupsFindRelated | kernel/src/backup.rs:666-684 | the three lookups find every equal, enclosing or enclosed earlier name |
| Restore.NoteName | kernel/src/backup.rs:666-684 | detects a collision iff there is one, and otherwise records the name and all its directories |
| Restore.PlanRestore | kernel/src/backup.rs:630-688 | accepts exactly the acceptable archives, with the first error otherwise, and returns id and names |
| Restore.RestoredOnly | kernel/src/backup.rs:692-734 | nothing but the entries and the directories above them appears, all beneath the restore directory |
| Restore.RestoredAll | kernel/src/backup.rs:692-734 | every entry is there with its bytes, no later one overwrote it |
| Restore.CollisionFreeApart | kernel/src/backup.rs:666-684 | names apart once lower-cased are apart on any filesystem whose name identity is no coarser, case sensitive or not |
| Restore.NeverBlocked | kernel/src/backup.rs:692-734 | an archive whose places are apart never meets an existing file or a file where it needs a directory |
| Restore.ApartExactly | kernel/src/backup.rs:692-734 | an entry is not blocked by those written before it iff its place is apart from theirs |
| Restore.CoarserIsBlocked | kernel/src/backup.rs:692-734 | if the filesystem identifies two valid names that lower-casing keeps apart, an accepted archive of the two is blocked |
| Restore.NoCoarserExactly | kernel/src/backup.rs:666-684 | all accepted archives keep apart iff the filesystem's name identity is no coarser than lower-casing |
| Restore.MakeDirs | kernel/src/backup.rs:708-721 | makes or finds the directories above an entry, or a file stood in the way |
| Restore.WriteEntry | kernel/src/backup.rs:699-732 | writes one entry completely or reports a wrong size or a blocked place |
| Restore.WriteRestore | kernel/src/backup.rs:692-734 | touches nothing outside the directory; on any filesystem, absent I/O failures, an archive is written completely iff its entries can be written, its sizes are right and its places apart |
| Restore.RestoreBackup | kernel/src/backup.rs:547-596 | on any filesystem: success is exactly the accepted entries in a fresh directory, and absent I/O failures happens iff the archive is accepted, its sizes are right and its places apart; a failure changes nothing elsewhere, and nothing at all once the directory is removed |
| HistoricalMemory.OriginRoundTrip | kernel/src/hm.rs:155-176 | stored class names and origins correspond one to one |
| HistoricalMemory.BindFailsClosed | kernel/src/hm.rs:243-254 | a label binds iff it decodes and matches agent and digest; anything else is local only |
| HistoricalMemory.CountsMean | kernel/src/hm.rs:451-480 | the event counts the rows of every table |
| HistoricalMemory.T0Verifies | kernel/src/hm.rs:629-682 | right after T0 every check passes and every record is a present, bound, unchanged member |
| HistoricalMemory.ChecksAlwaysPass | persistence/src/hm.rs:151-268 | with the triggers in place the four checks pass after any writes, and the members are as ledgered |
| HistoricalMemory.KeepsGuardedExactly | persistence/src/hm.rs:151-268 | a write keeps every member without a tombstone present and labelled iff it neither deletes or moves its label nor moves its row |
| HistoricalMemory.UnguardedCanFail | persistence/src/hm.rs:260-268 | each such write, with at most one more, makes its member missing or unrestricted |
| HistoricalMemory.GuardedThroughoutExactly | persistence/src/hm.rs:151-268 | over any writes members stay guarded all along iff none is such a write |
| HistoricalMemory.DeletedLabelLoosens | persistence/src/hm.rs:260-268 | deleting a member's label and inserting another leaves it unrestricted while every check passes |
| HistoricalMemory.MovedRowIsMissing | persistence/src/hm.rs:151-268 | changing a member's key leaves it missing without a tombstone while every check passes |
| HistoricalMemory.AlwaysVerifies | kernel/src/hm.rs:580-596 | after T0 and any writes the checks pass; and iff no write takes a standing member's label or key, members stay guarded all along, and then none is missing without a tombstone or unrestricted |
| HistoricalMemory.HmTx.ScanTable | persistence/src/hm.rs:813-826 | the rows of a table, each once |
| HistoricalMemory.HmTx.InsertMember | persistence/src/hm.rs:851-930 | a member and its label are added iff their keys are free and the ledger is open |
| HistoricalMemory.HmTx.InsertBaseline | persistence/src/hm.rs:976-1005 | the history row precedes the policy it justifies |
| HistoricalMemory.LabelMembers | kernel/src/hm.rs:449-481 | every row of the five tables and nothing else is ledgered and labelled; row agents and counts are collected |
| HistoricalMemory.WritePolicies | kernel/src/hm.rs:483-503 | every baseline agent gets its policy and history row, once |
| HistoricalMemory.CloseLedger | kernel/src/hm.rs:505-532 | count and digest are those of the ledger just written |
| HistoricalMemory.HmStore.RunT0 | kernel/src/hm.rs:431-539 | all or nothing: an error, an interruption or a completed migration leaves the database as it was; success is exactly the T0 tables |
| HistoricalMemory.CheckTriggers | kernel/src/hm.rs:645-650 | L4 holds iff every listed trigger has its definition |
| HistoricalMemory.EvaluateMembers | kernel/src/hm.rs:652-674 | lists every ledgered member exactly once, with its state |
| HistoricalMemory.CheckLedger | kernel/src/hm.rs:629-682 | reports the four checks and every member's state, each member once, or the corrupt migration |
| HistoricalMemory.MigrateThenVerify | kernel/src/hm.rs:431-539 | T0 on any store, a second T0 and the checks: already complete, all checks pass, members are the records, untouched |
| FuelLedger.ReachedExactlyWhen | kernel/src/fuel_hardening.rs:613-618 | the saturating ceiling decides a threshold exactly for every spend iff the product is within the limit |
| FuelLedger.EarlyAlert | kernel/src/fuel_hardening.rs:613-618 | a cap above that limit whose 120 percent alert comes at about 1 percent |
| FuelLedger.SpendKeepsAlerts | kernel/src/fuel_hardening.rs:56-73 | a spend emits exactly the thresholds it newly reaches, in order |
| FuelLedger.MonthlyBudget.SetPeriod | kernel/src/fuel_hardening.rs:45-54 | a new period starts from nothing, the same one changes nothing |
| FuelLedger.MonthlyBudget.RecordSpend | kernel/src/fuel_hardening.rs:56-73 | adds saturating and emits each reached threshold not emitted before |
| FuelLedger.FirstReachedMeans | kernel/src/fuel_hardening.rs:56-73 | within the limit the first reaching spend is the first whose exact total reaches the percentage |
| FuelLedger.OnePeriod | kernel/src/fuel_hardening.rs:56-73 | over any spends with a fixed cap each threshold is emitted exactly at the spend that first reaches it, once |
| FuelLedger.BurnAnomalyDetector.Observe | kernel/src/fuel_hardening.rs:206-250 | judges the sliding window of the last calls, spike before slope, with the saturated total |
| FuelLedger.ChargeKeepsTotal | kernel/src/fuel_hardening.rs:432-465 | budget and breakdown move together, saturation included |
| FuelLedger.InsertSorted | kernel/src/fuel_hardening.rs:597-600 | insertion keeps the breakdown sorted and complete |
| FuelLedger.ReportRoundTrip | kernel/src/fuel_hardening.rs:344-370 | a report restores the ledger iff its alerts are those of its present cap, and everything else always |
| FuelLedger.CapChangeRestorable | kernel/src/fuel_hardening.rs:415-430 | a cap change keeps that iff it moves no threshold across the present spend |
| FuelLedger.RaisedCapIsNotRestored | kernel/src/fuel_hardening.rs:415-430 | a concrete raise that loses an emitted alert |
| FuelLedger.AgentFuelLedger.FromReport | kernel/src/fuel_hardening.rs:344-370 | rebuilds the reported ledger with recomputed alerts and a fresh detector |
| FuelLedger.AgentFuelLedger.SetPeriod | kernel/src/fuel_hardening.rs:384-413 | a new period clears spend, alerts, anomalies, halts and breakdown together |
| FuelLedger.AgentFuelLedger.SetCap | kernel/src/fuel_hardening.rs:415-430 | changes the cap and nothing else |
| FuelLedger.AgentFuelLedger.RecordLlmSpend | kernel/src/fuel_hardening.rs:432-555 | charges budget and model, returns the thresholds newly crossed, reports an anomaly before an exceeded cap, and counts each as a halt |
| FuelLedger.AgentFuelLedger.RegisterViolation | kernel/src/fuel_hardening.rs:557-595 | counts one more halt, saturating, and nothing else |
| FuelLedger.AgentFuelLedger.Snapshot | kernel/src/fuel_hardening.rs:597-610 | reports the ledger with its breakdown sorted by model |
| FuelLedger.OncePerPeriod | kernel/src/fuel_hardening.rs:384-465 | over any calls, cap changes included, a threshold is announced at most once in a period |
| FuelLedger.RestorableExactly | kernel/src/fuel_hardening.rs:344-370 | the report of a run restores its ledger iff exactly the thresholds its cap has now were announced in its period |
| FuelLedger.FixedCapRestores | kernel/src/fuel_hardening.rs:344-370 | without a cap change that always holds |
| FuelLedger.AnyRun | kernel/src/fuel_hardening.rs:344-555 | over any calls the ledger, what it announces and its report are those of a pure run of the same calls; the spend is the sum of the breakdown, saturated; and the report restores the ledger iff that run is restorable |
| FuelContexts.FuelContext.Deduct | kernel/src/fuel_hardening.rs:671-678 | deducts iff enough is left |
| FuelContexts.FuelContext.Reserve | kernel/src/fuel_hardening.rs:686-697 | reserves iff enough is left, taking the amount out at once |
| FuelContexts.FuelReservation.Commit | kernel/src/fuel_hardening.rs:711-731 | the fuel is gone for good, the drop that follows included |
| FuelContexts.FuelReservation.Cancel | kernel/src/fuel_hardening.rs:716-731 | the fuel comes back once, without overflow, the drop that follows included |
| FuelContexts.FuelReservation.Drop | kernel/src/fuel_hardening.rs:725-731 | an unfinished reservation returns its fuel, a finished one nothing |
| FuelContexts.BooksBalance | kernel/src/fuel_hardening.rs:651-732 | after any calls remaining, held, committed and deducted fuel add up to the initial fuel |
| FuelContexts.AnyRun | kernel/src/fuel_hardening.rs:651-732 | over any interleaving outcomes, remaining and held fuel are those of the books of the same calls, which balance |
| ComputerControl.CountFromSuffix | kernel/src/computer_control.rs:890-899 | dropping stale entries from the front loses nothing of a window |
| ComputerControl.PerformKeepsLimit | kernel/src/computer_control.rs:781-806 | an action checked with room left keeps every closed window within the bound |
| ComputerControl.AllFresh | kernel/src/computer_control.rs:890-899 | after eviction what is kept is exactly the last 60 seconds |
| ComputerControl.ComputerControlEngine.EvictStale | kernel/src/computer_control.rs:890-899 | keeps exactly the recorded times of the last 60 seconds |
| ComputerControl.ComputerControlEngine.RateLimitCheck | kernel/src/computer_control.rs:858-868 | refuses iff the last 60 seconds hold the limit of recorded actions |
| ComputerControl.ComputerControlEngine.Execute | kernel/src/computer_control.rs:781-806 | a refusal passes nothing on; otherwise one action is passed on and recorded, failed or not, and the 60 seconds before it held fewer than the limit |
| ComputerControl.ComputerControlEngine.RecordDryRun | kernel/src/computer_control.rs:809-820 | records an action that was not passed on |
| ComputerControl.ComputerControlEngine.SetMax | kernel/src/computer_control.rs:854-856 | the limit is at least one |
| ComputerControl.AnyRun | kernel/src/computer_control.rs:781-820 | over any calls, dry runs and limit changes included, an action is passed on only if the 60 seconds before it hold fewer than the limit then in force and refused for the rate only if they do not, and no closed 60-second window holds more actions passed on than the largest limit |

## Left out

- The coding run's submodules (apply, verifier, worker): their results are free answers where the run asks for them.
- The order of violations in a structural scan, and entries below a refused directory: the scan goes through directories and files as sets, which find something in the same cases.
- Others who write into a staging directory: a redirected or unreadable entry is a free answer, changed bytes are a free answer of the review only.
- Creation of a run: a refusal before the run exists (an active stop, an invalid scope, a ledger that cannot record the creation) has no state to speak about.
- Preparing the input of an owner's verifier from a verified candidate, which reads and writes nothing the run's state depends on.
- Drop handlers of leases the run already holds: they repeat the closure that `CloseLease` and `CloseProjectRead` model. The one that decides something, inside an allocation that panics, is modelled.
- Operating system work: descriptors, link checks, sync calls, permissions. A redirected entry is a free answer of the file operation that would notice it.
- A project that changes while it is copied: the copy walks one tree value.
- Waiting on a watch (condition variables, async notification) and the guarded child process: operating system behaviour without further state.
- `StopController` ownership: Rust's move rules are not modelled beyond minting it once.
- Display fields, risk levels, review delays and decision signatures of approval requests: no decision reads them.
- Content of audit events in the consent queue: only whether an append succeeded matters to its state.
- Loading a consent policy file: policies are a map the runtime is given and may change at any time.
- Reloading a queue after a failed store: the file is then whatever the write left.
- Configuration encoding (TOML) and the credential fields' names: a configuration is its seventeen credential fields, its providers and the rest.
- Archive, compression and encryption formats: an archive is the sequence of entries its reader yields.
- Creating, listing and verifying backups: file collection and checksums.
- The exact Unicode lower-casing table: `fold` is any lower-casing that acts component by component.
- REPLACE statements on the record tables, which remove a row without its delete trigger: the repository's own tests forbid them on these tables (`persistence/tests/hm_a1_storage.rs`).
- Direct statements on the tombstone and migration tables, and dropped triggers: writes here are to records, labels and the closed member ledger, with every trigger in place.
- Historical-memory dispatch, recall, grants and policy changes after T0: other files, over the same tables.
- A ledger row that names an unknown table: record tables are a closed type here, so that error cannot be expressed.
- FuelLedger.AgentFuelLedger.FromReport: does not restore the detector's history, because the source starts a default detector.
- Cost simulation per token and the detector's adaptive baseline: single expressions.
- Screen capture, vision calls and input simulation: the limiter sees only whether an action succeeded.
- Audit events of the fuel ledger: written best effort and read by nothing modelled here.
