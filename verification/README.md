# Peerward maintenance, verified

A Dafny model of the parts of Peerward that must survive crashes, lost messages and concurrent
operators, with proofs of what they promise.

- **Deployment exchange** (`Exchange`, `ExchangeRuns`, `Runner`, `Drain`, `TaskEntry`). A runner with a durable
  record exchanges numbered bodies with Control over a channel that loses, delays and repeats messages.
  Both ends are modelled: the runner's program as a class, Control's endpoint as a function, and every run
  of the two with crashes, resends, console actions and a growing task journal as a step system.
- **Task journal** (`Records`, `Journal`). The discipline by which all operations write
  `tasks/<id>.json` under the operation lock: `begin` creates, `save` rewrites one version higher, terminal
  records stay.
- **Quiesced backup** (`Backup`) and **isolated restore verification** (`Restore`). Classes whose methods
  append every effect to a log; `Lifetime` runs any sequence of operations and cuts each one anywhere, so
  what holds of every world in the log holds at every crash point of every run. Answers of Docker, of the
  file system and of other people are arbitrary, unless a statement is about an undisturbed (`calm`) run.
- **Native upgrade and repair** (`Native`, `NativeRuns`, `NativeTasks`). Every read, write and updater
  invocation is its own step; the updater moves and the process dies whenever they like.
- **Archive** (`Names`, `TarSize`, `Archive`, `ArchiveIo`, `Publish`). Names, size limits, the two passes of
  encryption, strict extraction, and publication on a disk whose directory entries may or may not have
  reached it.
- **Material** (`Material`, `Survival`, `EmptyMark`). The check of keys and certificates against a database
  snapshot, and exactly when passing it before backup and after restore is the same.
- **Small cores**: the console's source fingerprint (`Fingerprint`, `FingerprintTree`), release versions
  (`SemVer`, `Texts`) and the webhook inbox (`Inbox`).

`dafny verify dfyconfig.toml` checks everything. SHA-256, age, JSON, tar framing, Ed25519 and openssl are
function parameters; a lemma that needs one to be injective or faithful says so in its `requires`.

Where documentation and code differ, the code is modelled. The fixture's description of the exchange has the
server accept only `cursor + 1`; the endpoint accepts any larger sequence number, and that the applied
numbers are nevertheless 1, 2, 3, ... is proved (`NoBatchLostOrRepeated`).

Three things one might expect are false of the code. Each has a lemma at an input and an exact condition.

- A refusal need not survive backup and restore: `online_files` archives no empty directories, so an empty
  directory called `terminated.bin` is refused live and gone after restore (`EmptyMarkIsForgotten`).
  Acceptance before and after is the same exactly when no live assignment has one (`VerificationSurvives`).
- What `cleanup` removes need not carry the task's name: the name is checked at a first look, label and
  isolation at a second (`RenamedIsRemoved`). It does exactly when the container was not renamed in between
  (`NameHoldsUnlessRenamed`).
- `relative_name` does not always refuse with an ArchiveError: it raises IndexError exactly for `"."`
  (`IndexErrorIsTheDot`).

## Model

| member | source | states |
|---|---|---|
| Exchange.AckPointwise | scripts/maintenance/runner.py:116-117 | acknowledging a batch sets `reported` of exactly the reported tasks to the reported versions |
| Exchange.ApplyPointwise | crates/peerward-control/src/control/deployment_exchange.rs:107-139 | reports for distinct open tasks with newer versions are applied, row by row and nowhere else, exactly when they fit their tasks; otherwise the batch is invalid |
| Exchange.DueReports | scripts/maintenance/runner.py:78-88 | every report names a known task at its current, unreported version, each task once |
| Exchange.ChoicePointwise | crates/peerward-control/src/control/deployment_exchange.rs:140-172 | an answer opens at most the task it carries, changes only queued rows and no reported version |
| ExchangeRuns.OneBodyPerSequence | scripts/maintenance/runner.py:182-191 | in every run all bodies sent under one number are identical, the server cursor is the durable sequence or one more, and in the second case the durable pending body is the one applied |
| ExchangeRuns.NoBatchLostOrRepeated | scripts/maintenance/runner.py:102-118 | Control applies bodies 1, 2, 3, ... once each, and `reported` is exactly the last version applied for the task |
| ExchangeRuns.PendingIsRefusedOnlyForShape | crates/peerward-control/src/control/deployment_exchange.rs:62-139 | at every moment of every run the pending body is replayed or accepted exactly when it was applied or is well formed and fits its tasks; it is never refused as replayed, unknown or terminal |
| ExchangeRuns.ReportsFollowTheJournal | scripts/maintenance/runner.py:81-86 | no report runs ahead of its record, and what Control holds as terminal is the terminal record |
| ExchangeRuns.ReplayChangesNothing | crates/peerward-control/src/control/deployment_exchange.rs:92-105 | delivering an applied body again changes neither the server nor the answers |
| ExchangeRuns.PendingApplies | crates/peerward-control/src/control/deployment_exchange.rs:107-139 | the body Control has not applied yet names open rows with newer versions only, so it applies exactly when its reports fit |
| ExchangeRuns.JournalRunsGrow | scripts/maintenance/backup.py:56-59 | between two looks a record keeps its content at a version and its terminal status, as the exchange assumes |
| ExchangeRuns.RunInv | scripts/maintenance/runner.py:170-205 | the wire, row and ledger invariants hold after every step of every run |
| RunnerProcess.Runner.constructor | scripts/maintenance/runner.py:175-178 | a fresh runner record is durable before anything else |
| RunnerProcess.Runner.NextReports | scripts/maintenance/runner.py:78-88 | the loop yields the first sixteen due reports of the iteration order |
| RunnerProcess.Runner.BuildPending | scripts/maintenance/runner.py:186-188 | the pending body is the next numbered one and is durable before it is sent |
| RunnerProcess.Runner.AcceptResponse | scripts/maintenance/runner.py:102-118 | a matching answer acknowledges, advances and assigns in one durable write; any other changes nothing |
| RunnerProcess.Runner.ExecuteAssigned | scripts/maintenance/runner.py:121-167 | the exact sequence of durable writes in each situation of the journal, the lock and the operation |
| RunnerProcess.ExecuteWritesAreMoves | scripts/maintenance/runner.py:121-167 | every write is a move of the exchange system; `started` is durable first and taken back only after a refused lock |
| ReportDrain.NextBodyIsFull | scripts/maintenance/runner.py:78-99 | the next body reports min(16, k) of the k outstanding records at their current versions, in any iteration order |
| ReportDrain.ExchangeDrains | scripts/maintenance/runner.py:102-118 | one accepted exchange acknowledges exactly the reported records; an assigned task without a record adds nothing |
| ReportDrain.DrainCount | scripts/maintenance/runner.py:182-198 | in every run whose records are at rest, with crashes, resends, assignments and executions in between, n completed exchanges leave max(0, k - 16 n) outstanding |
| ReportDrain.DrainsInCeilSixteenths | scripts/maintenance/runner.py:78-118 | in those runs all k records are acknowledged after exactly ceil(k/16) completed exchanges, not earlier |
| TaskEntry.EnteredAtMostOnce | scripts/maintenance/runner.py:121-167 | over crashes, redeliveries, operators and lost journals the runner enters a task's body at most once, with `started` durable; all entries together exceed one only by lost journals |
| TaskEntry.BodiesExclude | scripts/maintenance/common.py:74-85 | runner and operator are never inside an operation together |
| TaskEntry.OnlyARefusedLockUnmarks | scripts/maintenance/runner.py:152-157 | `started` is taken back only after a refused lock, when the body was never entered |
| JournalDiscipline.TerminalIsAbsorbing | scripts/maintenance/backup.py:82-100 | between any two moments of any run terminal records are unchanged, versions monotone and requests bound |
| JournalDiscipline.AtMostTwoUnfinished | scripts/maintenance/backup.py:90-94 | at most two tasks are unfinished, two only while the younger is the admitted repair of the exact failed older one |
| JournalDiscipline.VersionsIdentifyContents | scripts/maintenance/backup.py:56-59 | two durable contents of a record with one version are equal, over whole runs |
| JournalDiscipline.RunInv | scripts/maintenance/backup.py:82-100 | births, admissions and version histories stay consistent in every run |
| JournalDiscipline.WritesAreRuns | scripts/maintenance/backup.py:56-100 | any series of `begin` and `save` writes from the empty journal is a run of the discipline |
| BackupRuns.SaveKeepsInv | scripts/maintenance/backup.py:56-59 | a rewrite keeps every crash-point invariant, and a terminal one needs every intended container confirmed and the stage removed |
| BackupRuns.StopKeepsInv | scripts/maintenance/backup.py:123-126 | stopping an intended container keeps the invariant whether or not Docker managed to |
| BackupRuns.ConfirmKeepsInv | scripts/maintenance/common.py:120-127 | a container that runs and is healthy is no longer owed, and its intent is confirmed |
| BackupRuns.Installation.WaitHealthy | scripts/maintenance/common.py:120-127 | success means the container runs and is healthy, seen during the call; failure confirms nothing |
| BackupRuns.Installation.RecoverServices | scripts/maintenance/backup.py:62-79 | succeeds only when every intended container was seen running and healthy during the call, records what was not, and undisturbed brings all of them back |
| BackupRuns.Installation.Quiesce | scripts/maintenance/backup.py:118-126 | intent is durable before each stop; on success every writer is intended and down unless somebody else started it |
| BackupRuns.Installation.TakeBackup | scripts/maintenance/backup.py:118-145 | changes only stage, intents and artifact of its own record, and records only a published artifact |
| BackupRuns.Installation.Conclude | scripts/maintenance/backup.py:149-163 | leaves the record terminal exactly when nothing is pending, and `succeeded` exactly with an artifact and no error |
| BackupRuns.Installation.Execute | scripts/maintenance/backup.py:103-163 | a known ID is only looked up; otherwise only its record changes and settles, terminal only after every intended container was seen running and healthy; undisturbed it succeeds and every writer runs again |
| BackupRuns.Installation.Recover | scripts/maintenance/backup.py:166-186 | acts only on an unfinished backup of the same profile; `failed` only after every intended container was seen running and healthy during the call and with the stage gone; undisturbed it gets there from every crash point |
| BackupRuns.Installation.Lifetime | scripts/maintenance/backup.py:103-186 | any sequence of operations, each cut anywhere, keeps the invariant at every point of the run |
| BackupRuns.FinishedWasHealthy | scripts/maintenance/backup.py:149-163 | in every run a backup is `succeeded` or `failed` only after each intended container was running and healthy, with its intent durable, and was not stopped by the task since |
| BackupRuns.LogFollowsDiscipline | scripts/maintenance/backup.py:82-100 | the records of every backup run are a run of the journal discipline, with native repairs among the other tasks |
| BackupRuns.StoppedIsIntended | scripts/maintenance/backup.py:120-126 | at every crash point a container that ran at first, untouched by others and now down, is in the durable intents of an unfinished backup |
| BackupRuns.QuietIsRestored | scripts/maintenance/backup.py:149-186 | whenever no backup is unfinished, every untouched service runs again and no plaintext stage exists |
| BackupRuns.SucceededIsPublished | scripts/maintenance/backup.py:160-162 | from its success on, a backup has its archive published, no error, no stage and no stopped service |
| RestoreRuns.SaveKeepsInv | scripts/maintenance/backup.py:56-59 | a terminal restore record needs its container and stage gone, a succeeded one the verification done |
| RestoreRuns.CreateKeepsInv | scripts/maintenance/restore.py:48-59 | the container is created only under a durable deterministic name |
| RestoreRuns.Verification.RemoveOwned | scripts/maintenance/restore.py:106-110 | asks for removal exactly when the first look shows the task's name and the second its label and isolation, and notes both looks |
| RestoreRuns.Verification.Cleanup | scripts/maintenance/restore.py:100-113 | success means no container made for the task and no stage is left |
| RestoreRuns.Verification.Execute | scripts/maintenance/restore.py:19-97 | needs a succeeded backup of the same profile; settles terminal only when cleaned up, succeeded only when verified; undisturbed it succeeds |
| RestoreRuns.Verification.Recover | scripts/maintenance/restore.py:116-127 | an unfinished verification of the same profile fails once everything is removed, undisturbed always, and otherwise its record is unchanged |
| RestoreRuns.Verification.Lifetime | scripts/maintenance/restore.py:19-127 | any sequence of operations, each cut anywhere, keeps the invariant at every point |
| RestoreRuns.FinishedLeavesNothing | scripts/maintenance/restore.py:90-97 | at every crash point a finished verification has left neither container nor plaintext |
| RestoreRuns.OnlyOwnedIsRemoved | scripts/maintenance/restore.py:10-16 | whatever was removed in a run had the task's name at one moment of it and, at a later one when it was removed, the task's label and isolation |
| RestoreRuns.NameHoldsUnlessRenamed | scripts/maintenance/restore.py:106-110 | the removed container carries the task's name exactly when it was not renamed between the two looks |
| RestoreRuns.RenamedIsRemoved | scripts/maintenance/restore.py:10-16 | a container renamed between the looks is removed under another name |
| RestoreRuns.LogFollowsDiscipline | scripts/maintenance/restore.py:19-127 | the records of every restore run are a run of the journal discipline |
| RestoreRuns.SuccessStays | scripts/maintenance/restore.py:75-97 | a succeeded verification did verify, stays succeeded and leaves nothing behind |
| Native.ObserveIsIdempotent | scripts/maintenance/native_upgrade.py:48-82 | observing an unchanged system again writes nothing and gives no new version |
| NativeTasks.TaskFiles.RecordObservation | scripts/maintenance/native_upgrade.py:48-51 | writes exactly when some observed value differs |
| NativeTasks.TaskFiles.ReconcileRepair | scripts/maintenance/native_repair.py:25-45 | rewrites only the old task's record, or refuses and changes nothing |
| NativeTasks.TaskFiles.ObserveTask | scripts/maintenance/native_upgrade.py:54-82 | the journal after `observe`, in every branch |
| NativeTasks.FindPredecessor | scripts/maintenance/native_repair.py:8-22 | finds the one replaceable failed task, nothing when all is finished, and refuses exactly when neither holds |
| NativeRuns.StepIsJournalStep | scripts/maintenance/native_upgrade.py:85-134 | every write of every native step is allowed by the journal discipline |
| NativeRuns.RunFollowsDiscipline | scripts/maintenance/native_upgrade.py:85-134 | the journals of a native run are a run of the discipline |
| NativeRuns.CheckedMayBegin | scripts/maintenance/native_upgrade.py:95-97 | what `predecessor` reviewed is what `begin` admits |
| NativeRuns.SuccessIsReal | scripts/maintenance/native_upgrade.py:58-76 | `succeeded` means the updater journal was the task's own and installed, and afterwards the binary had the staged digest and size |
| NativeRuns.PreflightFailureIsReal | scripts/maintenance/native_upgrade.py:58-62 | `native_preflight_failed` means the updater journal was seen with the digest it had before the task existed |
| NativeRuns.SupersessionIsSound | scripts/maintenance/native_repair.py:25-45 | a superseded task was replaced by the younger task admitted as its repair, after that one owned the journal and the retained journal had the reviewed digest |
| NativeRuns.SupersededOnce | scripts/maintenance/native_repair.py:39-45 | once superseded, a record never changes again |
| NativeRuns.SupersessionIsAcyclic | scripts/maintenance/native_repair.py:8-45 | along any chain of supersessions the end is younger than the start |
| NativeRuns.InvocationsArePaid | scripts/maintenance/native_upgrade.py:117-133 | updater recoveries of a task are at most its raised requests, the crashes that lost a completion and explicit operator commands; completed never exceeds requested |
| NativeRuns.GenerationsAreMonotone | scripts/maintenance/native_upgrade.py:117-133 | both generations are monotone, and a request stays until a completion |
| NativeRuns.RunInv | scripts/maintenance/native_upgrade.py:54-134 | the invariant holds after every step of every run |
| Names.AcceptsCanonicalNames | scripts/maintenance/archive.py:30-39 | accepted names are exactly the short printable canonical prints of plain components under an allowlisted root |
| Names.IndexErrorIsTheDot | scripts/maintenance/archive.py:34-38 | IndexError instead of ArchiveError is raised exactly for the name `.` |
| Names.NamesAreInjective | scripts/maintenance/archive.py:30-39 | distinct accepted names are distinct paths |
| Names.JoinStaysBelow | scripts/maintenance/archive.py:242-244 | joined to any root an accepted name stays strictly below it, under an allowlisted component and outside `offline` |
| TarSize.LimitsAgree | scripts/maintenance/archive.py:106-129 | every inventory the encryption limits accept gives a payload within the decryption limit; the manifest cap alone bounds files and names |
| TarSize.MemberOverhead | scripts/maintenance/archive.py:148-151 | a member's headers and padding cost at most 2 KiB and twice its manifest line |
| ArchiveIo.DigestStream | scripts/maintenance/archive.py:68-76 | digest and length of the whole stream, refused exactly when it is longer than the limit |
| ArchiveIo.VerifiedReader.Read | scripts/maintenance/archive.py:93-97 | hashes and counts exactly the bytes handed out |
| ArchiveIo.AddFile | scripts/maintenance/archive.py:150-151 | copies exactly the declared bytes, or refuses a short file |
| ArchiveIo.Inspect | scripts/maintenance/archive.py:114-125 | the first pass accepts exactly inspectable files within the total and records their digests |
| ArchiveIo.CopyAll | scripts/maintenance/archive.py:144-153 | the second pass accepts exactly files with the recorded size and digest |
| ArchiveIo.EncryptArchive | scripts/maintenance/archive.py:100-165 | publishes the sealed payload exactly when the request is archivable and the steps up to the link succeed; returns its receipt exactly when the sync after it succeeds too |
| Archive.EntriesMatchTheManifest | scripts/maintenance/archive.py:144-153 | whatever happened to the inputs, each entry has its manifest size and digest; without collisions it is what was inspected |
| Archive.PayloadFits | scripts/maintenance/archive.py:209-210 | an archivable request gives a payload within the bound for the same maximum |
| Archive.RoundTrip | scripts/maintenance/archive.py:114-256 | an archived payload opens and is accepted exactly when no name is a directory of another, with the written manifest and the copied bytes |
| Archive.ManifestDeterminesContents | scripts/maintenance/archive.py:231-256 | payloads accepted under one manifest have the same names, sizes and digests |
| Archive.DamageIsRefused | scripts/maintenance/archive.py:236-256 | dropping, adding or repeating a member, or changing its digest, is refused |
| Archive.AcceptedIsOneMemberEach | scripts/maintenance/archive.py:231-256 | members are accepted exactly when there are as many as declarations, each declaration is delivered by one, and no name is a directory of another; repeated, extra and irregular members are thereby ruled out |
| Archive.VerifiedIsPublishable | scripts/maintenance/archive.py:232-256 | the verified tree is prefix-free, allowlisted and non-empty, as publishing needs |
| ArchiveIo.CheckManifest | scripts/maintenance/archive.py:220-230 | accepts exactly well-formed declarations within the limits |
| ArchiveIo.ExtractAll | scripts/maintenance/archive.py:231-256 | stages exactly the declared files, refusing exactly the payloads that are not exact |
| ArchiveIo.DecryptArchive | scripts/maintenance/archive.py:181-256 | accepts exactly the pinned, authentic ciphertexts with a valid payload and yields its tree |
| ArchiveIo.DecryptAndPublish | scripts/maintenance/archive.py:175-280 | every crash leaves the destination absent, marked, empty or complete; success leaves exactly the verified tree, durably |
| Publish.FencedIsSafe | scripts/maintenance/archive.py:260-265 | while the marker is durable every crash image carries it |
| Publish.UnfencedIsSafe | scripts/maintenance/archive.py:275-279 | once all is fsynced, removing the marker exposes the complete tree |
| Publish.TreeIsComplete | scripts/maintenance/archive.py:266-274 | the published tree without its marker holds exactly the inventory, every file reachable |
| Publish.FileSystem.Fence | scripts/maintenance/archive.py:259-265 | destination and marker are durable before any file is linked |
| Publish.FileSystem.LinkAll | scripts/maintenance/archive.py:266-274 | links the whole tree and collects every directory that must be fsynced |
| Publish.FileSystem.SyncAll | scripts/maintenance/archive.py:275-276 | afterwards every entry is durable |
| Publish.FileSystem.PublishTree | scripts/maintenance/archive.py:257-280 | every state on the way is crash-safe, and at the end the complete tree is durable without the marker |
| Publish.SafeAt | scripts/maintenance/archive.py:257-280 | crash safety holds at each state of the recorded history |
| Material.CheckMeshes | scripts/maintenance/database.py:142-163 | the loop accepts exactly consistent active meshes and yields their roots and covered authorities |
| Material.CheckAssignments | scripts/maintenance/database.py:166-179 | accepts exactly assignments that are removed or stable with matching keys and no terminal record |
| Material.VerifyMaterial | scripts/maintenance/database.py:121-180 | accepts exactly installations whose material and snapshot agree, and counts meshes, hosts and authorities |
| Material.CopyIsAccepted | scripts/maintenance/database.py:121-180 | material is accepted exactly when its extracted copy is and no live assignment has an empty `terminated.bin` directory, with the same counts |
| EmptyMarkExample.EmptyMarkIsForgotten | scripts/maintenance/database.py:178-179 | an installation with such a directory is refused, and accepted once extracted |
| Survival.OnlineFiles | scripts/maintenance/backup.py:13-31 | files exactly the online trees below their archive roots, refusing exactly offline or strange entries |
| Survival.RequestIsPrefixFree | scripts/maintenance/backup.py:137-138 | no archived path of an installation is a directory of another |
| Survival.ExtractedIsTheInventory | scripts/maintenance/backup.py:137-144 | what is extracted is the online inventory, path by path |
| Survival.TreesComeBack | scripts/maintenance/restore.py:79-79 | the restored Control and Relay trees are exactly the live files in the directories they need |
| Survival.VerificationSurvives | scripts/maintenance/restore.py:39-79 | the decrypted archive is accepted and gives back the inventory, and the live installation is accepted exactly when the extracted trees are and no live assignment has an empty `terminated.bin` directory, with the same counts |
| Fingerprint.StepKeepsStates | apps/peerward-console/build.rs:70-71 | one FNV-1a step is injective in the state |
| Fingerprint.StepSeparatesBytes | apps/peerward-console/build.rs:70-71 | one step from one state tells bytes apart |
| Fingerprint.OneByteChangesTheHash | apps/peerward-console/build.rs:68-73 | equal-length streams differing in exactly one byte have different hashes |
| Fingerprint.UnframeFrames | apps/peerward-console/build.rs:69-69 | the length framing decodes uniquely |
| Fingerprint.StreamsAreInjective | apps/peerward-console/build.rs:56-63 | equal streams come from the same paths and contents in the same order |
| FingerprintTree.HashBytes | apps/peerward-console/build.rs:68-73 | the loop folds the framed bytes into the state |
| FingerprintTree.SortedIsUnique | apps/peerward-console/build.rs:48-51 | a set of names has one sorted listing |
| FingerprintTree.HashPath | apps/peerward-console/build.rs:46-66 | the result is one function of the tree, whatever order the directory was listed in |
| FingerprintTree.ComputeFingerprint | apps/peerward-console/build.rs:38-44 | the text of the hash of all sources, an error exactly when an input is unreadable |
| FingerprintTree.EditChangesTheFingerprint | apps/peerward-console/build.rs:37-44 | changing one byte of one file anywhere in one input's tree changes the printed fingerprint |
| SemVer.MatchIsTheGrammar | scripts/release_metadata.py:6-10 | matching succeeds exactly on the grammar's texts, each with one reading |
| SemVer.KeyLessIsTotal | scripts/release_metadata.py:25-25 | keys are trichotomous and asymmetric |
| SemVer.KeyLessIsTransitive | scripts/release_metadata.py:25-25 | the key order is transitive |
| SemVer.KeyAgreesWithItem11 | scripts/release_metadata.py:18-25 | the key order is item 11 of Semantic Versioning 2.0.0 on all well-formed versions |
| SemVer.PrintOfKey | scripts/release_metadata.py:13-25 | printing the key reproduces the accepted text |
| SemVer.VersionsAreTotallyOrdered | scripts/release_metadata.py:13-25 | accepted texts are ordered before, after or equal, and equal precedence means equal text |
| SemVer.RangesChain | scripts/release_metadata.py:28-31 | a range is valid exactly when the floor equals or precedes the version, and valid ranges chain |
| WebhookInbox.Inbox.Accept | examples/webhooks/receiver.py:80-90 | one row per delivery, earlier rows untouched, a reused identity or a fault before the lookup changes nothing; a return means the row is committed |
| WebhookInbox.Inbox.DoPost | examples/webhooks/receiver.py:99-121 | status and rows for every request and fault: 204 only after the commit, 400 for refusals, 503 for database errors even of a reused delivery, nothing after a crash |
| WebhookInbox.RowsAreStable | examples/webhooks/receiver.py:84-89 | a committed row keeps its event for ever |
| WebhookInbox.RowsHaveSources | examples/webhooks/receiver.py:81-89 | every row comes from a verified notice of that delivery, and its digest is that of its text |
| WebhookInbox.AcknowledgedIsStored | examples/webhooks/receiver.py:84-114 | a 204 means a committed row with that event's digest, from then on |
| WebhookInbox.OneEventPerDelivery | examples/webhooks/receiver.py:86-88 | all acknowledged notices of one delivery carry the same event, without collisions |
| WebhookInbox.RetriesChangeNothing | examples/webhooks/receiver.py:80-90 | a retry under another attempt and time changes nothing and is acknowledged when nothing fails; another event changes nothing, is never acknowledged, and is refused when nothing fails |

## Left out

- Atomic records: `write_json` is one durable step that happens or kills the process; its temporary files are not modelled, and losing a journal is modelled only where at-most-once entry is proved.
- Progress: backup and restore are shown to complete when nothing interferes; no other operation is claimed to finish. A fallback `begin` that is itself refused leaves the task `started` without a journal, and the runner stops on it by design.
- Foreign programs: Docker, systemd, PostgreSQL, age and openssl are arbitrary answers or function parameters; a Docker command that failed may have worked, but does not take effect after a later command.
- Cryptographic strength, clocks, timeouts and the task start window: a digest is a function, deadlines are arbitrary outcomes.
- HTTP, TLS and credentials at Control's endpoint: plumbing around the protocol. Its shape checks on reports and previews are parameters.
- Profile registration (`profile.py`, `upgrade_profile.py`): a profile is a value with a digest.
- The updater's own transaction: it is an environment that may change its journals and binaries at any time.
- Release metadata other than versions: range checks of single fields. CPython's limit on the digits of an integer, which refuses very long numeric identifiers, is not modelled.
- Archive.RoundTrip: JSON, tar and age are parameters, required for the one archive in question to read back and to have the length of their formats; their bytes are not modelled.
- ArchiveIo.DecryptArchive: the ciphertext does not change between its digest and its decryption, and file names longer than the file system allows are not modelled.
- TarSize.LimitsAgree: names that are not valid Unicode, which tar marks with an extra character-set record, are not modelled.
- Publish.FileSystem.SyncAll: the source goes deepest directory first; any order is allowed here.
- Fingerprint of path text: lossy conversion of names that are not Unicode is not modelled; backslashes are.
- WebhookInbox.Inbox.DoPost: the receipt time and the verification time are one clock reading.
- RestoreRuns.Verification.Execute: decryption, restore and comparison inside the container are one outcome; resource limits of the container are not modelled.
- User interface, mobile, mesh data plane, labs and test drivers: not part of this model.
