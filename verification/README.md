# quince core: what the daemon's state machines keep

quince backs iOS devices up from a Go daemon. This project models the daemon's four state machines and
the small structures they lean on, and proves what they keep over every run.

**The configuration file carries only what the user set** (`YamlTree`, `YamlText`, `Config*`). A document is a tree.
`ConfigSchema` decodes a tree over the defaults, resolves storage entries and encodes the canonical
document; `ConfigDeclared` finds the keys a file declares and prunes a document to such a set;
`ConfigWriteDeclared` finds the keys a write changes. `ConfigRoundTrip` and `ConfigCoverage` say exactly when
a pruned document means what it was written from. `ConfigWrites` and `ConfigTidy` turn that into the exact
condition on a write, `ConfigLoad` into the exact condition on a file. `ConfigValidate` is the validator,
loop by loop, against the declarative predicate it decides, `ConfigFaults` which fault it reports when, and
`ConfigReads` which documents decode and as what. `ConfigService` is the service as a function from
state to state, `ConfigLive` the same service as a class that updates its fields, `ConfigRuns` and
`ConfigNarrow` what holds over runs, `ConfigAnswers` when each door goes through and what it then leaves,
`ConfigEdges` one concrete instance of every family of writes and files that makes the write path fall back to
the long form, and `ConfigRefused` a refused file written over.

**The backup engine** (`Backup*`). `BackupEngine` is a transition system: the run goroutine as a program
counter per job, the sampler and scanners racing it, cancel, shutdown, a crash at any point, the storage
backend rolling half-done commits forward or dropping them, and startup reconciliation. A persist may fail or
be throttled at every step. `BackupSafety` proves one invariant of every reachable state, `BackupTouch` says
what each event leaves of the engine's maps, `BackupRuns` proves the claims over every run from an empty store,
`BackupExact` the exact conditions of three promises the engine does not keep, `BackupAnswers` what
each operation answers and leaves, and `BackupLive` runs the engine's own field updates, event by event, against
the same functions.
`BackupFrames`, `BackupLines`, `BackupSampler`, `BackupLog` and `BackupBytes` are the stream framing, the
line handler, the liveness sampler, the run-length log with its bounded ring, and the byte accumulator.

**Credential-set changes** (`Auth*`). `AuthCredentials` holds the operations, `AuthSafety` and `AuthTrace`
the whole-run claims, `AuthAnswers` exactly when each operation goes through, `AuthLive` the imperative
service. `AuthEnrolment` is the enrolment table against a history that never forgets; `AuthEnrolmentRace` interleaves concurrent finishes of one enrolment;
`AuthLimiter` is the login limiter against one that never sweeps.

**The device registry and the event bus** (`DeviceRegistry`, `EventBus`).

Conventions. Calls into the platform are parameters: path cleaning and the muxer address grammar
(`ConfigValidate.Host`), the YAML library (`ConfigService.Env`, of which only `Faithful` is asked: it reads
back the trees it writes; `ConfigRuns.FaithfulLibrariesExist` shows that can be had), the clock, the outcome of an atomic write or of a store write, the storage
backend's answers, the limiter's answer to an operation, and the id of the credential that made an assertion.
Fresh ids and tokens are fresh numbers. Each lock's critical section is one step.

Where the code and its commentary part:

- The long-form fallback is described as a guard against future defects of the pruning. It fires on
  ordinary input today; `ConfigTidy.TidyWritesExactly` and `ConfigLoad.LoadedSettled` say exactly when, and
  `ConfigEdges` has an instance of each family, a muxer entry with a stray `path:` key among them.
- Terminal is said to mean no liveness. The sampler is signalled and not joined, so a late tick can put
  `active` on an ended row (`BackupExact.LateTickMarksAnEndedRow`). An ended row's liveness is exactly what the
  last such tick said, and it is settled exactly once the sampler has stopped.
- The storage binding is said to live exactly as long as the job. A row the store refuses leaves its binding
  behind (`BackupExact.RefusedInsertLeavesItsBinding`), and nothing else does.
- `backing_up` is drawn between `seeding` and `verifying`. On the gated path a tool that ends before its gate
  opens goes from one to the other directly (`BackupExact.GatedToolMaySkipBackingUp`); exactly those jobs do.
- Adding a storage, the transport switch and the certificate pair refuse to write over a file that was
  refused; replacing the document, forgetting a storage and moving the default do not ask
  (`ConfigRefused.AnEditIsWrittenOver`, `ConfigRuns.FileChangesExactly`).
- Every reauthentication ceremony is said to admit admin passkeys only. At this layer an address with none has
  an empty list, which admits every passkey; `AuthTrace.AdminsAloneSignExactly` says when the promise holds.
- One enrolment secret may leave two credentials when finishes overlap
  (`AuthEnrolmentRace.RacingCallsLeaveTwoCredentials`); `CheckInSafeExactly` is the check that would prevent it.
- A forgotten storage is said to leave none of its paths declared. A name holding a bracket that is cut to the
  name of one that stays does (`ConfigEdges.StalePathsSurvive`, `ConfigNarrow.NothingStaleExactly`).
- A limiter of `max` attempts a window is bounded by `2 * max - 1` in any closed window, not `2 * max`, and
  that bound is reached.

## Model

| member | source | states |
|---|---|---|
| ConfigSchema.ResolveStoragesByLoop | core/internal/config/schema.go:209-221 | the resolution loop fills every entry and marks a lone one default |
| ConfigSchema.ResolveIdempotent | core/internal/config/schema.go:185-221 | resolving a resolved list changes nothing, so a document can pass the write path any number of times |
| ConfigDeclared.DeclaredKeys | core/internal/config/declared.go:39-79 | the walk that fills a shared set collects exactly the known key paths the document holds |
| ConfigDeclared.ItemDeclared | core/internal/config/declared.go:39-105 | a path below a list entry's name is declared exactly when some entry of that identity declares it, wherever it sits in the list |
| ConfigDeclared.PruneMapping | core/internal/config/declared.go:139-172 | the in-place prune keeps declared leaves, kept leaves, and sections and lists that still hold something, and nothing else |
| ConfigDeclared.PruneSequence | core/internal/config/declared.go:191-218 | every list entry survives with its path, and with `default: true` when the list has several |
| ConfigWriteDeclared.DiffMaps | core/internal/config/writedeclared.go:68-87 | the diff collects exactly the leaf paths whose value differs from before |
| ConfigWriteDeclared.DiffSeq | core/internal/config/writedeclared.go:93-126 | entries are compared with their namesakes, and new ones with what their path alone would mean |
| ConfigWriteDeclared.ForStoragesByLoop | core/internal/config/writedeclared.go:223-253 | exactly the paths of storages the document no longer has are dropped, names cut at the first bracket |
| ConfigWriteDeclared.ChangedInItem | core/internal/config/writedeclared.go:93-126 | below an entry's name a write changes what that entry changes, whatever its neighbours do |
| ConfigRoundTrip.FullDocumentRoundTrips | core/internal/config/service.go:975-991 | the unchecked fallback parses back to the document exactly when the document is resolved |
| ConfigRoundTrip.PrunedDecodes | core/internal/config/declared.go:116-218 | what a pruned document parses to, key by key, for every document and every declared set |
| ConfigCoverage.TidyRoundTripsExactly | core/internal/config/service.go:939-991 | the tidy document parses back to the configuration if and only if every undeclared value is the one its absence means |
| ConfigWrites.EntryChanged | core/internal/config/writedeclared.go:93-143 | which leaves of a storage entry a whole-document write changes |
| ConfigTidy.TidyWritesExactly | core/internal/config/service.go:932-991 | a write to a settled state needs no fallback if and only if no list is emptied undeclared, an undeclared name keeps its path, an undeclared retention policy changes in all keys or none, and a name the paths cannot carry is all defaults |
| ConfigValidate.ValidateEntries | core/internal/config/validate.go:144-244 | the storage loop with its two seen-maps and default count reports exactly the faults the specification lists, first holders included |
| ConfigValidate.ValidateMuxers | core/internal/config/validate.go:78-104 | the same for muxers: blank, undialable, unknown type, duplicate |
| ConfigValidate.StoragesAcceptedExactly | core/internal/config/validate.go:144-244 | no storage fault is reported if and only if paths are absolute and distinct when cleaned, names distinct, values legal, and exactly one entry of a nonempty list is default |
| ConfigValidate.FaultsExactly | core/internal/config/validate.go:14-126 | the validator is silent if and only if the document is accepted |
| ConfigFaults.ValidatorSaysExactly | core/internal/config/validate.go:13-244 | of every fault, the condition on the document under which it is reported, and against which earlier entry |
| ConfigValidate.CheckStorageBackends | core/internal/config/storagereq.go:287-355 | the backend loop reports missing datasets, missing transports and shared datasets, first claimants included |
| ConfigValidate.BackendsCoherentExactly | core/internal/config/storagereq.go:287-383 | it is silent if and only if every zfs storage can reach its pool and no two share a parent dataset |
| ConfigFaults.BackendSaysExactly | core/internal/config/storagereq.go:287-355 | of every fault of the backend check, when it is reported, which field it names and against which earlier entry |
| ConfigLoad.LoadedSettled | core/internal/config/service.go:86-106 | a file that loads is settled, hence tidy to write, if and only if no retention block in it is present and keyless and every value of a muxer stands under that muxer's own address |
| ConfigLoad.OwnItemDeclares | core/internal/config/declared.go:39-105 | with distinct identities each list entry alone decides what is declared under its own |
| ConfigService.ParseByWalk | core/internal/config/service.go:86-106 | parsing yields the configuration and the declared set of one and the same tree |
| ConfigService.LoadByParts | core/internal/config/service.go:221-255 | absent, unreadable, unparsable and invalid files each give the load the code gives |
| ConfigService.ValidateAddition | core/internal/config/add.go:203-263 | an addition is refused exactly for a relative path, no concrete backend, a declared name or path, or a claim to be default |
| ConfigService.FindIndex | core/internal/config/forget.go:71-83 | the search finds the first entry of that name or none |
| ConfigRuns.AcceptedWriteLands | core/internal/config/service.go:804-1081 | from any state and for any document an accepted write leaves bytes that load to exactly the live configuration, equal to the bytes remembered, and tells every applier of that one change; any other write changes nothing |
| ConfigRuns.RunsStayCoherent | core/internal/config/service.go:697-1081 | over any run of writes, hand edits, reloads and registrations every applier's calls form a chain ending at the live configuration, which is what the remembered bytes mean unless the file was refused |
| ConfigRuns.ReloadAfterOwnWrite | core/internal/config/service.go:697-796 | a reload after the service's own write, through any door and in either form, finds nothing to do |
| ConfigRuns.ReloadIdempotent | core/internal/config/service.go:697-796 | a second reload of the same file does nothing |
| ConfigRuns.RefusedFileChangesNothingRunning | core/internal/config/service.go:738-768 | (corollary) a refused file changes no running configuration, tells no applier, and is remembered |
| ConfigRuns.ReloadTakesWhatAStartWould | core/internal/config/service.go:697-796 | (corollary) reload acts exactly on other readable bytes, and an applied file gives the state a fresh start on it would |
| ConfigRuns.GuardedDoorsSpareARefusedFile | core/internal/config/add.go:133-191 | (corollary) adding a storage, the transport switch and the certificate pair write nothing over a refused file |
| ConfigRuns.FileChangesExactly | core/internal/config/service.go:937-1030 | an operation changes the file on disk, refused or not, if and only if it reaches the write path, the document is not refused, the write is saved and the bytes differ |
| ConfigRefused.AnEditIsWrittenOver | core/internal/config/forget.go:63-142 | a bad hand edit, a reload that refuses it, then forgetting a storage: the edit is written over |
| ConfigAnswers.WriteGoesThroughExactly | core/internal/config/service.go:937-1030 | a write goes through if and only if the resolved document is valid, does not empty the storages there were, its zfs storages are apart and reach their pools, and the file could be written |
| ConfigAnswers.DoorTells | core/internal/config/service.go:514-524 | an accepted write through any door adds that one change to what every applier has heard, and any other write adds nothing |
| ConfigAnswers.AppliersHearWhatIsTaken | core/internal/config/service.go:514-524 | over any run an applier hears exactly the configurations taken, in order, the first against the one live when the run began and the last the one live now |
| ConfigAnswers.LateAppliersHearTheRest | core/internal/config/service.go:495-524 | one that registers in the middle of a run hears exactly what is taken after that |
| ConfigAnswers.AdditionAskedExactly | core/internal/config/add.go:44-105 | when an addition gets as far as the write, in terms of the entry and the storages there are |
| ConfigAnswers.ForgetReaches | core/internal/config/forget.go:63-142 | a forget reaches the write exactly for a storage that is not the default and has no job, and asks for the list without it |
| ConfigAnswers.DefaultMoves | core/internal/config/setdefault.go:61-111 | moving the default asks for the same list with that entry flagged and no other |
| ConfigAnswers.UnknownNames | core/internal/config/forget.go:71-83 | an unknown name is answered as such by both and changes nothing |
| ConfigAnswers.TransportSets | core/internal/config/insecure_transport.go:26-51 | the switch sets that key to the value given and touches no other |
| ConfigAnswers.TlsSets | core/internal/config/tls_files.go:38-61 | the certificate pair sets both keys to the values given and touches no other |
| ConfigAnswers.SwitchesLand | core/internal/config/insecure_transport.go:26-51 | a switch that goes through leaves exactly that configuration live, and only where the file does not stand refused |
| ConfigAnswers.LoadsExactly | core/internal/config/service.go:221-255 | a file loads if and only if it is absent, or readable, parses, decodes and is valid; it then gives what it says, and otherwise the defaults |
| ConfigReads.DecodesExactly | core/internal/config/service.go:86-90 | a document decodes if and only if it is empty or a mapping and every known key, entry and element has the kind its field has, or is null |
| ConfigReads.NothingMeansTheDefaults | core/internal/config/service.go:86-101 | a document with nothing in it means the defaults |
| ConfigReads.ListsRead | core/internal/config/service.go:86-97 | the lists hold what their entries say, in order and without the nulls; an absent list stays absent |
| ConfigReads.EntryReads | core/internal/config/schema.go:120-206 | what each key of an entry means before defaults are filled in |
| ConfigAnswers.SectionMeans | core/internal/config/service.go:86-90 | a key of a section means what the file says, or its default |
| ConfigAnswers.ResolvedMeans | core/internal/config/schema.go:174-206 | what an entry means that leaves its name, backend or retention out |
| ConfigAnswers.EntryValuesExactly | core/internal/config/validate.go:144-244 | which values of an entry are legal, key by key |
| ConfigAnswers.ZfsReachExactly | core/internal/config/storagereq.go:287-355 | which entries are on zfs and what they then need |
| ConfigNarrow.ShortExactly | core/internal/config/service.go:975-991 | on a settled state the guard passes a write if and only if it stays tidy |
| ConfigNarrow.NarrowRunsNeverFallBack | core/internal/config/add.go:44-105 | over any run of adds, forgets, default moves, transport and certificate writes, with tidy hand edits and reloads anywhere, every write takes the short form |
| ConfigNarrow.AddSparesSiblings | core/internal/config/add.go:44-105 | an add appends its resolved entry and changes no key of any other entry or section |
| ConfigNarrow.ForgetSparesSiblings | core/internal/config/forget.go:63-142 | a forget removes that entry alone, never the default and never a busy one, and changes no key of any other |
| ConfigNarrow.SetDefaultSparesSiblings | core/internal/config/setdefault.go:61-111 | exactly the named entry ends up default and nothing else moves |
| ConfigNarrow.NothingStaleExactly | core/internal/config/writedeclared.go:223-253 | after a write no declared path belongs to a storage the document lost, so re-adding a name starts clean, if and only if no lost name with declared paths is cut to the name of one that stays |
| ConfigEdges.StalePathsSurvive | core/internal/config/writedeclared.go:242-253 | forgetting `/a]b` beside `/a` leaves the declared path of the first behind |
| ConfigEdges.PathMovedUnderImpliedName | core/internal/config/writedeclared.go:68-143 | a write that moves an entry whose name was implied by its path does not round trip |
| ConfigEdges.RetentionChangedInPart | core/internal/config/schema.go:198-201 | neither does one that changes one retention key of three |
| ConfigEdges.BracketInName | core/internal/config/writedeclared.go:242-253 | nor one that adds a name holding a bracket |
| ConfigEdges.ListEmptiedUndeclared | core/internal/config/declared.go:139-172 | nor one that empties a list whose key the file never had |
| ConfigEdges.KeylessRetentionInFile | core/internal/config/schema.go:198-201 | a file with `retention: {}` loads and its own keys cannot carry it |
| ConfigEdges.StrayMuxerKeyInFile | core/internal/config/declared.go:94-105 | a muxer entry with a stray path is declared under one identity and pruned under another |
| ConfigLive.Service.ReplaceLocked | core/internal/config/service.go:804-1081 | the write path on its fields, loops and all, takes the specified step |
| ConfigLive.Service.Notify | core/internal/config/service.go:514-524 | every registered applier is told once, in order |
| ConfigLive.Service.AddStorage | core/internal/config/add.go:44-105 | the locked add takes the specified step |
| ConfigLive.Service.ForgetStorage | core/internal/config/forget.go:63-142 | unknown name, default, busy, then the write, in that order |
| ConfigLive.Service.SetDefaultStorage | core/internal/config/setdefault.go:61-111 | the flag moves and the order stays |
| ConfigLive.Service.SetTransport | core/internal/config/insecure_transport.go:26-51 | one key written, and nothing on a refused file |
| ConfigLive.Service.SetTls | core/internal/config/tls_files.go:38-61 | two keys written, and nothing on a refused file |
| ConfigLive.Service.Poll | core/internal/config/service.go:697-796 | reload never writes the file and takes the specified step |
| BackupSafety.PathsReach | core/internal/backup/engine.go:479-564 | every path of the job state machine's edges lies in the closed form of reachability |
| BackupSafety.ReachesExactly | core/internal/backup/engine.go:479-564 | and the closed form holds of two states if and only if some path of edges leads from one to the other |
| BackupSafety.JobStepOk | core/internal/backup/engine.go:479-564 | every event of a job moves along an edge or stays, keeps the shape of its row, and leaves an ended row alone but for its liveness |
| BackupSafety.ReachableGood | core/internal/backup/engine.go:479-564 | one invariant over every interleaving of jobs, samplers, cancels, failed persists, crashes and reconciliations |
| BackupSafety.StartGood | core/internal/backup/engine.go:212-311 | a start, refused at any point or accepted, keeps the invariant |
| BackupRuns.StoredRowsFollowTheMachine | core/internal/backup/engine.go:1175-1227 | under every event from a good state each stored row follows the state machine and never leaves a terminal state |
| BackupRuns.RunsFollowTheMachine | core/internal/backup/engine.go:1175-1227 | the same from an empty store after any run, with the path of edges spelled out: a stored row moves along edges or is settled by reconciliation, and one stored as ended keeps everything but its liveness |
| BackupRuns.EndedForGood | core/internal/backup/engine.go:1149-1227 | over any run, once stored as ended a job keeps its row but for its liveness |
| BackupRuns.SavingRunsMoveByEdges | core/internal/backup/engine.go:1175-1202 | on every run whose changes of state were saved, skipped progress writes notwithstanding, the store knows each live job's state and it changes one edge at a time |
| BackupRuns.RunsAreSingleFlight | core/internal/backup/engine.go:252-306 | after any run at most one running job per device, bound to its own storage |
| BackupRuns.RunsStoreTrueOutcomes | core/internal/backup/engine.go:479-564 | after any run stored success means a verified tree and this job's own version, a version never belongs to a job stored as failed, cancelled or lost, and cancelled means cancelled by somebody |
| BackupRuns.RunsRecover | core/internal/backup/engine.go:432-475 | after any run a crash at any step, commits finished or dropped, then reconciliation: no live row remains, success exactly where a version is, and a second reconciliation changes nothing |
| BackupAnswers.StartAnswers | core/internal/backup/engine.go:212-311 | which answer a start gets, the refusals in order; it goes to the storage asked for, else to the retried job's, else to the default |
| BackupAnswers.StartAccepted | core/internal/backup/engine.go:212-311 | an accepted start leaves one new job of this device at that storage and bound to it, and everything else as it was |
| BackupRuns.RetryAimsWhereItAimed | core/internal/backup/engine.go:240-250 | (corollary) a retry that names no storage goes where the retried job went, or is refused |
| BackupRuns.RunsCountTheirChains | core/internal/backup/engine.go:273-291 | after any run, along any retry chain the intent is the first job's id and the attempt is the chain's length |
| BackupAnswers.CancelMarks | core/internal/backup/engine.go:315-340 | a cancel of a running job is noted on it unless a kill already is, and nothing else moves; any other finds nothing |
| BackupAnswers.CancelNeverSucceeds | core/internal/backup/engine.go:315-340 | after any run, a cancel of a job whose tool has not been judged, then anything at all: the job never succeeds and no version carries its id |
| BackupRuns.CancelledInTimeNeverSucceeds | core/internal/backup/engine.go:853-872 | the same of a job whose cancel is already noted |
| BackupAnswers.ToolEndsAs | core/internal/backup/engine.go:801-835 | how a run ends with its tool: which state and code for a cancel, a timeout, a shutdown, an error exit and a tool that did not say it succeeded, in that order |
| BackupAnswers.StartFailsAs | core/internal/backup/engine.go:865-872 | the same for a tool that never started, and for a seed that failed |
| BackupAnswers.OtherEnds | core/internal/backup/engine.go:484-554 | the ends of the wait, of the preflight and of verification |
| BackupAnswers.GoesForward | core/internal/backup/engine.go:479-564 | where each step takes the run and the state and phase it shows there |
| BackupAnswers.WritersWrite | core/internal/backup/engine.go:774-799 | what a line, a tick and a timeout change of a running job, and what they do not |
| BackupAnswers.AGoodRunSucceeds | core/internal/backup/engine.go:524-564 | from any state a working job nobody killed can succeed, stored with its version, its device free and its binding gone |
| BackupAnswers.StoppingExactly | core/internal/backup/engine.go:484-492 | over any run the jobs see a shutdown exactly when one was asked for since the process came up |
| BackupAnswers.CrashLeavesTheStore | core/internal/backup/engine.go:432-475 | a crash takes the jobs, devices in use and bindings and leaves rows, commits and half-done commits; reconciling lets starts in again |
| BackupAnswers.RunsNeverShareAVersion | core/internal/storage/subsystem.go:420-440 | after any run, crashes and roll-forwards included, no two jobs name the same version |
| BackupRuns.VerifiedOnlyWhenWell | core/internal/backup/engine.go:801-835 | (corollary) a tree goes to verification exactly when nothing killed the job, the tool exited well and said so |
| BackupExact.LateTickMarksAnEndedRow | core/internal/backup/engine.go:774-808 | a run from an empty store whose last sampler tick lands after the end: the row is stored as ended and claims a live process |
| BackupExact.EndedLivenessIsTheLastLateTick | core/internal/backup/engine.go:774-808 | over every run the liveness of a row stored as ended is what the last saved tick after the end said, and none if there was none |
| BackupExact.EndedRowIsFixedExactly | core/internal/backup/engine.go:774-808 | an ended row stays exactly as it is through everything that can follow if and only if the job's sampler has stopped |
| BackupRuns.SnapshotThenUnlockUndoesTheEnd | core/internal/backup/engine.go:1149-1184 | a writer that copies under the lock and writes after it undoes a terminal row |
| BackupExact.RefusedInsertLeavesItsBinding | core/internal/backup/engine.go:292-302 | a row the store refuses leaves a binding without a job |
| BackupExact.BoundWhileInUseOrRefused | core/internal/backup/engine.go:1267-1275 | over every run an id is bound if and only if its job has not let go, or the store refused the row of its start since the process came up |
| BackupExact.OnlyARefusedRowLeavesABinding | core/internal/backup/engine.go:292-302 | an event leaves a binding no job stands behind if and only if it is a start whose row the store refuses |
| BackupExact.GatedToolMaySkipBackingUp | core/internal/backup/engine.go:900-906 | a run from an empty store in which a gated tool ends early and the job goes from seeding to verifying |
| BackupExact.SkipsBackingUpExactly | core/internal/backup/engine.go:889-937 | over every run a job that goes to verification comes from seeding if and only if its gated tool was handed over before the gate opened, and from backing_up otherwise |
| BackupLive.Engine.Start | core/internal/backup/engine.go:212-311 | the start on the engine's maps takes the specified step, refusals in the code's order |
| BackupLive.Engine.Transition | core/internal/backup/engine.go:1175-1184 | one job's row and what is stored of it change as one step, the stored row being the mutated one |
| BackupLive.Engine.Progress | core/internal/backup/engine.go:1188-1202 | the row always moves, and is persisted exactly when the throttle is due and the store takes it |
| BackupLive.Engine.Terminate | core/internal/backup/engine.go:1204-1227 | an ended row has no phase and no liveness, carries its code, and keeps its percentage, version and identity; no other job moves |
| BackupLive.Engine.Succeed | core/internal/backup/engine.go:1229-1256 | a succeeded row names its version, is at 100 and done, and has no liveness; no other job moves |
| BackupLive.Engine.Cancel | core/internal/backup/engine.go:315-340 | a cancel marks a running job unless a kill is already noted, and nothing else |
| BackupLive.Engine.GiveUpWaiting | core/internal/backup/engine.go:484-495 | a wait that ends without the device ends the job as cancelled, interrupted or not visible, asked in that order: the event of the transition system |
| BackupLive.Engine.RefusePreflight | core/internal/backup/engine.go:498-501 | a refused preflight is that event, with nothing to discard |
| BackupLive.Engine.EndTool | core/internal/backup/engine.go:801-835 | the end of the tool and what the run does with it are the two events of the transition system, a kill outranking the exit |
| BackupLive.Engine.FailToStart | core/internal/backup/engine.go:865-872 | a tool that never started is classified the same way |
| BackupLive.Engine.EndWith | core/internal/backup/engine.go:524-548 | the switch over outcomes: which end, which code, and whether work is discarded |
| BackupLive.Engine.RefuseTree | core/internal/backup/engine.go:549-554 | a tree that does not verify ends the job and is discarded |
| BackupLive.Engine.FailCommit | core/internal/backup/engine.go:556-561 | a failed commit ends the job and leaves the work area alone |
| BackupLive.Engine.Commit | core/internal/backup/engine.go:556-562 | a commit that lands and the row that names its version are the two events of the transition system |
| BackupLive.Engine.LetGo | core/internal/backup/engine.go:1267-1275 | the device is freed, then the binding dropped |
| BackupLive.Engine.ReconcileAll | core/internal/backup/engine.go:432-475 | the reconciliation loop settles exactly the non-terminal rows the store takes, by whether a version carries the id |
| BackupFrames.Scan | core/internal/backup/parser.go:18-41 | however the stream is cut into reads, the scanner yields the frames of a character-by-character reference |
| BackupFrames.FrameOfPrefix | core/internal/backup/parser.go:18-41 | a frame found in a prefix is the first frame of the whole, a cut inside a carriage-return newline pair included |
| BackupFrames.RejoinedSplits | core/internal/backup/parser.go:18-41 | frames put back together with newlines split into the same frames |
| BackupFrames.OnlyTheLineEndsAreLost | core/internal/backup/parser.go:18-41 | the frames of any stream, rejoined and split again, are the same frames: framing loses only which line end was used |
| BackupFrames.FramesHoldTheText | core/internal/backup/parser.go:18-41 | the frames hold every character of the stream but its newlines and carriage returns, in order, and none of those |
| BackupSampler.Sampler.Sample | core/internal/backup/sampler.go:46-79 | the tick on the sampler's fields takes the specified step |
| BackupSampler.KillsExactly | core/internal/backup/sampler.go:46-79 | a tick kills if and only if something had moved and, since the last tick that moved or waited for the passcode, at least the timeout has passed: stated on the ticks alone |
| BackupSampler.ShowsExactly | core/internal/backup/sampler.go:46-79 | what a tick shows, on the ticks alone: the stages at a sixth and a half of the timeout after the last sign of life, alive outside a silence |
| BackupSampler.SilenceIsKilledInTime | core/internal/backup/sampler.go:67-79 | a lasting silence is killed before the timeout plus one tick interval |
| BackupSampler.StagesAdvance | core/internal/backup/sampler.go:67-79 | within one silence the stage only advances |
| BackupSampler.LowSpaceIsSaidExactly | core/internal/backup/sampler.go:49-54 | low space is reported at the first tick below the floor, with what it read, and at no other |
| BackupSampler.LowSpaceIsSaidOnce | core/internal/backup/sampler.go:49-54 | hence once a run |
| BackupLog.Narration.LogLine | core/internal/backup/engine.go:1099-1114 | a repeated line is counted, any other closes the run with its total and appears at once |
| BackupLog.CompressionIsLossless | core/internal/backup/engine.go:1099-1128 | expanding the flushed log gives back exactly the lines narrated |
| BackupLog.FirstOccurrenceIsImmediate | core/internal/backup/engine.go:1099-1114 | a line that differs from the one before it is in the log at once, whatever run it closes |
| BackupLog.RepeatsAreQuiet | core/internal/backup/engine.go:1099-1114 | a line that repeats the one before it adds nothing until its run is closed |
| BackupLog.TailIsTheEnd | core/internal/backup/joblog.go:24-40 | what a job's log keeps is the end of what was appended, as much as fits |
| BackupLog.LogStore.Append | core/internal/backup/joblog.go:24-40 | the log kept is the longest tail within the cap of everything appended since the job was last admitted, and the order lists the retained jobs |
| BackupLines.Supervision.HandleLine | core/internal/backup/engine.go:995-1076 | what one classified line does to the signs the sampler and the outcome read, to the log, and whether it moves the job's row |
| BackupLines.HandleAll | core/internal/backup/engine.go:741-749 | after any lines of output the signs and the log are the folds of exactly those lines |
| BackupLines.PausedByTheLastMarker | core/internal/backup/engine.go:1017-1032 | the clock is paused if and only if the last line about the passcode asked for it and announced no files |
| BackupLines.SuccessIsSaid | core/internal/backup/engine.go:1017-1032 | success is noted if and only if some line said it, whichever pipe it came by |
| BackupLines.ReasonIsTheLast | core/internal/backup/engine.go:1017-1032 | a reason is kept if and only if some line gave one, and it is the last one given |
| BackupLines.TheLogTellsTheOutcome | core/internal/backup/engine.go:995-1016 | pause, success and the reason can be read back from the logged lines alone: leaving redraws and empty lines out of the log loses nothing that decides |
| BackupLines.LoggedExactly | core/internal/backup/engine.go:995-1016 | exactly which lines are logged |
| BackupBytes.PublishedIsTheSum | core/internal/backup/engine.go:1037-1075 | the published figure is each finished batch's last figure plus the current one's, as of the last size line |
| BackupBytes.PublishedNeverFalls | core/internal/backup/engine.go:1037-1075 | it never falls when figures do not fall within a batch |
| AuthSafety.StepKeepsTheOwner | core/internal/auth/service.go:440-697 | no operation takes an install from a password or an admin passkey to neither, nor from configured to not |
| AuthSafety.RunsKeepTheOwner | core/internal/auth/service.go:208-224 | nor does any run, whatever proofs were minted in advance |
| AuthSafety.RemovalProvableExactly | core/internal/auth/accepts.go:40-96 | the refusal, the accepted factors and the ceremony's list agree: a removal is provable here if and only if another admin passkey could sign here |
| AuthSafety.RefusalNamesTheRest | core/internal/auth/service.go:706-735 | a refusal names each address of the passkeys that would remain once, and none other |
| AuthTrace.EveryRemovalTraces | core/internal/auth/reauth.go:107-189 | over any run each passkey removed by proof traces to one ceremony and one assertion, begun and finished by the same session for that removal, by another admin passkey of that address, within both clocks, and no two changes share either |
| AuthTrace.EveryChangeTraces | core/internal/auth/reauth.go:239-315 | over any run every change made by proof, of any kind, traces to one assertion by a passkey stored at that address when it signed, and an admin's where the address had any |
| AuthTrace.AdminsAloneSignExactly | core/internal/auth/reauth.go:137-166 | a ceremony admits the admin's passkeys only if and only if one of them works here, other than a removal's target, or no scoped passkey has this address; for the two removals always |
| AuthTrace.ScopedPasskeyChangesThePassword | core/internal/auth/reauth.go:137-166 | with a password and one scoped passkey at the address, that passkey proves a change of the password |
| AuthTrace.PresentingSpends | core/internal/auth/proof.go:195-225 | presenting a proof spends it whatever the outcome |
| AuthTrace.RemovalIsAuthorised | core/internal/auth/service.go:606-697 | a removal that succeeds was authorised by the password or another credential's live proof, removes that passkey alone, and ends the sessions it minted but the asking one |
| AuthTrace.PasswordRemovalIsAuthorised | core/internal/auth/service.go:440-509 | a password removal that succeeds was authorised by a live proof other than the password, with an admin passkey of this address still there |
| AuthTrace.PasswordChangeIsAuthorised | core/internal/auth/service.go:334-377 | a password change that succeeds was authorised by the old password or a live proof for it, and ends the other password sessions alone |
| AuthTrace.ClaimedOnce | core/internal/auth/setup_passkey.go:43-101 | over any run, after a first-run setup of either kind has succeeded every later one is refused and changes nothing |
| AuthTrace.MutualRemovalStops | core/internal/auth/service.go:606-697 | two passkeys proving each other's removal: the second is refused with its proof unspent |
| AuthAnswers.PresentsExactly | core/internal/auth/proof.go:257-314 | what counts as shown, and that a proof presented is spent either way |
| AuthAnswers.WhyNotShown | core/internal/auth/proof.go:257-314 | which refusal each other showing gets |
| AuthAnswers.SetPasswordExactly | core/internal/auth/service.go:262-303 | when the first password is set, and that it is the text given |
| AuthAnswers.ChangePasswordExactly | core/internal/auth/service.go:334-377 | when a password changes, to the text given, and which sessions end |
| AuthAnswers.RemovePasswordExactly | core/internal/auth/service.go:440-509 | when a password is removed |
| AuthAnswers.WhyNotChanged | core/internal/auth/service.go:334-509 | which refusal each other attempt on the password gets |
| AuthAnswers.RemovePasskeyExactly | core/internal/auth/service.go:606-697 | when a passkey is removed, and what goes with it |
| AuthAnswers.SessionsEnd | core/internal/auth/service.go:334-377 | which sessions a change ends: those of that credential but the asking one |
| AuthAnswers.BeginExactly | core/internal/auth/reauth.go:107-189 | when a ceremony begins, and with which list |
| AuthAnswers.FinishExactly | core/internal/auth/reauth.go:239-315 | an assertion mints a proof if and only if it is admitted, its ceremony pending, from that session and address, by a passkey stored there and on the list |
| AuthAnswers.WhyNotMinted | core/internal/auth/reauth.go:239-315 | which refusal each other assertion gets |
| AuthAnswers.RegistrationFinishesExactly | core/internal/auth/passkey.go:359-454 | when a passkey is stored |
| AuthAnswers.RegistrationsAskedExactly | core/internal/httpapi/handlers_passkey.go:68-100 | what adding a passkey and first-run setup ask for first |
| AuthAnswers.SetupFinishesExactly | core/internal/auth/setup_passkey.go:74-101 | when first-run registration claims the install |
| AuthLive.Service.Survey | core/internal/auth/service.go:706-735 | the refusal loop finds another credential of this address, or collects the other addresses once each in order |
| AuthLive.Service.Allowed | core/internal/auth/reauth.go:326-343 | the ceremony's list is the admin credentials of the address without the target |
| AuthLive.Service.Mint | core/internal/auth/proof.go:140-183 | minting drops expired proofs and adds one on the proof clock |
| AuthLive.Service.Spend | core/internal/auth/proof.go:195-225 | lookup and removal are one step |
| AuthLive.Service.Begin | core/internal/auth/reauth.go:107-189 | the checks in order, and the ceremony that comes of passing them |
| AuthLive.Service.Finish | core/internal/auth/reauth.go:239-315 | the ceremony is taken before anything is judged, and the proof carries its operation, target and session |
| AuthLive.Service.ClaimWithPassword | core/internal/auth/service.go:262-303 | the first password claims only an unconfigured install |
| AuthLive.Service.ReplacePassword | core/internal/auth/service.go:334-377 | a change by password or proof ends the other password sessions |
| AuthLive.Service.DropPassword | core/internal/auth/service.go:440-509 | what is acceptable is asked before a proof is spent |
| AuthLive.Service.DropPasskey | core/internal/auth/service.go:606-697 | the same for a passkey, with the self-removal check last |
| AuthLive.Service.Expect | core/internal/auth/passkey.go:134-153 | a registration ceremony is remembered on its clock and expired ones are dropped |
| AuthLive.Service.Enrol | core/internal/auth/passkey.go:359-454 | a registration is taken once and must match its address and scope |
| AuthLive.Service.ClaimWithPasskey | core/internal/auth/setup_passkey.go:74-101 | the finish of first-run registration checks again that the install is unclaimed |
| AuthEnrolment.Enrolments.Sweep | core/internal/auth/enrolment.go:363-373 | the sweep forgets exactly what the grace window has closed on |
| AuthEnrolment.Enrolments.Find | core/internal/auth/enrolment.go:313-352 | live, expired, spent and revoked are answered from the history until the grace closes, and unknown after |
| AuthEnrolment.Enrolments.Check | core/internal/auth/enrolment.go:202-206 | checking changes no later answer |
| AuthEnrolment.Enrolments.Spend | core/internal/auth/enrolment.go:210-220 | the one use, answered from the history |
| AuthEnrolment.Enrolments.Revoke | core/internal/auth/enrolment.go:243-262 | which of its four answers a revocation gets, and that only the last changes anything |
| AuthEnrolment.Enrolments.List | core/internal/auth/enrolment.go:267-300 | exactly the device's usable secrets, in order of creation then id |
| AuthEnrolment.DeedsGoOn | core/internal/auth/enrolment.go:167-262 | whatever is minted, checked, spent or revoked, the history loses nothing and what has ended stays as it ended |
| AuthEnrolment.DeedsAnswerExactly | core/internal/auth/enrolment.go:167-262 | which secrets a spend, a check and a revocation take, and that nothing else changes the history |
| AuthEnrolment.SpentForGood | core/internal/auth/enrolment.go:202-220 | over any run of deeds, once a token is spent every later look at it is answered spent until the grace closes and unknown after |
| AuthEnrolment.RevokedForGood | core/internal/auth/enrolment.go:243-262 | and once a secret is revoked, revoked until the grace closes and unknown after |
| AuthEnrolment.SpentOnce | core/internal/auth/enrolment.go:210-220 | over any run of deeds at most one spend of a token succeeds |
| AuthEnrolment.UntouchedLife | core/internal/auth/enrolment.go:313-373 | over any run of deeds, from its minting a secret nobody spends or revokes is usable until it expires, expired until the grace closes, then unknown |
| AuthEnrolmentRace.OneSecretOneSession | core/internal/auth/enrolment_ceremony.go:106-143 | however finishes interleave, one secret yields at most one session, every credential is confined to the secret's device, and a secret is spent only once a credential exists for it |
| AuthEnrolmentRace.RacingCallsLeaveTwoCredentials | core/internal/auth/enrolment_ceremony.go:106-143 | but a run from an empty table may leave two credentials of one secret |
| AuthEnrolmentRace.OneCredentialExactly | core/internal/auth/enrolment_ceremony.go:106-143 | however the calls already checked in go on and whatever else the auth service does, a secret yields at most one credential if and only if the calls that may still register hold one pending ceremony between them, and none once a credential was made |
| AuthEnrolmentRace.CheckInSafeExactly | core/internal/auth/enrolment_ceremony.go:106-118 | a check-in keeps that so if and only if its own ceremony is over, or nothing was made for the secret and no call of it holds another pending ceremony |
| AuthEnrolmentRace.OneSecretOneCredential | core/internal/auth/enrolment_ceremony.go:106-143 | over every run from an empty table a secret whose check-ins came one at a time yields at most one credential, and of the next check-in two may come if and only if it does not wait its turn |
| AuthLimiter.Limiter.Allow | core/internal/auth/ratelimit.go:29-43 | the limiter answers and counts as one that never sweeps |
| AuthLimiter.Limiter.Sweep | core/internal/auth/ratelimit.go:57-67 | the sweep takes only buckets the next attempt would replace |
| AuthLimiter.FewerThanTwiceTheLimit | core/internal/auth/ratelimit.go:29-43 | between resets any closed window admits at most one fewer than twice the limit |
| AuthLimiter.TheBoundIsReached | core/internal/auth/ratelimit.go:29-43 | for every limit and window some attempts reach that bound |
| DeviceRegistry.Registry.Apply | core/internal/device/registry.go:305-342 | the edge reported is stamped or gone and every other is as it was; replaying what was published gives exactly the merged table, an event is published exactly when the merged table changed, and the order lists each connected device once |
| DeviceRegistry.StampsAreLastAttaches | core/internal/device/registry.go:524-580 | over any run of reports each edge carries the time of its last attach, and is held exactly while that stands |
| DeviceRegistry.LastAttachIsRouted | core/internal/device/registry.go:248-262 | with a rising clock the source that attached last, of those that still hold the edge, is the one routed through |
| DeviceRegistry.TiesGoToTheLeast | core/internal/device/registry.go:248-262 | of sources equally fresh the least id is taken |
| DeviceRegistry.Registry.Reset | core/internal/device/registry.go:349-376 | the same when a whole source goes away |
| DeviceRegistry.EdgeCleared | core/internal/device/registry.go:549-562 | clearing an edge takes it from the merged table exactly when no other source holds it |
| DeviceRegistry.Registry.Newest | core/internal/device/registry.go:383-416 | the merged view shows the newest stamp of any source |
| DeviceRegistry.Registry.SourceFor | core/internal/device/registry.go:248-262 | the freshest source, ties to the least id, in whatever order the map is walked |
| DeviceRegistry.RoutingIsDetermined | core/internal/device/registry.go:248-262 | one source only is preferred and its edge carries the merged stamp |
| EventBus.Subscription.Offer | core/internal/bus/bus.go:68-78 | undropped, received and queued are everything published since subscribing; dropped, a subsequence of it |
| EventBus.Bus.Publish | core/internal/bus/bus.go:68-78 | every subscriber is offered the event, whatever the others' buffers look like |

## Left out

- YAML text, comments, styles and the order of keys in a mapping: a document is a tree of unordered mappings, and the library is asked only to read back the trees it writes.
- A scalar of the wrong kind is a decode error here; the library's conversions between kinds of scalar are not modelled.
- The retired `devices:` section, unknown-key and rename warnings, explanations, degraded-mode warnings, log lines and file times.
- Sharing and in-place rewriting of YAML nodes: the prune returns the tree it leaves.
- Reload's comparison and the load after it read the file twice; here both see the same contents.
- Appliers are what they are told: a panic in one, and the warnings they return, are not modelled; nor is the surface-change broadcast.
- A failed atomic write leaves the file as it was; fsync, rename and partial writes are below the model.
- Storage internals (seed, verify, commit, roll forward, discard): only that a failed commit leaves no version and that a half-done one is finished or dropped after a crash. Discarding work is not modelled, since nothing here reads it.
- Choosing a transport, device validation, the preflight checks themselves, encryption probing and free space: each appears as the outcome it gives.
- A store that fails to read a job while a retry is resolved.
- Subprocesses, pipes, the gate file and signals: each appears as the event it causes. Frames longer than the scanner's buffer, and the regular expressions that classify a line.
- The broadcast of job rows and log chunks.
- WebAuthn, password hashing and random tokens: an assertion is the id of the credential that made it, held to the ceremony's list, and a password is compared as text.
- The store's own failures in the auth service, auditing, push subscriptions, session expiry, login and logout beyond the session they leave, and the deletion of a prior session when a new one is minted.
- The out-of-process reset, which is allowed to clear credentials and is no step of the runs.
- AuthEnrolmentRace.OneSecretOneSession: secrets are named by id where the code finds them by token, and the limiter's refusal before a check-in is a call that never starts.
- What a device event carries besides its device and transport, identity enrichment, offline listings, the update event that follows a last detach, and the order in which concurrent publishers reach the bus after releasing the registry's lock.
- The http handlers, cookies, CSRF, TLS serving, rpId derivation, the demo, the command-line tools, the notifier and the UI.
