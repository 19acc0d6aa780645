/** The backup engine: jobs, the run goroutine's program, the sampler and scanners that race it, cancel,
    shutdown, a crash at any point, and startup reconciliation.

    Each event is one critical section of the program: what happens under a job's lock is one event, and so
    is what happens under the engine's.  `saved` says whether the store took the row: a failed write is
    logged and the program goes on, and a progress write may be skipped by the throttle. */
module BackupEngine {
  import opened Wrappers

  type JobId = nat
  type Udid = string
  type StorageId = string
  type VersionId = nat

  datatype JobState =
    | Queued | WaitingForDevice | Preflight | Seeding | BackingUp | Verifying | Committing
    | Succeeded | Failed | Cancelled | ConnectionLost

  predicate Terminal(s: JobState) { s.Succeeded? || s.Failed? || s.Cancelled? || s.ConnectionLost? }

  datatype Phase =
    | NoPhase | PhaseQueued | PhaseWaiting | PhasePreflight | PhaseSeeding | PhaseStarting | PhaseReceiving
    | PhaseWaitingForPasscode | PhaseVerifying | PhaseCommitting | PhaseDone

  datatype Liveness = NoLiveness | Active | SilentButConnected | SuspectedStall

  datatype ErrorCode =
    | DeviceDisconnected | DeviceNotVisible | NotPaired | EncryptionRequired | DiskLow | VerifyFailed | CommitFailed
    | BackupFailed | Interrupted | WasCancelled

  datatype Row = Row(
    udid: Udid, storage: StorageId, retryOf: Option<JobId>, intent: JobId, attempt: nat,
    state: JobState, phase: Phase, liveness: Liveness, percent: Option<nat>,
    finished: bool, error: Option<ErrorCode>, version: Option<VersionId>)

  // ---- what each writer does to a row ----

  function Moved(r: Row, s: JobState, p: Phase): Row { r.(state := s, phase := p) }

  function Terminated(r: Row, s: JobState, code: ErrorCode): Row {
    r.(state := s, finished := true, error := Some(code), phase := NoPhase, liveness := NoLiveness)
  }

  function SucceededRow(r: Row, v: VersionId): Row {
    r.(state := Succeeded, phase := PhaseDone, percent := Some(100), liveness := NoLiveness, finished := true,
       version := Some(v))
  }

  function RolledForward(r: Row, v: VersionId): Row { SucceededRow(r, v).(error := None) }

  // ---- one job ----

  datatype Kill = NotKilled | ByCancel | ByTimeout

  datatype Outcome = ProcOk(successful: bool) | ProcErr | TimedOut | WasKilled | ShutDown | SeedErr

  /** Where the run goroutine is: what it does next. */
  datatype At =
    | AtBegin | AtWaiting | AtPreflight | AtPrepare | AtStart(gated: bool) | AtGate | AtLoop
    | AtSettle(outcome: Outcome) | AtVerify | AtCommit(begun: bool) | AtLanded(version: VersionId)
    | AtDiscard | AtRelease | AtUnbind | AtEnd

  datatype Live = Live(row: Row, at: At, kill: Kill, sampling: bool)

  datatype JobEvent =
    | BeginWait
    | DeviceSeen
    | DeviceMissing
    | PreflightPassed
    | PreflightRefused(code: ErrorCode)
    | Prepared(seedPending: bool)
    | PrepareFailed
    | ToolNotStarted
    | ToolStarted
    | GateOpened
    | HandedOver
    | SeedFailed
    | Line(passcode: bool, receiving: bool, done: Option<nat>)
    | Tick(liveness: Liveness)
    | TimeoutNoted
    | SamplerQuit
    | ToolEnded(exitOk: bool, successful: bool)
    | Settle
    | Verified(ok: bool)
    | Discarded

  predicate Can(l: Live, e: JobEvent) {
    match e
    case BeginWait => l.at.AtBegin?
    case DeviceSeen => l.at.AtWaiting?
    case DeviceMissing => l.at.AtWaiting?
    case PreflightPassed => l.at.AtPreflight?
    case PreflightRefused(_) => l.at.AtPreflight?
    case Prepared(_) => l.at.AtPrepare?
    case PrepareFailed => l.at.AtPrepare?
    case ToolNotStarted => l.at.AtStart?
    case ToolStarted => l.at.AtStart?
    case GateOpened => l.at.AtGate?
    case HandedOver => l.at.AtGate?
    case SeedFailed => l.at.AtGate?
    case Line(_, _, _) => l.at.AtGate? || l.at.AtLoop?
    case Tick(_) => l.sampling
    case TimeoutNoted => l.sampling
    case SamplerQuit => l.sampling
    case ToolEnded(_, _) => l.at.AtLoop?
    case Settle => l.at.AtSettle?
    case Verified(_) => l.at.AtVerify?
    case Discarded => l.at.AtDiscard?
  }

  /** The events that end in a write of the row; the others only move the run goroutine along. */
  predicate Writes(e: JobEvent) {
    match e
    case Prepared(seedPending) => !seedPending
    case ToolNotStarted => false
    case ToolStarted => false
    case HandedOver => false
    case SeedFailed => false
    case SamplerQuit => false
    case TimeoutNoted => false
    case ToolEnded(_, _) => false
    case Discarded => false
    case _ => true
  }

  /** Was this job killed, and how should it then end?  One classifier for both sides of the tool's start. */
  function KillOutcome(kill: Kill, shutdown: bool): Option<Outcome> {
    if kill.ByCancel? then Some(WasKilled)
    else if kill.ByTimeout? then Some(TimedOut)
    else if shutdown then Some(ShutDown)
    else None
  }

  function EndOf(l: Live, otherwise: Outcome, shutdown: bool): Outcome {
    var killed := KillOutcome(l.kill, shutdown);
    if killed.Some? then killed.value else otherwise
  }

  function MissingRow(l: Live, shutdown: bool): Row {
    if l.kill.ByCancel? then Terminated(l.row, Cancelled, WasCancelled)
    else if shutdown then Terminated(l.row, ConnectionLost, Interrupted)
    else Terminated(l.row, Failed, DeviceNotVisible)
  }

  function LineRow(r: Row, passcode: bool, receiving: bool, done: Option<nat>): Row {
    r.(phase := if receiving then PhaseReceiving else if passcode then PhaseWaitingForPasscode else r.phase,
       percent := if done.Some? then done else r.percent)
  }

  function Settled(l: Live, outcome: Outcome): Live {
    match outcome
    case SeedErr => l.(row := Terminated(l.row, Failed, BackupFailed), at := AtRelease)
    case WasKilled => l.(row := Terminated(l.row, Cancelled, WasCancelled), at := AtDiscard)
    case TimedOut => l.(row := Terminated(l.row, ConnectionLost, DeviceDisconnected), at := AtDiscard)
    case ShutDown => l.(row := Terminated(l.row, ConnectionLost, Interrupted), at := AtDiscard)
    case ProcErr => l.(row := Terminated(l.row, Failed, BackupFailed), at := AtDiscard)
    case ProcOk(successful) =>
      if successful then l.(row := Moved(l.row, Verifying, PhaseVerifying), at := AtVerify)
      else l.(row := Terminated(l.row, Failed, BackupFailed), at := AtDiscard)
  }

  /** One event of one job.  `shutdown` is whether the process is stopping. */
  function JobStep(l: Live, e: JobEvent, shutdown: bool): Live {
    match e
    case BeginWait => l.(row := Moved(l.row, WaitingForDevice, PhaseWaiting), at := AtWaiting)
    case DeviceSeen => l.(row := Moved(l.row, Preflight, PhasePreflight), at := AtPreflight)
    case DeviceMissing => l.(row := MissingRow(l, shutdown), at := AtRelease)
    case PreflightPassed => l.(row := Moved(l.row, Seeding, PhaseSeeding).(liveness := Active), at := AtPrepare)
    case PreflightRefused(code) => l.(row := Terminated(l.row, Failed, code), at := AtRelease)
    case Prepared(pending) =>
      if pending then l.(at := AtStart(true))
      else l.(row := Moved(l.row, BackingUp, PhaseStarting).(liveness := Active), at := AtStart(false))
    case PrepareFailed => l.(row := Terminated(l.row, Failed, BackupFailed), at := AtRelease)
    case ToolNotStarted => l.(at := AtSettle(EndOf(l, ProcErr, shutdown)))
    case ToolStarted => if l.at.AtStart? && l.at.gated then l.(at := AtGate) else l.(at := AtLoop, sampling := true)
    case GateOpened => l.(row := Moved(l.row, BackingUp, PhaseStarting).(liveness := Active), at := AtLoop, sampling := true)
    case HandedOver => l.(at := AtLoop, sampling := true)
    case SeedFailed => l.(at := AtSettle(SeedErr))
    case Line(passcode, receiving, done) => l.(row := LineRow(l.row, passcode, receiving, done))
    case Tick(liveness) => l.(row := l.row.(liveness := liveness))
    case TimeoutNoted => l.(kill := if l.kill.NotKilled? then ByTimeout else l.kill, sampling := false)
    case SamplerQuit => l.(sampling := false)
    case ToolEnded(exitOk, successful) =>
      l.(at := AtSettle(EndOf(l, if exitOk then ProcOk(successful) else ProcErr, shutdown)))
    case Settle => if l.at.AtSettle? then Settled(l, l.at.outcome) else l
    case Verified(ok) =>
      if ok then l.(row := Moved(l.row, Committing, PhaseCommitting), at := AtCommit(false))
      else l.(row := Terminated(l.row, Failed, VerifyFailed), at := AtDiscard)
    case Discarded => l.(at := AtRelease)
  }

  // ---- the system ----

  datatype Binding = Binding(udid: Udid, storage: StorageId)

  /** `rows` is the store, which a crash leaves alone with `commits` and `halfway`; `live`, `running` and
      `bound` belong to the process.  `verified` and `cancels` record history for the theorems. */
  datatype Sys = Sys(
    rows: map<JobId, Row>, commits: map<JobId, VersionId>, halfway: set<JobId>,
    live: map<JobId, Live>, running: map<Udid, JobId>, bound: map<JobId, Binding>,
    shutdown: bool, serving: bool, nextId: JobId, nextVersion: VersionId,
    verified: set<JobId>, cancels: set<JobId>)

  const FRESH: Sys := Sys(map[], map[], {}, map[], map[], map[], false, true, 0, 0, {}, {})

  /** What storage answers about a requested storage: the default for none, and only reachable ones. */
  datatype Storages = Storages(byDefault: StorageId, reachable: set<StorageId>)

  datatype Answer = Accepted(id: JobId) | Refused | Busy | StillFinishing | UnknownRetry | BindFailed | StoreError

  datatype Event =
    | Start(udid: Udid, wanted: Option<StorageId>, retryOf: Option<JobId>, storages: Storages, bindOk: bool, insertOk: bool)
    | Cancel(id: JobId)
    | Job(id: JobId, e: JobEvent, saved: bool)
    | CommitBegins(id: JobId)
    | CommitLands(id: JobId)
    | CommitFails(id: JobId, saved: bool)
    | Finish(id: JobId, saved: bool)
    | Release(id: JobId)
    | Unbind(id: JobId)
    | Shutdown
    | Crash
    | RollForward(rolled: set<JobId>, dropped: set<JobId>)
    | Reconcile(unsaved: set<JobId>)

  predicate LiveAt(s: Sys, id: JobId) { id in s.live && id in s.rows }

  predicate Enabled(s: Sys, ev: Event) {
    match ev
    case Start(_, _, _, _, _, _) => s.serving
    case Cancel(_) => s.serving
    case Job(id, e, saved) => LiveAt(s, id) && Can(s.live[id], e) && (saved ==> Writes(e))
    case CommitBegins(id) => LiveAt(s, id) && s.live[id].at == AtCommit(false)
    case CommitLands(id) => LiveAt(s, id) && s.live[id].at == AtCommit(true)
    case CommitFails(id, _) => LiveAt(s, id) && s.live[id].at.AtCommit?
    case Finish(id, _) => LiveAt(s, id) && s.live[id].at.AtLanded?
    case Release(id) => LiveAt(s, id) && s.live[id].at.AtRelease?
    case Unbind(id) => LiveAt(s, id) && s.live[id].at.AtUnbind?
    case Shutdown => s.serving
    case Crash => true
    case RollForward(rolled, dropped) => !s.serving && rolled + dropped <= s.halfway && rolled !! dropped
    case Reconcile(_) => !s.serving && s.halfway == {}
  }

  /** A job object after an event, with its row written when the store took it. */
  function Put(s: Sys, id: JobId, l: Live, saved: bool): Sys {
    s.(live := s.live[id := l], rows := if saved then s.rows[id := l.row] else s.rows)
  }

  /** The same, where storage takes a step for the job too. */
  function PutCommit(s: Sys, id: JobId, l: Live, saved: bool, commit: Option<VersionId>, halfway: bool): Sys {
    Put(s, id, l, saved).(
      commits := if commit.Some? then s.commits[id := commit.value] else s.commits,
      halfway := if halfway then s.halfway + {id} else s.halfway - {id})
  }

  // ---- starting a job ----

  /** A retry without a storage of its own aims where the retried job aimed. */
  function Aimed(s: Sys, wanted: Option<StorageId>, retryOf: Option<JobId>): Option<StorageId> {
    if wanted.None? && retryOf.Some? && retryOf.value in s.rows then Some(s.rows[retryOf.value].storage) else wanted
  }

  function Concrete(aim: Option<StorageId>, storages: Storages): Option<StorageId> {
    var id := if aim.None? then storages.byDefault else aim.value;
    if id in storages.reachable then Some(id) else None
  }

  function NewRow(s: Sys, udid: Udid, storage: StorageId, retryOf: Option<JobId>): Row
    requires retryOf.Some? ==> retryOf.value in s.rows
  {
    Row(udid, storage, retryOf,
      if retryOf.Some? then s.rows[retryOf.value].intent else s.nextId,
      if retryOf.Some? then s.rows[retryOf.value].attempt + 1 else 1,
      Queued, PhaseQueued, Active, None, false, None, None)
  }

  function StartBackup(s: Sys, udid: Udid, wanted: Option<StorageId>, retryOf: Option<JobId>, storages: Storages,
                       bindOk: bool, insertOk: bool): (Sys, Answer)
  {
    var storage := Concrete(Aimed(s, wanted, retryOf), storages);
    if storage.None? then (s, Refused)
    else if udid in s.running then
      (s, if s.running[udid] in s.live && Terminal(s.live[s.running[udid]].row.state) then StillFinishing else Busy)
    else
      var taken := s.(nextId := s.nextId + 1);
      if retryOf.Some? && retryOf.value !in s.rows then (taken, UnknownRetry)
      else if !bindOk then (taken, BindFailed)
      else
        var id := s.nextId;
        var row := NewRow(s, udid, storage.value, retryOf);
        var held := taken.(bound := s.bound[id := Binding(udid, storage.value)]);
        if !insertOk then (held, StoreError)
        else
          (held.(rows := s.rows[id := row], live := s.live[id := Live(row, AtBegin, NotKilled, false)],
                 running := s.running[udid := id]),
           Accepted(id))
  }

  /** Cancel marks the job; the run goroutine ends it. */
  function CancelJob(s: Sys, id: JobId): (Sys, bool) {
    if id in s.live && id in s.running.Values then
      var l := s.live[id];
      (Put(s.(cancels := s.cancels + {id}), id, l.(kill := if l.kill.NotKilled? then ByCancel else l.kill), false), true)
    else (s, false)
  }

  // ---- startup reconciliation ----

  /** What reconciliation makes of a row left over from a crash. */
  function ReconciledRow(r: Row, version: Option<VersionId>): Row {
    if Terminal(r.state) then r
    else if version.Some? then RolledForward(r, version.value)
    else r.(state := ConnectionLost, finished := true, phase := NoPhase, liveness := NoLiveness, error := Some(Interrupted))
  }

  function VersionForJob(s: Sys, id: JobId): Option<VersionId> { if id in s.commits then Some(s.commits[id]) else None }

  function ReconcileRows(s: Sys, unsaved: set<JobId>): map<JobId, Row> {
    map id | id in s.rows :: if id in unsaved then s.rows[id] else ReconciledRow(s.rows[id], VersionForJob(s, id))
  }

  // ---- steps ----

  function Next(s: Sys, ev: Event): Sys
    requires Enabled(s, ev)
  {
    match ev
    case Start(udid, wanted, retryOf, storages, bindOk, insertOk) =>
      StartBackup(s, udid, wanted, retryOf, storages, bindOk, insertOk).0
    case Cancel(id) => CancelJob(s, id).0
    case Job(id, e, saved) =>
      Put(if e == Verified(true) then s.(verified := s.verified + {id}) else s, id, JobStep(s.live[id], e, s.shutdown), saved)
    case CommitBegins(id) => PutCommit(s, id, s.live[id].(at := AtCommit(true)), false, None, true)
    case CommitLands(id) =>
      PutCommit(s.(nextVersion := s.nextVersion + 1), id, s.live[id].(at := AtLanded(s.nextVersion)), false, Some(s.nextVersion), false)
    case CommitFails(id, saved) =>
      PutCommit(s, id, s.live[id].(row := Terminated(s.live[id].row, Failed, CommitFailed), at := AtRelease), saved, None, false)
    case Finish(id, saved) =>
      Put(s, id, s.live[id].(row := SucceededRow(s.live[id].row, s.live[id].at.version), at := AtRelease), saved)
    case Release(id) =>
      s.(live := s.live[id := s.live[id].(at := AtUnbind)], running := s.running - {s.live[id].row.udid})
    case Unbind(id) => s.(live := s.live[id := s.live[id].(at := AtEnd)], bound := s.bound - {id})
    case Shutdown => s.(shutdown := true)
    case Crash => s.(live := map[], running := map[], bound := map[], shutdown := false, serving := false)
    case RollForward(rolled, dropped) =>
      s.(commits := s.commits + (map id | id in rolled :: s.nextVersion + id), halfway := s.halfway - rolled - dropped,
         nextVersion := s.nextVersion + s.nextId)
    case Reconcile(unsaved) => s.(rows := ReconcileRows(s, unsaved), serving := true)
  }

  // ---- runs ----

  predicate Runs(s: Sys, events: seq<Event>)
    decreases |events|
  {
    events == [] || (Enabled(s, events[0]) && Runs(Next(s, events[0]), events[1..]))
  }

  function After(s: Sys, events: seq<Event>): Sys
    requires Runs(s, events)
    decreases |events|
  {
    if events == [] then s else After(Next(s, events[0]), events[1..])
  }
}
