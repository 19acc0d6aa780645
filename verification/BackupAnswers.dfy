/** What each operation of the engine answers and leaves, in the fields of the rows and of the maps: starting,
    cancelling, the ends a run can come to, and what the scanners and the sampler write. */
module BackupAnswers {
  import opened Wrappers
  import opened BackupEngine
  import opened BackupSafety
  import opened BackupTouch
  import opened BackupRuns
  import opened BackupExact

  // ---- starting ----

  /** A start goes to the storage asked for; without one, to the retried job's when that is known; else to the default:
      and nowhere else.  Which of the refusals it gets, in the order they are asked, or that it is accepted. */
  lemma StartAnswers(s: Sys, udid: Udid, wanted: Option<StorageId>, retryOf: Option<JobId>, storages: Storages,
                     bindOk: bool, insertOk: bool)
    ensures var answer := StartBackup(s, udid, wanted, retryOf, storages, bindOk, insertOk).1;
      var x := if wanted.Some? then wanted.value
               else if retryOf.Some? && retryOf.value in s.rows then s.rows[retryOf.value].storage
               else storages.byDefault;
      answer ==
        if x !in storages.reachable then Refused
        else if udid in s.running && s.running[udid] in s.live && Terminal(s.live[s.running[udid]].row.state) then StillFinishing
        else if udid in s.running then Busy
        else if retryOf.Some? && retryOf.value !in s.rows then UnknownRetry
        else if !bindOk then BindFailed
        else if !insertOk then StoreError
        else Accepted(s.nextId)
    ensures var (t, answer) := StartBackup(s, udid, wanted, retryOf, storages, bindOk, insertOk);
      !answer.Accepted? ==> t.rows == s.rows && t.live == s.live && t.running == s.running && t.commits == s.commits
  {
  }

  /** What an accepted start leaves: one new job, for this device, at that storage and bound to it, at the start of its
      run; everything else as it was. */
  lemma StartAccepted(s: Sys, udid: Udid, wanted: Option<StorageId>, retryOf: Option<JobId>, storages: Storages,
                    bindOk: bool, insertOk: bool)
    requires StartBackup(s, udid, wanted, retryOf, storages, bindOk, insertOk).1.Accepted?
    ensures var (t, answer) := StartBackup(s, udid, wanted, retryOf, storages, bindOk, insertOk);
      var x := if wanted.Some? then wanted.value
               else if retryOf.Some? && retryOf.value in s.rows then s.rows[retryOf.value].storage
               else storages.byDefault;
      && answer.id in t.rows
      && (var r := t.rows[answer.id];
          && r.udid == udid && r.storage == x && r.retryOf == retryOf
          && (retryOf.None? ==> r.intent == answer.id && r.attempt == 1)
          && (retryOf.Some? ==> retryOf.value in s.rows && r.intent == s.rows[retryOf.value].intent
                                && r.attempt == s.rows[retryOf.value].attempt + 1)
          && r.state.Queued? && r.phase.PhaseQueued? && r.liveness.Active?
          && r.percent.None? && !r.finished && r.error.None? && r.version.None?
          && t.live == s.live[answer.id := Live(r, AtBegin, NotKilled, false)])
      && t.rows == s.rows[answer.id := t.rows[answer.id]]
      && t.bound == s.bound[answer.id := Binding(udid, x)] && t.running == s.running[udid := answer.id]
      && t.commits == s.commits && t.halfway == s.halfway
  {
  }

  // ---- cancelling ----

  /** A cancel of a running job is noted on it, unless a kill already is, and nothing else moves; any other cancel finds
      nothing and changes nothing. */
  lemma CancelMarks(s: Sys, id: JobId)
    ensures var (t, found) := CancelJob(s, id);
      if id in s.live && id in s.running.Values then
        && found && t.live.Keys == s.live.Keys && (forall j | j in s.live && j != id :: t.live[j] == s.live[j])
        && t.live[id].kill == (if s.live[id].kill.NotKilled? then ByCancel else s.live[id].kill)
        && t.live[id].row == s.live[id].row && t.live[id].at == s.live[id].at && t.live[id].sampling == s.live[id].sampling
        && t.rows == s.rows && t.running == s.running && t.bound == s.bound && t.commits == s.commits && t.halfway == s.halfway
      else !found && t == s
  {
  }

  lemma UnjudgedIsRunning(s: Sys, id: JobId)
    requires Good(s) && LiveAt(s, id) && Unjudged(s.live[id].at)
    ensures id in s.running.Values
  {
    hide RetriesOk, RunningOk, Bounded;
    assert SliceOk(SliceOf(s, id));
    assert s.running[s.rows[id].udid] == id;
  }

  /** A cancel of a job whose tool has not been judged, followed by anything at all, the tool's own success, crashes and
      reconciliations included: the cancel is found, the job never succeeds and no version carries its id. */
  lemma CancelNeverSucceeds(events: seq<Event>, more: seq<Event>, id: JobId)
    requires Runs(FRESH, events) && LiveAt(After(FRESH, events), id)
    requires Unjudged(After(FRESH, events).live[id].at) && !After(FRESH, events).live[id].kill.ByTimeout?
    requires Runs(After(FRESH, events), [Cancel(id)] + more)
    ensures CancelJob(After(FRESH, events), id).1
    ensures var s := After(After(FRESH, events), [Cancel(id)] + more);
      id in s.rows && !s.rows[id].state.Succeeded? && id !in s.commits
  {
    Reached(events);
    var s := After(FRESH, events);
    UnjudgedIsRunning(s, id);
    CancelMarks(s, id);
    assert ([Cancel(id)] + more)[1..] == more;
    var t := Next(s, Cancel(id));
    RunsOn(FRESH, events, Cancel(id));
    CancelledInTimeNeverSucceeds(events + [Cancel(id)], more, id);
  }

  // ---- the ends of a run ----

  /** The job ended as `s` with this code: nothing of a live process is left on its row, and how far it got is. */
  predicate EndedAs(l: Live, m: Live, s: JobState, code: ErrorCode) {
    && m.row.state == s && m.row.error == Some(code) && m.row.finished && m.row.phase.NoPhase? && m.row.liveness.NoLiveness?
    && m.row.percent == l.row.percent && m.row.version == l.row.version && Fixed(l.row, m.row)
  }

  /** How a run ends when its tool does: a cancel, a timeout and a shutdown outrank the exit, in that order; an error exit
      and a tool that did not say it succeeded are failures; only then is the tree verified.  After a discard the run
      lets go. */
  lemma ToolEndsAs(l: Live, exitOk: bool, successful: bool, shutdown: bool)
    requires l.at.AtLoop?
    ensures var m := JobStep(JobStep(l, ToolEnded(exitOk, successful), shutdown), BackupEngine.Settle, shutdown);
      if l.kill.ByCancel? then EndedAs(l, m, Cancelled, WasCancelled) && m.at.AtDiscard?
      else if l.kill.ByTimeout? then EndedAs(l, m, ConnectionLost, DeviceDisconnected) && m.at.AtDiscard?
      else if shutdown then EndedAs(l, m, ConnectionLost, Interrupted) && m.at.AtDiscard?
      else if !exitOk || !successful then EndedAs(l, m, Failed, BackupFailed) && m.at.AtDiscard?
      else m.at.AtVerify? && m.row == l.row.(state := Verifying, phase := PhaseVerifying)
    ensures JobStep(l, Discarded, shutdown) == l.(at := AtRelease)
  {
  }

  /** A tool that never started is asked the same question; a seed that failed is not. */
  lemma StartFailsAs(l: Live, shutdown: bool)
    ensures l.at.AtStart? ==>
      var m := JobStep(JobStep(l, ToolNotStarted, shutdown), BackupEngine.Settle, shutdown);
      && m.at.AtDiscard?
      && if l.kill.ByCancel? then EndedAs(l, m, Cancelled, WasCancelled)
         else if l.kill.ByTimeout? then EndedAs(l, m, ConnectionLost, DeviceDisconnected)
         else if shutdown then EndedAs(l, m, ConnectionLost, Interrupted)
         else EndedAs(l, m, Failed, BackupFailed)
    ensures l.at.AtGate? ==>
      var m := JobStep(JobStep(l, SeedFailed, shutdown), BackupEngine.Settle, shutdown);
      m.at.AtRelease? && EndedAs(l, m, Failed, BackupFailed)
    ensures l.at.AtPrepare? ==>
      var m := JobStep(l, PrepareFailed, shutdown); m.at.AtRelease? && EndedAs(l, m, Failed, BackupFailed)
  {
  }

  /** The ends before there is anything to discard, and those after verification. */
  lemma OtherEnds(l: Live, code: ErrorCode, shutdown: bool)
    ensures var m := JobStep(l, DeviceMissing, shutdown);
      && m.at.AtRelease?
      && if l.kill.ByCancel? then EndedAs(l, m, Cancelled, WasCancelled)
         else if shutdown then EndedAs(l, m, ConnectionLost, Interrupted)
         else EndedAs(l, m, Failed, DeviceNotVisible)
    ensures var m := JobStep(l, PreflightRefused(code), shutdown); m.at.AtRelease? && EndedAs(l, m, Failed, code)
    ensures var m := JobStep(l, Verified(false), shutdown); m.at.AtDiscard? && EndedAs(l, m, Failed, VerifyFailed)
  {
  }

  /** The way forward: where each step takes the run, and the state and phase it shows there. */
  lemma GoesForward(l: Live, shutdown: bool)
    ensures JobStep(l, BeginWait, shutdown) == l.(at := AtWaiting, row := l.row.(state := WaitingForDevice, phase := PhaseWaiting))
    ensures JobStep(l, DeviceSeen, shutdown) == l.(at := AtPreflight, row := l.row.(state := Preflight, phase := PhasePreflight))
    ensures JobStep(l, PreflightPassed, shutdown)
         == l.(at := AtPrepare, row := l.row.(state := Seeding, phase := PhaseSeeding, liveness := Active))
    ensures JobStep(l, Prepared(true), shutdown) == l.(at := AtStart(true))
    ensures JobStep(l, Prepared(false), shutdown)
         == l.(at := AtStart(false), row := l.row.(state := BackingUp, phase := PhaseStarting, liveness := Active))
    ensures l.at == AtStart(true) ==> JobStep(l, ToolStarted, shutdown) == l.(at := AtGate)
    ensures l.at == AtStart(false) ==> JobStep(l, ToolStarted, shutdown) == l.(at := AtLoop, sampling := true)
    ensures JobStep(l, GateOpened, shutdown)
         == l.(at := AtLoop, sampling := true, row := l.row.(state := BackingUp, phase := PhaseStarting, liveness := Active))
    ensures JobStep(l, HandedOver, shutdown) == l.(at := AtLoop, sampling := true)
    ensures JobStep(l, Verified(true), shutdown) == l.(at := AtCommit(false), row := l.row.(state := Committing, phase := PhaseCommitting))
  {
  }

  /** While the tool runs: which phase a line shows, that a figure moves the bar, that a tick says only how alive the tree
      is, and that a timeout is noted once and ends the sampler. */
  lemma WritersWrite(l: Live, passcode: bool, receiving: bool, done: Option<nat>, liveness: Liveness, shutdown: bool)
    ensures var m := JobStep(l, Line(passcode, receiving, done), shutdown);
      && m == l.(row := m.row) && m.row == l.row.(phase := m.row.phase, percent := m.row.percent)
      && (receiving ==> m.row.phase.PhaseReceiving?)
      && (passcode && !receiving ==> m.row.phase.PhaseWaitingForPasscode?)
      && (!passcode && !receiving ==> m.row.phase == l.row.phase)
      && m.row.percent == (if done.Some? then done else l.row.percent)
    ensures JobStep(l, Tick(liveness), shutdown) == l.(row := l.row.(liveness := liveness))
    ensures JobStep(l, SamplerQuit, shutdown) == l.(sampling := false)
    ensures var m := JobStep(l, TimeoutNoted, shutdown);
      m.row == l.row && m.at == l.at && !m.sampling && m.kill == if l.kill.NotKilled? then ByTimeout else l.kill
  {
  }

  // ---- the process and its versions ----

  /** The process was asked to stop at some point of the run, and no crash came after. */
  ghost predicate AskedToStop(events: seq<Event>) { exists i :: StandsAt(events, i) }

  /** Event `i` is a shutdown that no crash follows. */
  predicate StandsAt(events: seq<Event>, i: int) {
    0 <= i < |events| && events[i].Shutdown? && NoCrash(events[i + 1..])
  }

  predicate NoCrash(events: seq<Event>) { forall j | 0 <= j < |events| :: !events[j].Crash? }

  lemma StopNext(s: Sys, ev: Event)
    requires Enabled(s, ev)
    ensures Next(s, ev).shutdown == (ev.Shutdown? || (s.shutdown && !ev.Crash?))
  {
    hide Enabled, JobStep, Concrete, Aimed, NewRow, ReconcileRows;
  }

  lemma NoCrashFirst(ev: Event, more: seq<Event>)
    ensures NoCrash([ev] + more) <==> !ev.Crash? && NoCrash(more)
  {
    var all := [ev] + more;
    if NoCrash(all) {
      assert !all[0].Crash?;
      forall j | 0 <= j < |more| ensures !more[j].Crash? { assert !all[j + 1].Crash?; }
    }
  }

  lemma StopFirst(ev: Event, more: seq<Event>)
    ensures AskedToStop([ev] + more) <==> AskedToStop(more) || (ev.Shutdown? && NoCrash(more))
  {
    hide NoCrash;
    var all := [ev] + more;
    assert all[1..] == more;
    assert forall i | 0 <= i < |more| :: all[i + 1] == more[i] && all[i + 2..] == more[i + 1..];
    if i :| StandsAt(all, i) {
      assert i > 0 ==> StandsAt(more, i - 1);
    }
    if i :| StandsAt(more, i) {
      assert StandsAt(all, i + 1);
    }
    if ev.Shutdown? && NoCrash(more) {
      assert StandsAt(all, 0);
    }
  }

  /** Over any run, the jobs see the process stopping exactly when it was asked to since it last came up. */
  lemma {:induction false} StoppingExactly(s: Sys, events: seq<Event>)
    requires Runs(s, events)
    ensures After(s, events).shutdown <==> AskedToStop(events) || (s.shutdown && NoCrash(events))
    decreases |events|
  {
    hide Enabled, Next;
    if events != [] {
      StopNext(s, events[0]);
      assert events == [events[0]] + events[1..];
      NoCrashFirst(events[0], events[1..]);
      StopFirst(events[0], events[1..]);
      StoppingExactly(Next(s, events[0]), events[1..]);
    }
  }

  /** A crash takes the jobs, the devices in use and the bindings, and nothing of what is stored; the process serves again
      once it has reconciled. */
  lemma CrashLeavesTheStore(s: Sys, unsaved: set<JobId>)
    ensures var t := Next(s, Crash);
      && t.rows == s.rows && t.commits == s.commits && t.halfway == s.halfway && t.nextId == s.nextId
      && t.live == map[] && t.running == map[] && t.bound == map[] && !t.serving
    ensures Enabled(s, Reconcile(unsaved)) ==> Next(s, Reconcile(unsaved)).serving
  {
    hide ReconcileRows;
  }

  /** Versions are named in turn, and each by the one job it was committed for. */
  predicate VersionsApart(s: Sys) {
    && (forall i | i in s.commits :: s.commits[i] < s.nextVersion)
    && (forall i, j | i in s.commits && j in s.commits && s.commits[i] == s.commits[j] :: i == j)
  }

  lemma VersionsNext(s: Sys, ev: Event)
    requires Enabled(s, ev) && !ev.CommitLands? && !ev.RollForward?
    ensures Next(s, ev).commits == s.commits && Next(s, ev).nextVersion == s.nextVersion
  {
    hide JobStep, Concrete, Aimed, NewRow, ReconcileRows;
  }

  lemma VersionsStayApart(s: Sys, ev: Event)
    requires Good(s) && VersionsApart(s) && Enabled(s, ev)
    ensures VersionsApart(Next(s, ev))
  {
    hide SlicesOk, RetriesOk, RunningOk;
    match ev
    case CommitLands(id) =>
      assert Next(s, ev).commits == s.commits[id := s.nextVersion] && Next(s, ev).nextVersion == s.nextVersion + 1;
      hide Next;
    case RollForward(rolled, dropped) =>
      assert Next(s, ev).commits == s.commits + (map id | id in rolled :: s.nextVersion + id);
      assert Next(s, ev).nextVersion == s.nextVersion + s.nextId;
      hide Next;
      assert forall id | id in rolled :: id in s.rows && id < s.nextId;
    case _ => VersionsNext(s, ev); hide Next;
  }

  lemma {:induction false} VersionsStayApartOver(s: Sys, events: seq<Event>)
    requires Good(s) && VersionsApart(s) && Runs(s, events)
    ensures VersionsApart(After(s, events))
    decreases |events|
  {
    hide Good, VersionsApart, Enabled, Next;
    if events != [] {
      NextGood(s, events[0]);
      VersionsStayApart(s, events[0]);
      VersionsStayApartOver(Next(s, events[0]), events[1..]);
    }
  }

  /** After any run, crashes and roll-forwards included, no two jobs name the same version, stored or committed. */
  lemma RunsNeverShareAVersion(events: seq<Event>, i: JobId, j: JobId)
    requires Runs(FRESH, events) && i in After(FRESH, events).commits && j in After(FRESH, events).commits
    requires After(FRESH, events).commits[i] == After(FRESH, events).commits[j]
    ensures i == j
  {
    FreshGood();
    VersionsStayApartOver(FRESH, events);
    hide After, Runs;
  }

  // ---- a run that goes well ----

  /** Job `id` is at `l`, stored as it is, its device and its binding its own. */
  ghost predicate Holding(s: Sys, events: seq<Event>, id: JobId, l: Live) {
    && Runs(s, events)
    && (var t := After(s, events); LiveAt(t, id) && t.live[id] == l && !t.shutdown)
  }

  lemma JobGoesOn(s: Sys, events: seq<Event>, id: JobId, l: Live, e: JobEvent) returns (more: seq<Event>, m: Live)
    requires Holding(s, events, id, l) && Can(l, e)
    ensures Holding(s, more, id, m) && m == JobStep(l, e, false)
  {
    more, m := events + [Job(id, e, Writes(e))], JobStep(l, e, false);
    RunsOn(s, events, Job(id, e, Writes(e)));
    JobFrame(After(s, events), id, e, Writes(e));
    hide Runs, After, Can, Next, Enabled, JobStep;
  }

  lemma BeginsCommit(s: Sys, id: JobId)
    requires LiveAt(s, id) && s.live[id].at == AtCommit(false)
    ensures Enabled(s, CommitBegins(id))
    ensures var t := Next(s, CommitBegins(id)); LiveAt(t, id) && t.live[id] == s.live[id].(at := AtCommit(true))
  {
  }

  lemma LandsCommit(s: Sys, id: JobId)
    requires LiveAt(s, id) && s.live[id].at == AtCommit(true)
    ensures Enabled(s, CommitLands(id))
    ensures var t := Next(s, CommitLands(id));
      LiveAt(t, id) && id in t.commits && t.live[id] == s.live[id].(at := AtLanded(t.commits[id]))
  {
  }

  lemma FinishesRow(s: Sys, id: JobId)
    requires LiveAt(s, id) && s.live[id].at.AtLanded?
    ensures Enabled(s, Finish(id, true))
    ensures var t := Next(s, Finish(id, true));
      && LiveAt(t, id) && t.live[id].at.AtRelease? && t.live[id].row == t.rows[id] && t.commits == s.commits
      && t.rows[id] == SucceededRow(s.live[id].row, s.live[id].at.version)
  {
  }

  lemma Leaves(s: Sys, id: JobId)
    requires LiveAt(s, id) && s.live[id].at.AtRelease?
    ensures Enabled(s, Release(id))
    ensures var t := Next(s, Release(id));
      && LiveAt(t, id) && t.live[id].at.AtUnbind? && t.rows == s.rows && t.commits == s.commits
      && t.running == s.running - {s.live[id].row.udid}
  {
  }

  lemma LetsGo(s: Sys, id: JobId)
    requires LiveAt(s, id) && s.live[id].at.AtUnbind?
    ensures Enabled(s, Unbind(id))
    ensures var t := Next(s, Unbind(id));
      t.rows == s.rows && t.commits == s.commits && t.running == s.running && t.bound == s.bound - {id}
  {
  }

  lemma CommitsAndLeaves(s: Sys, events: seq<Event>, id: JobId, l: Live) returns (more: seq<Event>)
    requires Holding(s, events, id, l) && l.at == AtCommit(false)
    ensures Runs(s, more) && id in After(s, more).rows && id in After(s, more).commits
    ensures var t := After(s, more);
      && t.rows[id] == SucceededRow(l.row, t.commits[id]) && id !in t.bound && l.row.udid !in t.running
  {
    hide Runs, After, Next, Enabled;
    more := events;
    BeginsCommit(After(s, more), id);
    RunsOn(s, more, CommitBegins(id));
    more := more + [CommitBegins(id)];
    LandsCommit(After(s, more), id);
    RunsOn(s, more, CommitLands(id));
    more := more + [CommitLands(id)];
    FinishesRow(After(s, more), id);
    RunsOn(s, more, Finish(id, true));
    more := more + [Finish(id, true)];
    Leaves(After(s, more), id);
    RunsOn(s, more, Release(id));
    more := more + [Release(id)];
    LetsGo(After(s, more), id);
    RunsOn(s, more, Unbind(id));
    more := more + [Unbind(id)];
  }

  lemma WorksToCommit(s: Sys, id: JobId) returns (events: seq<Event>, l: Live)
    requires LiveAt(s, id) && s.live[id].at.AtLoop? && s.live[id].kill.NotKilled? && !s.shutdown
    ensures Holding(s, events, id, l) && l.at == AtCommit(false)
    ensures l.row.udid == s.live[id].row.udid && l.row.error == s.live[id].row.error
  {
    events, l := [], s.live[id];
    assert Holding(s, [], id, l);
    hide Holding;
    events, l := JobGoesOn(s, events, id, l, ToolEnded(true, true));
    events, l := JobGoesOn(s, events, id, l, BackupEngine.Settle);
    events, l := JobGoesOn(s, events, id, l, Verified(true));
  }

  /** A job still at work that nobody killed can succeed: its tool ends well and says so, the tree verifies and the commit
      lands.  Its row is then stored as succeeded with that version, its device is free and its binding gone. */
  lemma AGoodRunSucceeds(s: Sys, id: JobId) returns (events: seq<Event>)
    requires LiveAt(s, id) && s.live[id].at.AtLoop? && s.live[id].kill.NotKilled? && !s.shutdown
    ensures Runs(s, events) && id in After(s, events).rows && id in After(s, events).commits
    ensures var t := After(s, events);
      && t.rows[id].state.Succeeded? && t.rows[id].version == Some(t.commits[id]) && t.rows[id].percent == Some(100)
      && t.rows[id].error == s.live[id].row.error && id !in t.bound && s.live[id].row.udid !in t.running
  {
    hide Holding, Runs, After;
    var l: Live;
    events, l := WorksToCommit(s, id);
    events := CommitsAndLeaves(s, events, id, l);
  }
}
