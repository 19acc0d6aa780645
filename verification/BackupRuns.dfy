/** The safety claims of the backup engine, over every run: stored rows follow the state machine and never
    leave a terminal state, one job per device and every running job bound, success exactly when a version
    exists, and recovery from a crash at any step. */
module BackupRuns {
  import opened Wrappers
  import opened BackupEngine
  import opened BackupSafety
  import opened BackupTouch

  // ---- one step, seen from the store ----

  /** What one event may do to a stored row: follow the state machine, or be reconciled after a crash; a
      terminal row keeps everything but its liveness. */
  predicate RowStep(a: Row, b: Row, reconciled: bool) {
    && (Reaches(a.state, b.state) || (reconciled && !Terminal(a.state) && (b.state.Succeeded? || b.state.ConnectionLost?)))
    && Absorbed(a, b) && Fixed(a, b)
  }

  lemma WrittenRow(s: Sys, id: JobId, e: JobEvent, saved: bool)
    requires Good(s) && Enabled(s, Job(id, e, saved))
    ensures RowStep(s.rows[id], Next(s, Job(id, e, saved)).rows[id], false)
  {
    hide Good, JobStep, SliceOk, JobOk, LiveOk, Can;
    JobGood(s, id, e, false);
    var t := Next(s, Job(id, e, false));
    Held(t, id);
    WrittenWhenHeld(SliceOf(t, id));
  }

  lemma WrittenWhenHeld(v: Slice)
    requires v.live.Some? && JobOk(v)
    ensures RowStep(v.stored, v.live.value.row, false)
  {
  }

  lemma WrittenCommit(s: Sys, ev: Event)
    requires Good(s) && Enabled(s, ev) && (ev.CommitBegins? || ev.CommitLands? || ev.CommitFails? || ev.Finish?)
    ensures RowStep(s.rows[ev.id], Next(s, ev).rows[ev.id], false)
  {
    hide Good, SliceOk, JobOk, LiveOk;
    if ev.CommitFails? {
      CommitFailsGood(s, ev.id, false);
      Held(Next(s, CommitFails(ev.id, false)), ev.id);
      WrittenWhenHeld(SliceOf(Next(s, CommitFails(ev.id, false)), ev.id));
    } else if ev.Finish? {
      FinishGood(s, ev.id, false);
      Held(Next(s, Finish(ev.id, false)), ev.id);
      WrittenWhenHeld(SliceOf(Next(s, Finish(ev.id, false)), ev.id));
    }
  }

  lemma KeptRow(r: Row)
    ensures RowStep(r, r, false)
  {
  }

  lemma ReconciledStep(r: Row, version: Option<VersionId>)
    ensures RowStep(r, ReconciledRow(r, version), true)
  {
  }

  /** Under every event, from every good state, no stored row is lost and each follows the machine.
      `Absorbed` is the claim that a terminal state is never left. */
  lemma StoredRowsFollowTheMachine(s: Sys, ev: Event)
    requires Good(s) && Enabled(s, ev)
    ensures s.rows.Keys <= Next(s, ev).rows.Keys
    ensures forall id | id in s.rows :: RowStep(s.rows[id], Next(s, ev).rows[id], ev.Reconcile?)
  {
    hide Next, Enabled, JobStep, RowStep, Good, Can, Writes, AnswerTo, ReconciledRow;
    match ev {
      case Start(_, _, _, _, _, _) => StartFrame(s, ev); NewIdUnknown(s);
      case Job(i, e, saved) => JobFrame(s, i, e, saved); WrittenRow(s, i, e, saved);
      case CommitBegins(_) => CommitFrame(s, ev); WrittenCommit(s, ev);
      case CommitLands(_) => CommitFrame(s, ev); WrittenCommit(s, ev);
      case CommitFails(_, _) => CommitFrame(s, ev); WrittenCommit(s, ev);
      case Finish(_, _) => CommitFrame(s, ev); WrittenCommit(s, ev);
      case Cancel(i) => CancelFrame(s, i);
      case Release(_) => LeaveFrame(s, ev);
      case Unbind(_) => LeaveFrame(s, ev);
      case _ => ProcessFrame(s, ev);
    }
    forall id | id in s.rows ensures RowStep(s.rows[id], Next(s, ev).rows[id], ev.Reconcile?) {
      KeptRow(s.rows[id]);
      if ev.Reconcile? {
        ReconciledStep(s.rows[id], VersionForJob(s, id));
        StepWeakens(s.rows[id], s.rows[id]);
      }
    }
  }

  lemma StepWeakens(a: Row, b: Row)
    requires RowStep(a, b, false)
    ensures RowStep(a, b, true)
  {
  }

  /** Over any run, through crashes and reconciliations: once stored as ended, a job keeps its whole row, but
      for its liveness. */
  lemma {:induction false} EndedForGood(s: Sys, events: seq<Event>, id: JobId)
    requires Good(s) && Runs(s, events) && id in s.rows && Terminal(s.rows[id].state)
    ensures id in After(s, events).rows && Settle0(After(s, events).rows[id]) == Settle0(s.rows[id])
    decreases |events|
  {
    hide Good, Next, Enabled;
    if events != [] {
      StoredRowsFollowTheMachine(s, events[0]);
      assert RowStep(s.rows[id], Next(s, events[0]).rows[id], events[0].Reconcile?);
      assert Settle0(s.rows[id]).state == Settle0(Next(s, events[0]).rows[id]).state;
      NextGood(s, events[0]);
      EndedForGood(Next(s, events[0]), events[1..], id);
    }
  }

  // ---- when every transition is saved, one edge at a time ----

  /** Does this event move the job's state? */
  predicate Moves(l: Live, e: JobEvent, shutdown: bool) { JobStep(l, e, shutdown).row.state != l.row.state }

  /** The store has every live job's state. */
  predicate InStep(s: Sys) { forall id | id in s.live && id in s.rows :: s.rows[id].state == s.live[id].row.state }

  predicate SavesMoves(s: Sys, ev: Event) {
    match ev
    case Job(id, e, saved) => id in s.live && Moves(s.live[id], e, s.shutdown) ==> saved
    case CommitFails(_, saved) => saved
    case Finish(_, saved) => saved
    case _ => true
  }

  lemma JobMovesAlongEdge(s: Sys, id: JobId, e: JobEvent, saved: bool)
    requires Good(s) && Enabled(s, Job(id, e, saved))
    ensures var l := s.live[id];
      var m := JobStep(l, e, s.shutdown);
      m.row.state == l.row.state || Edge(l.row.state, m.row.state)
  {
    hide Good, SliceOk, JobOk;
    Held(s, id);
    JobStepOk(s.live[id], e, s.shutdown);
  }

  predicate EdgeOrSame(a: JobState, b: JobState) { a == b || Edge(a, b) }

  /** One job's new object and row, with the store in step before. */
  lemma PutInStep(s: Sys, id: JobId, l: Live, saved: bool, commit: Option<VersionId>, halfway: bool)
    requires InStep(s) && id in s.live && id in s.rows
    requires EdgeOrSame(s.live[id].row.state, l.row.state) && (l.row.state != s.live[id].row.state ==> saved)
    ensures InStep(PutCommit(s, id, l, saved, commit, halfway)) && InStep(Put(s, id, l, saved))
    ensures forall j | j in s.rows ::
      && EdgeOrSame(s.rows[j].state, PutCommit(s, id, l, saved, commit, halfway).rows[j].state)
      && EdgeOrSame(s.rows[j].state, Put(s, id, l, saved).rows[j].state)
  {
  }

  lemma JobInStep(s: Sys, id: JobId, e: JobEvent, saved: bool)
    requires Good(s) && InStep(s) && Enabled(s, Job(id, e, saved)) && SavesMoves(s, Job(id, e, saved))
    ensures var t := Next(s, Job(id, e, saved));
      InStep(t) && forall j | j in s.rows :: j in t.rows && EdgeOrSame(s.rows[j].state, t.rows[j].state)
  {
    hide Good, JobStep, Can;
    JobMovesAlongEdge(s, id, e, saved);
    PutInStep(if e == Verified(true) then s.(verified := s.verified + {id}) else s, id, JobStep(s.live[id], e, s.shutdown), saved, None, false);
  }

  lemma CommitInStep(s: Sys, ev: Event)
    requires Good(s) && InStep(s) && Enabled(s, ev) && SavesMoves(s, ev)
    requires ev.CommitBegins? || ev.CommitLands? || ev.CommitFails? || ev.Finish?
    ensures InStep(Next(s, ev))
    ensures forall j | j in s.rows :: j in Next(s, ev).rows && EdgeOrSame(s.rows[j].state, Next(s, ev).rows[j].state)
  {
    hide Good, Next, Enabled, StateAt;
    CommitFrame(s, ev);
    CommitMoves(s, ev);
    StoredEndIsAnEnd(s, ev.id);
    CommittingAt(s.live[ev.id]);
  }

  lemma CommitMoves(s: Sys, ev: Event)
    requires Enabled(s, ev) && (ev.CommitBegins? || ev.CommitLands? || ev.CommitFails? || ev.Finish?) && SavesMoves(s, ev)
    ensures var t := Next(s, ev);
      if ev.CommitBegins? || ev.CommitLands? then t.live[ev.id].row == s.live[ev.id].row && t.rows == s.rows
      else t.rows == s.rows[ev.id := t.live[ev.id].row] && (t.live[ev.id].row.state.Failed? || t.live[ev.id].row.state.Succeeded?)
  {
  }

  lemma StartInStep(s: Sys, ev: Event)
    requires InStep(s) && Enabled(s, ev) && ev.Start? && s.nextId !in s.rows
    ensures InStep(Next(s, ev)) && forall j | j in s.rows :: j in Next(s, ev).rows && Next(s, ev).rows[j] == s.rows[j]
  {
    hide Concrete, Aimed;
  }

  lemma OtherInStep(s: Sys, ev: Event)
    requires InStep(s) && Enabled(s, ev) && s.live.Keys <= s.rows.Keys
    requires ev.Cancel? || ev.Release? || ev.Unbind? || ev.Shutdown? || ev.Crash? || ev.RollForward?
    ensures InStep(Next(s, ev)) && Next(s, ev).rows == s.rows
  {
  }

  /** While the store keeps up with the transitions, each stored state changes by one edge at a time, and
      the store stays in step; throttled progress writes do not matter. */
  lemma SavedMovesAreEdges(s: Sys, ev: Event)
    requires Good(s) && InStep(s) && Enabled(s, ev) && SavesMoves(s, ev) && !ev.Reconcile?
    ensures InStep(Next(s, ev))
    ensures forall id | id in s.rows ::
      id in Next(s, ev).rows && EdgeOrSame(s.rows[id].state, Next(s, ev).rows[id].state)
  {
    hide JobStep, SlicesOk, RunningOk, RetriesOk, InStep, Next, LiveOk, SavesMoves, Enabled;
    match ev {
      case Job(id, e, saved) => JobInStep(s, id, e, saved);
      case CommitBegins(_) => CommitInStep(s, ev);
      case CommitLands(_) => CommitInStep(s, ev);
      case CommitFails(_, _) => CommitInStep(s, ev);
      case Finish(_, _) => CommitInStep(s, ev);
      case Start(_, _, _, _, _, _) => StartInStep(s, ev);
      case _ => OtherInStep(s, ev);
    }
  }

  lemma CommittingAt(l: Live)
    requires StateAt(l.at, l.row.state) && (l.at.AtCommit? || l.at.AtLanded?)
    ensures l.row.state.Committing?
  {
  }

  // ---- what a good state says ----

  /** At most one job of a device is still running, it is the one the device maps to, and it is bound to its
      own storage. */
  lemma SingleFlight(s: Sys, i: JobId, j: JobId)
    requires Good(s) && i in s.live && j in s.live && i in s.rows && j in s.rows
    requires Running(s.live[i].at) && Running(s.live[j].at) && s.live[i].row.udid == s.live[j].row.udid
    ensures i == j && i in s.bound && s.bound[i] == Binding(s.live[i].row.udid, s.live[i].row.storage)
  {
    hide Good, LiveOk, SliceOk;
    Held(s, i);
    Held(s, j);
  }

  /** A stored `succeeded` carries the version committed for that very job, whose tree was verified; a
      version never belongs to a job stored as failed, cancelled or lost; `cancelled` means somebody
      cancelled. */
  lemma StoredOutcomesAreTrue(s: Sys, id: JobId)
    requires Good(s) && id in s.rows
    ensures var r := s.rows[id];
      && (r.state.Succeeded? ==> id in s.commits && r.version == Some(s.commits[id]) && id in s.verified)
      && (Terminal(r.state) && id in s.commits ==> r.state.Succeeded?)
      && (id in s.commits ==> id in s.verified)
      && (r.state.Cancelled? ==> id in s.cancels)
      && PhaseHonest(r)
  {
    hide RunningOk, RetriesOk, SliceOk, PhaseHonest, Terminal;
    SliceIsTrue(SliceOf(s, id));
  }

  lemma SliceIsTrue(v: Slice)
    requires SliceOk(v)
    ensures var r := v.stored;
      && (r.state.Succeeded? ==> v.commit.Some? && r.version == v.commit && v.verified)
      && (Terminal(r.state) && v.commit.Some? ==> r.state.Succeeded?)
      && (v.commit.Some? ==> v.verified)
      && (r.state.Cancelled? ==> v.cancelled)
      && PhaseHonest(r)
  {
    if v.live.Some? && Terminal(v.stored.state) {
      assert Settle0(v.stored).state == Settle0(v.live.value.row).state;
    }
  }

  // ---- crash and recovery ----

  /** The process dies at any step of any job; storage finishes some half-done commits and drops the rest;
      startup reconciliation runs. */
  function Recover(s: Sys, rolled: set<JobId>): Sys
    requires rolled <= s.halfway
  {
    Next(Next(Next(s, Crash), RollForward(rolled, s.halfway - rolled)), Reconcile({}))
  }

  lemma OrphanReconciled(v: Slice)
    requires v.live.None? && OrphanOk(v)
    ensures var r := ReconciledRow(v.stored, v.commit);
      && Terminal(r.state) && (r.state.Succeeded? <==> v.commit.Some?) && (r.state.Succeeded? ==> r.version == v.commit)
      && (Terminal(v.stored.state) ==> r == v.stored)
      && ReconciledRow(r, v.commit) == r
  {
  }

  lemma RecoveredSlice(s: Sys, rolled: set<JobId>, id: JobId)
    requires Good(s) && rolled <= s.halfway && id in s.rows
    ensures var whole := Next(Next(s, Crash), RollForward(rolled, s.halfway - rolled));
      && whole.rows == s.rows && whole.live == map[] && OrphanOk(SliceOf(whole, id))
  {
    hide Good, SliceOk, OrphanOk;
    CrashGood(s);
    RollForwardGood(Next(s, Crash), rolled, s.halfway - rolled);
    GoodOrphan(Next(Next(s, Crash), RollForward(rolled, s.halfway - rolled)), id);
  }

  lemma GoodOrphan(s: Sys, id: JobId)
    requires Good(s) && id in s.rows && s.live == map[]
    ensures OrphanOk(SliceOf(s, id))
  {
    hide OrphanOk, JobOk, RetriesOk;
    assert SliceOk(SliceOf(s, id));
  }

  lemma RecoverParts(s: Sys, rolled: set<JobId>)
    requires rolled <= s.halfway
    ensures var t := Recover(s, rolled);
      t.rows.Keys == s.rows.Keys && t.commits.Keys == s.commits.Keys + rolled
  {
    hide ReconciledRow;
  }

  lemma RecoveredCodes(s: Sys, rolled: set<JobId>, id: JobId)
    requires rolled <= s.halfway && id in s.rows && !Terminal(s.rows[id].state)
    ensures var t := Recover(s, rolled);
      && id in t.rows
      && if VersionForJob(t, id).Some? then t.rows[id].percent == Some(100) && t.rows[id].error.None?
         else t.rows[id].state.ConnectionLost? && t.rows[id].error == Some(Interrupted)
  {
    var whole := Next(Next(s, Crash), RollForward(rolled, s.halfway - rolled));
    assert Recover(s, rolled).rows[id] == ReconciledRow(s.rows[id], VersionForJob(whole, id));
  }

  lemma RecoveredRow(s: Sys, rolled: set<JobId>, id: JobId)
    requires Good(s) && rolled <= s.halfway && id in s.rows
    ensures var t := Recover(s, rolled);
      && id in t.rows && Terminal(t.rows[id].state)
      && (t.rows[id].state.Succeeded? <==> VersionForJob(t, id).Some?)
      && (t.rows[id].state.Succeeded? ==> t.rows[id].version == VersionForJob(t, id))
      && (Terminal(s.rows[id].state) ==> t.rows[id] == s.rows[id])
      && ReconciledRow(t.rows[id], VersionForJob(t, id)) == t.rows[id]
  {
    hide Good, ReconciledRow, OrphanOk, Terminal;
    var whole := Next(Next(s, Crash), RollForward(rolled, s.halfway - rolled));
    RecoveredSlice(s, rolled, id);
    OrphanReconciled(SliceOf(whole, id));
    assert Recover(s, rolled).rows[id] == ReconciledRow(s.rows[id], VersionForJob(whole, id));
  }

  /** After recovery no job is left non-terminal, a job succeeded exactly when a version carries its id, and
      its row names that version; jobs that had ended stay as they were; and reconciling again changes
      nothing. */
  lemma RecoveryIsComplete(s: Sys, rolled: set<JobId>)
    requires Good(s) && rolled <= s.halfway
    ensures var t := Recover(s, rolled);
      && t.rows.Keys == s.rows.Keys && t.commits.Keys == s.commits.Keys + rolled
      && (forall id | id in t.rows ::
            && Terminal(t.rows[id].state)
            && (t.rows[id].state.Succeeded? <==> id in t.commits)
            && (t.rows[id].state.Succeeded? ==> t.rows[id].version == Some(t.commits[id]))
            && (Terminal(s.rows[id].state) ==> t.rows[id] == s.rows[id]))
      && ReconcileRows(t, {}) == t.rows
  {
    hide Good, ReconciledRow, Terminal, Next, Enabled, Recover;
    RecoverParts(s, rolled);
    var t := Recover(s, rolled);
    forall id | id in s.rows
      ensures Terminal(t.rows[id].state) && (t.rows[id].state.Succeeded? <==> id in t.commits)
      ensures t.rows[id].state.Succeeded? ==> t.rows[id].version == Some(t.commits[id])
      ensures Terminal(s.rows[id].state) ==> t.rows[id] == s.rows[id]
      ensures ReconciledRow(t.rows[id], VersionForJob(t, id)) == t.rows[id]
    {
      RecoveredRow(s, rolled, id);
    }
    assert ReconcileRows(t, {}) == t.rows;
  }

  // ---- starting and retrying ----

  /** A retry that names no storage goes where the retried job went, or is refused; never anywhere else. */
  lemma RetryAimsWhereItAimed(s: Sys, udid: Udid, prev: JobId, storages: Storages, bindOk: bool, insertOk: bool)
    requires prev in s.rows
    ensures var (t, answer) := StartBackup(s, udid, None, Some(prev), storages, bindOk, insertOk);
      && (answer.Accepted? ==> t.rows[answer.id].storage == s.rows[prev].storage)
      && (s.rows[prev].storage !in storages.reachable ==> answer == Refused)
  {
  }

  /** The jobs of a retry chain, latest first. */
  function Chain(rows: map<JobId, Row>, id: JobId): seq<JobId>
    requires RetriesOk(rows) && id in rows
    decreases id
  {
    assert RetryOk(rows, id);
    if rows[id].retryOf.None? then [id] else [id] + Chain(rows, rows[id].retryOf.value)
  }

  /** Along any chain of retries the intent is the id of the first job, which retried nothing, and the
      attempt counts the jobs of the chain. */
  lemma {:induction false} ChainsAreCounted(rows: map<JobId, Row>, id: JobId)
    requires RetriesOk(rows) && id in rows
    ensures var c := Chain(rows, id);
      && rows[id].attempt == |c|
      && rows[id].intent == c[|c| - 1]
      && c[|c| - 1] in rows && rows[c[|c| - 1]].retryOf.None?
    decreases id
  {
    assert RetryOk(rows, id);
    if rows[id].retryOf.Some? {
      ChainsAreCounted(rows, rows[id].retryOf.value);
    }
  }

  // ---- kills ----

  /** Before what the tool did has been judged. */
  predicate Unjudged(at: At) { Early(at) || at.AtLoop? }

  /** A job that was cancelled in time, or has ended and not in success. */
  predicate Doomed(l: Live) {
    && l.kill.ByCancel?
    && (Unjudged(l.at) || (l.at.AtSettle? && !l.at.outcome.ProcOk?)
        || (Terminal(l.row.state) && (l.at.AtDiscard? || l.at.AtRelease? || l.at.AtUnbind? || l.at.AtEnd?)))
    && !l.row.state.Succeeded?
  }

  lemma DoomedStep(l: Live, e: JobEvent, shutdown: bool)
    requires Doomed(l) && Can(l, e)
    ensures Doomed(JobStep(l, e, shutdown))
  {
  }

  /** No version of this job, no success stored, none to come. */
  predicate NeverSucceeds(s: Sys, id: JobId) {
    && (id in s.live ==> Doomed(s.live[id]))
    && id in s.rows && !s.rows[id].state.Succeeded?
    && id !in s.commits && id !in s.halfway
  }

  lemma ReconciledUncommitted(r: Row)
    requires !r.state.Succeeded?
    ensures !ReconciledRow(r, None).state.Succeeded?
  {
  }

  lemma NeverSucceedsNext(s: Sys, ev: Event, id: JobId)
    requires Good(s) && Enabled(s, ev) && NeverSucceeds(s, id)
    ensures NeverSucceeds(Next(s, ev), id)
  {
    hide Next, Enabled, JobStep, Good, Can, Writes, AnswerTo, ReconciledRow, Terminal;
    match ev {
      case Start(_, _, _, _, _, _) => StartFrame(s, ev); NewIdUnknown(s);
      case Job(i, e, saved) =>
        JobFrame(s, i, e, saved);
        if i == id {
          DoomedStep(s.live[id], e, s.shutdown);
        }
      case Cancel(i) => CancelFrame(s, i);
      case Release(_) => LeaveFrame(s, ev);
      case Unbind(_) => LeaveFrame(s, ev);
      case Shutdown => ProcessFrame(s, ev);
      case Crash => ProcessFrame(s, ev);
      case RollForward(_, _) => ProcessFrame(s, ev);
      case Reconcile(_) => ProcessFrame(s, ev); ReconciledUncommitted(s.rows[id]);
      case _ => CommitFrame(s, ev);
    }
  }

  lemma {:induction false} NeverSucceedsAfter(s: Sys, events: seq<Event>, id: JobId)
    requires Good(s) && Runs(s, events) && NeverSucceeds(s, id)
    ensures NeverSucceeds(After(s, events), id)
    decreases |events|
  {
    hide Good, NeverSucceeds, Enabled, Next;
    if events != [] {
      NeverSucceedsNext(s, events[0], id);
      NextGood(s, events[0]);
      NeverSucceedsAfter(Next(s, events[0]), events[1..], id);
    }
  }

  lemma UnjudgedUncommitted(s: Sys, id: JobId)
    requires Good(s) && LiveAt(s, id) && Unjudged(s.live[id].at) && s.live[id].kill.ByCancel?
    ensures NeverSucceeds(s, id)
  {
    hide RetriesOk, RunningOk, Bounded;
    assert SliceOk(SliceOf(s, id));
    assert Absorbed(s.rows[id], s.live[id].row);
    assert Settle0(s.rows[id]).state == s.rows[id].state;
  }

  /** A job is sent to verification exactly when nothing killed it, the tool exited well and said so. */
  lemma VerifiedOnlyWhenWell(l: Live, exitOk: bool, successful: bool, shutdown: bool)
    requires l.at.AtLoop?
    ensures JobStep(JobStep(l, ToolEnded(exitOk, successful), shutdown), BackupEngine.Settle, shutdown).at.AtVerify?
       <==> l.kill.NotKilled? && !shutdown && exitOk && successful
  {
  }

  // ---- the writer this one replaced ----

  /** The writer this engine replaced: copy the row under the lock, release it, write the copy later.  A
      tick's copy, taken while the tool ran and written after the job ended, undoes the terminal row. */
  lemma SnapshotThenUnlockUndoesTheEnd(l: Live)
    requires LiveOk(l) && l.at.AtLoop? && l.sampling && l.kill.NotKilled?
    ensures var copy := JobStep(l, Tick(Active), false).row;
      var ended := JobStep(JobStep(l, ToolEnded(false, false), false), BackupEngine.Settle, false).row;
      Terminal(ended.state) && !Terminal(copy.state) && !RowStep(ended, copy, true)
  {
  }

  // ---- the same, over every run from an empty store ----

  lemma Reached(events: seq<Event>)
    requires Runs(FRESH, events)
    ensures Good(After(FRESH, events))
  {
    FreshGood();
    ReachableGood(FRESH, events);
  }

  /** The edges lead from `a` to `b`, in any number of steps. */
  ghost predicate Leads(a: JobState, b: JobState) { exists p :: Path(p) && p[0] == a && p[|p| - 1] == b }

  /** From an empty store, after any run, whatever comes next: no stored row is lost; each moves along edges of
      the machine, or is settled by reconciliation; one stored as ended keeps everything but its liveness. */
  lemma RunsFollowTheMachine(events: seq<Event>, ev: Event, id: JobId)
    requires Runs(FRESH, events) && Enabled(After(FRESH, events), ev) && id in After(FRESH, events).rows
    ensures var s := After(FRESH, events);
      id in Next(s, ev).rows &&
      var a, b := s.rows[id], Next(s, ev).rows[id];
      && Fixed(a, b) && (Terminal(a.state) ==> Settle0(a) == Settle0(b))
      && (Leads(a.state, b.state)
          || (ev.Reconcile? && !Terminal(a.state) && (b.state.Succeeded? || b.state.ConnectionLost?)))
  {
    Reached(events);
    hide Good, After, Runs, Next, Enabled, Reaches, Terminal, Settle0, Fixed;
    var s := After(FRESH, events);
    StoredRowsFollowTheMachine(s, ev);
    assert RowStep(s.rows[id], Next(s, ev).rows[id], ev.Reconcile?);
    ReachesExactly(s.rows[id].state, Next(s, ev).rows[id].state);
  }

  /** Two jobs of one device never run at once; the one that runs is bound to its own storage. */
  lemma RunsAreSingleFlight(events: seq<Event>, i: JobId, j: JobId)
    requires Runs(FRESH, events)
    requires i in After(FRESH, events).live && j in After(FRESH, events).live
    requires var s := After(FRESH, events);
      Running(s.live[i].at) && Running(s.live[j].at) && s.live[i].row.udid == s.live[j].row.udid
    ensures var s := After(FRESH, events);
      i == j && i in s.bound && s.bound[i] == Binding(s.live[i].row.udid, s.live[i].row.storage)
  {
    Reached(events);
    hide After, Runs, SliceOk, RetryOk, RunningOk;
    SingleFlight(After(FRESH, events), i, j);
  }

  lemma RunsStoreTrueOutcomes(events: seq<Event>, id: JobId)
    requires Runs(FRESH, events) && id in After(FRESH, events).rows
    ensures var s := After(FRESH, events);
      var r := s.rows[id];
      && (r.state.Succeeded? ==> id in s.commits && r.version == Some(s.commits[id]) && id in s.verified)
      && (Terminal(r.state) && id in s.commits ==> r.state.Succeeded?)
      && (id in s.commits ==> id in s.verified)
      && (r.state.Cancelled? ==> id in s.cancels)
      && (Terminal(r.state) ==> r.finished && r.phase == if r.state.Succeeded? then PhaseDone else NoPhase)
  {
    Reached(events);
    hide After, Runs, Good;
    StoredOutcomesAreTrue(After(FRESH, events), id);
  }

  /** Killed after any run, at any step of any job, storage finishing any of the half-done commits. */
  lemma RunsRecover(events: seq<Event>, rolled: set<JobId>)
    requires Runs(FRESH, events) && rolled <= After(FRESH, events).halfway
    ensures var s := After(FRESH, events);
      var t := Recover(s, rolled);
      && t.rows.Keys == s.rows.Keys && t.commits.Keys == s.commits.Keys + rolled
      && (forall id | id in t.rows ::
            && Terminal(t.rows[id].state)
            && (t.rows[id].state.Succeeded? <==> id in t.commits)
            && (t.rows[id].state.Succeeded? ==> t.rows[id].version == Some(t.commits[id]))
            && (Terminal(s.rows[id].state) ==> t.rows[id] == s.rows[id])
            && (!Terminal(s.rows[id].state) ==>
                  if id in t.commits then t.rows[id].percent == Some(100) && t.rows[id].error.None?
                  else t.rows[id].state.ConnectionLost? && t.rows[id].error == Some(Interrupted)))
      && ReconcileRows(t, {}) == t.rows
  {
    Reached(events);
    hide After, Runs, Good, Recover, Terminal, ReconcileRows;
    var s := After(FRESH, events);
    RecoveryIsComplete(s, rolled);
    forall id | id in s.rows && !Terminal(s.rows[id].state)
      ensures var r := Recover(s, rolled).rows[id];
        if VersionForJob(Recover(s, rolled), id).Some? then r.percent == Some(100) && r.error.None?
        else r.state.ConnectionLost? && r.error == Some(Interrupted)
    {
      RecoveredCodes(s, rolled, id);
    }
  }

  /** A run whose every change of state the store took. */
  predicate SavingRun(s: Sys, events: seq<Event>)
    decreases |events|
  {
    events == [] || (Enabled(s, events[0]) && SavesMoves(s, events[0]) && SavingRun(Next(s, events[0]), events[1..]))
  }

  lemma ReconcileInStep(s: Sys, ev: Event)
    requires Good(s) && Enabled(s, ev) && ev.Reconcile?
    ensures InStep(Next(s, ev))
  {
    hide ReconcileRows, SliceOk, RetryOk, RunningOk;
    ProcessFrame(s, ev);
  }

  lemma {:induction false} SavingRunsStayInStep(s: Sys, events: seq<Event>)
    requires Good(s) && InStep(s) && SavingRun(s, events)
    ensures Runs(s, events) && Good(After(s, events)) && InStep(After(s, events))
    decreases |events|
  {
    hide Good, InStep, Enabled, Next, SavesMoves;
    if events != [] {
      if events[0].Reconcile? {
        ReconcileInStep(s, events[0]);
      } else {
        SavedMovesAreEdges(s, events[0]);
      }
      NextGood(s, events[0]);
      SavingRunsStayInStep(Next(s, events[0]), events[1..]);
    }
  }

  /** On a run whose changes of state were all saved, whatever progress writes were skipped: the store knows each
      live job's state, and the next change, unless it is reconciliation, moves a stored state by one edge. */
  lemma SavingRunsMoveByEdges(events: seq<Event>, ev: Event)
    requires SavingRun(FRESH, events)
    ensures Runs(FRESH, events) && InStep(After(FRESH, events))
    ensures var s := After(FRESH, events);
      Enabled(s, ev) && SavesMoves(s, ev) && !ev.Reconcile? ==>
        forall id | id in s.rows :: id in Next(s, ev).rows && EdgeOrSame(s.rows[id].state, Next(s, ev).rows[id].state)
  {
    FreshGood();
    SavingRunsStayInStep(FRESH, events);
    hide After, Runs, Good, InStep, Next, Enabled, SavesMoves, SavingRun;
    var s := After(FRESH, events);
    if Enabled(s, ev) && SavesMoves(s, ev) && !ev.Reconcile? {
      SavedMovesAreEdges(s, ev);
    }
  }

  /** After any run, along any chain of retries. */
  lemma RunsCountTheirChains(events: seq<Event>, id: JobId)
    requires Runs(FRESH, events) && id in After(FRESH, events).rows
    ensures var rows := After(FRESH, events).rows;
      RetriesOk(rows) &&
      var c := Chain(rows, id);
      && rows[id].attempt == |c| && rows[id].intent == c[|c| - 1]
      && c[|c| - 1] in rows && rows[c[|c| - 1]].retryOf.None?
  {
    Reached(events);
    hide After, Runs;
    ChainsAreCounted(After(FRESH, events).rows, id);
  }

  /** A job whose cancel was noted before the outcome of its tool was judged never succeeds: whatever comes after,
      the tool's own success, a crash and a reconciliation included, no version carries its id. */
  lemma CancelledInTimeNeverSucceeds(events: seq<Event>, more: seq<Event>, id: JobId)
    requires Runs(FRESH, events) && LiveAt(After(FRESH, events), id)
    requires Unjudged(After(FRESH, events).live[id].at) && After(FRESH, events).live[id].kill.ByCancel?
    requires Runs(After(FRESH, events), more)
    ensures var s := After(After(FRESH, events), more);
      id in s.rows && !s.rows[id].state.Succeeded? && id !in s.commits
  {
    Reached(events);
    hide Good, Runs, After;
    UnjudgedUncommitted(After(FRESH, events), id);
    NeverSucceedsAfter(After(FRESH, events), more, id);
  }
}
