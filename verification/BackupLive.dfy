/** The engine's own fields, updated in place under its locks: starting, the row writers, the steps of the run
    goroutine, letting a job go, and startup reconciliation.  Each method takes the events the transition system
    describes. */
module BackupLive {
  import opened Wrappers
  import opened BackupEngine
  import opened BackupSafety

  // ---- events, as updates of the maps ----

  lemma JobUpdate(s: Sys, id: JobId, e: JobEvent, saved: bool)
    requires Enabled(s, Job(id, e, saved)) && e != Verified(true)
    ensures LiveAt(s, id) && Can(s.live[id], e)
    ensures var m := JobStep(s.live[id], e, s.shutdown);
      Next(s, Job(id, e, saved)) == s.(live := s.live[id := m], rows := if saved then s.rows[id := m.row] else s.rows)
  {
    hide JobStep, Can, Writes;
  }

  lemma VerifiedUpdate(s: Sys, id: JobId, saved: bool)
    requires Enabled(s, Job(id, Verified(true), saved))
    ensures LiveAt(s, id)
    ensures var m := s.live[id].(row := Moved(s.live[id].row, Committing, PhaseCommitting), at := AtCommit(false));
      Next(s, Job(id, Verified(true), saved))
        == s.(live := s.live[id := m], rows := (if saved then s.rows[id := m.row] else s.rows), verified := s.verified + {id})
  {
  }

  lemma SettleUpdate(s: Sys, id: JobId, e: JobEvent, outcome: Outcome, saved: bool)
    requires Enabled(s, Job(id, e, false)) && e != Verified(true)
    requires JobStep(s.live[id], e, s.shutdown) == s.live[id].(at := AtSettle(outcome))
    ensures var ended, m := Next(s, Job(id, e, false)), Settled(s.live[id].(at := AtSettle(outcome)), outcome);
      && Enabled(ended, Job(id, Settle, saved))
      && Next(ended, Job(id, Settle, saved)) == s.(live := s.live[id := m], rows := if saved then s.rows[id := m.row] else s.rows)
  {
    JobUpdate(s, id, e, false);
    var ended := Next(s, Job(id, e, false));
    assert Enabled(ended, Job(id, Settle, saved));
    JobUpdate(ended, id, Settle, saved);
    hide Next, Enabled, Settled;
  }

  lemma CommitFailsUpdate(s: Sys, id: JobId, saved: bool)
    requires Enabled(s, CommitFails(id, saved))
    ensures LiveAt(s, id)
    ensures var m := s.live[id].(row := Terminated(s.live[id].row, Failed, CommitFailed), at := AtRelease);
      Next(s, CommitFails(id, saved))
        == s.(live := s.live[id := m], rows := (if saved then s.rows[id := m.row] else s.rows), halfway := s.halfway - {id})
  {
    hide Terminated;
  }

  lemma CommitLandsUpdate(s: Sys, id: JobId)
    requires Enabled(s, CommitLands(id))
    ensures LiveAt(s, id)
    ensures var m := s.live[id].(at := AtLanded(s.nextVersion));
      Next(s, CommitLands(id)) == s.(live := s.live[id := m], halfway := s.halfway - {id},
        commits := s.commits[id := s.nextVersion], nextVersion := s.nextVersion + 1)
  {
  }

  lemma FinishUpdate(s: Sys, id: JobId, saved: bool)
    requires Enabled(s, CommitLands(id))
    ensures LiveAt(s, id)
    ensures var landed := Next(s, CommitLands(id));
      var m := s.live[id].(row := SucceededRow(s.live[id].row, s.nextVersion), at := AtRelease);
      && Enabled(landed, Finish(id, saved))
      && Next(landed, Finish(id, saved))
         == s.(live := s.live[id := m], rows := (if saved then s.rows[id := m.row] else s.rows), halfway := s.halfway - {id},
               commits := s.commits[id := s.nextVersion], nextVersion := s.nextVersion + 1)
  {
    hide SucceededRow;
    CommitLandsUpdate(s, id);
    var landed := Next(s, CommitLands(id));
    var m := s.live[id].(row := SucceededRow(s.live[id].row, s.nextVersion), at := AtRelease);
    assert landed.live[id := m] == s.live[id := m];
  }

  class Engine {
    var rows: map<JobId, Row>
    var live: map<JobId, Live>
    var running: map<Udid, JobId>
    var bound: map<JobId, Binding>
    var lastEmit: map<JobId, int>
    var nextId: JobId
    var stopping: bool
    ghost var rest: Sys

    /** The whole state; storage and history are `rest`'s. */
    ghost function Now(): Sys
      reads this
    {
      rest.(rows := rows, live := live, running := running, bound := bound, nextId := nextId, shutdown := stopping)
    }

    constructor (store: map<JobId, Row>, next: JobId, outside: Sys)
      ensures rows == store && live == map[] && running == map[] && bound == map[] && lastEmit == map[] && nextId == next && !stopping
      ensures rest == outside
    {
      rows, live, running, bound, lastEmit, nextId, stopping := store, map[], map[], map[], map[], next, false;
      rest := outside;
    }

    method Start(udid: Udid, wanted: Option<StorageId>, retryOf: Option<JobId>, storages: Storages, bindOk: bool, insertOk: bool)
      returns (answer: Answer)
      modifies this`rows, this`live, this`running, this`bound, this`nextId
      ensures (Now(), answer) == StartBackup(old(Now()), udid, wanted, retryOf, storages, bindOk, insertOk)
    {
      var aim := wanted;
      if aim.None? && retryOf.Some? && retryOf.value in rows {
        aim := Some(rows[retryOf.value].storage);
      }
      var storage := Concrete(aim, storages);
      if storage.None? {
        return Refused;
      }
      if udid in running {
        var busy := running[udid];
        if busy in live && Terminal(live[busy].row.state) {
          return StillFinishing;
        }
        return Busy;
      }
      var id := nextId;
      nextId := nextId + 1;
      var intent, attempt := id, 1;
      if retryOf.Some? {
        if retryOf.value !in rows {
          return UnknownRetry;
        }
        intent, attempt := rows[retryOf.value].intent, rows[retryOf.value].attempt + 1;
      }
      var row := Row(udid, storage.value, retryOf, intent, attempt, Queued, PhaseQueued, Active, None, false, None, None);
      if !bindOk {
        return BindFailed;
      }
      bound := bound[id := Binding(udid, storage.value)];
      if !insertOk {
        return StoreError;
      }
      rows := rows[id := row];
      live := live[id := Live(row, AtBegin, NotKilled, false)];
      running := running[udid := id];
      return Accepted(id);
    }

    /** Mutate, persist, under the job's lock: the order of the writes is the order of the mutations. */
    method Transition(id: JobId, mutate: Row -> Row, storeOk: bool)
      requires id in live
      modifies this`rows, this`live
      ensures Now() == Put(old(Now()), id, old(live)[id].(row := mutate(old(live)[id].row)), storeOk)
    {
      var row := mutate(live[id].row);
      live := live[id := live[id].(row := row)];
      if storeOk {
        rows := rows[id := row];
      }
    }

    /** Mutate always; persist no more often than the throttle allows. */
    method Progress(id: JobId, mutate: Row -> Row, now: int, throttle: int, storeOk: bool) returns (saved: bool)
      requires id in live
      modifies this`rows, this`live, this`lastEmit
      ensures Now() == Put(old(Now()), id, old(live)[id].(row := mutate(old(live)[id].row)), saved)
      ensures var due := id !in old(lastEmit) || now - old(lastEmit)[id] >= throttle;
        && saved == (due && storeOk)
        && lastEmit == if due then old(lastEmit)[id := now] else old(lastEmit)
    {
      var row := mutate(live[id].row);
      live := live[id := live[id].(row := row)];
      if id in lastEmit && now - lastEmit[id] < throttle {
        return false;
      }
      lastEmit := lastEmit[id := now];
      if storeOk {
        rows := rows[id := row];
      }
      return storeOk;
    }

    /** An ended row has no phase and no liveness, carries the code, and keeps how far it got. */
    method Terminate(id: JobId, s: JobState, code: ErrorCode, storeOk: bool)
      requires id in live
      modifies this`rows, this`live
      ensures live.Keys == old(live).Keys && forall j | j in live && j != id :: live[j] == old(live)[j]
      ensures live[id].at == old(live)[id].at && live[id].kill == old(live)[id].kill && live[id].sampling == old(live)[id].sampling
      ensures var was, r := old(live)[id].row, live[id].row;
        && Fixed(was, r) && r.percent == was.percent && r.version == was.version
        && r.state == s && r.finished && r.error == Some(code) && r.phase.NoPhase? && r.liveness.NoLiveness?
      ensures rows == if storeOk then old(rows)[id := live[id].row] else old(rows)
    {
      Transition(id, (r: Row) => r.(state := s, finished := true, error := Some(code), phase := NoPhase, liveness := NoLiveness), storeOk);
    }

    method Succeed(id: JobId, version: VersionId, storeOk: bool)
      requires id in live
      modifies this`rows, this`live
      ensures live.Keys == old(live).Keys && forall j | j in live && j != id :: live[j] == old(live)[j]
      ensures live[id].at == old(live)[id].at && live[id].kill == old(live)[id].kill && live[id].sampling == old(live)[id].sampling
      ensures var was, r := old(live)[id].row, live[id].row;
        && Fixed(was, r) && r.error == was.error && r.version == Some(version)
        && r.state.Succeeded? && r.finished && r.percent == Some(100) && r.phase.PhaseDone? && r.liveness.NoLiveness?
      ensures rows == if storeOk then old(rows)[id := live[id].row] else old(rows)
    {
      Transition(id, (r: Row) => r.(state := Succeeded, phase := PhaseDone, percent := Some(100), liveness := NoLiveness,
                             finished := true, version := Some(version)), storeOk);
    }

    /** Marks the job; the run goroutine ends it.  A kill already noted stands. */
    method Cancel(id: JobId) returns (found: bool)
      modifies this`live, this`rest
      ensures (Now(), found) == CancelJob(old(Now()), id)
    {
      if id !in live || id !in running.Values {
        return false;
      }
      if live[id].kill.NotKilled? {
        live := live[id := live[id].(kill := ByCancel)];
      }
      assert live == old(live)[id := live[id]];
      rest := rest.(cancels := rest.cancels + {id});
      return true;
    }

    // ---- the run goroutine ----

    method GoTo(id: JobId, at: At)
      requires id in live
      modifies this`live
      ensures live == old(live)[id := old(live)[id].(at := at)]
    {
      live := live[id := live[id].(at := at)];
    }

    /** Terminate, and go on to `at`. */
    method EndAt(id: JobId, s: JobState, code: ErrorCode, at: At, storeOk: bool)
      requires id in live
      modifies this`rows, this`live
      ensures var m := old(live)[id].(row := Terminated(old(live)[id].row, s, code), at := at);
        live == old(live)[id := m] && rows == if storeOk then old(rows)[id := m.row] else old(rows)
    {
      Terminate(id, s, code, storeOk);
      assert live[id].row == Terminated(old(live)[id].row, s, code);
      GoTo(id, at);
    }

    method BeginWaiting(id: JobId, storeOk: bool)
      requires Enabled(Now(), Job(id, BeginWait, storeOk))
      modifies this`rows, this`live
      ensures Now() == Next(old(Now()), Job(id, BeginWait, storeOk))
    {
      hide Next, Enabled;
      JobUpdate(Now(), id, BeginWait, storeOk);
      Transition(id, (r: Row) => r.(state := WaitingForDevice, phase := PhaseWaiting), storeOk);
      GoTo(id, AtWaiting);
    }

    method SeeDevice(id: JobId, storeOk: bool)
      requires Enabled(Now(), Job(id, DeviceSeen, storeOk))
      modifies this`rows, this`live
      ensures Now() == Next(old(Now()), Job(id, DeviceSeen, storeOk))
    {
      hide Next, Enabled, Can;
      JobUpdate(Now(), id, DeviceSeen, storeOk);
      Transition(id, (r: Row) => r.(state := Preflight, phase := PhasePreflight), storeOk);
      GoTo(id, AtPreflight);
    }

    /** The wait ended without the device: somebody cancelled, the process is stopping, or time ran out. */
    method GiveUpWaiting(id: JobId, storeOk: bool)
      requires Enabled(Now(), Job(id, DeviceMissing, storeOk))
      modifies this`rows, this`live
      ensures Now() == Next(old(Now()), Job(id, DeviceMissing, storeOk))
    {
      hide Next, Enabled, Can;
      JobUpdate(Now(), id, DeviceMissing, storeOk);
      if live[id].kill.ByCancel? {
        EndAt(id, Cancelled, WasCancelled, AtRelease, storeOk);
      } else if stopping {
        EndAt(id, ConnectionLost, Interrupted, AtRelease, storeOk);
      } else {
        EndAt(id, Failed, DeviceNotVisible, AtRelease, storeOk);
      }
    }

    method RefusePreflight(id: JobId, code: ErrorCode, storeOk: bool)
      requires Enabled(Now(), Job(id, PreflightRefused(code), storeOk))
      modifies this`rows, this`live
      ensures Now() == Next(old(Now()), Job(id, PreflightRefused(code), storeOk))
    {
      hide Next, Enabled, Can;
      JobUpdate(Now(), id, PreflightRefused(code), storeOk);
      EndAt(id, Failed, code, AtRelease, storeOk);
    }

    method PassPreflight(id: JobId, storeOk: bool)
      requires Enabled(Now(), Job(id, PreflightPassed, storeOk))
      modifies this`rows, this`live
      ensures Now() == Next(old(Now()), Job(id, PreflightPassed, storeOk))
    {
      hide Next, Enabled, Can;
      JobUpdate(Now(), id, PreflightPassed, storeOk);
      Transition(id, (r: Row) => r.(state := Seeding, phase := PhaseSeeding, liveness := Active), storeOk);
      GoTo(id, AtPrepare);
    }

    /** Was this job killed?  Asked in this order on both sides of the tool's start. */
    method Killed(id: JobId) returns (outcome: Option<Outcome>)
      requires id in live
      ensures outcome == KillOutcome(live[id].kill, stopping)
    {
      if live[id].kill.ByCancel? {
        return Some(WasKilled);
      }
      if live[id].kill.ByTimeout? {
        return Some(TimedOut);
      }
      if stopping {
        return Some(ShutDown);
      }
      return None;
    }

    /** What the run does with the outcome of its tool. */
    method EndWith(id: JobId, outcome: Outcome, storeOk: bool)
      requires id in live
      modifies this`rows, this`live
      ensures var m := Settled(old(live)[id].(at := AtSettle(outcome)), outcome);
        && live == old(live)[id := m] && rows == if storeOk then old(rows)[id := m.row] else old(rows)
    {
      match outcome {
        case SeedErr =>
          EndAt(id, Failed, BackupFailed, AtRelease, storeOk);
        case WasKilled =>
          EndAt(id, Cancelled, WasCancelled, AtDiscard, storeOk);
        case TimedOut =>
          EndAt(id, ConnectionLost, DeviceDisconnected, AtDiscard, storeOk);
        case ShutDown =>
          EndAt(id, ConnectionLost, Interrupted, AtDiscard, storeOk);
        case ProcErr =>
          EndAt(id, Failed, BackupFailed, AtDiscard, storeOk);
        case ProcOk(successful) =>
          if !successful {
            EndAt(id, Failed, BackupFailed, AtDiscard, storeOk);
            return;
          }
          Transition(id, (r: Row) => r.(state := Verifying, phase := PhaseVerifying), storeOk);
          GoTo(id, AtVerify);
      }
    }

    /** The tool has ended: a kill outranks whatever it did on its way out. */
    method EndTool(id: JobId, exitOk: bool, successful: bool, storeOk: bool)
      requires Enabled(Now(), Job(id, ToolEnded(exitOk, successful), false))
      modifies this`rows, this`live
      ensures var ended := Next(old(Now()), Job(id, ToolEnded(exitOk, successful), false));
        Enabled(ended, Job(id, Settle, storeOk)) && Now() == Next(ended, Job(id, Settle, storeOk))
    {
      hide Next, Settled, Can;
      JobUpdate(Now(), id, ToolEnded(exitOk, successful), false);
      var outcome := Killed(id);
      if outcome.None? {
        outcome := Some(if exitOk then ProcOk(successful) else ProcErr);
      }
      SettleUpdate(Now(), id, ToolEnded(exitOk, successful), outcome.value, storeOk);
      EndWith(id, outcome.value, storeOk);
    }

    /** The tool never started: the same question, the same answer. */
    method FailToStart(id: JobId, storeOk: bool)
      requires Enabled(Now(), Job(id, ToolNotStarted, false))
      modifies this`rows, this`live
      ensures var ended := Next(old(Now()), Job(id, ToolNotStarted, false));
        Enabled(ended, Job(id, Settle, storeOk)) && Now() == Next(ended, Job(id, Settle, storeOk))
    {
      hide Next, Settled, Can;
      JobUpdate(Now(), id, ToolNotStarted, false);
      var outcome := Killed(id);
      if outcome.None? {
        outcome := Some(ProcErr);
      }
      SettleUpdate(Now(), id, ToolNotStarted, outcome.value, storeOk);
      EndWith(id, outcome.value, storeOk);
    }

    method RefuseTree(id: JobId, storeOk: bool)
      requires Enabled(Now(), Job(id, Verified(false), storeOk))
      modifies this`rows, this`live
      ensures Now() == Next(old(Now()), Job(id, Verified(false), storeOk))
    {
      hide Next, Enabled, Can;
      JobUpdate(Now(), id, Verified(false), storeOk);
      EndAt(id, Failed, VerifyFailed, AtDiscard, storeOk);
    }

    method AcceptTree(id: JobId, storeOk: bool)
      requires Enabled(Now(), Job(id, Verified(true), storeOk))
      modifies this`rows, this`live, this`rest
      ensures Now() == Next(old(Now()), Job(id, Verified(true), storeOk))
    {
      hide Next, Enabled, Can, JobStep;
      VerifiedUpdate(Now(), id, storeOk);
      rest := rest.(verified := rest.verified + {id});
      Transition(id, (r: Row) => r.(state := Committing, phase := PhaseCommitting), storeOk);
      GoTo(id, AtCommit(false));
    }

    /** Storage made no version: the row says so and the work area is left for inspection. */
    method FailCommit(id: JobId, storeOk: bool)
      requires Enabled(Now(), CommitFails(id, storeOk))
      modifies this`rows, this`live, this`rest
      ensures Now() == Next(old(Now()), CommitFails(id, storeOk))
    {
      hide Next, Enabled;
      CommitFailsUpdate(Now(), id, storeOk);
      rest := rest.(halfway := rest.halfway - {id});
      EndAt(id, Failed, CommitFailed, AtRelease, storeOk);
    }

    /** Storage made the version, and the row names it. */
    method Commit(id: JobId, version: VersionId, storeOk: bool)
      requires Enabled(Now(), CommitLands(id)) && version == Now().nextVersion
      modifies this`rows, this`live, this`rest
      ensures var landed := Next(old(Now()), CommitLands(id));
        Enabled(landed, Finish(id, storeOk)) && Now() == Next(landed, Finish(id, storeOk))
    {
      hide Next, Enabled;
      FinishUpdate(Now(), id, storeOk);
      rest := rest.(halfway := rest.halfway - {id}, commits := Now().commits[id := version], nextVersion := version + 1);
      Succeed(id, version, storeOk);
      assert live[id].row == SucceededRow(old(live)[id].row, version);
      GoTo(id, AtRelease);
    }

    /** The device is free before the storage binding goes. */
    method LetGo(id: JobId)
      requires id in live && live[id].at.AtRelease?
      modifies this`live, this`running, this`bound
      ensures id in rows ==>
        && Enabled(old(Now()), Release(id)) && Enabled(Next(old(Now()), Release(id)), Unbind(id))
        && Now() == Next(Next(old(Now()), Release(id)), Unbind(id))
    {
      running := running - {live[id].row.udid};
      live := live[id := live[id].(at := AtUnbind)];
      bound := bound - {id};
      live := live[id := live[id].(at := AtEnd)];
    }

    /** Startup: every row a crash left non-terminal is settled, by whether a version carries its id.  A row
        the store refuses stays as it was. */
    method ReconcileAll(versions: map<JobId, VersionId>, unsaved: set<JobId>)
      modifies this`rows
      ensures rows == map id | id in old(rows) ::
        if id in unsaved then old(rows)[id]
        else ReconciledRow(old(rows)[id], if id in versions then Some(versions[id]) else None)
    {
      var todo := set id | id in rows && !Terminal(rows[id].state);
      ghost var pending := todo;
      while todo != {}
        invariant todo <= pending && rows.Keys == old(rows).Keys
        invariant forall id | id in rows ::
          rows[id] == (if id in pending && id !in todo && id !in unsaved
                       then ReconciledRow(old(rows)[id], if id in versions then Some(versions[id]) else None)
                       else old(rows)[id])
        decreases todo
      {
        var id :| id in todo;
        todo := todo - {id};
        var r := rows[id];
        if id in versions {
          r := r.(state := Succeeded, phase := PhaseDone, percent := Some(100), liveness := NoLiveness,
                  finished := true, version := Some(versions[id]), error := None);
        } else {
          r := r.(state := ConnectionLost, finished := true);
          r := r.(phase := NoPhase, liveness := NoLiveness, error := Some(Interrupted));
        }
        if id !in unsaved {
          rows := rows[id := r];
        }
      }
    }
  }
}
