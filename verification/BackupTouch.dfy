/** What each event leaves of the engine's maps: one job at most is touched. */
module BackupTouch {
  import opened Wrappers
  import opened BackupEngine
  import opened BackupSafety

  function AnswerTo(s: Sys, ev: Event): Answer
    requires ev.Start?
  {
    StartBackup(s, ev.udid, ev.wanted, ev.retryOf, ev.storages, ev.bindOk, ev.insertOk).1
  }

  lemma JobFrame(s: Sys, id: JobId, e: JobEvent, saved: bool)
    requires Enabled(s, Job(id, e, saved))
    ensures var t, m := Next(s, Job(id, e, saved)), JobStep(s.live[id], e, s.shutdown);
      && LiveAt(s, id) && Can(s.live[id], e) && (saved ==> Writes(e))
      && t.live == s.live[id := m] && t.rows == (if saved then s.rows[id := m.row] else s.rows)
      && t.bound == s.bound && t.nextId == s.nextId && t.commits == s.commits && t.halfway == s.halfway
  {
    hide JobStep, Can, Writes;
  }

  lemma CommitFrame(s: Sys, ev: Event)
    requires Enabled(s, ev) && (ev.CommitBegins? || ev.CommitLands? || ev.CommitFails? || ev.Finish?)
    ensures var t := Next(s, ev);
      && LiveAt(s, ev.id) && ev.id in t.live && t.live == s.live[ev.id := t.live[ev.id]]
      && (s.live[ev.id].at.AtCommit? || s.live[ev.id].at.AtLanded?)
      && (var l, m := s.live[ev.id], t.live[ev.id];
          && (m.at.AtCommit? || m.at.AtLanded? || m.at.AtRelease?) && m.sampling == l.sampling
          && (m.row == l.row || (Terminal(m.row.state) && m.row.liveness.NoLiveness?))
          && (t.rows == s.rows || (t.rows == s.rows[ev.id := m.row] && Terminal(m.row.state) && m.row.liveness.NoLiveness?)))
      && t.bound == s.bound && t.nextId == s.nextId
      && t.commits.Keys <= s.commits.Keys + {ev.id} && t.halfway <= s.halfway + {ev.id}
  {
  }

  lemma CancelFrame(s: Sys, id: JobId)
    requires Enabled(s, Cancel(id))
    ensures var t := Next(s, Cancel(id));
      && (t.live == s.live
          || (id in s.live
              && t.live == s.live[id := s.live[id].(kill := if s.live[id].kill.NotKilled? then ByCancel else s.live[id].kill)]))
      && t.rows == s.rows && t.bound == s.bound && t.nextId == s.nextId && t.commits == s.commits && t.halfway == s.halfway
  {
  }

  lemma LeaveFrame(s: Sys, ev: Event)
    requires Enabled(s, ev) && (ev.Release? || ev.Unbind?)
    ensures var t := Next(s, ev);
      && LiveAt(s, ev.id)
      && t.live == s.live[ev.id := s.live[ev.id].(at := if ev.Release? then AtUnbind else AtEnd)]
      && (if ev.Release? then s.live[ev.id].at.AtRelease? else s.live[ev.id].at.AtUnbind?)
      && t.rows == s.rows && t.bound == (if ev.Release? then s.bound else s.bound - {ev.id}) && t.nextId == s.nextId
      && t.commits == s.commits && t.halfway == s.halfway
  {
  }

  lemma NewRowQueued(s: Sys, udid: Udid, storage: StorageId, retryOf: Option<JobId>)
    requires retryOf.Some? ==> retryOf.value in s.rows
    ensures NewRow(s, udid, storage, retryOf).state.Queued?
  {
  }

  lemma StartFrame(s: Sys, ev: Event)
    requires Enabled(s, ev) && ev.Start?
    ensures var t, answer := Next(s, ev), AnswerTo(s, ev);
      && s.nextId <= t.nextId && (answer.Accepted? || answer.StoreError? ==> s.nextId < t.nextId)
      && (if answer.Accepted? then
            && s.nextId in t.rows && t.rows == s.rows[s.nextId := t.rows[s.nextId]] && !Terminal(t.rows[s.nextId].state)
            && t.live == s.live[s.nextId := Live(t.rows[s.nextId], AtBegin, NotKilled, false)]
            && t.rows[s.nextId].state.Queued?
          else t.rows == s.rows && t.live == s.live)
      && t.commits == s.commits && t.halfway == s.halfway
      && t.bound.Keys == if answer.Accepted? || answer.StoreError? then s.bound.Keys + {s.nextId} else s.bound.Keys
  {
    hide Concrete, Aimed, NewRow;
    var storage := Concrete(Aimed(s, ev.wanted, ev.retryOf), ev.storages);
    if storage.Some? && (ev.retryOf.Some? ==> ev.retryOf.value in s.rows) {
      NewRowQueued(s, ev.udid, storage.value, ev.retryOf);
    }
  }

  lemma ProcessFrame(s: Sys, ev: Event)
    requires Enabled(s, ev) && (ev.Shutdown? || ev.Crash? || ev.RollForward? || ev.Reconcile?)
    ensures var t := Next(s, ev);
      && t.live == (if ev.Crash? then map[] else s.live) && t.bound == (if ev.Crash? then map[] else s.bound)
      && t.rows == (if ev.Reconcile? then ReconcileRows(s, ev.unsaved) else s.rows) && t.nextId == s.nextId
      && t.commits.Keys <= s.commits.Keys + s.halfway && t.halfway <= s.halfway
  {
    hide ReconcileRows;
  }

  // ---- ids ----

  lemma NewIdUnknown(s: Sys)
    requires Good(s)
    ensures s.nextId !in s.rows
  {
    hide SliceOk, RetryOk, RunningOk;
  }

  lemma LiveIsKnown(s: Sys, id: JobId)
    requires Good(s) && LiveAt(s, id)
    ensures id < s.nextId
  {
    hide SliceOk, RetryOk, RunningOk;
  }

  /** An ended job's row is stored as ended only if the job has ended. */
  lemma StoredEndIsAnEnd(s: Sys, id: JobId)
    requires Good(s) && LiveAt(s, id)
    ensures StateAt(s.live[id].at, s.live[id].row.state) && (s.live[id].sampling ==> !Early(s.live[id].at))
    ensures Terminal(s.rows[id].state) ==> Terminal(s.live[id].row.state)
  {
    hide Good, StateAt;
    Held(s, id);
    assert Absorbed(s.rows[id], s.live[id].row);
    assert Settle0(s.rows[id]).state == s.rows[id].state && Settle0(s.live[id].row).state == s.live[id].row.state;
  }
}
