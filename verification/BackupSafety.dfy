/** What every reachable state of the backup engine satisfies, under every interleaving and every crash. */
module BackupSafety {
  import opened Wrappers
  import opened BackupEngine

  // ---- the state machine a job follows ----

  /** The edges the running engine takes. */
  predicate Edge(a: JobState, b: JobState) {
    match a
    case Queued => b.WaitingForDevice?
    case WaitingForDevice => b.Preflight? || b.Failed? || b.Cancelled? || b.ConnectionLost?
    case Preflight => b.Seeding? || b.Failed?
    case Seeding => b.BackingUp? || b.Verifying? || b.Failed? || b.Cancelled? || b.ConnectionLost?
    case BackingUp => b.Verifying? || b.Failed? || b.Cancelled? || b.ConnectionLost?
    case Verifying => b.Committing? || b.Failed?
    case Committing => b.Succeeded? || b.Failed?
    case _ => false
  }

  function Rank(s: JobState): nat {
    match s
    case Queued => 0
    case WaitingForDevice => 1
    case Preflight => 2
    case Seeding => 3
    case BackingUp => 4
    case Verifying => 5
    case Committing => 6
    case _ => 7
  }

  /** Some path of edges leads from `a` to `b`: the closed form. */
  predicate Reaches(a: JobState, b: JobState) {
    || a == b
    || (!Terminal(a) && !Terminal(b) && Rank(a) < Rank(b))
    || (!Terminal(a) && (b.Succeeded? || b.Failed?))
    || (!Terminal(a) && (b.Cancelled? || b.ConnectionLost?) && Rank(a) <= 4)
  }

  /** A path of edges. */
  predicate Path(p: seq<JobState>) {
    p != [] && forall i | 0 < i < |p| :: Edge(p[i - 1], p[i])
  }

  lemma {:induction false} PathsReach(p: seq<JobState>)
    requires Path(p)
    ensures Reaches(p[0], p[|p| - 1])
    decreases |p|
  {
    if |p| > 1 {
      var q := p[..|p| - 1];
      PathsReach(q);
      assert Edge(p[|p| - 2], p[|p| - 1]);
    }
  }

  /** The next state on the way from `a` to `b`. */
  function Toward(a: JobState, b: JobState): JobState
    requires Reaches(a, b) && a != b
  {
    if Edge(a, b) then b
    else match a
      case Queued => WaitingForDevice
      case WaitingForDevice => Preflight
      case Preflight => Seeding
      case Seeding => BackingUp
      case BackingUp => Verifying
      case _ => Committing
  }

  lemma TowardReaches(a: JobState, b: JobState)
    requires Reaches(a, b) && a != b
    ensures Edge(a, Toward(a, b)) && Reaches(Toward(a, b), b) && Rank(a) < Rank(Toward(a, b))
  {
  }

  lemma {:induction false} ReachesByPath(a: JobState, b: JobState) returns (p: seq<JobState>)
    requires Reaches(a, b)
    ensures Path(p) && p[0] == a && p[|p| - 1] == b
    decreases 7 - Rank(a)
  {
    p := [b];
    if a != b {
      TowardReaches(a, b);
      hide Reaches, Edge, Toward;
      var rest := ReachesByPath(Toward(a, b), b);
      p := [a] + rest;
      forall i | 0 < i < |p| ensures Edge(p[i - 1], p[i]) {
        assert i > 1 ==> p[i - 1] == rest[i - 2] && p[i] == rest[i - 1];
      }
    }
  }

  /** The closed form is exactly reachability along the edges. */
  lemma ReachesExactly(a: JobState, b: JobState)
    ensures Reaches(a, b) <==> exists p :: Path(p) && p[0] == a && p[|p| - 1] == b
  {
    hide Edge;
    if Reaches(a, b) {
      var p := ReachesByPath(a, b);
    }
    if p :| Path(p) && p[0] == a && p[|p| - 1] == b {
      PathsReach(p);
    }
  }

  // ---- a job object ----

  predicate Running(at: At) { !at.AtUnbind? && !at.AtEnd? }

  /** The state a job is in at each point of the run goroutine. */
  predicate StateAt(at: At, s: JobState) {
    match at
    case AtBegin => s.Queued?
    case AtWaiting => s.WaitingForDevice?
    case AtPreflight => s.Preflight?
    case AtPrepare => s.Seeding?
    case AtStart(gated) => if gated then s.Seeding? else s.BackingUp?
    case AtGate => s.Seeding?
    case AtLoop => s.Seeding? || s.BackingUp?
    case AtSettle(_) => s.Seeding? || s.BackingUp?
    case AtVerify => s.Verifying?
    case AtCommit(_) => s.Committing?
    case AtLanded(_) => s.Committing?
    case _ => Terminal(s)
  }

  /** A row says nothing about a process that is over, except perhaps its liveness. */
  predicate PhaseHonest(r: Row) {
    Terminal(r.state) ==> r.finished && r.phase == if r.state.Succeeded? then PhaseDone else NoPhase
  }

  predicate LiveOk(l: Live) {
    && StateAt(l.at, l.row.state)
    && PhaseHonest(l.row)
    && (l.at == AtSettle(WasKilled) ==> l.kill.ByCancel?)
    && (l.row.state.Cancelled? ==> l.kill.ByCancel?)
    && (!Terminal(l.row.state) ==> l.row.version.None?)
    && (l.sampling ==> !Early(l.at))
    && (Early(l.at) ==> !l.kill.ByTimeout?)
  }

  /** Before the sampler exists. */
  predicate Early(at: At) {
    at.AtBegin? || at.AtWaiting? || at.AtPreflight? || at.AtPrepare? || at.AtStart? || at.AtGate?
  }

  predicate Fixed(a: Row, b: Row) {
    a.udid == b.udid && a.storage == b.storage && a.retryOf == b.retryOf && a.intent == b.intent && a.attempt == b.attempt
  }

  function Settle0(r: Row): Row { r.(liveness := NoLiveness) }

  /** Once a row is terminal only its liveness can still move. */
  predicate Absorbed(a: Row, b: Row) { Terminal(a.state) ==> Settle0(a) == Settle0(b) }

  lemma JobStepShape(l: Live, e: JobEvent, shutdown: bool)
    requires LiveOk(l) && Can(l, e)
    ensures LiveOk(JobStep(l, e, shutdown))
  {
    if e.Settle? {
      SettledShape(l, l.at.outcome);
    }
  }

  lemma SettledShape(l: Live, outcome: Outcome)
    requires LiveOk(l) && l.at == AtSettle(outcome)
    ensures LiveOk(Settled(l, outcome))
  {
  }

  /** Every event of a job keeps its shape and follows an edge, or stays where it is. */
  lemma JobStepOk(l: Live, e: JobEvent, shutdown: bool)
    requires LiveOk(l) && Can(l, e)
    ensures var m := JobStep(l, e, shutdown);
      && LiveOk(m) && Fixed(l.row, m.row) && Absorbed(l.row, m.row)
      && (m.row.state == l.row.state || Edge(l.row.state, m.row.state))
      && (m.row.state.Succeeded? <==> l.row.state.Succeeded?)
      && (l.kill.ByCancel? <==> m.kill.ByCancel?)
      && Running(m.at) == Running(l.at) && (m.at.AtEnd? == l.at.AtEnd?)
  {
    hide JobStep, Can, Absorbed, Edge, PhaseHonest, Early, Running, Fixed;
    JobStepShape(l, e, shutdown);
    JobStepRow(l, e, shutdown);
    JobStepMarks(l, e, shutdown);
  }

  lemma JobStepMarks(l: Live, e: JobEvent, shutdown: bool)
    requires StateAt(l.at, l.row.state) && Can(l, e)
    ensures var m := JobStep(l, e, shutdown);
      && Fixed(l.row, m.row) && (m.row.state.Succeeded? <==> l.row.state.Succeeded?)
      && (l.kill.ByCancel? <==> m.kill.ByCancel?)
      && Running(m.at) == Running(l.at) && (m.at.AtEnd? == l.at.AtEnd?)
  {
  }

  lemma JobStepRow(l: Live, e: JobEvent, shutdown: bool)
    requires StateAt(l.at, l.row.state) && (l.sampling ==> !Early(l.at)) && Can(l, e)
    ensures var m := JobStep(l, e, shutdown);
      Absorbed(l.row, m.row) && (m.row.state == l.row.state || Edge(l.row.state, m.row.state))
  {
  }

  // ---- the invariant ----

  /** Everything the system holds about one job. */
  datatype Slice = Slice(
    stored: Row, live: Option<Live>, commit: Option<VersionId>, halfway: bool, verified: bool, cancelled: bool,
    running: bool, binding: Option<Binding>)

  function SliceOf(s: Sys, id: JobId): Slice
    requires id in s.rows
  {
    var r := s.rows[id];
    Slice(r, if id in s.live then Some(s.live[id]) else None, VersionForJob(s, id), id in s.halfway,
      id in s.verified, id in s.cancels, r.udid in s.running && s.running[r.udid] == id,
      if id in s.bound then Some(s.bound[id]) else None)
  }

  /** A job object of this process and its stored row. */
  predicate JobOk(v: Slice)
    requires v.live.Some?
  {
    var l, r := v.live.value, v.stored;
    && LiveOk(l) && Fixed(r, l.row) && PhaseHonest(r)
    && Reaches(r.state, l.row.state) && Absorbed(r, l.row)
    && (v.commit.Some? <==> l.at.AtLanded? || l.row.state.Succeeded?)
    && (l.at.AtLanded? ==> v.commit == Some(l.at.version))
    && (l.row.state.Succeeded? ==> l.row.version == v.commit)
    && (v.halfway <==> l.at == AtCommit(true))
    && (l.row.state.Committing? || l.row.state.Succeeded? ==> v.verified)
    && (l.kill.ByCancel? ==> v.cancelled)
    && (Running(l.at) ==> v.running)
    && (!l.at.AtEnd? ==> v.binding == Some(Binding(r.udid, r.storage)))
    && (!Terminal(r.state) ==> r.version.None?)
  }

  /** A stored row with no job object behind it. */
  predicate OrphanOk(v: Slice) {
    var r := v.stored;
    && PhaseHonest(r)
    && (Terminal(r.state) ==> (r.state.Succeeded? <==> v.commit.Some?))
    && (r.state.Succeeded? ==> r.version == v.commit)
    && (v.commit.Some? || v.halfway ==> v.verified)
    && (v.commit.Some? ==> !v.halfway)
    && (v.halfway ==> !Terminal(r.state))
    && (r.state.Cancelled? ==> v.cancelled)
    && (!Terminal(r.state) ==> r.version.None?)
  }

  predicate SliceOk(v: Slice) { if v.live.Some? then JobOk(v) else OrphanOk(v) }

  /** Retries: the chain's intent is its first job, and each attempt counts one more. */
  predicate RetryOk(rows: map<JobId, Row>, id: JobId)
    requires id in rows
  {
    var r := rows[id];
    if r.retryOf.None? then r.intent == id && r.attempt == 1
    else
      var p := r.retryOf.value;
      p < id && p in rows && r.intent == rows[p].intent && r.attempt == rows[p].attempt + 1
  }

  predicate Bounded(s: Sys) {
    && (forall id | id in s.rows :: id < s.nextId)
    && s.live.Keys <= s.rows.Keys
    && s.commits.Keys <= s.rows.Keys && s.halfway <= s.rows.Keys
    && (!s.serving ==> s.live == map[] && s.running == map[] && s.bound == map[])
    && (s.serving ==> s.halfway <= s.live.Keys)
  }

  predicate RunningOk(s: Sys) {
    forall u | u in s.running :: s.running[u] in s.live && s.live[s.running[u]].row.udid == u && Running(s.live[s.running[u]].at)
  }

  predicate SlicesOk(s: Sys) { forall id | id in s.rows :: SliceOk(SliceOf(s, id)) }

  predicate RetriesOk(rows: map<JobId, Row>) { forall id | id in rows :: RetryOk(rows, id) }

  predicate Good(s: Sys) { Bounded(s) && SlicesOk(s) && RetriesOk(s.rows) && RunningOk(s) }

  // ---- every event keeps it ----

  lemma ReachesFurther(a: JobState, b: JobState, c: JobState)
    requires Reaches(a, b) && (b == c || Edge(b, c))
    ensures Reaches(a, c) && Reaches(c, c)
  {
  }

  lemma RetriesFixed(rows: map<JobId, Row>, now: map<JobId, Row>)
    requires RetriesOk(rows) && now.Keys == rows.Keys && forall id | id in rows :: Fixed(rows[id], now[id])
    ensures RetriesOk(now)
  {
    forall id | id in now ensures RetryOk(now, id) {
      assert RetryOk(rows, id);
    }
  }

  lemma PutOthers(s: Sys, id: JobId, l: Live, saved: bool, commit: Option<VersionId>, halfway: bool, j: JobId)
    requires id in s.live && id in s.rows && j in s.rows && Fixed(s.rows[id], l.row)
    ensures var t := PutCommit(s, id, l, saved, commit, halfway);
      && Fixed(s.rows[j], t.rows[j])
      && SliceOf(t, j) ==
         if j != id then SliceOf(s, j)
         else SliceOf(s, id).(live := Some(l), stored := if saved then l.row else SliceOf(s, id).stored,
                commit := if commit.Some? then commit else SliceOf(s, id).commit, halfway := halfway)
  {
  }

  lemma PutKeeps(s: Sys, id: JobId, l: Live, saved: bool, commit: Option<VersionId>, halfway: bool)
    requires Bounded(s) && RunningOk(s) && id in s.live && id in s.rows
    requires Running(l.at) == Running(s.live[id].at) && s.live[id].row.udid == l.row.udid
    ensures var t := PutCommit(s, id, l, saved, commit, halfway); Bounded(t) && RunningOk(t)
  {
  }

  /** A job event touches one slice, and the job does not change hands. */
  lemma PutGood(s: Sys, id: JobId, l: Live, saved: bool, commit: Option<VersionId>, halfway: bool)
    requires Good(s) && id in s.live && id in s.rows
    requires Fixed(s.rows[id], l.row) && Running(l.at) == Running(s.live[id].at) && s.live[id].row.udid == l.row.udid
    requires var v := SliceOf(s, id);
      SliceOk(v.(live := Some(l), stored := if saved then l.row else v.stored,
                 commit := if commit.Some? then commit else v.commit, halfway := halfway))
    ensures Good(PutCommit(s, id, l, saved, commit, halfway))
    ensures commit.None? && halfway == (id in s.halfway) ==> Good(Put(s, id, l, saved))
  {
    hide SliceOk, RetriesOk, Bounded, RunningOk, SliceOf, Fixed;
    var t := PutCommit(s, id, l, saved, commit, halfway);
    PutKeeps(s, id, l, saved, commit, halfway);
    forall j | j in s.rows ensures SliceOk(SliceOf(t, j)) && Fixed(s.rows[j], t.rows[j]) {
      PutOthers(s, id, l, saved, commit, halfway, j);
    }
    RetriesFixed(s.rows, t.rows);
    assert commit.None? && halfway == (id in s.halfway) ==> Put(s, id, l, saved) == t;
  }

  lemma SliceRemembers(v: Slice, verified: bool, cancelled: bool)
    requires SliceOk(v)
    ensures SliceOk(v.(verified := v.verified || verified, cancelled := v.cancelled || cancelled))
  {
  }

  /** History only grows, and a version number may be used up. */
  lemma HistoryGood(s: Sys, verified: set<JobId>, cancels: set<JobId>, nextVersion: VersionId)
    requires Good(s)
    ensures Good(s.(verified := s.verified + verified, cancels := s.cancels + cancels, nextVersion := nextVersion))
  {
    hide SliceOk, RetriesOk;
    var t := s.(verified := s.verified + verified, cancels := s.cancels + cancels, nextVersion := nextVersion);
    forall id | id in s.rows ensures SliceOk(SliceOf(t, id)) {
      SliceRemembers(SliceOf(s, id), id in verified, id in cancels);
      var v := SliceOf(s, id);
      assert SliceOf(t, id) == v.(verified := v.verified || id in verified, cancelled := v.cancelled || id in cancels);
    }
  }

  lemma Held(s: Sys, id: JobId)
    requires Good(s) && id in s.live && id in s.rows
    ensures JobOk(SliceOf(s, id)) && LiveOk(s.live[id]) && Fixed(s.rows[id], s.live[id].row)
  {
    hide RetriesOk, RunningOk;
    assert SliceOk(SliceOf(s, id));
  }

  /** A job event, on the slice of its job. */
  lemma SliceStepOk(v: Slice, e: JobEvent, shutdown: bool, saved: bool)
    requires v.live.Some? && JobOk(v) && Can(v.live.value, e) && (e == Verified(true) ==> v.verified)
    ensures var m := JobStep(v.live.value, e, shutdown);
      && SliceOk(v.(live := Some(m), stored := if saved then m.row else v.stored))
      && Fixed(v.stored, m.row) && Running(m.at) == Running(v.live.value.at)
  {
    hide JobStep, Reaches, Can, Edge, Early, StateAt, Running, OrphanOk;
    var l := v.live.value;
    JobStepOk(l, e, shutdown);
    CommitPlace(l, e, shutdown);
    ReachesFurther(v.stored.state, l.row.state, JobStep(l, e, shutdown).row.state);
  }

  lemma JobGood(s: Sys, id: JobId, e: JobEvent, saved: bool)
    requires Good(s) && Enabled(s, Job(id, e, saved))
    ensures Good(Next(s, Job(id, e, saved)))
  {
    hide Good, JobStep, SliceOk, JobOk, LiveOk, Can;
    var marks := if e == Verified(true) then {id} else {};
    HistoryGood(s, marks, {}, s.nextVersion);
    var u := s.(verified := s.verified + marks, cancels := s.cancels + {}, nextVersion := s.nextVersion);
    Held(u, id);
    SliceStepOk(SliceOf(u, id), e, s.shutdown, saved);
    PutGood(u, id, JobStep(s.live[id], e, s.shutdown), saved, None, id in u.halfway);
    assert u == if e == Verified(true) then s.(verified := s.verified + {id}) else s;
  }

  /** No job event enters or leaves the commit itself. */
  lemma CommitPlace(l: Live, e: JobEvent, shutdown: bool)
    requires LiveOk(l) && Can(l, e)
    ensures var m := JobStep(l, e, shutdown);
      && (m.at.AtLanded? <==> l.at.AtLanded?) && (m.at.AtLanded? ==> m.at == l.at)
      && (m.at == AtCommit(true) <==> l.at == AtCommit(true))
      && (m.row.state.Succeeded? <==> l.row.state.Succeeded?) && (m.row.state.Succeeded? ==> m.row.version == l.row.version)
      && (m.row.state.Committing? ==> l.row.state.Committing? || e == Verified(true))
  {
  }

  lemma CommitSlices(v: Slice, saved: bool, version: VersionId)
    requires v.live.Some? && JobOk(v) && (v.live.value.at.AtCommit? || v.live.value.at.AtLanded?)
    ensures var l := v.live.value;
      && Running(l.at)
      && (l.at == AtCommit(false) ==> SliceOk(v.(live := Some(l.(at := AtCommit(true))), halfway := true)))
      && (l.at == AtCommit(true) ==> SliceOk(v.(live := Some(l.(at := AtLanded(version))), commit := Some(version), halfway := false)))
      && (l.at.AtCommit? ==>
            var m := l.(row := Terminated(l.row, Failed, CommitFailed), at := AtRelease);
            SliceOk(v.(live := Some(m), stored := if saved then m.row else v.stored, halfway := false)))
      && (l.at.AtLanded? ==>
            var m := l.(row := SucceededRow(l.row, l.at.version), at := AtRelease);
            SliceOk(v.(live := Some(m), stored := if saved then m.row else v.stored)))
  {
  }

  lemma CommitBeginsGood(s: Sys, id: JobId)
    requires Good(s) && Enabled(s, CommitBegins(id))
    ensures Good(Next(s, CommitBegins(id)))
  {
    hide Good, SliceOk, JobOk, LiveOk;
    Held(s, id);
    CommitSlices(SliceOf(s, id), false, 0);
    PutGood(s, id, s.live[id].(at := AtCommit(true)), false, None, true);
  }

  lemma CommitLandsGood(s: Sys, id: JobId)
    requires Good(s) && Enabled(s, CommitLands(id))
    ensures Good(Next(s, CommitLands(id)))
  {
    hide Good, SliceOk, JobOk, LiveOk;
    HistoryGood(s, {}, {}, s.nextVersion + 1);
    var u := s.(nextVersion := s.nextVersion + 1);
    assert u == s.(verified := s.verified + {}, cancels := s.cancels + {}, nextVersion := s.nextVersion + 1);
    Held(u, id);
    CommitSlices(SliceOf(u, id), false, s.nextVersion);
    PutGood(u, id, s.live[id].(at := AtLanded(s.nextVersion)), false, Some(s.nextVersion), false);
  }

  lemma CommitFailsGood(s: Sys, id: JobId, saved: bool)
    requires Good(s) && Enabled(s, CommitFails(id, saved))
    ensures Good(Next(s, CommitFails(id, saved)))
  {
    hide Good, SliceOk, JobOk, LiveOk;
    Held(s, id);
    CommitSlices(SliceOf(s, id), saved, 0);
    PutGood(s, id, s.live[id].(row := Terminated(s.live[id].row, Failed, CommitFailed), at := AtRelease), saved, None, false);
  }

  lemma FinishGood(s: Sys, id: JobId, saved: bool)
    requires Good(s) && Enabled(s, Finish(id, saved))
    ensures Good(Next(s, Finish(id, saved)))
  {
    hide Good, SliceOk, JobOk, LiveOk;
    Held(s, id);
    CommitSlices(SliceOf(s, id), saved, 0);
    PutGood(s, id, s.live[id].(row := SucceededRow(s.live[id].row, s.live[id].at.version), at := AtRelease), saved,
      None, id in s.halfway);
  }

  lemma CancelSlice(v: Slice)
    requires v.live.Some? && JobOk(v) && v.cancelled
    ensures var l := v.live.value;
      SliceOk(v.(live := Some(l.(kill := if l.kill.NotKilled? then ByCancel else l.kill))))
  {
  }

  lemma CancelGood(s: Sys, id: JobId)
    requires Good(s) && Enabled(s, Cancel(id))
    ensures Good(Next(s, Cancel(id)))
  {
    hide SliceOk, JobOk, LiveOk, SlicesOk, RetriesOk, RunningOk;
    if CancelJob(s, id).1 {
      HistoryGood(s, {}, {id}, s.nextVersion);
      var u := s.(cancels := s.cancels + {id});
      assert u == s.(verified := s.verified + {}, cancels := s.cancels + {id}, nextVersion := s.nextVersion);
      Held(u, id);
      CancelSlice(SliceOf(u, id));
      PutGood(u, id, s.live[id].(kill := if s.live[id].kill.NotKilled? then ByCancel else s.live[id].kill), false,
        None, id in u.halfway);
    }
  }

  lemma LiveMoves(l: Live, at: At)
    requires LiveOk(l) && (l.at.AtRelease? || l.at.AtUnbind?) && (at.AtUnbind? || at.AtEnd?)
    ensures LiveOk(l.(at := at))
  {
  }

  lemma LeavingSlice(v: Slice, at: At)
    requires v.live.Some? && JobOk(v)
    requires (v.live.value.at.AtRelease? && at.AtUnbind?) || (v.live.value.at.AtUnbind? && at.AtEnd?)
    ensures SliceOk(v.(live := Some(v.live.value.(at := at)), running := at.AtEnd? && v.running,
                       binding := if at.AtEnd? then None else v.binding))
  {
    LiveMoves(v.live.value, at);
  }

  lemma LeavingKeeps(s: Sys, ev: Event)
    requires Bounded(s) && RunningOk(s) && (ev.Release? || ev.Unbind?) && Enabled(s, ev)
    requires ev.Release? ==> var u := s.live[ev.id].row.udid; u in s.running && s.running[u] == ev.id
    ensures Bounded(Next(s, ev)) && RunningOk(Next(s, ev)) && Next(s, ev).rows == s.rows
  {
  }

  lemma ReleaseSlice(s: Sys, id: JobId, j: JobId)
    requires Enabled(s, Release(id)) && j in s.rows && s.rows[id].udid == s.live[id].row.udid
    requires s.live[id].row.udid in s.running && s.running[s.live[id].row.udid] == id
    ensures SliceOf(Next(s, Release(id)), j) ==
      if j != id then SliceOf(s, j) else SliceOf(s, id).(live := Some(s.live[id].(at := AtUnbind)), running := false)
  {
  }

  lemma ReleaseGood(s: Sys, id: JobId)
    requires Good(s) && Enabled(s, Release(id))
    ensures Good(Next(s, Release(id)))
  {
    hide RetriesOk, LiveOk, SliceOk, OrphanOk, Bounded, RunningOk, SliceOf, Next;
    ReleaseHeld(s, id);
    LeavingKeeps(s, Release(id));
    LeavingSlice(SliceOf(s, id), AtUnbind);
    var t := Next(s, Release(id));
    forall j | j in t.rows ensures SliceOk(SliceOf(t, j)) {
      ReleaseSlice(s, id, j);
    }
  }

  lemma ReleaseHeld(s: Sys, id: JobId)
    requires Good(s) && LiveAt(s, id)
    ensures SliceOf(s, id).live == Some(s.live[id]) && JobOk(SliceOf(s, id)) && s.rows[id].udid == s.live[id].row.udid
    ensures Running(s.live[id].at) ==> s.live[id].row.udid in s.running && s.running[s.live[id].row.udid] == id
  {
    hide Good, LiveOk;
    Held(s, id);
  }

  lemma UnbindSlice(s: Sys, id: JobId, j: JobId)
    requires Enabled(s, Unbind(id)) && j in s.rows
    ensures SliceOf(Next(s, Unbind(id)), j) ==
      if j != id then SliceOf(s, j) else SliceOf(s, id).(live := Some(s.live[id].(at := AtEnd)), binding := None)
  {
  }

  lemma UnbindGood(s: Sys, id: JobId)
    requires Good(s) && Enabled(s, Unbind(id))
    ensures Good(Next(s, Unbind(id)))
  {
    hide RetriesOk, LiveOk, SliceOk, JobOk, OrphanOk, Bounded, RunningOk, SliceOf, Next;
    ReleaseHeld(s, id);
    LeavingKeeps(s, Unbind(id));
    LeavingSlice(SliceOf(s, id), AtEnd);
    var t := Next(s, Unbind(id));
    forall j | j in t.rows ensures SliceOk(SliceOf(t, j)) {
      UnbindSlice(s, id, j);
    }
  }

  /** A refused start takes at most an id and, when the row could not be written, a binding. */
  lemma RefusedStartGood(s: Sys, nextId: JobId, bound: map<JobId, Binding>)
    requires Good(s) && s.serving && s.nextId <= nextId
    requires forall id | id < s.nextId :: (id in bound <==> id in s.bound) && (id in bound ==> bound[id] == s.bound[id])
    ensures Good(s.(nextId := nextId, bound := bound))
  {
    hide SliceOk, RetriesOk;
    var t := s.(nextId := nextId, bound := bound);
    forall j | j in s.rows ensures SliceOk(SliceOf(t, j)) {
      assert SliceOf(t, j) == SliceOf(s, j);
    }
  }

  function Admitted(s: Sys, row: Row): Sys {
    var id := s.nextId;
    s.(nextId := id + 1, bound := s.bound[id := Binding(row.udid, row.storage)], rows := s.rows[id := row],
       live := s.live[id := Live(row, AtBegin, NotKilled, false)], running := s.running[row.udid := id])
  }

  lemma AdmittedKeeps(s: Sys, row: Row)
    requires Bounded(s) && RunningOk(s) && s.serving && row.udid !in s.running
    ensures Bounded(Admitted(s, row)) && RunningOk(Admitted(s, row))
  {
  }

  lemma AdmittedOthers(s: Sys, row: Row, j: JobId)
    requires Bounded(s) && RunningOk(s) && row.udid !in s.running && j in s.rows
    ensures SliceOf(Admitted(s, row), j) == SliceOf(s, j)
  {
  }

  lemma AdmittedSlice(s: Sys, row: Row)
    requires Bounded(s)
    ensures SliceOf(Admitted(s, row), s.nextId) == Slice(row, Some(Live(row, AtBegin, NotKilled, false)), None, false,
      s.nextId in s.verified, s.nextId in s.cancels, true, Some(Binding(row.udid, row.storage)))
  {
    assert s.nextId !in s.rows;
  }

  /** A new job's slice, and nothing else, appears. */
  lemma AcceptedStartGood(s: Sys, row: Row, retryOf: Option<JobId>)
    requires Good(s) && s.serving && row.udid !in s.running && (retryOf.Some? ==> retryOf.value in s.rows)
    requires row == NewRow(s, row.udid, row.storage, retryOf)
    ensures Good(Admitted(s, row))
  {
    hide SliceOk, SliceOf, RetriesOk, RunningOk;
    var t := Admitted(s, row);
    AdmittedKeeps(s, row);
    forall j | j in s.rows ensures SliceOk(SliceOf(t, j)) {
      AdmittedOthers(s, row, j);
    }
    AdmittedSlice(s, row);
    NewSliceOk(row, SliceOf(t, s.nextId));
    NewRetryOk(s, retryOf, row);
  }

  lemma StartGood(s: Sys, udid: Udid, wanted: Option<StorageId>, retryOf: Option<JobId>, storages: Storages,
                  bindOk: bool, insertOk: bool)
    requires Good(s) && s.serving
    ensures Good(StartBackup(s, udid, wanted, retryOf, storages, bindOk, insertOk).0)
  {
    hide Good, Concrete, Aimed, NewRow;
    RefusedStartGood(s, s.nextId, s.bound);
    RefusedStartGood(s, s.nextId + 1, s.bound);
    var storage := Concrete(Aimed(s, wanted, retryOf), storages);
    if storage.Some? {
      RefusedStartGood(s, s.nextId + 1, s.bound[s.nextId := Binding(udid, storage.value)]);
      if udid !in s.running && (retryOf.Some? ==> retryOf.value in s.rows) {
        NewRowAims(s, udid, storage.value, retryOf);
        AcceptedStartGood(s, NewRow(s, udid, storage.value, retryOf), retryOf);
      }
    }
  }

  lemma NewRowAims(s: Sys, udid: Udid, storage: StorageId, retryOf: Option<JobId>)
    requires retryOf.Some? ==> retryOf.value in s.rows
    ensures NewRow(s, udid, storage, retryOf).udid == udid && NewRow(s, udid, storage, retryOf).storage == storage
  {
  }

  lemma NewSliceOk(r: Row, v: Slice)
    requires r.state.Queued? && r.phase.PhaseQueued? && !r.finished && r.version.None?
    requires v.stored == r && v.live == Some(Live(r, AtBegin, NotKilled, false)) && v.commit.None? && !v.halfway
    requires v.running && v.binding == Some(Binding(r.udid, r.storage))
    ensures SliceOk(v)
  {
  }

  lemma NewRetryOk(s: Sys, retryOf: Option<JobId>, r: Row)
    requires RetriesOk(s.rows) && s.nextId !in s.rows && (forall id | id in s.rows :: id < s.nextId)
    requires retryOf.Some? ==> retryOf.value in s.rows
    requires Fixed(r, NewRow(s, r.udid, r.storage, retryOf))
    ensures RetriesOk(s.rows[s.nextId := r])
  {
    var rows := s.rows[s.nextId := r];
    forall id | id in rows ensures RetryOk(rows, id) {
      assert id in s.rows ==> RetryOk(s.rows, id);
    }
  }

  lemma JobOrphaned(v: Slice)
    requires v.live.Some? && JobOk(v)
    ensures OrphanOk(v.(live := None, running := false, binding := None))
  {
  }

  lemma CrashGood(s: Sys)
    requires Good(s)
    ensures Good(Next(s, Crash))
  {
    hide JobOk, OrphanOk, RetriesOk;
    var t := Next(s, Crash);
    forall id | id in t.rows ensures SliceOk(SliceOf(t, id)) {
      var v := SliceOf(s, id);
      assert SliceOk(v);
      if v.live.Some? {
        JobOrphaned(v);
      } else {
        OrphanForgets(v);
      }
      assert SliceOf(t, id) == v.(live := None, running := false, binding := None);
    }
  }

  lemma OrphanForgets(v: Slice)
    requires OrphanOk(v)
    ensures OrphanOk(v.(live := None, running := false, binding := None))
  {
  }

  lemma RollForwardGood(s: Sys, rolled: set<JobId>, dropped: set<JobId>)
    requires Good(s) && Enabled(s, RollForward(rolled, dropped))
    ensures Good(Next(s, RollForward(rolled, dropped)))
  {
    hide PhaseHonest, RetriesOk;
    var t := Next(s, RollForward(rolled, dropped));
    forall id | id in t.rows ensures SliceOk(SliceOf(t, id)) {
      assert SliceOk(SliceOf(s, id));
    }
  }

  lemma ReconcileGood(s: Sys, unsaved: set<JobId>)
    requires Good(s) && Enabled(s, Reconcile(unsaved))
    ensures Good(Next(s, Reconcile(unsaved)))
  {
    hide RetriesOk;
    var t := Next(s, Reconcile(unsaved));
    forall id | id in t.rows ensures SliceOk(SliceOf(t, id)) && Fixed(s.rows[id], t.rows[id]) {
      assert SliceOk(SliceOf(s, id));
    }
    RetriesFixed(s.rows, t.rows);
  }

  lemma NextGood(s: Sys, ev: Event)
    requires Good(s) && Enabled(s, ev)
    ensures Good(Next(s, ev))
  {
    hide Good, Enabled, Next;
    match ev {
      case Start(udid, wanted, retryOf, storages, bindOk, insertOk) =>
        StartStep(s, ev);
        StartGood(s, udid, wanted, retryOf, storages, bindOk, insertOk);
      case CommitBegins(id) => CommitBeginsGood(s, id);
      case CommitLands(id) => CommitLandsGood(s, id);
      case CommitFails(id, saved) => CommitFailsGood(s, id, saved);
      case Finish(id, saved) => FinishGood(s, id, saved);
      case Cancel(id) => CancelGood(s, id);
      case Job(id, e, saved) => JobGood(s, id, e, saved);
      case Release(id) => ReleaseGood(s, id);
      case Unbind(id) => UnbindGood(s, id);
      case Shutdown => ShutdownGood(s);
      case Crash => CrashGood(s);
      case RollForward(rolled, dropped) => RollForwardGood(s, rolled, dropped);
      case Reconcile(unsaved) => ReconcileGood(s, unsaved);
    }
  }

  lemma StartStep(s: Sys, ev: Event)
    requires Enabled(s, ev) && ev.Start?
    ensures s.serving
    ensures Next(s, ev) == StartBackup(s, ev.udid, ev.wanted, ev.retryOf, ev.storages, ev.bindOk, ev.insertOk).0
  {
  }

  lemma ShutdownGood(s: Sys)
    requires Good(s) && Enabled(s, Shutdown)
    ensures Good(Next(s, Shutdown))
  {
    hide SliceOk, RetriesOk;
    var t := Next(s, Shutdown);
    forall j | j in t.rows ensures SliceOk(SliceOf(t, j)) {
      assert SliceOf(t, j) == SliceOf(s, j);
    }
  }

  /** Every reachable state is good, whatever the interleaving and wherever the crashes fall. */
  lemma {:induction false} ReachableGood(s: Sys, events: seq<Event>)
    requires Good(s) && Runs(s, events)
    ensures Good(After(s, events))
    decreases |events|
  {
    hide Good, Enabled, Next;
    if events != [] {
      NextGood(s, events[0]);
      ReachableGood(Next(s, events[0]), events[1..]);
    }
  }

  lemma FreshGood()
    ensures Good(FRESH)
  {
  }
}
