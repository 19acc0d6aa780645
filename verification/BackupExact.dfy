/** Three things the engine's commentary promises and its runs do not keep: that an ended job claims no live
    process, that a binding lives exactly as long as its job, and that `backing_up` comes between `seeding` and
    `verifying`.  For each: an instance reached from an empty store, and the exact condition, over every run. */
module BackupExact {
  import opened Wrappers
  import opened BackupEngine
  import opened BackupSafety
  import opened BackupRuns
  import opened BackupTouch

  // ---- bindings ----

  /** The job's run goroutine has not let its binding go yet. */
  predicate InUse(s: Sys, id: JobId) { id in s.live && !s.live[id].at.AtEnd? }

  function RefusedRow(s: Sys, ev: Event, sofar: set<JobId>): set<JobId> {
    if ev.Crash? then {} else if ev.Start? && AnswerTo(s, ev).StoreError? then sofar + {s.nextId} else sofar
  }

  /** The ids of the starts whose row the store refused, since the process came up. */
  function RefusedRows(s: Sys, events: seq<Event>, sofar: set<JobId>): set<JobId>
    requires Runs(s, events)
    decreases |events|
  {
    if events == [] then sofar else RefusedRows(Next(s, events[0]), events[1..], RefusedRow(s, events[0], sofar))
  }

  ghost predicate BindingsAre(s: Sys, refused: set<JobId>) {
    && (forall id :: id in s.bound <==> InUse(s, id) || id in refused)
    && (forall id | id in refused :: id !in s.live && id < s.nextId)
    && (forall id | id in s.live :: id < s.nextId)
  }

  lemma JobStaysInUse(l: Live, e: JobEvent, shutdown: bool)
    requires Can(l, e)
    ensures JobStep(l, e, shutdown).at.AtEnd? <==> l.at.AtEnd?
  {
  }

  /** Neither what a job does nor what storage does for it lets it go. */
  lemma PlacesKept(s: Sys, ev: Event)
    requires Enabled(s, ev) && !ev.Start? && !ev.Release? && !ev.Unbind? && !ev.Crash?
    ensures var t := Next(s, ev);
      && t.live.Keys == s.live.Keys && (forall id | id in s.live :: t.live[id].at.AtEnd? <==> s.live[id].at.AtEnd?)
      && t.bound == s.bound && t.nextId == s.nextId
  {
    hide Next, Enabled, JobStep, Can, ReconcileRows, Writes;
    match ev {
      case Job(id, e, saved) => JobFrame(s, id, e, saved); JobStaysInUse(s.live[id], e, s.shutdown);
      case Cancel(id) => CancelFrame(s, id);
      case Shutdown => ProcessFrame(s, ev);
      case RollForward(_, _) => ProcessFrame(s, ev);
      case Reconcile(_) => ProcessFrame(s, ev);
      case _ => CommitFrame(s, ev);
    }
  }

  lemma BindingsNext(s: Sys, ev: Event, refused: set<JobId>)
    requires BindingsAre(s, refused) && Enabled(s, ev)
    ensures BindingsAre(Next(s, ev), RefusedRow(s, ev, refused))
  {
    hide Next, Enabled, AnswerTo;
    match ev {
      case Start(_, _, _, _, _, _) => StartFrame(s, ev);
      case Release(_) => LeaveFrame(s, ev);
      case Unbind(_) => LeaveFrame(s, ev);
      case Crash => ProcessFrame(s, ev);
      case _ => PlacesKept(s, ev);
    }
  }

  lemma {:induction false} BindingsAfter(s: Sys, events: seq<Event>, refused: set<JobId>)
    requires BindingsAre(s, refused) && Runs(s, events)
    ensures BindingsAre(After(s, events), RefusedRows(s, events, refused))
    decreases |events|
  {
    hide BindingsAre, Enabled, Next, RefusedRow;
    if events != [] {
      BindingsNext(s, events[0], refused);
      BindingsAfter(Next(s, events[0]), events[1..], RefusedRow(s, events[0], refused));
    }
  }

  /** Over every run: an id is bound exactly while its job has not let go, or for good, until a crash, when
      the store refused the row of its start. */
  lemma BoundWhileInUseOrRefused(events: seq<Event>, id: JobId)
    requires Runs(FRESH, events)
    ensures id in After(FRESH, events).bound
       <==> InUse(After(FRESH, events), id) || id in RefusedRows(FRESH, events, {})
  {
    BindingsAfter(FRESH, events, {});
  }

  /** A binding no job stands behind appears at a start whose row the store refuses, and at no other event. */
  lemma OnlyARefusedRowLeavesABinding(events: seq<Event>, ev: Event)
    requires Runs(FRESH, events) && Enabled(After(FRESH, events), ev)
    ensures var s, t := After(FRESH, events), Next(After(FRESH, events), ev);
      (exists id :: id in t.bound && id !in t.live && !(id in s.bound && id !in s.live))
      <==> ev.Start? && AnswerTo(s, ev).StoreError?
  {
    var s := After(FRESH, events);
    var refused := RefusedRows(FRESH, events, {});
    BindingsAfter(FRESH, events, {});
    BindingsNext(s, ev, refused);
    hide After, Next, Enabled, AnswerTo, Runs;
    if ev.Start? && AnswerTo(s, ev).StoreError? {
      assert s.nextId in RefusedRow(s, ev, refused);
    }
  }

  // ---- backing_up ----

  function HandedOverIn(events: seq<Event>): set<JobId> {
    set i | 0 <= i < |events| && events[i].Job? && events[i].e.HandedOver? :: events[i].id
  }

  /** Past the gate a job is still seeding exactly when its tool was handed over before the gate opened. */
  predicate GateRemembered(l: Live, handed: bool) {
    && (Early(l.at) ==> !handed)
    && (l.at.AtLoop? || (l.at.AtSettle? && l.at.outcome.ProcOk?) ==>
          (l.row.state.Seeding? <==> handed) && (l.row.state.BackingUp? <==> !handed))
  }

  predicate GatesRemembered(s: Sys, handed: set<JobId>) {
    && (forall id | id in s.live :: GateRemembered(s.live[id], id in handed))
    && (forall id | id in handed :: id < s.nextId)
  }

  lemma JobRemembers(l: Live, e: JobEvent, shutdown: bool, handed: bool)
    requires GateRemembered(l, handed) && Can(l, e) && StateAt(l.at, l.row.state)
    ensures GateRemembered(JobStep(l, e, shutdown), handed || e.HandedOver?)
  {
  }

  lemma JobGates(s: Sys, id: JobId, e: JobEvent, saved: bool, handed: set<JobId>)
    requires Good(s) && GatesRemembered(s, handed) && Enabled(s, Job(id, e, saved))
    ensures GatesRemembered(Next(s, Job(id, e, saved)), if e.HandedOver? then handed + {id} else handed)
  {
    hide Next, Enabled, JobStep, Can, Good, StateAt, Writes, Early, GateRemembered;
    JobFrame(s, id, e, saved);
    StoredEndIsAnEnd(s, id);
    LiveIsKnown(s, id);
    JobRemembers(s.live[id], e, s.shutdown, id in handed);
  }

  lemma CommitGates(s: Sys, ev: Event, handed: set<JobId>)
    requires GatesRemembered(s, handed) && Enabled(s, ev)
    requires ev.CommitBegins? || ev.CommitLands? || ev.CommitFails? || ev.Finish?
    ensures GatesRemembered(Next(s, ev), handed)
  {
    hide Next, Enabled;
    CommitFrame(s, ev);
  }

  lemma LeaveGates(s: Sys, ev: Event, handed: set<JobId>)
    requires GatesRemembered(s, handed) && Enabled(s, ev) && (ev.Cancel? || ev.Release? || ev.Unbind?)
    ensures GatesRemembered(Next(s, ev), handed)
  {
    hide Next, Enabled;
    if ev.Cancel? {
      CancelFrame(s, ev.id);
    } else {
      LeaveFrame(s, ev);
    }
  }

  lemma ProcessGates(s: Sys, ev: Event, handed: set<JobId>)
    requires GatesRemembered(s, handed) && Enabled(s, ev) && (ev.Shutdown? || ev.Crash? || ev.RollForward? || ev.Reconcile?)
    ensures GatesRemembered(Next(s, ev), handed)
  {
    hide Next, Enabled, ReconcileRows, GateRemembered;
    ProcessFrame(s, ev);
  }

  lemma StartGates(s: Sys, ev: Event, handed: set<JobId>)
    requires GatesRemembered(s, handed) && Enabled(s, ev) && ev.Start?
    ensures GatesRemembered(Next(s, ev), handed)
  {
    hide Next, Enabled, AnswerTo;
    StartFrame(s, ev);
  }

  lemma GatesNext(s: Sys, ev: Event, handed: set<JobId>)
    requires Good(s) && GatesRemembered(s, handed) && Enabled(s, ev)
    ensures GatesRemembered(Next(s, ev), handed + HandedOverIn([ev]))
  {
    hide Next, Enabled, HandedOverIn, Good, GatesRemembered;
    HandedOverOne(ev);
    assert handed + {} == handed;
    match ev {
      case Start(_, _, _, _, _, _) => StartGates(s, ev, handed);
      case Job(id, e, saved) => JobGates(s, id, e, saved, handed);
      case CommitBegins(_) => CommitGates(s, ev, handed);
      case CommitLands(_) => CommitGates(s, ev, handed);
      case CommitFails(_, _) => CommitGates(s, ev, handed);
      case Finish(_, _) => CommitGates(s, ev, handed);
      case Cancel(_) => LeaveGates(s, ev, handed);
      case Release(_) => LeaveGates(s, ev, handed);
      case Unbind(_) => LeaveGates(s, ev, handed);
      case _ => ProcessGates(s, ev, handed);
    }
  }

  lemma HandedOverOne(ev: Event)
    ensures HandedOverIn([ev]) == if ev.Job? && ev.e.HandedOver? then {ev.id} else {}
  {
    assert ev.Job? && ev.e.HandedOver? ==> [ev][0].id in HandedOverIn([ev]);
  }

  lemma {:induction false} GatesAfter(s: Sys, events: seq<Event>, handed: set<JobId>)
    requires Good(s) && GatesRemembered(s, handed) && Runs(s, events)
    ensures GatesRemembered(After(s, events), handed + HandedOverIn(events))
    decreases |events|
  {
    hide Good, GatesRemembered, Enabled, Next;
    if events == [] {
      assert handed + HandedOverIn(events) == handed;
    } else {
      NextGood(s, events[0]);
      GatesNext(s, events[0], handed);
      GatesAfter(Next(s, events[0]), events[1..], handed + HandedOverIn([events[0]]));
      HandedOverSplits(events);
      assert handed + HandedOverIn([events[0]]) + HandedOverIn(events[1..]) == handed + HandedOverIn(events);
    }
  }

  lemma HandedOverSplits(events: seq<Event>)
    requires events != []
    ensures HandedOverIn(events) == HandedOverIn([events[0]]) + HandedOverIn(events[1..])
  {
    var first, rest := [events[0]], events[1..];
    forall id | id in HandedOverIn(events) ensures id in HandedOverIn(first) + HandedOverIn(rest) {
      var i :| 0 <= i < |events| && events[i].Job? && events[i].e.HandedOver? && events[i].id == id;
      assert if i == 0 then first[0] == events[0] else rest[i - 1] == events[i];
    }
    assert first[0] == events[0];
    assert forall i | 0 <= i < |rest| :: rest[i] == events[i + 1];
  }

  /** Over every run: a job that goes to verification comes from `seeding` exactly when its gated tool was handed
      over before the gate opened, and from `backing_up` exactly when it was not. */
  lemma SkipsBackingUpExactly(events: seq<Event>, id: JobId, saved: bool)
    requires Runs(FRESH, events) && Enabled(After(FRESH, events), Job(id, BackupEngine.Settle, saved))
    requires Next(After(FRESH, events), Job(id, BackupEngine.Settle, saved)).live[id].row.state.Verifying?
    ensures After(FRESH, events).live[id].row.state.Seeding? <==> id in HandedOverIn(events)
    ensures After(FRESH, events).live[id].row.state.BackingUp? <==> id !in HandedOverIn(events)
  {
    FreshGood();
    GatesAfter(FRESH, events, {});
    hide After, Runs;
  }

  // ---- liveness ----

  /** A saved sampler tick on a job that has already ended. */
  predicate LateTick(s: Sys, ev: Event, id: JobId) {
    ev.Job? && ev.id == id && ev.e.Tick? && ev.saved && id in s.live && Terminal(s.live[id].row.state)
  }

  function LateLiveness(s: Sys, ev: Event, id: JobId, sofar: Liveness): Liveness {
    if LateTick(s, ev, id) then ev.e.liveness else sofar
  }

  /** What the last late tick of this job said, if there was one. */
  function LastLate(s: Sys, events: seq<Event>, id: JobId, sofar: Liveness): Liveness
    requires Runs(s, events)
    decreases |events|
  {
    if events == [] then sofar else LastLate(Next(s, events[0]), events[1..], id, LateLiveness(s, events[0], id, sofar))
  }

  predicate LivenessIs(s: Sys, id: JobId, late: Liveness) {
    if id in s.rows && Terminal(s.rows[id].state) then s.rows[id].liveness == late else late.NoLiveness?
  }

  lemma JobEndsQuiet(l: Live, e: JobEvent, shutdown: bool)
    requires StateAt(l.at, l.row.state) && Can(l, e) && Writes(e) && Terminal(JobStep(l, e, shutdown).row.state)
    ensures JobStep(l, e, shutdown).row.liveness
         == if e.Tick? then e.liveness else NoLiveness
    ensures Terminal(l.row.state) ==> e.Tick?
    ensures e.Tick? ==> Terminal(l.row.state)
  {
  }

  lemma LivenessNext(s: Sys, ev: Event, id: JobId, late: Liveness)
    requires Good(s) && Enabled(s, ev) && LivenessIs(s, id, late)
    ensures LivenessIs(Next(s, ev), id, LateLiveness(s, ev, id, late))
  {
    hide Next, Enabled, JobStep, AnswerTo, Can, Writes, Good, StateAt, Early;
    match ev {
      case Start(_, _, _, _, _, _) => StartFrame(s, ev); NewIdUnknown(s);
      case Job(i, e, saved) =>
        JobFrame(s, i, e, saved);
        StoredEndIsAnEnd(s, i);
        if saved && Terminal(JobStep(s.live[i], e, s.shutdown).row.state) {
          JobEndsQuiet(s.live[i], e, s.shutdown);
        }
        if saved && Terminal(s.live[i].row.state) {
          JobStepRow(s.live[i], e, s.shutdown);
          AbsorbedStaysEnded(s.live[i].row, JobStep(s.live[i], e, s.shutdown).row);
        }
      case Cancel(i) => CancelFrame(s, i);
      case Release(_) => LeaveFrame(s, ev);
      case Unbind(_) => LeaveFrame(s, ev);
      case Shutdown => ProcessFrame(s, ev);
      case Crash => ProcessFrame(s, ev);
      case RollForward(_, _) => ProcessFrame(s, ev);
      case Reconcile(_) => ProcessFrame(s, ev);
      case _ => CommitFrame(s, ev); StoredEndIsAnEnd(s, ev.id); CommittingGoesOn(s.live[ev.id]);
    }
  }

  lemma AbsorbedStaysEnded(a: Row, b: Row)
    requires Absorbed(a, b) && Terminal(a.state)
    ensures Terminal(b.state)
  {
    assert Settle0(a).state == Settle0(b).state;
  }

  lemma CommittingGoesOn(l: Live)
    requires StateAt(l.at, l.row.state) && (l.at.AtCommit? || l.at.AtLanded?)
    ensures !Terminal(l.row.state)
  {
  }

  lemma {:induction false} LivenessAfter(s: Sys, events: seq<Event>, id: JobId, late: Liveness)
    requires Good(s) && Runs(s, events) && LivenessIs(s, id, late)
    ensures LivenessIs(After(s, events), id, LastLate(s, events, id, late))
    decreases |events|
  {
    hide Good, LivenessIs, Enabled, Next, LateLiveness;
    if events != [] {
      NextGood(s, events[0]);
      LivenessNext(s, events[0], id, late);
      LivenessAfter(Next(s, events[0]), events[1..], id, LateLiveness(s, events[0], id, late));
    }
  }

  /** Over every run, through failed writes, crashes and reconciliations: the liveness of a row stored as ended
      is what the last saved tick after the end said, and none when no tick came after it. */
  lemma EndedLivenessIsTheLastLateTick(events: seq<Event>, id: JobId)
    requires Runs(FRESH, events) && id in After(FRESH, events).rows && Terminal(After(FRESH, events).rows[id].state)
    ensures After(FRESH, events).rows[id].liveness == LastLate(FRESH, events, id, NoLiveness)
  {
    FreshGood();
    LivenessAfter(FRESH, events, id, NoLiveness);
  }

  /** The job's sampler is still running. */
  predicate Sampled(s: Sys, id: JobId) { id in s.live && s.live[id].sampling }

  lemma QuietStays(s: Sys, ev: Event, id: JobId)
    requires Good(s) && Enabled(s, ev) && id in s.rows && Terminal(s.rows[id].state) && !Sampled(s, id)
    ensures id in Next(s, ev).rows && Next(s, ev).rows[id] == s.rows[id] && !Sampled(Next(s, ev), id)
  {
    hide Next, Enabled, JobStep, AnswerTo, Can, Writes, Good, StateAt, Early;
    match ev {
      case Start(_, _, _, _, _, _) => StartFrame(s, ev); NewIdUnknown(s);
      case Job(i, e, saved) =>
        JobFrame(s, i, e, saved);
        StoredEndIsAnEnd(s, i);
        if i == id {
          QuietJob(s.live[i], e, s.shutdown);
        }
      case Cancel(i) => CancelFrame(s, i);
      case Release(_) => LeaveFrame(s, ev);
      case Unbind(_) => LeaveFrame(s, ev);
      case Shutdown => ProcessFrame(s, ev);
      case Crash => ProcessFrame(s, ev);
      case RollForward(_, _) => ProcessFrame(s, ev);
      case Reconcile(_) => ProcessFrame(s, ev);
      case _ => CommitFrame(s, ev); StoredEndIsAnEnd(s, ev.id); CommittingGoesOn(s.live[ev.id]);
    }
  }

  /** An ended job with no sampler has no write to come. */
  lemma QuietJob(l: Live, e: JobEvent, shutdown: bool)
    requires StateAt(l.at, l.row.state) && Terminal(l.row.state) && !l.sampling && Can(l, e)
    ensures !Writes(e) && !JobStep(l, e, shutdown).sampling
  {
  }

  lemma {:induction false} QuietForGood(s: Sys, events: seq<Event>, id: JobId)
    requires Good(s) && Runs(s, events) && id in s.rows && Terminal(s.rows[id].state) && !Sampled(s, id)
    ensures id in After(s, events).rows && After(s, events).rows[id] == s.rows[id]
    decreases |events|
  {
    hide Good, Enabled, Next, Sampled;
    if events != [] {
      QuietStays(s, events[0], id);
      NextGood(s, events[0]);
      QuietForGood(Next(s, events[0]), events[1..], id);
    }
  }

  /** A row stored as ended is the same, liveness included, after everything that may still happen, exactly when the
      job's sampler has stopped. */
  lemma EndedRowIsFixedExactly(s: Sys, id: JobId)
    requires Good(s) && id in s.rows && Terminal(s.rows[id].state)
    ensures (forall events | Runs(s, events) :: id in After(s, events).rows && After(s, events).rows[id] == s.rows[id])
       <==> !Sampled(s, id)
  {
    hide Good;
    if Sampled(s, id) {
      hide Terminal;
      var said := if s.rows[id].liveness.Active? then NoLiveness else Active;
      var tick := Job(id, Tick(said), true);
      assert [] + [tick] == [tick];
      RunsOn(s, [], tick);
      JobFrame(s, id, Tick(said), true);
      assert After(s, [tick]).rows[id].liveness == said;
    } else {
      forall events | Runs(s, events) ensures id in After(s, events).rows && After(s, events).rows[id] == s.rows[id] {
        QuietForGood(s, events, id);
      }
    }
  }

  // ---- instances, from an empty store ----

  lemma {:induction false} RunsOn(s: Sys, events: seq<Event>, ev: Event)
    requires Runs(s, events) && Enabled(After(s, events), ev)
    ensures Runs(s, events + [ev]) && After(s, events + [ev]) == Next(After(s, events), ev)
    decreases |events|
  {
    hide Enabled, Next;
    if events == [] {
      assert events + [ev] == [ev] && [ev][1..] == [];
    } else {
      RunsOn(Next(s, events[0]), events[1..], ev);
      assert (events + [ev])[1..] == events[1..] + [ev];
    }
  }

  /** Job 0 is running and its row is stored. */
  ghost predicate Going(events: seq<Event>, l: Live) {
    && Runs(FRESH, events)
    && var s := After(FRESH, events);
       LiveAt(s, 0) && s.live[0] == l && s.rows[0] == l.row && !s.shutdown
  }

  const REQUEST: Event := Start("d", None, None, Storages("m", {"m"}), true, true)

  lemma Begun() returns (events: seq<Event>, l: Live)
    ensures Going(events, l) && l == Live(NewRow(FRESH, "d", "m", None), AtBegin, NotKilled, false)
  {
    events := [REQUEST];
    l := Live(NewRow(FRESH, "d", "m", None), AtBegin, NotKilled, false);
    RunsOn(FRESH, [], REQUEST);
    assert [] + [REQUEST] == events;
  }

  lemma GoesOn(events: seq<Event>, l: Live, e: JobEvent) returns (more: seq<Event>, m: Live)
    requires Going(events, l) && Can(l, e)
    ensures Going(more, m) && m == JobStep(l, e, false) && more == events + [Job(0, e, Writes(e))]
  {
    more, m := events + [Job(0, e, Writes(e))], JobStep(l, e, false);
    RunsOn(FRESH, events, Job(0, e, Writes(e)));
    hide Runs, After, Can;
  }

  /** The sampler is signalled and not joined, so its last tick can land after the job has ended: the row is
      stored as terminal and still claims a live process. */
  lemma LateTickMarksAnEndedRow() returns (events: seq<Event>)
    ensures Runs(FRESH, events) && 0 in After(FRESH, events).rows
    ensures Terminal(After(FRESH, events).rows[0].state) && After(FRESH, events).rows[0].liveness.Active?
  {
    hide Going;
    var l: Live;
    events, l := Begun();
    events, l := GoesOn(events, l, BeginWait);
    events, l := GoesOn(events, l, DeviceSeen);
    events, l := GoesOn(events, l, PreflightPassed);
    events, l := GoesOn(events, l, Prepared(false));
    events, l := GoesOn(events, l, ToolStarted);
    events, l := GoesOn(events, l, ToolEnded(false, false));
    events, l := GoesOn(events, l, BackupEngine.Settle);
    events, l := GoesOn(events, l, Tick(Active));
    IsGoing(events, l);
  }

  lemma IsGoing(events: seq<Event>, l: Live)
    requires Going(events, l)
    ensures Runs(FRESH, events) && LiveAt(After(FRESH, events), 0)
    ensures forall e | Can(l, e) :: Enabled(After(FRESH, events), Job(0, e, Writes(e)))
    ensures After(FRESH, events).rows[0] == l.row && After(FRESH, events).live[0] == l
  {
  }

  /** Waiting at the gate, the area still being seeded. */
  lemma AtItsGate() returns (events: seq<Event>, l: Live)
    ensures Going(events, l) && l.at.AtGate? && l.row.state.Seeding? && l.kill.NotKilled?
  {
    hide Going;
    events, l := Begun();
    events, l := GoesOn(events, l, BeginWait);
    events, l := GoesOn(events, l, DeviceSeen);
    events, l := GoesOn(events, l, PreflightPassed);
    events, l := GoesOn(events, l, Prepared(true));
    events, l := GoesOn(events, l, ToolStarted);
  }

  /** On the gated path the tool can finish before its gate opens: the job goes from seeding to verifying without
      ever being `backing_up`. */
  lemma GatedToolMaySkipBackingUp() returns (events: seq<Event>)
    ensures Runs(FRESH, events) && Enabled(After(FRESH, events), Job(0, BackupEngine.Settle, true))
    ensures 0 in After(FRESH, events).rows && After(FRESH, events).rows[0].state.Seeding?
    ensures var t := Next(After(FRESH, events), Job(0, BackupEngine.Settle, true));
      0 in t.rows && t.rows[0].state.Verifying?
  {
    hide Going, Next, After, Runs, Enabled;
    var l: Live;
    events, l := AtItsGate();
    events, l := GoesOn(events, l, HandedOver);
    events, l := GoesOn(events, l, ToolEnded(true, true));
    IsGoing(events, l);
    var more, m := GoesOn(events, l, BackupEngine.Settle);
    IsGoing(more, m);
    RunsOn(FRESH, events, Job(0, BackupEngine.Settle, true));
  }

  /** A row the store refuses leaves its binding behind: bound does not mean running. */
  lemma RefusedInsertLeavesItsBinding() returns (events: seq<Event>)
    ensures Runs(FRESH, events) && After(FRESH, events).live == map[] && After(FRESH, events).rows == map[]
    ensures 0 in After(FRESH, events).bound
  {
    events := [REQUEST.(insertOk := false)];
    RunsOn(FRESH, [], events[0]);
    assert [] + [events[0]] == events;
  }
}
