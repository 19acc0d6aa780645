/** The liveness sampler: a backup is judged by activity, staged, and killed only after a full timeout of
    none. */
module BackupSampler {
  import opened Wrappers
  import opened BackupEngine

  /** A few stats of the work tree: entries, directory time, manifest size and time. */
  datatype Fingerprint = Fingerprint(count: int, dirTime: int, manifestSize: int, manifestTime: int)

  /** What one tick sees: the clock, whether the job waits for a passcode, whether output arrived since the
      last tick, the tree, and the free space when it could be read. */
  datatype Tick = Tick(now: int, paused: bool, output: bool, tree: Fingerprint, free: Option<nat>)

  datatype Watch = Watch(tree: Fingerprint, lastChange: int, started: bool, warnedLow: bool)

  datatype Verdict = Verdict(liveness: Liveness, kill: bool, low: Option<nat>)

  // Code constants; the timeout is positive.
  datatype Limits = Limits(timeout: nat, floor: nat)

  predicate Alive(w: Watch, t: Tick) { t.output || t.tree != w.tree }

  /** The tick resets the idle clock: nothing has started yet, the user has the phone, or there is activity. */
  predicate Resets(w: Watch, t: Tick) { !w.started || t.paused || Alive(w, t) }

  function Low(w: Watch, t: Tick, limits: Limits): Option<nat> {
    if !w.warnedLow && t.free.Some? && t.free.value < limits.floor then t.free else None
  }

  function Observe(w: Watch, t: Tick, limits: Limits): Watch {
    Watch(
      if Resets(w, t) then t.tree else w.tree,
      if Resets(w, t) then t.now else w.lastChange,
      w.started || Alive(w, t),
      w.warnedLow || Low(w, t, limits).Some?)
  }

  function Stage(idle: int, timeout: nat): Liveness {
    if idle >= timeout / 2 then SuspectedStall else if idle >= timeout / 6 then SilentButConnected else Active
  }

  function Judge(w: Watch, t: Tick, limits: Limits): Verdict {
    if Resets(w, t) then Verdict(Active, false, Low(w, t, limits))
    else Verdict(
      if t.now - w.lastChange >= limits.timeout then SuspectedStall else Stage(t.now - w.lastChange, limits.timeout),
      t.now - w.lastChange >= limits.timeout, Low(w, t, limits))
  }

  class Sampler {
    const limits: Limits
    var lastTree: Fingerprint
    var lastChange: int
    var started: bool
    var warnedLow: bool

    ghost function State(): Watch
      reads this
    {
      Watch(lastTree, lastChange, started, warnedLow)
    }

    constructor (l: Limits, tree: Fingerprint, now: int)
      ensures limits == l && State() == Watch(tree, now, false, false)
    {
      limits, lastTree, lastChange, started, warnedLow := l, tree, now, false, false;
    }

    method Sample(t: Tick) returns (liveness: Liveness, kill: bool, low: Option<nat>)
      modifies this
      ensures State() == Observe(old(State()), t, limits)
      ensures Verdict(liveness, kill, low) == Judge(old(State()), t, limits)
    {
      low := None;
      if !warnedLow && t.free.Some? && t.free.value < limits.floor {
        warnedLow := true;
        low := t.free;
      }
      var active := t.output || t.tree != lastTree;
      if !started || t.paused || active {
        if active {
          started := true;
        }
        lastChange := t.now;
        lastTree := t.tree;
        return Active, false, low;
      }
      var idle := t.now - lastChange;
      if idle >= limits.timeout {
        return SuspectedStall, true, low;
      } else if idle >= limits.timeout / 2 {
        return SuspectedStall, false, low;
      } else if idle >= limits.timeout / 6 {
        return SilentButConnected, false, low;
      }
      return Active, false, low;
    }
  }

  // ---- over a whole run of ticks ----

  function Watched(w: Watch, ticks: seq<Tick>, limits: Limits): Watch {
    if ticks == [] then w else Observe(Watched(w, ticks[..|ticks| - 1], limits), ticks[|ticks| - 1], limits)
  }

  function VerdictAt(w: Watch, ticks: seq<Tick>, n: nat, limits: Limits): Verdict
    requires n < |ticks|
  {
    Judge(Watched(w, ticks[..n], limits), ticks[n], limits)
  }

  /** Something showed at tick `i`: output, or a tree other than the one before, `start` when the run began. */
  predicate Moved(start: Fingerprint, ticks: seq<Tick>, i: nat)
    requires i < |ticks|
  {
    ticks[i].output || ticks[i].tree != if i == 0 then start else ticks[i - 1].tree
  }

  predicate MovedBy(start: Fingerprint, ticks: seq<Tick>, n: nat)
    requires n <= |ticks|
  {
    exists m :: 0 <= m < n && Moved(start, ticks, m)
  }

  /** Tick `k` is the last sign of life before tick `n`: something had moved by then, tick `k` itself moved or waited
      for the passcode, and no later tick did either. */
  predicate SilentSince(start: Fingerprint, ticks: seq<Tick>, k: nat, n: nat) {
    && k < n < |ticks|
    && MovedBy(start, ticks, k + 1)
    && (ticks[k].paused || Moved(start, ticks, k))
    && (forall j | k < j <= n :: !ticks[j].paused && !Moved(start, ticks, j))
  }

  lemma WatchedNext(w: Watch, ticks: seq<Tick>, n: nat, limits: Limits)
    requires n < |ticks|
    ensures Watched(w, ticks[..n + 1], limits) == Observe(Watched(w, ticks[..n], limits), ticks[n], limits)
  {
    assert ticks[..n + 1][..n] == ticks[..n];
  }

  /** What the sampler remembers: always the last tick's tree, and that it has started once anything moved. */
  lemma {:induction false} Remembers(w: Watch, ticks: seq<Tick>, n: nat, limits: Limits)
    requires n <= |ticks| && !w.started
    ensures var now := Watched(w, ticks[..n], limits);
      && now.tree == (if n == 0 then w.tree else ticks[n - 1].tree)
      && (now.started <==> MovedBy(w.tree, ticks, n))
    ensures n < |ticks| ==> (Alive(Watched(w, ticks[..n], limits), ticks[n]) <==> Moved(w.tree, ticks, n))
  {
    if n > 0 {
      Remembers(w, ticks, n - 1, limits);
      WatchedNext(w, ticks, n - 1, limits);
    }
  }

  /** Through a silence the sampler holds on to the last sign of life. */
  lemma {:induction false} SilenceHolds(w: Watch, ticks: seq<Tick>, k: nat, n: nat, limits: Limits)
    requires !w.started && SilentSince(w.tree, ticks, k, n)
    ensures var before := Watched(w, ticks[..n], limits); before.lastChange == ticks[k].now && !Resets(before, ticks[n])
    decreases n
  {
    Remembers(w, ticks, n, limits);
    WatchedNext(w, ticks, n - 1, limits);
    if k < n - 1 {
      SilenceHolds(w, ticks, k, n - 1, limits);
    } else {
      Remembers(w, ticks, k, limits);
    }
    var m :| 0 <= m < k + 1 && Moved(w.tree, ticks, m);
    assert MovedBy(w.tree, ticks, n);
  }

  /** A tick that is not a sign of life belongs to some silence. */
  lemma {:induction false} SilenceBegins(w: Watch, ticks: seq<Tick>, n: nat, limits: Limits) returns (k: nat)
    requires n < |ticks| && !w.started && !Resets(Watched(w, ticks[..n], limits), ticks[n])
    ensures SilentSince(w.tree, ticks, k, n)
    decreases n
  {
    Remembers(w, ticks, n, limits);
    assert ticks[..0] == [];
    WatchedNext(w, ticks, n - 1, limits);
    Remembers(w, ticks, n - 1, limits);
    if Resets(Watched(w, ticks[..n - 1], limits), ticks[n - 1]) {
      k := n - 1;
    } else {
      k := SilenceBegins(w, ticks, n - 1, limits);
    }
  }

  /** The sampler kills at a tick exactly when something had moved, and since the last tick that moved or waited for
      the passcode at least the timeout has passed: a condition on the ticks, whatever the sampler remembers. */
  lemma KillsExactly(w: Watch, ticks: seq<Tick>, n: nat, limits: Limits)
    requires n < |ticks| && !w.started
    ensures VerdictAt(w, ticks, n, limits).kill
       <==> exists k: nat :: SilentSince(w.tree, ticks, k, n) && ticks[n].now - ticks[k].now >= limits.timeout
  {
    if VerdictAt(w, ticks, n, limits).kill {
      var k := SilenceBegins(w, ticks, n, limits);
      SilenceHolds(w, ticks, k, n, limits);
      assert SilentSince(w.tree, ticks, k, n) && ticks[n].now - ticks[k].now >= limits.timeout;
    }
    if k: nat :| SilentSince(w.tree, ticks, k, n) && ticks[n].now - ticks[k].now >= limits.timeout {
      SilenceHolds(w, ticks, k, n, limits);
    }
  }

  /** A silence that lasts is killed in time: with ticks no further apart than the interval, the first tick
      past the timeout kills, before the timeout plus one interval. */
  lemma {:induction false} SilenceIsKilledInTime(w: Watch, ticks: seq<Tick>, k: nat, n: nat, limits: Limits, interval: nat) returns (at: nat)
    requires !w.started && SilentSince(w.tree, ticks, k, n) && limits.timeout > 0
    requires forall j | k < j <= n :: ticks[j].now - ticks[j - 1].now <= interval
    requires ticks[n].now - ticks[k].now >= limits.timeout
    ensures k < at <= n && VerdictAt(w, ticks, at, limits).kill
    ensures limits.timeout <= ticks[at].now - ticks[k].now < limits.timeout + interval
    decreases n
  {
    if n > k + 1 && ticks[n - 1].now - ticks[k].now >= limits.timeout {
      at := SilenceIsKilledInTime(w, ticks, k, n - 1, limits, interval);
    } else {
      at := n;
      SilenceHolds(w, ticks, k, n, limits);
    }
  }

  /** What a tick shows, and when it kills, on the ticks alone: within a silence the stages are a sixth and a half of the
      timeout after the last sign of life, and the kill a whole one; outside a silence the tree is alive. */
  lemma ShowsExactly(w: Watch, ticks: seq<Tick>, n: nat, limits: Limits, k: nat)
    requires n < |ticks| && !w.started
    ensures SilentSince(w.tree, ticks, k, n) ==>
      var idle, v := ticks[n].now - ticks[k].now, VerdictAt(w, ticks, n, limits);
      && (v.kill <==> idle >= limits.timeout)
      && (idle < limits.timeout && idle < limits.timeout / 2 && idle < limits.timeout / 6 ==> v.liveness.Active?)
      && (idle < limits.timeout && idle < limits.timeout / 2 && idle >= limits.timeout / 6 ==> v.liveness.SilentButConnected?)
      && (idle >= limits.timeout || idle >= limits.timeout / 2 ==> v.liveness.SuspectedStall?)
    ensures (forall j: nat :: !SilentSince(w.tree, ticks, j, n)) ==>
      VerdictAt(w, ticks, n, limits).liveness.Active? && !VerdictAt(w, ticks, n, limits).kill
  {
    if SilentSince(w.tree, ticks, k, n) {
      SilenceHolds(w, ticks, k, n, limits);
    }
    if !Resets(Watched(w, ticks[..n], limits), ticks[n]) {
      var j := SilenceBegins(w, ticks, n, limits);
    }
  }

  /** Low space is reported at the first tick that reads less than the floor, with what it read, and at no other. */
  lemma {:induction false} LowSpaceIsSaidExactly(w: Watch, ticks: seq<Tick>, n: nat, limits: Limits)
    requires n < |ticks| && !w.warnedLow
    ensures VerdictAt(w, ticks, n, limits).low
      == if IsLow(ticks[n], limits) && forall j | 0 <= j < n :: !IsLow(ticks[j], limits) then ticks[n].free else None
  {
    WarnedExactly(w, ticks, n, limits);
  }

  predicate IsLow(t: Tick, limits: Limits) { t.free.Some? && t.free.value < limits.floor }

  lemma {:induction false} WarnedExactly(w: Watch, ticks: seq<Tick>, n: nat, limits: Limits)
    requires n <= |ticks| && !w.warnedLow
    ensures Watched(w, ticks[..n], limits).warnedLow <==> exists j :: 0 <= j < n && IsLow(ticks[j], limits)
  {
    if n > 0 {
      WarnedExactly(w, ticks, n - 1, limits);
      WatchedNext(w, ticks, n - 1, limits);
    }
  }

  function Severity(l: Liveness): nat {
    match l
    case Active => 0
    case SilentButConnected => 1
    case SuspectedStall => 2
    case NoLiveness => 0
  }

  /** Within one silence the stage only advances. */
  lemma {:induction false} StagesAdvance(w: Watch, ticks: seq<Tick>, k: nat, i: nat, j: nat, limits: Limits)
    requires !w.started && SilentSince(w.tree, ticks, k, j) && k < i <= j && ticks[i].now <= ticks[j].now
    ensures Severity(VerdictAt(w, ticks, i, limits).liveness) <= Severity(VerdictAt(w, ticks, j, limits).liveness)
    ensures VerdictAt(w, ticks, i, limits).kill ==> VerdictAt(w, ticks, j, limits).kill
  {
    assert SilentSince(w.tree, ticks, k, i);
    SilenceHolds(w, ticks, k, i, limits);
    SilenceHolds(w, ticks, k, j, limits);
  }

  lemma {:induction false} LowRemembered(w: Watch, ticks: seq<Tick>, i: nat, n: nat, limits: Limits)
    requires i < n <= |ticks| && VerdictAt(w, ticks, i, limits).low.Some?
    ensures Watched(w, ticks[..n], limits).warnedLow
    decreases n
  {
    WatchedNext(w, ticks, n - 1, limits);
    if i < n - 1 {
      LowRemembered(w, ticks, i, n - 1, limits);
    }
  }

  /** Low space is reported once over a whole run. */
  lemma {:induction false} LowSpaceIsSaidOnce(w: Watch, ticks: seq<Tick>, i: nat, j: nat, limits: Limits)
    requires i < |ticks| && j < |ticks|
    requires VerdictAt(w, ticks, i, limits).low.Some? && VerdictAt(w, ticks, j, limits).low.Some?
    ensures i == j
  {
    if i < j {
      LowRemembered(w, ticks, i, j, limits);
    } else if j < i {
      LowRemembered(w, ticks, j, i, limits);
    }
  }
}
