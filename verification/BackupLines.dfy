/** What one classified line of the tool's output does: to the log, to what the sampler and the outcome read,
    and to the job's row. */
module BackupLines {
  import opened Wrappers
  import opened BackupEngine

  /** A line as the parser classifies it.  `size` is a progress redraw's size pair, `bytes` its figure when it
      may be published. */
  datatype Parsed = Parsed(
    blank: bool, passcode: bool, receiving: bool, success: bool, failReason: Option<string>,
    percent: Option<nat>, size: bool, bytes: Option<nat>, files: Option<nat>)

  /** What the sampler and the end of the run read. */
  datatype Signs = Signs(paused: bool, outputSince: bool, success: bool, failReason: Option<string>)

  /** A pure redraw: it moves the bar and says nothing. */
  predicate Redraw(p: Parsed) {
    (p.percent.Some? || p.size) && !p.passcode && !p.receiving && !p.success && p.failReason.None?
  }

  predicate Narration(p: Parsed) { !Redraw(p) && !p.blank }

  predicate MovesRow(p: Parsed) { p.passcode || p.receiving || p.percent.Some? || p.bytes.Some? || p.files.Some? }

  function Noted(s: Signs, p: Parsed): Signs {
    Signs(
      if p.receiving then false else if p.passcode then true else s.paused,
      true, s.success || p.success, if p.failReason.Some? then p.failReason else s.failReason)
  }

  class Supervision {
    var signs: Signs
    var logged: seq<Parsed>

    constructor ()
      ensures signs == Signs(false, false, false, None) && logged == []
    {
      signs, logged := Signs(false, false, false, None), [];
    }

    /** The row change this line makes is the engine's `Line` event, when it makes one. */
    method HandleLine(p: Parsed) returns (event: Option<JobEvent>)
      modifies this
      ensures signs == Noted(old(signs), p)
      ensures logged == old(logged) + if Narration(p) then [p] else []
      ensures event == if MovesRow(p) then Some(Line(p.passcode, p.receiving, p.percent)) else None
    {
      var redraw := (p.percent.Some? || p.size) && !p.passcode && !p.receiving && !p.success && p.failReason.None?;
      if !redraw && !p.blank {
        logged := logged + [p];
      }
      signs := signs.(outputSince := true);
      if p.success {
        signs := signs.(success := true);
      }
      if p.passcode {
        signs := signs.(paused := true);
      }
      if p.receiving {
        signs := signs.(paused := false);
      }
      if p.failReason.Some? {
        signs := signs.(failReason := p.failReason);
      }
      if !p.passcode && !p.receiving && p.percent.None? && p.bytes.None? && p.files.None? {
        return None;
      }
      return Some(Line(p.passcode, p.receiving, p.percent));
    }
  }

  function NotedAll(s: Signs, lines: seq<Parsed>): Signs {
    if lines == [] then s else Noted(NotedAll(s, lines[..|lines| - 1]), lines[|lines| - 1])
  }

  /** The last line of these that says anything about the passcode. */
  predicate LastMarker(lines: seq<Parsed>, i: nat) {
    i < |lines| && (lines[i].passcode || lines[i].receiving)
    && forall j | i < j < |lines| :: !lines[j].passcode && !lines[j].receiving
  }

  /** The last line of these that gives a reason to fail. */
  predicate LastReason(lines: seq<Parsed>, i: nat) {
    i < |lines| && lines[i].failReason.Some? && forall j | i < j < |lines| :: lines[j].failReason.None?
  }

  /** Whatever order the two pipes' lines arrived in, the clock is paused exactly when the last line to say
      anything about the passcode asked for it and did not announce files. */
  lemma {:induction false} PausedByTheLastMarker(lines: seq<Parsed>)
    ensures NotedAll(Signs(false, false, false, None), lines).paused
      <==> exists i: nat :: LastMarker(lines, i) && !lines[i].receiving
  {
    if lines != [] {
      var n := |lines| - 1;
      var before, last := lines[..n], lines[n];
      PausedByTheLastMarker(before);
      if last.passcode || last.receiving {
        assert LastMarker(lines, n);
        assert forall i: nat :: LastMarker(lines, i) ==> i == n;
      } else {
        assert forall i: nat :: LastMarker(lines, i) <==> LastMarker(before, i);
      }
    }
  }

  lemma {:induction false} SuccessIsSaid(lines: seq<Parsed>)
    ensures NotedAll(Signs(false, false, false, None), lines).success <==> exists i :: 0 <= i < |lines| && lines[i].success
  {
    if lines != [] {
      SuccessIsSaid(lines[..|lines| - 1]);
    }
  }

  /** The reason kept is the last one any line gave. */
  lemma {:induction false} ReasonIsTheLast(lines: seq<Parsed>)
    ensures var why := NotedAll(Signs(false, false, false, None), lines).failReason;
      && (why.None? <==> forall i | 0 <= i < |lines| :: lines[i].failReason.None?)
      && (why.Some? <==> exists i: nat :: LastReason(lines, i))
      && forall i: nat | LastReason(lines, i) :: lines[i].failReason == why
  {
    if lines != [] {
      var n := |lines| - 1;
      var before, last := lines[..n], lines[n];
      ReasonIsTheLast(before);
      if last.failReason.Some? {
        assert LastReason(lines, n);
      } else {
        assert forall i: nat :: LastReason(before, i) <==> LastReason(lines, i);
      }
    }
  }

  function Narrated(lines: seq<Parsed>): seq<Parsed> {
    if lines == [] then []
    else Narrated(lines[..|lines| - 1]) + if Narration(lines[|lines| - 1]) then [lines[|lines| - 1]] else []
  }

  /** An empty line matches none of the parser's patterns. */
  predicate SaysNothing(p: Parsed) { !p.passcode && !p.receiving && !p.success && p.failReason.None? }

  lemma {:induction false} NotedAppend(s: Signs, lines: seq<Parsed>, p: Parsed)
    ensures NotedAll(s, lines + [p]) == Noted(NotedAll(s, lines), p)
  {
    assert (lines + [p])[..|lines|] == lines;
  }

  /** Two supervisions that agree on everything that decides the outcome. */
  predicate SameOutcome(a: Signs, b: Signs) {
    a.paused == b.paused && a.success == b.success && a.failReason == b.failReason
  }

  lemma NotedKeepsAgreement(a: Signs, b: Signs, p: Parsed)
    requires SameOutcome(a, b)
    ensures SameOutcome(Noted(a, p), Noted(b, p))
    ensures SaysNothing(p) || Redraw(p) ==> SameOutcome(Noted(a, p), b)
  {
  }

  /** The filter loses nothing that decides: whether the clock was paused, whether the tool said it succeeded
      and the reason it gave can be read back from the logged lines alone, redraws and empty lines left
      out. */
  lemma {:induction false} TheLogTellsTheOutcome(s: Signs, lines: seq<Parsed>)
    requires forall i | 0 <= i < |lines| :: lines[i].blank ==> SaysNothing(lines[i])
    ensures SameOutcome(NotedAll(s, lines), NotedAll(s, Narrated(lines)))
  {
    hide Noted, Redraw, SaysNothing;
    if lines != [] {
      var n := |lines| - 1;
      var before, last := lines[..n], lines[n];
      TheLogTellsTheOutcome(s, before);
      NotedKeepsAgreement(NotedAll(s, before), NotedAll(s, Narrated(before)), last);
      if Narration(last) {
        NotedAppend(s, Narrated(before), last);
      } else {
        assert Narrated(lines) == Narrated(before);
        assert lines[n] == last;
      }
    }
  }

  /** Exactly which lines are logged: those with something to read that asks, announces, succeeds or fails, or that moves no
      bar. */
  lemma {:induction false} LoggedExactly(lines: seq<Parsed>, p: Parsed)
    ensures p in Narrated(lines) <==>
      && p in lines && !p.blank
      && (p.passcode || p.receiving || p.success || p.failReason.Some? || (p.percent.None? && !p.size))
  {
    if lines != [] {
      LoggedExactly(lines[..|lines| - 1], p);
      assert lines == lines[..|lines| - 1] + [lines[|lines| - 1]];
    }
  }

  /** Exactly which lines touch the row: a marker of the passcode or of files, a percentage, a byte figure or the closing
      count. */
  lemma RowMovesExactly(p: Parsed)
    ensures MovesRow(p) <==> !(!p.passcode && !p.receiving && p.percent == None && p.bytes == None && p.files == None)
  {
  }

  /** What a supervision has noted and logged is the fold of the lines it has handled, extended by each. */
  predicate Handled(v: Supervision, lines: seq<Parsed>)
    reads v
  {
    v.signs == NotedAll(Signs(false, false, false, None), lines) && v.logged == Narrated(lines)
  }

  method HandleAll(lines: seq<Parsed>) returns (v: Supervision)
    ensures fresh(v) && Handled(v, lines)
  {
    v := new Supervision();
    for i := 0 to |lines|
      invariant fresh(v) && Handled(v, lines[..i])
    {
      assert lines[..i + 1][..i] == lines[..i];
      var _ := v.HandleLine(lines[i]);
    }
    assert lines[..|lines|] == lines;
  }
}
