/** A job's narration: runs of one repeated line are collapsed into the line and a closing count, and the
    stored tail is a bounded ring. */
module BackupLog {
  import opened Wrappers

  // ---- run-length narration ----

  /** What reaches the log: a line as it first appears, or the total that closes its run.  The rendered
      total is the line followed by ` ... xN total`; the tag keeps it apart from a line that reads the same. */
  datatype Entry = First(line: string) | Total(line: string, count: nat)

  /** Merges the two scanners' lines in the order they took the lock. */
  class Narration {
    var runLine: string
    var runCount: nat
    var out: seq<Entry>

    ghost predicate Valid()
      reads this
    {
      runCount == 0 <==> runLine == ""
    }

    constructor ()
      ensures Valid() && runCount == 0 && out == []
    {
      runLine, runCount, out := "", 0, [];
    }

    /** A narration line; blank ones never get here. */
    method LogLine(line: string)
      requires Valid() && line != ""
      modifies this
      ensures Valid() && (out, runLine, runCount) == Logged(old(out), old(runLine), old(runCount), line)
    {
      if line == runLine {
        runCount := runCount + 1;
        return;
      }
      var prev, n := runLine, runCount;
      runLine, runCount := line, 1;
      if n > 1 {
        out := out + [Total(prev, n)];
      }
      out := out + [First(line)];
    }

    /** Closes an open run, once the scanners are done. */
    method Flush()
      requires Valid()
      modifies this
      ensures Valid() && runCount == 0 && out == Flushed(old(out), old(runLine), old(runCount))
    {
      var prev, n := runLine, runCount;
      runLine, runCount := "", 0;
      if n > 1 {
        out := out + [Total(prev, n)];
      }
    }
  }

  function Logged(out: seq<Entry>, runLine: string, runCount: nat, line: string): (seq<Entry>, string, nat) {
    if line == runLine then (out, runLine, runCount + 1)
    else (Flushed(out, runLine, runCount) + [First(line)], line, 1)
  }

  function Flushed(out: seq<Entry>, runLine: string, runCount: nat): seq<Entry> {
    if runCount > 1 then out + [Total(runLine, runCount)] else out
  }

  /** The whole log of a sequence of lines, flushed at the end. */
  function Narrated(lines: seq<string>): (seq<Entry>, string, nat) {
    if lines == [] then ([], "", 0)
    else
      var (out, line, count) := Narrated(lines[..|lines| - 1]);
      Logged(out, line, count, lines[|lines| - 1])
  }

  function Compressed(lines: seq<string>): seq<Entry> {
    var (out, line, count) := Narrated(lines);
    Flushed(out, line, count)
  }

  function Repeat(line: string, n: nat): seq<string> { seq(n, _ => line) }

  /** Reading the log back: a first line is one line, a total the rest of its run. */
  function Expand(entries: seq<Entry>): seq<string> {
    if entries == [] then []
    else
      var last := entries[|entries| - 1];
      Expand(entries[..|entries| - 1])
      + match last
        case First(line) => [line]
        case Total(line, count) => if count == 0 then [] else Repeat(line, count - 1)
  }

  lemma ExpandNext(entries: seq<Entry>, e: Entry)
    ensures Expand(entries + [e]) == Expand(entries)
      + match e case First(line) => [line] case Total(line, count) => if count == 0 then [] else Repeat(line, count - 1)
  {
    assert (entries + [e])[..|entries|] == entries;
  }

  lemma FlushedExpands(out: seq<Entry>, line: string, count: nat, lines: seq<string>)
    requires count == 0 ==> Expand(out) == lines
    requires count > 0 ==> Expand(out) + Repeat(line, count - 1) == lines
    ensures Expand(Flushed(out, line, count)) == lines
  {
    if count > 1 {
      ExpandNext(out, Total(line, count));
    } else if count == 1 {
      assert Repeat(line, 0) == [];
    }
  }

  /** The log so far and its open run, which has been written out once, hold exactly these lines. */
  predicate Holds(out: seq<Entry>, line: string, count: nat, lines: seq<string>) {
    && (count == 0 <==> line == "") && (lines == [] <==> count == 0)
    && (if count == 0 then Expand(out) == lines else Expand(out) + Repeat(line, count - 1) == lines)
  }

  lemma RunGoesOn(out: seq<Entry>, line: string, count: nat, lines: seq<string>)
    requires Holds(out, line, count, lines) && line != ""
    ensures Holds(out, line, count + 1, lines + [line])
  {
    hide Expand;
    assert Repeat(line, count) == Repeat(line, count - 1) + [line];
    assert Expand(out) + Repeat(line, count) == Expand(out) + Repeat(line, count - 1) + [line];
  }

  lemma RunIsClosed(out: seq<Entry>, line: string, count: nat, lines: seq<string>, next: string)
    requires Holds(out, line, count, lines) && next != ""
    ensures Holds(Flushed(out, line, count) + [First(next)], next, 1, lines + [next])
  {
    FlushedExpands(out, line, count, lines);
    hide Expand, Flushed;
    ExpandNext(Flushed(out, line, count), First(next));
    assert Repeat(next, 0) == [];
  }

  lemma {:induction false} NarratedExpands(lines: seq<string>)
    requires forall l | l in lines :: l != ""
    ensures Holds(Narrated(lines).0, Narrated(lines).1, Narrated(lines).2, lines)
  {
    hide Holds, Flushed, Expand;
    if lines == [] {
      NothingHeld();
    } else {
      var n := |lines| - 1;
      var before, l := lines[..n], lines[n];
      assert lines == before + [l] && l in lines;
      assert forall b | b in before :: b in lines;
      NarratedExpands(before);
      var (out, line, count) := Narrated(before);
      if l == line {
        RunGoesOn(out, line, count, before);
      } else {
        RunIsClosed(out, line, count, before, l);
      }
    }
  }

  lemma NothingHeld()
    ensures Holds([], "", 0, [])
  {
  }

  /** Compression is lossless: the flushed log expands to exactly the lines that were narrated. */
  lemma {:induction false} CompressionIsLossless(lines: seq<string>)
    requires forall l | l in lines :: l != ""
    ensures Expand(Compressed(lines)) == lines
  {
    NarratedExpands(lines);
    hide Narrated, Expand, Flushed;
    var (out, line, count) := Narrated(lines);
    FlushedExpands(out, line, count, lines);
  }

  /** A line that repeats the one before it adds nothing to the log until its run is closed. */
  lemma RepeatsAreQuiet(lines: seq<string>, line: string)
    requires lines != [] && lines[|lines| - 1] == line && line != ""
    ensures Narrated(lines + [line]).0 == Narrated(lines).0
  {
    assert (lines + [line])[..|lines|] == lines;
  }

  /** The live pane is never silent through a run: a line that differs from the one before it is out at once. */
  lemma FirstOccurrenceIsImmediate(lines: seq<string>, line: string)
    requires line != Narrated(lines).1
    ensures var out := Narrated(lines + [line]).0;
      out != [] && out[|out| - 1] == First(line)
  {
    assert (lines + [line])[..|lines|] == lines;
  }

  // ---- the bounded ring ----

  const MAX_BYTES: nat := 262144
  const MAX_JOBS: nat := 256

  /** The longest tail within the cap. */
  function Tail(s: string, cap: nat): (r: string)
    ensures |r| <= cap
  {
    if |s| > cap then s[|s| - cap..] else s
  }

  /** It is all of a text that fits, and of any other the end, as much as fits. */
  lemma TailIsTheEnd(s: string, cap: nat)
    ensures if |s| <= cap then Tail(s, cap) == s else |Tail(s, cap)| == cap && s == s[..|s| - cap] + Tail(s, cap)
  {
  }

  /** Capping as it grows keeps what capping at the end would. */
  lemma TailOfTail(s: string, chunk: string, cap: nat)
    ensures Tail(Tail(s, cap) + chunk, cap) == Tail(s + chunk, cap)
  {
  }

  predicate NoRepeats(order: seq<string>) { forall i, j | 0 <= i < j < |order| :: order[i] != order[j] }

  ghost predicate Keyed(logs: map<string, string>, order: seq<string>) { forall j :: j in logs <==> j in order }

  predicate Capped(logs: map<string, string>, whole: map<string, string>) {
    whole.Keys == logs.Keys && forall j | j in logs :: logs[j] == Tail(whole[j], MAX_BYTES)
  }

  lemma DroppedFirst(m: map<string, string>, order: seq<string>)
    requires order != [] && NoRepeats(order) && Keyed(m, order)
    ensures NoRepeats(order[1..]) && Keyed(m - {order[0]}, order[1..])
  {
  }

  lemma AddedLast(m: map<string, string>, order: seq<string>, job: string, v: string)
    requires NoRepeats(order) && Keyed(m, order) && job !in order
    ensures NoRepeats(order + [job]) && Keyed(m[job := v], order + [job])
  {
  }

  lemma NotKeyed(m: map<string, string>, order: seq<string>, job: string)
    requires Keyed(m, order)
    ensures job in m <==> job in order
  {
  }

  lemma Rewritten(m: map<string, string>, order: seq<string>, job: string, v: string)
    requires Keyed(m, order) && job in m
    ensures Keyed(m[job := v], order)
  {
  }

  lemma CappedAppend(logs: map<string, string>, whole: map<string, string>, job: string, chunk: string)
    requires Capped(logs, whole) && job in logs
    ensures Capped(logs[job := Tail(logs[job] + chunk, MAX_BYTES)], whole[job := whole[job] + chunk])
  {
    TailOfTail(whole[job], chunk, MAX_BYTES);
  }

  lemma CappedDrop(logs: map<string, string>, whole: map<string, string>, job: string)
    requires Capped(logs, whole)
    ensures Capped(logs - {job}, whole - {job})
  {
  }

  lemma CappedAdmit(logs: map<string, string>, whole: map<string, string>, job: string)
    requires Capped(logs, whole)
    ensures Capped(logs[job := ""], whole[job := ""])
  {
  }

  class LogStore {
    var logs: map<string, string>
    var order: seq<string>
    /** Everything appended to each retained job since it was last admitted. */
    ghost var whole: map<string, string>

    ghost predicate Valid()
      reads this
    {
      Keyed(logs, order) && NoRepeats(order) && |order| <= MAX_JOBS && Capped(logs, whole)
    }

    constructor ()
      ensures Valid() && logs == map[] && order == []
    {
      logs, order, whole := map[], [], map[];
    }

    /** Admits a job with an empty log, evicting the oldest past the limit. */
    method Admit(job: string)
      requires Valid() && job !in logs
      modifies this
      ensures Valid()
      ensures var full := |old(order)| == MAX_JOBS;
        && order == (if full then old(order)[1..] else old(order)) + [job]
        && whole == (if full then old(whole) - {old(order)[0]} else old(whole))[job := ""]
    {
      hide NoRepeats, Capped, Keyed;
      ghost var was := order;
      NotKeyed(logs, order, job);
      AddedLast(logs, order, job, "");
      CappedAdmit(logs, whole, job);
      order := order + [job];
      logs := logs[job := ""];
      whole := whole[job := ""];
      ghost var allOrder, allWhole := order, whole;
      while |order| > MAX_JOBS
        invariant |order| <= MAX_JOBS + 1 && Keyed(logs, order) && NoRepeats(order) && Capped(logs, whole)
        invariant if |order| > MAX_JOBS || |was| < MAX_JOBS then order == allOrder && whole == allWhole
                  else order == allOrder[1..] && whole == allWhole - {allOrder[0]}
      {
        DroppedFirst(logs, order);
        CappedDrop(logs, whole, order[0]);
        logs := logs - {order[0]};
        whole := whole - {order[0]};
        order := order[1..];
      }
      if |was| == MAX_JOBS {
        assert allOrder[1..] == was[1..] + [job] && allOrder[0] == was[0];
        assert was[0] in was;
        assert allWhole - {was[0]} == (old(whole) - {was[0]})[job := ""];
      }
    }

    /** Appends to a job's tail.  A job not retained is admitted first, at the cost of the oldest. */
    method Append(job: string, chunk: string)
      requires Valid()
      modifies this
      ensures Valid() && job in logs
      ensures var full := job !in old(logs) && |old(order)| == MAX_JOBS;
        && order == (if full then old(order)[1..] else old(order)) + (if job in old(logs) then [] else [job])
        && whole == (if full then old(whole) - {old(order)[0]} else old(whole))
                    [job := (if job in old(whole) then old(whole)[job] else "") + chunk]
    {
      hide NoRepeats, Keyed;
      if job !in logs {
        Admit(job);
      }
      Rewritten(logs, order, job, Tail(logs[job] + chunk, MAX_BYTES));
      CappedAppend(logs, whole, job, chunk);
      hide Capped;
      var buf := logs[job] + chunk;
      if |buf| > MAX_BYTES {
        buf := buf[|buf| - MAX_BYTES..];
      }
      logs := logs[job := buf];
      whole := whole[job := whole[job] + chunk];
    }

    method Get(job: string) returns (tail: Option<string>)
      requires Valid()
      ensures tail == if job in logs then Some(Tail(whole[job], MAX_BYTES)) else None
    {
      tail := if job in logs then Some(logs[job]) else None;
    }
  }
}
