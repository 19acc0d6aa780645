/** The published byte figure: the tool counts each batch from zero, and the engine adds the batches up. */
module BackupBytes {
  import opened Wrappers

  /** What a line says about bytes: a batch begins, and a figure for the batch in progress. */
  datatype Line = Line(batch: bool, figure: Option<nat>)

  class Accumulator {
    var banked: nat
    var current: nat
    var published: nat

    constructor ()
      ensures banked == 0 && current == 0 && published == 0
    {
      banked, current, published := 0, 0, 0;
    }

    method Take(l: Line)
      modifies this
      ensures Figures(banked, current, published) == Taken(old(Figures(banked, current, published)), l)
    {
      if l.batch {
        banked := banked + current;
        current := 0;
      }
      if l.figure.Some? {
        current := l.figure.value;
        published := banked + current;
      }
    }
  }

  datatype Figures = Figures(banked: nat, current: nat, published: nat)

  function Taken(f: Figures, l: Line): Figures {
    var banked := if l.batch then f.banked + f.current else f.banked;
    var current := if l.figure.Some? then l.figure.value else if l.batch then 0 else f.current;
    Figures(banked, current, if l.figure.Some? then banked + current else f.published)
  }

  function TakenAll(lines: seq<Line>): Figures {
    if lines == [] then Figures(0, 0, 0) else Taken(TakenAll(lines[..|lines| - 1]), lines[|lines| - 1])
  }

  // ---- the meaning: batches and their last figures ----

  /** The figures of each batch, in order; the last batch is the one in progress. */
  function Batches(lines: seq<Line>): (b: seq<seq<nat>>)
    ensures b != []
  {
    if lines == [] then [[]]
    else
      var earlier := Batches(lines[..|lines| - 1]);
      var l := lines[|lines| - 1];
      var begun := if l.batch then earlier + [[]] else earlier;
      if l.figure.None? then begun
      else begun[|begun| - 1 := begun[|begun| - 1] + [l.figure.value]]
  }

  function Latest(batch: seq<nat>): nat { if batch == [] then 0 else batch[|batch| - 1] }

  function Sum(batches: seq<seq<nat>>): nat {
    if batches == [] then 0 else Sum(batches[..|batches| - 1]) + Latest(batches[|batches| - 1])
  }

  lemma SumNext(batches: seq<seq<nat>>, batch: seq<nat>)
    ensures Sum(batches + [batch]) == Sum(batches) + Latest(batch)
  {
    assert (batches + [batch])[..|batches|] == batches;
  }

  lemma {:induction false} BankedIsFinishedBatches(lines: seq<Line>)
    ensures var b := Batches(lines);
      TakenAll(lines).banked == Sum(b[..|b| - 1]) && TakenAll(lines).current == Latest(b[|b| - 1])
  {
    if lines != [] {
      var before, l := lines[..|lines| - 1], lines[|lines| - 1];
      BankedIsFinishedBatches(before);
      var earlier := Batches(before);
      var begun := if l.batch then earlier + [[]] else earlier;
      if l.batch {
        SumNext(earlier[..|earlier| - 1], earlier[|earlier| - 1]);
        assert earlier == earlier[..|earlier| - 1] + [earlier[|earlier| - 1]];
        assert begun[..|begun| - 1] == earlier;
      }
      assert Batches(lines)[..|begun| - 1] == begun[..|begun| - 1];
    }
  }

  /** The lines up to and including the last one that carried a figure. */
  function ToLastFigure(lines: seq<Line>): seq<Line> {
    if lines == [] || lines[|lines| - 1].figure.Some? then lines else ToLastFigure(lines[..|lines| - 1])
  }

  /** The published figure is the sum of each finished batch's last figure and the current batch's last
      figure, as of the last line that carried one. */
  lemma {:induction false} PublishedIsTheSum(lines: seq<Line>)
    ensures TakenAll(lines).published == Sum(Batches(ToLastFigure(lines)))
  {
    if lines == [] {
      var none: seq<seq<nat>> := [[]];
      assert Batches([]) == none && none[..0] == [];
    } else if lines[|lines| - 1].figure.Some? {
      BankedIsFinishedBatches(lines);
      var b := Batches(lines);
      SumNext(b[..|b| - 1], b[|b| - 1]);
      assert b == b[..|b| - 1] + [b[|b| - 1]];
    } else {
      PublishedIsTheSum(lines[..|lines| - 1]);
    }
  }

  // ---- it never falls ----

  predicate Rising(batch: seq<nat>) { forall i | 0 < i < |batch| :: batch[i - 1] <= batch[i] }

  predicate BatchesRise(lines: seq<Line>) { forall b | b in Batches(lines) :: Rising(b) }

  lemma {:induction false} RisingBefore(lines: seq<Line>)
    requires lines != [] && BatchesRise(lines)
    ensures BatchesRise(lines[..|lines| - 1])
  {
    var l := lines[|lines| - 1];
    var earlier, b := Batches(lines[..|lines| - 1]), Batches(lines);
    forall i | 0 <= i < |earlier| ensures Rising(earlier[i]) {
      assert b[i] in b;
      if earlier[i] != b[i] {
        assert b[i] == earlier[i] + [l.figure.value];
        forall k | 0 < k < |earlier[i]| ensures earlier[i][k - 1] <= earlier[i][k] {
          assert b[i][k - 1] <= b[i][k];
        }
      }
    }
  }

  lemma {:induction false} NextNeverLower(lines: seq<Line>)
    requires lines != [] && BatchesRise(lines)
    ensures TakenAll(lines[..|lines| - 1]).published <= TakenAll(lines).published
    ensures TakenAll(lines).published <= TakenAll(lines).banked + TakenAll(lines).current
  {
    var before, l := lines[..|lines| - 1], lines[|lines| - 1];
    RisingBefore(lines);
    if before != [] {
      NextNeverLower(before);
    }
    BankedIsFinishedBatches(before);
    BankedIsFinishedBatches(lines);
    var earlier, b := Batches(before), Batches(lines);
    var last := b[|b| - 1];
    assert last in b && Rising(last);
    if l.figure.Some? && !l.batch {
      assert last == earlier[|earlier| - 1] + [l.figure.value];
      if |last| > 1 {
        assert last[|last| - 2] <= last[|last| - 1];
        assert last[|last| - 2] == Latest(earlier[|earlier| - 1]);
      }
    }
  }

  /** When the tool's figures do not fall within a batch, what is published never falls at all. */
  lemma {:induction false} PublishedNeverFalls(lines: seq<Line>, i: nat)
    requires i <= |lines| && BatchesRise(lines)
    ensures TakenAll(lines[..i]).published <= TakenAll(lines).published
    decreases |lines|
  {
    if i < |lines| {
      NextNeverLower(lines);
      RisingBefore(lines);
      var before := lines[..|lines| - 1];
      PublishedNeverFalls(before, i);
      assert before[..i] == lines[..i];
    } else {
      assert lines[..i] == lines;
    }
  }
}
