/** Sequence folds shared by the other modules. */
module Lists {

  /** The parts end to end. */
  function Concat<T>(parts: seq<seq<T>>): seq<T> {
    if parts == [] then [] else Concat(parts[..|parts| - 1]) + parts[|parts| - 1]
  }

  lemma {:induction false} ConcatNext<T>(parts: seq<seq<T>>, i: nat)
    requires i < |parts|
    ensures Concat(parts[..i + 1]) == Concat(parts[..i]) + parts[i]
  {
    assert parts[..i + 1][..i] == parts[..i];
  }

  lemma {:induction false} ConcatEmpty<T>(parts: seq<seq<T>>)
    ensures Concat(parts) == [] <==> forall i | 0 <= i < |parts| :: parts[i] == []
  {
    if parts != [] {
      var rest := parts[..|parts| - 1];
      ConcatEmpty(rest);
      assert forall i | 0 <= i < |rest| :: rest[i] == parts[i];
      if Concat(rest) == [] && parts[|rest|] == [] {
        forall i | 0 <= i < |parts| ensures parts[i] == [] {
          assert i < |rest| ==> rest[i] == [];
        }
      }
    }
  }
}
