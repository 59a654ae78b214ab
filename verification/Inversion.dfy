/** The inversion test on recorded operations (optimizer/m6_trust.py `_has_sequence_inversion`). */
module Inversion {
  import opened Sequences
  import Sorting

  /** The operations of `s`, without repetition, that also occur in `other`. */
  ghost function Shared(s: seq<string>, other: seq<string>): seq<string> {
    Filter(Unique(s), (op: string) => op in other)
  }

  /** Two shared operations change places. */
  ghost predicate Inverted(baseline: seq<string>, optimized: seq<string>, i: int, j: int) {
    var common := Shared(baseline, optimized);
    && 0 <= i < j < |common|
    && Position(Unique(baseline), common[i]) < Position(Unique(baseline), common[j])
    && Position(Unique(optimized), common[i]) > Position(Unique(optimized), common[j])
  }

  lemma SharedMembers(a: seq<string>, b: seq<string>)
    ensures Distinct(Shared(a, b)) && multiset(Shared(a, b)) == multiset(Shared(b, a))
  {
    FilterOrdered(Unique(a), (op: string) => op in b);
    FilterOrdered(Unique(b), (op: string) => op in a);
    forall x ensures multiset(Shared(a, b))[x] == multiset(Shared(b, a))[x] {
      DistinctCounts(Shared(a, b), x);
      DistinctCounts(Shared(b, a), x);
    }
  }

  ghost predicate SomeInversion(baseline: seq<string>, optimized: seq<string>) {
    exists i, j :: Inverted(baseline, optimized, i, j)
  }

  /** There is no inversion exactly when both sequences, without repetition, agree on the operations they share. */
  lemma NoInversionExactly(baseline: seq<string>, optimized: seq<string>)
    ensures !SomeInversion(baseline, optimized) <==> Shared(baseline, optimized) == Shared(optimized, baseline)
  {
    var common, other := Shared(baseline, optimized), Shared(optimized, baseline);
    FilterOrdered(Unique(baseline), (op: string) => op in optimized);
    FilterOrdered(Unique(optimized), (op: string) => op in baseline);
    if common == other {
      forall i, j ensures !Inverted(baseline, optimized, i, j) {}
    }
    if !SomeInversion(baseline, optimized) {
      SharedMembers(baseline, optimized);
      var less := (a: string, b: string) => Position(Unique(optimized), a) < Position(Unique(optimized), b);
      forall i, j | 0 <= i < j < |common| ensures !less(common[j], common[i]) {
        assert !Inverted(baseline, optimized, i, j);
      }
      forall i, j | 0 <= i < |common| && 0 <= j < |common| && !less(common[i], common[j]) && !less(common[j], common[i]) ensures common[i] == common[j] {
        assert common[i] in common && common[j] in common;
      }
      Sorting.SortedUnique(common, other, less);
    }
  }

  method HasSequenceInversion(baseline: seq<string>, optimized: seq<string>) returns (found: bool)
    ensures found <==> Shared(baseline, optimized) != Shared(optimized, baseline)
  {
    NoInversionExactly(baseline, optimized);
    var baselineUnique, optimizedUnique := Unique(baseline), Unique(optimized);
    var common := Filter(baselineUnique, (op: string) => op in optimized);
    if |common| < 2 { return false; }
    for i := 0 to |common|
      invariant forall k, l :: 0 <= k < i ==> !Inverted(baseline, optimized, k, l)
    {
      for j := i + 1 to |common|
        invariant forall l :: l < j ==> !Inverted(baseline, optimized, i, l)
      {
        var left, right := common[i], common[j];
        if Position(baselineUnique, left) < Position(baselineUnique, right) && Position(optimizedUnique, left) > Position(optimizedUnique, right) {
          assert Inverted(baseline, optimized, i, j);
          return true;
        }
      }
    }
    return false;
  }
}
