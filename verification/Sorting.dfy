/** Stable sorting, as Python's `sorted`: elements that compare equal keep their order. */
module Sorting {

  /** Inserts `x` behind every element it does not precede. */
  function Insert<T>(s: seq<T>, x: T, less: (T, T) -> bool): seq<T> {
    if s == [] || !less(x, s[|s| - 1]) then s + [x]
    else Insert(s[..|s| - 1], x, less) + [s[|s| - 1]]
  }

  function Sort<T>(s: seq<T>, less: (T, T) -> bool): seq<T> {
    if s == [] then [] else Insert(Sort(s[..|s| - 1], less), s[|s| - 1], less)
  }

  ghost predicate Sorted<T(!new)>(s: seq<T>, less: (T, T) -> bool) {
    forall i, j :: 0 <= i < j < |s| ==> !less(s[j], s[i])
  }

  /** `less` is a strict weak order. */
  ghost predicate WeakOrder<T(!new)>(less: (T, T) -> bool) {
    && (forall x, y :: less(x, y) ==> !less(y, x))
    && (forall x, y, z :: !less(x, y) && !less(y, z) ==> !less(x, z))
  }

  lemma {:induction false} InsertPermutes<T>(s: seq<T>, x: T, less: (T, T) -> bool)
    ensures multiset(Insert(s, x, less)) == multiset(s) + multiset{x}
  {
    if s != [] && less(x, s[|s| - 1]) {
      InsertPermutes(s[..|s| - 1], x, less);
      assert s == s[..|s| - 1] + [s[|s| - 1]];
    }
  }

  lemma {:induction false} SortPermutes<T>(s: seq<T>, less: (T, T) -> bool)
    ensures multiset(Sort(s, less)) == multiset(s)
  {
    if s != [] {
      SortPermutes(s[..|s| - 1], less);
      InsertPermutes(Sort(s[..|s| - 1], less), s[|s| - 1], less);
      assert s == s[..|s| - 1] + [s[|s| - 1]];
    }
  }

  lemma {:induction false} InsertSorts<T(!new)>(s: seq<T>, x: T, less: (T, T) -> bool)
    requires WeakOrder(less) && Sorted(s, less)
    ensures Sorted(Insert(s, x, less), less)
    ensures forall y :: y in Insert(s, x, less) <==> y in s || y == x
  {
    if s != [] {
      var front, last := s[..|s| - 1], s[|s| - 1];
      assert s == front + [last];
      if less(x, last) {
        InsertSorts(front, x, less);
        var r := Insert(front, x, less);
        forall i | 0 <= i < |r| ensures !less(last, r[i]) {
          assert r[i] in front || r[i] == x;
        }
      } else {
        forall i | 0 <= i < |s| ensures !less(x, s[i]) {
          if i < |s| - 1 { assert !less(last, s[i]); }
        }
      }
    }
  }

  lemma {:induction false} SortSorts<T(!new)>(s: seq<T>, less: (T, T) -> bool)
    requires WeakOrder(less)
    ensures Sorted(Sort(s, less), less)
  {
    if s != [] {
      SortSorts(s[..|s| - 1], less);
      InsertSorts(Sort(s[..|s| - 1], less), s[|s| - 1], less);
    }
  }

  /** A sequence whose neighbours are in order is left alone. */
  lemma {:induction false} SortKeeps<T>(s: seq<T>, less: (T, T) -> bool)
    requires forall i :: 0 <= i < |s| - 1 ==> !less(s[i + 1], s[i])
    ensures Sort(s, less) == s
  {
    if s != [] {
      var front, last := s[..|s| - 1], s[|s| - 1];
      SortKeeps(front, less);
      assert s == front + [last];
      if front != [] { assert !less(s[|s| - 1], s[|s| - 2]); }
    }
  }

  ghost predicate Pairwise<T(!new)>(s: seq<T>, p: (T, T) -> bool) {
    forall i, j :: 0 <= i < j < |s| ==> p(s[i], s[j])
  }

  lemma {:induction false} InsertKeepsPairwise<T(!new)>(s: seq<T>, x: T, less: (T, T) -> bool, p: (T, T) -> bool)
    requires Pairwise(s, p) && forall i :: 0 <= i < |s| ==> p(s[i], x) && p(x, s[i])
    ensures Pairwise(Insert(s, x, less), p)
    ensures forall y :: y in Insert(s, x, less) ==> y == x || y in s
  {
    if s != [] && less(x, s[|s| - 1]) {
      var front, last := s[..|s| - 1], s[|s| - 1];
      InsertKeepsPairwise(front, x, less, p);
      var r := Insert(front, x, less);
      forall i | 0 <= i < |r| ensures p(r[i], last) {
        assert r[i] == x || r[i] in front;
      }
    }
  }

  /** Sorting keeps what holds between any two elements in either order. */
  lemma {:induction false} SortKeepsPairwise<T(!new)>(s: seq<T>, less: (T, T) -> bool, p: (T, T) -> bool)
    requires Pairwise(s, p) && forall x, y :: p(x, y) ==> p(y, x)
    ensures Pairwise(Sort(s, less), p)
    ensures forall y :: y in Sort(s, less) ==> y in s
  {
    if s != [] {
      var front, last := s[..|s| - 1], s[|s| - 1];
      SortKeepsPairwise(front, less, p);
      assert s == front + [last];
      forall i | 0 <= i < |Sort(front, less)| ensures p(Sort(front, less)[i], last) {
        assert Sort(front, less)[i] in front;
      }
      InsertKeepsPairwise(Sort(front, less), last, less, p);
    }
  }

  lemma {:induction false} InsertReflectsPairwise<T(!new)>(s: seq<T>, x: T, less: (T, T) -> bool, p: (T, T) -> bool)
    requires Pairwise(Insert(s, x, less), p) && forall y, z :: p(y, z) ==> p(z, y)
    ensures Pairwise(s, p) && forall y :: y in s ==> p(y, x)
    ensures forall y :: y in s || y == x ==> y in Insert(s, x, less)
  {
    if s == [] || !less(x, s[|s| - 1]) {
      var r := s + [x];
      forall i | 0 <= i < |s| ensures p(s[i], x) { assert p(r[i], r[|s|]); }
      forall i, j | 0 <= i < j < |s| ensures p(s[i], s[j]) { assert p(r[i], r[j]); }
    } else {
      var front, last := s[..|s| - 1], s[|s| - 1];
      var r := Insert(front, x, less);
      assert s == front + [last] && Insert(s, x, less) == r + [last];
      forall i, j | 0 <= i < j < |r| ensures p(r[i], r[j]) { assert p((r + [last])[i], (r + [last])[j]); }
      InsertReflectsPairwise(front, x, less, p);
      forall y | y in r ensures p(y, last) {
        var i :| 0 <= i < |r| && r[i] == y;
        assert p((r + [last])[i], (r + [last])[|r|]);
      }
    }
  }

  /** What holds between any two sorted elements in either order held before. */
  lemma {:induction false} SortReflectsPairwise<T(!new)>(s: seq<T>, less: (T, T) -> bool, p: (T, T) -> bool)
    requires Pairwise(Sort(s, less), p) && forall x, y :: p(x, y) ==> p(y, x)
    ensures Pairwise(s, p)
    ensures forall y :: y in s ==> y in Sort(s, less)
  {
    if s != [] {
      var front, last := s[..|s| - 1], s[|s| - 1];
      assert s == front + [last];
      InsertReflectsPairwise(Sort(front, less), last, less, p);
      SortReflectsPairwise(front, less, p);
    }
  }

  lemma WithoutOne<T>(t: seq<T>, k: nat)
    requires k < |t|
    ensures multiset(t[..k] + t[k + 1..]) == multiset(t) - multiset{t[k]} && t[k] in multiset(t)
  {
    assert t == t[..k] + [t[k]] + t[k + 1..];
  }

  /** The order tells different elements of `s` apart. */
  ghost predicate Separates<T(!new)>(s: seq<T>, less: (T, T) -> bool) {
    && (forall i, j :: 0 <= i < |s| && 0 <= j < |s| && !less(s[i], s[j]) && !less(s[j], s[i]) ==> s[i] == s[j])
    && (forall i :: 0 <= i < |s| ==> !less(s[i], s[i]))
  }

  lemma LastsEqual<T(!new)>(s: seq<T>, t: seq<T>, less: (T, T) -> bool)
    requires Sorted(s, less) && Sorted(t, less) && multiset(s) == multiset(t) && s != [] && t != [] && Separates(s, less)
    ensures s[|s| - 1] == t[|t| - 1]
  {
    var m, n := |s| - 1, |t| - 1;
    assert s[m] in multiset(t) && t[n] in multiset(s);
    var i :| 0 <= i < |t| && t[i] == s[m];
    var j :| 0 <= j < |s| && s[j] == t[n];
    assert !less(s[m], s[j]) && !less(t[n], t[i]);
  }

  lemma FrontsAgree<T>(s: seq<T>, t: seq<T>)
    requires multiset(s) == multiset(t) && s != [] && t != [] && s[|s| - 1] == t[|t| - 1]
    ensures multiset(s[..|s| - 1]) == multiset(t[..|t| - 1])
  {
    WithoutOne(s, |s| - 1);
    WithoutOne(t, |t| - 1);
    assert s[..|s| - 1] + s[|s|..] == s[..|s| - 1] && t[..|t| - 1] + t[|t|..] == t[..|t| - 1];
  }

  /** Sorted permutations of elements that the order tells apart are equal. */
  lemma {:induction false} SortedUnique<T(!new)>(s: seq<T>, t: seq<T>, less: (T, T) -> bool)
    requires Sorted(s, less) && Sorted(t, less) && multiset(s) == multiset(t) && Separates(s, less)
    ensures s == t
  {
    assert |s| == |multiset(s)| == |multiset(t)| == |t|;
    if s != [] {
      var n := |s| - 1;
      LastsEqual(s, t, less);
      FrontsAgree(s, t);
      SortedUnique(s[..n], t[..n], less);
      assert s == s[..n] + [s[n]] && t == t[..n] + [t[n]];
    }
  }

  ghost function SumBy<T>(s: seq<T>, f: T -> int): int {
    if s == [] then 0 else SumBy(s[..|s| - 1], f) + f(s[|s| - 1])
  }

  lemma {:induction false} SumByWithout<T>(t: seq<T>, k: nat, f: T -> int)
    requires k < |t|
    ensures SumBy(t, f) == SumBy(t[..k] + t[k + 1..], f) + f(t[k])
  {
    var rest := t[..k] + t[k + 1..];
    if k == |t| - 1 {
      assert rest == t[..k];
    } else {
      SumByWithout(t[..|t| - 1], k, f);
      assert rest[..|rest| - 1] == t[..|t| - 1][..k] + t[..|t| - 1][k + 1..];
    }
  }

  /** A sum does not depend on the order. */
  lemma {:induction false} SumByPermutes<T>(s: seq<T>, t: seq<T>, f: T -> int)
    requires multiset(s) == multiset(t)
    ensures SumBy(s, f) == SumBy(t, f)
  {
    assert |s| == |multiset(s)| == |multiset(t)| == |t|;
    if s != [] {
      var n := |s| - 1;
      WithoutOne(s, n);
      assert s[..n] + s[n + 1..] == s[..n];
      var k :| 0 <= k < |t| && t[k] == s[n];
      WithoutOne(t, k);
      SumByWithout(t, k, f);
      SumByPermutes(s[..n], t[..k] + t[k + 1..], f);
    }
  }
}
