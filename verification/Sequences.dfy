/** Facts about finite sequences shared by the other modules. */
module Sequences {
  ghost predicate Distinct<T>(s: seq<T>) {
    forall i, j :: 0 <= i < j < |s| ==> s[i] != s[j]
  }

  ghost function Elements<T>(s: seq<T>): set<T> {
    set x | x in s
  }

  lemma {:induction false} DistinctSize<N>(s: seq<N>)
    requires Distinct(s)
    ensures |Elements(s)| == |s|
  {
    if s != [] {
      var front, last := s[..|s| - 1], s[|s| - 1];
      DistinctSize(front);
      assert s == front + [last];
      assert Elements(s) == Elements(front) + {last};
    }
  }

  lemma SubsetSize<N>(a: set<N>, b: set<N>)
    requires a <= b
    ensures |a| <= |b| && (|a| == |b| <==> a == b)
  {
    assert b == a + (b - a);
    assert |b| == |a| + |b - a|;
  }

  lemma TakeNext<T>(s: seq<T>, i: nat)
    requires i < |s|
    ensures s[..i + 1] == s[..i] + [s[i]]
  {
  }

  lemma PlusAssociates<T>(a: seq<T>, b: seq<T>, c: seq<T>)
    ensures a + b + c == a + (b + c)
  {
  }

  lemma TakeAll<T>(s: seq<T>)
    ensures s[..|s|] == s
  {
  }

  lemma ElementsAppend<T>(s: seq<T>, x: T)
    ensures Elements(s + [x]) == Elements(s) + {x}
  {
  }

  /** Sum of the first `n` numbers. */
  function Total(s: seq<int>, n: nat): int
    requires n <= |s|
  {
    if n == 0 then 0 else Total(s, n - 1) + s[n - 1]
  }

  lemma {:induction false} TotalMonotone(s: seq<int>, m: nat, n: nat)
    requires m <= n <= |s| && forall k :: m <= k < n ==> s[k] >= 0
    ensures Total(s, m) <= Total(s, n)
  {
    if m < n { TotalMonotone(s, m, n - 1); }
  }

  lemma {:induction false} TotalTake(s: seq<int>, m: nat, n: nat)
    requires n <= m <= |s|
    ensures Total(s[..m], n) == Total(s, n)
  {
    if n > 0 { TotalTake(s, m, n - 1); }
  }

  function Filter<T(!new)>(s: seq<T>, keep: T -> bool): (r: seq<T>)
    ensures forall x :: x in r <==> x in s && keep(x)
  {
    if s == [] then []
    else
      var front, last := Filter(s[..|s| - 1], keep), s[|s| - 1];
      assert s == s[..|s| - 1] + [last];
      if keep(last) then front + [last] else front
  }

  /** What is kept and what is dropped make up the whole. */
  lemma {:induction false} FilterPartitions<T(!new)>(s: seq<T>, keep: T -> bool, drop: T -> bool)
    requires forall x :: x in s ==> (keep(x) <==> !drop(x))
    ensures multiset(Filter(s, keep)) + multiset(Filter(s, drop)) == multiset(s)
  {
    if s != [] {
      assert s == s[..|s| - 1] + [s[|s| - 1]];
      FilterPartitions(s[..|s| - 1], keep, drop);
    }
  }

  lemma {:induction false} FilterNone<T(!new)>(s: seq<T>, keep: T -> bool)
    requires forall x :: x in s ==> !keep(x)
    ensures Filter(s, keep) == []
  {
    if s != [] {
      FilterNone(s[..|s| - 1], keep);
      assert s[|s| - 1] in s;
    }
  }

  function Concat<T>(s: seq<seq<T>>): seq<T> {
    if s == [] then [] else Concat(s[..|s| - 1]) + s[|s| - 1]
  }

  lemma {:induction false} ConcatAppend<T>(s: seq<seq<T>>, t: seq<seq<T>>)
    ensures Concat(s + t) == Concat(s) + Concat(t)
  {
    if t == [] {
      assert s + t == s;
    } else {
      var front, last := t[..|t| - 1], t[|t| - 1];
      ConcatAppend(s, front);
      assert (s + t)[..|s + t| - 1] == s + front && (s + t)[|s + t| - 1] == last;
      assert Concat(s + t) == (Concat(s) + Concat(front)) + last == Concat(s) + (Concat(front) + last);
    }
  }

  /** First mentions only. */
  function Unique<T(==,!new)>(s: seq<T>): (r: seq<T>)
    ensures Distinct(r) && forall x :: x in r <==> x in s
  {
    if s == [] then []
    else
      var front, last := Unique(s[..|s| - 1]), s[|s| - 1];
      assert s == s[..|s| - 1] + [last];
      if last in front then front else front + [last]
  }

  /** Index of the last occurrence, -1 when there is none. */
  function Position<T(==)>(s: seq<T>, x: T): (i: int)
    ensures -1 <= i < |s| && (i >= 0 ==> s[i] == x) && (i == -1 ==> x !in s)
  {
    if s == [] then -1
    else if s[|s| - 1] == x then |s| - 1
    else
      var i := Position(s[..|s| - 1], x);
      assert s == s[..|s| - 1] + [s[|s| - 1]];
      i
  }

  /** Filtering keeps elements apart and in order. */
  lemma {:induction false} FilterOrdered<T(!new)>(s: seq<T>, keep: T -> bool)
    requires Distinct(s)
    ensures Distinct(Filter(s, keep))
    ensures forall i, j :: 0 <= i < j < |Filter(s, keep)| ==> Position(s, Filter(s, keep)[i]) < Position(s, Filter(s, keep)[j])
  {
    if s != [] {
      var front, last := s[..|s| - 1], s[|s| - 1];
      FilterOrdered(front, keep);
      forall x | x in front ensures Position(s, x) == Position(front, x) < |front| {
        var k :| 0 <= k < |front| && front[k] == x;
        assert s[k] != last;
      }
      var f := Filter(s, keep);
      forall i | 0 <= i < |Filter(front, keep)| ensures f[i] == Filter(front, keep)[i] && f[i] in front {}
    }
  }

  lemma {:induction false} DistinctCounts<T>(s: seq<T>, x: T)
    requires Distinct(s)
    ensures multiset(s)[x] == if x in s then 1 else 0
  {
    if s != [] {
      DistinctCounts(s[..|s| - 1], x);
      assert s == s[..|s| - 1] + [s[|s| - 1]];
    }
  }
}
