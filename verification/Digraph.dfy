/** Finite directed graphs as sets of arcs: walks, reachability, cycles. */
module Digraph {

  /** `p` is a non-empty walk along arcs of `r`. */
  ghost predicate IsWalk<N>(r: set<(N, N)>, p: seq<N>) {
    |p| > 0 && forall i :: 0 <= i < |p| - 1 ==> (p[i], p[i + 1]) in r
  }

  /** `p` is a walk from `x` to `y`. */
  ghost predicate Connects<N>(r: set<(N, N)>, p: seq<N>, x: N, y: N) {
    IsWalk(r, p) && p[0] == x && p[|p| - 1] == y
  }

  /** Some walk, possibly of length zero, leads from `x` to `y`. */
  ghost predicate Reach<N(!new)>(r: set<(N, N)>, x: N, y: N) {
    exists p: seq<N> :: Connects(r, p, x, y)
  }

  /** No arc closes a walk back to its own source. */
  ghost predicate Acyclic<N(!new)>(r: set<(N, N)>) {
    forall p: seq<N> :: !IsCycle(r, p)
  }

  ghost predicate IsCycle<N>(r: set<(N, N)>, p: seq<N>) {
    |p| > 1 && IsWalk(r, p) && p[0] == p[|p| - 1]
  }

  /** No cycle passes through a node of `s`. */
  ghost predicate CycleFree<N(!new)>(r: set<(N, N)>, s: set<N>) {
    forall p: seq<N> :: IsCycle(r, p) ==> p[0] !in s
  }

  lemma ReachRefl<N(!new)>(r: set<(N, N)>, x: N)
    ensures Reach(r, x, x)
  {
    assert Connects(r, [x], x, x);
  }

  lemma ReachArc<N(!new)>(r: set<(N, N)>, x: N, y: N)
    requires (x, y) in r
    ensures Reach(r, x, y)
  {
    assert Connects(r, [x, y], x, y);
  }

  lemma ReachTrans<N(!new)>(r: set<(N, N)>, x: N, y: N, z: N)
    requires Reach(r, x, y) && Reach(r, y, z)
    ensures Reach(r, x, z)
  {
    var p :| Connects(r, p, x, y);
    var q :| Connects(r, q, y, z);
    assert Connects(r, p + q[1..], x, z);
  }

  /** A walk that leaves the set `s` does so across some arc. */
  lemma Crossing<N(!new)>(r: set<(N, N)>, x: N, y: N, s: set<N>) returns (u: N, v: N)
    requires Reach(r, x, y) && x in s && y !in s
    ensures (u, v) in r && u in s && v !in s && Reach(r, x, u) && Reach(r, v, y)
  {
    var p :| Connects(r, p, x, y);
    var k := 0;
    while p[k + 1] in s
      invariant 0 <= k < |p| - 1 && p[k] in s
      decreases |p| - k
    {
      k := k + 1;
    }
    u, v := p[k], p[k + 1];
    assert Connects(r, p[..k + 1], x, u);
    assert Connects(r, p[k + 1..], v, y);
  }

  /** Acyclicity in terms of reachability: no arc leads back to where it came from. */
  lemma AcyclicIffNoReturn<N(!new)>(r: set<(N, N)>)
    ensures Acyclic(r) <==> forall x, y :: (x, y) in r ==> !Reach(r, y, x)
  {
    if x, y :| (x, y) in r && Reach(r, y, x) {
      var p :| Connects(r, p, y, x);
      assert IsCycle(r, [x] + p);
    }
    if p: seq<N> :| IsCycle(r, p) {
      assert Connects(r, p[1..], p[1], p[0]);
      assert (p[0], p[1]) in r && Reach(r, p[1], p[0]);
    }
  }

  /** Dropping arcs cannot create a cycle. */
  lemma AcyclicSubset<N(!new)>(small: set<(N, N)>, big: set<(N, N)>)
    requires small <= big && Acyclic(big)
    ensures Acyclic(small)
  {
    forall p: seq<N> ensures !IsCycle(small, p) {
      assert IsCycle(small, p) ==> IsCycle(big, p);
    }
  }

  /** A node whose predecessors lie on no cycle lies on no cycle either. */
  lemma CycleFreeExtend<N(!new)>(r: set<(N, N)>, s: set<N>, v: N)
    requires CycleFree(r, s)
    requires forall x :: (x, v) in r ==> x in s
    ensures CycleFree(r, s + {v})
  {
    forall p: seq<N> | IsCycle(r, p) ensures p[0] !in s + {v} {
      var x := p[|p| - 2];
      assert (x, p[|p| - 1]) in r;
      assert IsCycle(r, [x] + p[..|p| - 1]);
    }
  }

  /** A graph is acyclic once a cycle-free set holds the source of every arc. */
  lemma CycleFreeIsAcyclic<N(!new)>(r: set<(N, N)>, s: set<N>)
    requires CycleFree(r, s)
    requires forall a :: a in r ==> a.0 in s
    ensures Acyclic(r)
  {
    forall p: seq<N> | |p| > 1 && IsWalk(r, p) ensures p[0] in s {
      assert (p[0], p[1]) in r;
    }
  }

  /** More entries than distinct values: two entries agree. */
  lemma {:induction false} Pigeonhole<N>(p: seq<N>, s: set<N>) returns (i: nat, j: nat)
    requires forall k :: 0 <= k < |p| ==> p[k] in s
    requires |p| > |s|
    ensures i < j < |p| && p[i] == p[j]
  {
    var last := p[|p| - 1];
    if k :| 0 <= k < |p| - 1 && p[k] == last {
      i, j := k, |p| - 1;
    } else {
      i, j := Pigeonhole(p[..|p| - 1], s - {last});
    }
  }

  /** A non-empty set in which every member has a predecessor contains a cycle. */
  lemma NoSourceHasCycle<N(!new)>(r: set<(N, N)>, s: set<N>)
    requires s != {}
    requires forall y :: y in s ==> exists x :: x in s && (x, y) in r
    ensures !Acyclic(r)
  {
    var start :| start in s;
    var p := [start];
    while |p| <= |s|
      invariant IsWalk(r, p) && forall k :: 0 <= k < |p| ==> p[k] in s
      decreases |s| - |p| + 1
    {
      var x :| x in s && (x, p[0]) in r;
      p := [x] + p;
    }
    var i, j := Pigeonhole(p, s);
    assert IsCycle(r, p[i..j + 1]);
  }
}
