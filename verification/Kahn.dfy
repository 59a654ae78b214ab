/** Queue-based acyclicity test over an in-degree table (optimizer/m4_typed_dag.py `_acyclic`,
    optimizer/m6_trust.py `_dag_acyclic`). */
module Kahn {
  import opened Digraph
  import opened Sequences

  ghost function ArcSet<N>(arcs: seq<(N, N)>): set<(N, N)> {
    set a | a in arcs
  }

  ghost predicate EndpointsIn<N>(arcs: seq<(N, N)>, nodes: seq<N>) {
    forall a :: a in arcs ==> a.0 in nodes && a.1 in nodes
  }

  /** Targets of the arcs leaving `u`, in arc order and with repetitions. */
  function Targets<N(==)>(arcs: seq<(N, N)>, u: N): seq<N> {
    if arcs == [] then []
    else
      var front := Targets(arcs[..|arcs| - 1], u);
      if arcs[|arcs| - 1].0 == u then front + [arcs[|arcs| - 1].1] else front
  }

  /** Number of arcs into `v` whose source is not in `done`. */
  ghost function Pending<N>(arcs: seq<(N, N)>, done: set<N>, v: N): nat {
    if arcs == [] then 0
    else Pending(arcs[..|arcs| - 1], done, v)
         + (if arcs[|arcs| - 1].1 == v && arcs[|arcs| - 1].0 !in done then 1 else 0)
  }

  ghost function Count<N>(s: seq<N>, v: N): nat {
    if s == [] then 0 else Count(s[..|s| - 1], v) + (if s[|s| - 1] == v then 1 else 0)
  }

  lemma {:induction false} CountFront<N>(s: seq<N>, v: N)
    requires s != []
    ensures Count(s, v) == (if s[0] == v then 1 else 0) + Count(s[1..], v)
  {
    if |s| > 1 {
      CountFront(s[..|s| - 1], v);
      assert s[..|s| - 1][1..] == s[1..][..|s| - 2];
    }
  }

  /** Finishing `u` releases exactly the arcs leaving `u`. */
  lemma {:induction false} PendingRelease<N>(arcs: seq<(N, N)>, done: set<N>, u: N, v: N)
    requires u !in done
    ensures Pending(arcs, done, v) == Pending(arcs, done + {u}, v) + Count(Targets(arcs, u), v)
  {
    if arcs != [] {
      PendingRelease(arcs[..|arcs| - 1], done, u, v);
      var front, last := Targets(arcs[..|arcs| - 1], u), arcs[|arcs| - 1].1;
      assert (front + [last])[..|front|] == front;
      assert Count(front + [last], v) == Count(front, v) + (if last == v then 1 else 0);
    }
  }

  /** The pending count is zero exactly when every predecessor is done. */
  lemma {:induction false} PendingZero<N>(arcs: seq<(N, N)>, done: set<N>, v: N)
    ensures Pending(arcs, done, v) == 0 <==> forall a :: a in arcs && a.1 == v ==> a.0 in done
  {
    if arcs != [] {
      var front, last := arcs[..|arcs| - 1], arcs[|arcs| - 1];
      PendingZero(front, done, v);
      assert arcs == front + [last];
    }
  }

  lemma {:induction false} TargetsAreSuccessors<N>(arcs: seq<(N, N)>, u: N)
    ensures forall v :: v in Targets(arcs, u) <==> (u, v) in arcs
  {
    if arcs != [] {
      var front, last := arcs[..|arcs| - 1], arcs[|arcs| - 1];
      TargetsAreSuccessors(front, u);
      assert arcs == front + [last];
    }
  }

  method BuildInDegree<N(==)>(nodes: seq<N>, arcs: seq<(N, N)>) returns (indegree: map<N, nat>)
    requires EndpointsIn(arcs, nodes)
    ensures indegree.Keys == Elements(nodes)
    ensures forall v :: v in nodes ==> indegree[v] == Pending(arcs, {}, v)
  {
    indegree := map n | n in nodes :: 0;
    for i := 0 to |arcs|
      invariant indegree.Keys == Elements(nodes)
      invariant forall v :: v in nodes ==> indegree[v] == Pending(arcs[..i], {}, v)
    {
      assert arcs[i] in arcs && arcs[..i + 1][..i] == arcs[..i];
      indegree := indegree[arcs[i].1 := indegree[arcs[i].1] + 1];
    }
    assert arcs[..|arcs|] == arcs;
  }

  method BuildSuccessors<N(==)>(nodes: seq<N>, arcs: seq<(N, N)>) returns (out: map<N, seq<N>>)
    requires EndpointsIn(arcs, nodes)
    ensures out.Keys == Elements(nodes)
    ensures forall u :: u in nodes ==> out[u] == Targets(arcs, u)
  {
    out := map n | n in nodes :: [];
    for i := 0 to |arcs|
      invariant out.Keys == Elements(nodes)
      invariant forall u :: u in nodes ==> out[u] == Targets(arcs[..i], u)
    {
      assert arcs[i] in arcs && arcs[..i + 1][..i] == arcs[..i];
      out := out[arcs[i].0 := out[arcs[i].0] + [arcs[i].1]];
    }
    assert arcs[..|arcs|] == arcs;
  }

  /** The work-list state: `done` are the popped nodes, `queue` the waiting ones, `rest` the targets of
      the last popped node that are not released yet. */
  ghost predicate Frontier<N(!new)>(nodes: seq<N>, arcs: seq<(N, N)>, done: set<N>, queue: seq<N>, rest: seq<N>, indegree: map<N, nat>) {
    && indegree.Keys == Elements(nodes)
    && Distinct(queue) && Elements(queue) !! done && Elements(queue) + done <= Elements(nodes)
    && (forall v :: v in nodes ==> indegree[v] == Pending(arcs, done, v) + Count(rest, v))
    && (forall v :: v in nodes ==> (v in queue || v in done <==> indegree[v] == 0))
  }

  lemma PopSources<N(!new)>(nodes: seq<N>, arcs: seq<(N, N)>, done: set<N>, queue: seq<N>, indegree: map<N, nat>)
    requires Frontier(nodes, arcs, done, queue, [], indegree) && queue != []
    requires CycleFree(ArcSet(arcs), done)
    ensures queue[0] in nodes && queue[0] !in done
    ensures CycleFree(ArcSet(arcs), done + {queue[0]})
  {
    var v := queue[0];
    assert v in Elements(queue) && v in Elements(nodes);
    PendingZero(arcs, done, v);
    CycleFreeExtend(ArcSet(arcs), done, v);
  }

  /** Popping `queue[0]` leaves all its targets to be released. */
  lemma PopFrontier<N(!new)>(nodes: seq<N>, arcs: seq<(N, N)>, done: set<N>, queue: seq<N>, indegree: map<N, nat>)
    requires Frontier(nodes, arcs, done, queue, [], indegree) && queue != []
    requires queue[0] !in done && queue[0] in nodes
    ensures Frontier(nodes, arcs, done + {queue[0]}, queue[1..], Targets(arcs, queue[0]), indegree)
  {
    var u := queue[0];
    assert queue == [u] + queue[1..];
    forall v | v in nodes ensures indegree[v] == Pending(arcs, done + {u}, v) + Count(Targets(arcs, u), v) {
      PendingRelease(arcs, done, u, v);
    }
  }

  /** Releasing one target lowers its in-degree and queues it once nothing else holds it back. */
  lemma ReleaseFrontier<N(!new)>(nodes: seq<N>, arcs: seq<(N, N)>, done: set<N>, queue: seq<N>, rest: seq<N>, indegree: map<N, nat>)
    requires Frontier(nodes, arcs, done, queue, rest, indegree) && rest != [] && rest[0] in nodes
    ensures indegree[rest[0]] > 0
    ensures var lowered := indegree[rest[0] := indegree[rest[0]] - 1];
            Frontier(nodes, arcs, done, if lowered[rest[0]] == 0 then queue + [rest[0]] else queue, rest[1..], lowered)
  {
    forall v ensures Count(rest, v) == (if rest[0] == v then 1 else 0) + Count(rest[1..], v) {
      CountFront(rest, v);
    }
  }

  /** When the queue runs dry, every node was popped exactly if there is no cycle. */
  lemma FullIffAcyclic<N(!new)>(nodes: seq<N>, arcs: seq<(N, N)>, done: set<N>, indegree: map<N, nat>)
    requires Distinct(nodes) && EndpointsIn(arcs, nodes)
    requires Frontier(nodes, arcs, done, [], [], indegree) && CycleFree(ArcSet(arcs), done)
    ensures |done| == |nodes| <==> Acyclic(ArcSet(arcs))
  {
    DistinctSize(nodes);
    SubsetSize(done, Elements(nodes));
    var r := ArcSet(arcs);
    if done == Elements(nodes) {
      CycleFreeIsAcyclic(r, done);
    } else {
      var left := Elements(nodes) - done;
      forall y | y in left ensures exists x :: x in left && (x, y) in r {
        PendingZero(arcs, done, y);
        var a :| a in arcs && a.1 == y && a.0 !in done;
        assert a == (a.0, y) && a.0 in left;
      }
      var missed :| missed in Elements(nodes) && missed !in done;
      assert missed in left;
      NoSourceHasCycle(r, left);
    }
  }

  /** True exactly when the arcs, repetitions included, close no directed cycle. */
  method IsAcyclic<N(==,!new)>(nodes: seq<N>, arcs: seq<(N, N)>) returns (acyclic: bool)
    requires Distinct(nodes) && EndpointsIn(arcs, nodes)
    ensures acyclic <==> Acyclic(ArcSet(arcs))
  {
    var indegree := BuildInDegree(nodes, arcs);
    var out := BuildSuccessors(nodes, arcs);
    var queue: seq<N> := [];
    for i := 0 to |nodes|
      invariant Distinct(queue)
      invariant forall v :: v in queue <==> v in nodes[..i] && indegree[v] == 0
    {
      assert nodes[i] !in nodes[..i] && nodes[..i + 1] == nodes[..i] + [nodes[i]];
      if indegree[nodes[i]] == 0 { queue := queue + [nodes[i]]; }
    }
    assert nodes[..|nodes|] == nodes;
    var visited := 0;
    ghost var done: set<N> := {};
    while queue != []
      invariant visited == |done|
      invariant Frontier(nodes, arcs, done, queue, [], indegree)
      invariant CycleFree(ArcSet(arcs), done)
      decreases Elements(nodes) - done
    {
      var node := queue[0];
      PopSources(nodes, arcs, done, queue, indegree);
      PopFrontier(nodes, arcs, done, queue, indegree);
      queue, done, visited := queue[1..], done + {node}, visited + 1;
      assert out[node][0..] == out[node];
      for j := 0 to |out[node]|
        invariant Frontier(nodes, arcs, done, queue, out[node][j..], indegree)
      {
        var nxt := out[node][j];
        assert nxt in nodes by { TargetsAreSuccessors(arcs, node); assert nxt in out[node] && (node, nxt) in arcs; }
        ReleaseFrontier(nodes, arcs, done, queue, out[node][j..], indegree);
        assert out[node][j..][1..] == out[node][j + 1..];
        indegree := indegree[nxt := indegree[nxt] - 1];
        if indegree[nxt] == 0 { queue := queue + [nxt]; }
      }
    }
    FullIffAcyclic(nodes, arcs, done, indegree);
    acyclic := visited == |nodes|;
  }
}
