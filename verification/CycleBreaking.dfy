/** Demotion of hard edges until none of them closes a cycle (optimizer/m4_typed_dag.py `_break_cycles`,
    `_break_action_level_cycles`). */
module CycleBreaking {
  import opened Options
  import opened Contracts
  import opened Digraph
  import opened Sequences
  import opened EdgeRank
  import Kahn
  import Tarjan
  import Text

  datatype Level = NodeLevel | ActionLevel

  /** Warnings and the removed edges, each pair recorded once, in order of removal. */
  class Diagnostics {
    var warnings: seq<string>
    var removedHardEdges: seq<(string, string)>
    var warningKeys: set<string>
    var removedEdgeKeys: set<(string, string)>

    ghost predicate Valid()
      reads this
    {
      Distinct(removedHardEdges) && removedEdgeKeys == Elements(removedHardEdges)
    }

    constructor ()
      ensures Valid() && warnings == [] && removedHardEdges == []
    {
      warnings, removedHardEdges, warningKeys, removedEdgeKeys := [], [], {}, {};
    }

    method Warn(message: string, key: string)
      requires Valid()
      modifies this`warnings, this`warningKeys
      ensures Valid()
      ensures key != "" && key in old(warningKeys) ==> warnings == old(warnings) && warningKeys == old(warningKeys)
      ensures !(key != "" && key in old(warningKeys)) ==> warnings == old(warnings) + [message]
      ensures warningKeys == if key == "" then old(warningKeys) else old(warningKeys) + {key}
    {
      if key != "" {
        if key in warningKeys { return; }
        warningKeys := warningKeys + {key};
      }
      warnings := warnings + [message];
    }

    method RecordRemovedEdge(src: string, dst: string)
      requires Valid()
      modifies this`removedHardEdges, this`removedEdgeKeys
      ensures Valid()
      ensures removedHardEdges == if (src, dst) in old(removedHardEdges) then old(removedHardEdges) else old(removedHardEdges) + [(src, dst)]
    {
      if (src, dst) in removedEdgeKeys { return; }
      removedEdgeKeys := removedEdgeKeys + {(src, dst)};
      removedHardEdges := removedHardEdges + [(src, dst)];
    }

    method NoteDemotion(level: Level, edge: DependencyEdge)
      requires Valid()
      modifies this
      ensures Valid()
      ensures old(removedHardEdges) <= removedHardEdges
      ensures Elements(removedHardEdges) == Elements(old(removedHardEdges)) + {(edge.src, edge.dst)}
    {
      var arrow := edge.src + "->" + edge.dst;
      match level {
        case NodeLevel => Warn("Hard cycle detected; demoted edge " + arrow + " to SOFT_ORDER", "hard-cycle:" + arrow);
        case ActionLevel => Warn("Action-level hard cycle detected; demoted edge " + arrow + " to SOFT_ORDER", "action-hard-cycle:" + arrow);
      }
      RecordRemovedEdge(edge.src, edge.dst);
    }
  }

  /** `result` lists the entries of `edges` at the increasing positions `kept`. */
  ghost predicate Selects(edges: seq<DependencyEdge>, kept: seq<nat>, result: seq<DependencyEdge>) {
    && Increasing(edges, kept) && |kept| == |result|
    && (forall k :: 0 <= k < |kept| ==> result[k] == edges[kept[k]])
  }

  ghost predicate Increasing(edges: seq<DependencyEdge>, kept: seq<nat>) {
    && (forall k :: 0 <= k < |kept| ==> kept[k] < |edges|)
    && (forall k, l :: 0 <= k < l < |kept| ==> kept[k] < kept[l])
  }

  /** Edge `i` is given up before edge `j`: smaller rank, or equal rank and earlier position. */
  ghost predicate Before(nodes: map<string, Mssu>, edges: seq<DependencyEdge>, i: nat, j: nat)
    requires i < |edges| && j < |edges|
  {
    var a, b := RemovalRank(nodes, edges[i]), RemovalRank(nodes, edges[j]);
    RankLess(a, b) || (a == b && i < j)
  }

  /** Everything outside `kept` comes before everything inside: a prefix of the removal order is gone. */
  ghost predicate DropsPrefix(nodes: map<string, Mssu>, edges: seq<DependencyEdge>, kept: seq<nat>)
    requires Increasing(edges, kept)
  {
    forall i, j :: 0 <= i < |edges| && i !in kept && j in kept ==> Before(nodes, edges, i, j)
  }

  /** Arcs of the edges at the given positions. */
  ghost function ArcsAt(edges: seq<DependencyEdge>, positions: set<nat>): set<(string, string)> {
    set i | i in positions && i < |edges| :: (edges[i].src, edges[i].dst)
  }

  lemma BeforeTotal(nodes: map<string, Mssu>, edges: seq<DependencyEdge>, i: nat, j: nat)
    requires i < |edges| && j < |edges|
    ensures i == j || Before(nodes, edges, i, j) || Before(nodes, edges, j, i)
    ensures !(Before(nodes, edges, i, j) && Before(nodes, edges, j, i))
  {
    RankTotal(RemovalRank(nodes, edges[i]), RemovalRank(nodes, edges[j]));
  }

  lemma SelectedArcs(edges: seq<DependencyEdge>, kept: seq<nat>, result: seq<DependencyEdge>)
    requires Selects(edges, kept, result)
    ensures EdgeArcs(result) == ArcsAt(edges, Elements(kept))
  {
    forall a | a in EdgeArcs(result) ensures a in ArcsAt(edges, Elements(kept)) {
      var e :| e in result && a == (e.src, e.dst);
      var k :| 0 <= k < |result| && result[k] == e;
      assert kept[k] in Elements(kept);
    }
    forall a | a in ArcsAt(edges, Elements(kept)) ensures a in EdgeArcs(result) {
      var i :| i in Elements(kept) && i < |edges| && a == (edges[i].src, edges[i].dst);
      var k :| 0 <= k < |kept| && kept[k] == i;
      assert result[k] in result;
    }
  }

  lemma EndsAreArcs(edges: seq<DependencyEdge>)
    ensures Kahn.ArcSet(Ends(edges)) == EdgeArcs(edges)
  {
    forall a | a in EdgeArcs(edges) ensures a in Ends(edges) {
      var e :| e in edges && a == (e.src, e.dst);
      var k :| 0 <= k < |edges| && edges[k] == e;
      assert Ends(edges)[k] == a;
    }
    forall a | a in Ends(edges) ensures a in EdgeArcs(edges) {
      var k :| 0 <= k < |edges| && Ends(edges)[k] == a;
      assert edges[k] in edges;
    }
  }

  /** The first of the candidate positions whose edge has the smallest rank. */
  method FirstMinimum(nodes: map<string, Mssu>, edges: seq<DependencyEdge>, candidates: seq<nat>) returns (idx: nat)
    requires candidates != [] && Increasing(edges, candidates)
    ensures idx in candidates && idx < |edges|
    ensures forall k :: k in candidates && k != idx ==> Before(nodes, edges, idx, k)
  {
    idx := candidates[0];
    for i := 1 to |candidates|
      invariant idx in candidates[..i]
      invariant forall l :: 0 <= l < i && candidates[l] != idx ==> Before(nodes, edges, idx, candidates[l])
    {
      var k := candidates[i];
      var a, b := RemovalRank(nodes, edges[k]), RemovalRank(nodes, edges[idx]);
      RankTotal(a, b);
      if RankLess(a, b) {
        forall l | 0 <= l < i ensures Before(nodes, edges, k, candidates[l]) {
          var c := RemovalRank(nodes, edges[candidates[l]]);
          assert candidates[l] == idx || Before(nodes, edges, idx, candidates[l]);
          if RankLess(b, c) { RankTransitive(a, b, c); }
        }
        idx := k;
      }
    }
  }

  method FirstOfAll(nodes: map<string, Mssu>, edges: seq<DependencyEdge>) returns (idx: nat)
    requires edges != []
    ensures idx < |edges| && forall k :: 0 <= k < |edges| && k != idx ==> Before(nodes, edges, idx, k)
  {
    var positions := AllPositions(|edges|);
    idx := FirstMinimum(nodes, edges, positions);
    forall k | 0 <= k < |edges| && k != idx ensures Before(nodes, edges, idx, k) {
      assert positions[k] == k;
    }
  }

  /** Removing position `p` from a selection. */
  lemma SelectsWithout(edges: seq<DependencyEdge>, kept: seq<nat>, result: seq<DependencyEdge>, p: nat)
    requires Selects(edges, kept, result) && p < |kept|
    ensures Selects(edges, kept[..p] + kept[p + 1..], result[..p] + result[p + 1..])
    ensures Elements(kept[..p] + kept[p + 1..]) == Elements(kept) - {kept[p]}
    ensures forall i :: i in kept[..p] + kept[p + 1..] <==> i in kept && i != kept[p]
  {
    var rest := kept[..p] + kept[p + 1..];
    forall x ensures x in rest <==> x in kept && x != kept[p] {
      if x in kept && x != kept[p] {
        var k :| 0 <= k < |kept| && kept[k] == x;
        assert k < p ==> rest[k] == x;
        assert k > p ==> rest[k - 1] == x;
      }
    }
  }

  /** `last` was the last edge to go: it closes the dropped prefix, and with it back there was a cycle. */
  ghost predicate LastDropped(nodes: map<string, Mssu>, edges: seq<DependencyEdge>, kept: seq<nat>, last: nat)
    requires Increasing(edges, kept)
  {
    && last < |edges| && last !in kept
    && (forall i :: 0 <= i < |edges| && i !in kept && i != last ==> Before(nodes, edges, i, last))
    && !Acyclic(ArcsAt(edges, Elements(kept) + {last}))
  }

  /** What the rank-driven pass leaves: `kept` after a dropped prefix of the removal order, acyclic, and
      cyclic again as soon as the last dropped edge returns. */
  ghost predicate ShortestCut(nodes: map<string, Mssu>, edges: seq<DependencyEdge>, kept: seq<nat>) {
    CutSoFar(nodes, edges, kept) && Acyclic(ArcsAt(edges, Elements(kept)))
  }

  ghost predicate CutSoFar(nodes: map<string, Mssu>, edges: seq<DependencyEdge>, kept: seq<nat>) {
    && Increasing(edges, kept) && DropsPrefix(nodes, edges, kept)
    && (|kept| == |edges| || exists last :: LastDropped(nodes, edges, kept, last))
  }

  ghost function DroppedPairs(edges: seq<DependencyEdge>, kept: seq<nat>): set<(string, string)> {
    set i | 0 <= i < |edges| && i !in kept :: (edges[i].src, edges[i].dst)
  }

  /** Since `earlier`, exactly the pairs of the dropped edges have been recorded. */
  ghost predicate AllRecorded(edges: seq<DependencyEdge>, kept: seq<nat>, earlier: seq<(string, string)>, removed: seq<(string, string)>) {
    Elements(removed) == Elements(earlier) + DroppedPairs(edges, kept)
  }

  function AllPositions(n: nat): seq<nat> {
    seq(n, i => i)
  }

  lemma DropStep(nodes: map<string, Mssu>, edges: seq<DependencyEdge>, kept: seq<nat>, result: seq<DependencyEdge>, p: nat)
    requires Selects(edges, kept, result) && DropsPrefix(nodes, edges, kept) && p < |kept|
    requires forall k :: 0 <= k < |result| && k != p ==> Before(nodes, result, p, k)
    requires !Acyclic(EdgeArcs(result))
    ensures CutSoFar(nodes, edges, kept[..p] + kept[p + 1..])
  {
    var rest := kept[..p] + kept[p + 1..];
    SelectsWithout(edges, kept, result, p);
    SelectedArcs(edges, kept, result);
    forall j | j in Elements(rest) ensures Before(nodes, edges, kept[p], j) {
      assert j in Elements(kept) && j != kept[p];
      var k :| 0 <= k < |kept| && kept[k] == j;
      assert Before(nodes, result, p, k);
    }
    forall i, j | 0 <= i < |edges| && i !in rest && j in rest ensures Before(nodes, edges, i, j) {
      assert i !in Elements(rest) && j in Elements(rest);
      assert i in kept ==> i in Elements(kept);
      assert j in Elements(kept);
    }
    assert kept[p] in kept && kept[p] !in Elements(rest);
    assert Elements(rest) + {kept[p]} == Elements(kept);
    forall i | 0 <= i < |edges| && i !in rest && i != kept[p] ensures Before(nodes, edges, i, kept[p]) {
      assert i !in Elements(rest);
      assert i !in kept by { assert i in kept ==> i in Elements(kept); }
    }
    assert LastDropped(nodes, edges, rest, kept[p]);
  }

  lemma RecordStep(edges: seq<DependencyEdge>, kept: seq<nat>, p: nat,
                   earlier: seq<(string, string)>, before: seq<(string, string)>, after: seq<(string, string)>)
    requires Increasing(edges, kept) && p < |kept| && AllRecorded(edges, kept, earlier, before)
    requires Elements(after) == Elements(before) + {(edges[kept[p]].src, edges[kept[p]].dst)}
    requires forall i :: i in kept[..p] + kept[p + 1..] <==> i in kept && i != kept[p]
    ensures AllRecorded(edges, kept[..p] + kept[p + 1..], earlier, after)
  {
    var rest, pair := kept[..p] + kept[p + 1..], (edges[kept[p]].src, edges[kept[p]].dst);
    assert kept[p] !in rest && kept[p] in kept;
    forall q ensures q in DroppedPairs(edges, rest) <==> q in DroppedPairs(edges, kept) || q == pair {
      if q in DroppedPairs(edges, rest) {
        var i :| 0 <= i < |edges| && i !in rest && q == (edges[i].src, edges[i].dst);
      }
      if q in DroppedPairs(edges, kept) {
        var i :| 0 <= i < |edges| && i !in kept && q == (edges[i].src, edges[i].dst);
        assert i !in rest;
      }
    }
  }

  /** Demotes edges in removal order until the rest is acyclic, recording each. */
  method BreakCycles(ids: seq<string>, nodes: map<string, Mssu>, edges: seq<DependencyEdge>, diagnostics: Diagnostics)
    returns (mutable: seq<DependencyEdge>, ghost kept: seq<nat>)
    requires Distinct(ids) && Elements(ids) == nodes.Keys && EndpointsKnown(nodes, edges)
    requires diagnostics.Valid()
    modifies diagnostics
    ensures diagnostics.Valid() && old(diagnostics.removedHardEdges) <= diagnostics.removedHardEdges
    ensures Selects(edges, kept, mutable) && ShortestCut(nodes, edges, kept)
    ensures Acyclic(EdgeArcs(mutable))
    ensures AllRecorded(edges, kept, old(diagnostics.removedHardEdges), diagnostics.removedHardEdges)
  {
    mutable := edges;
    kept := AllPositions(|edges|);
    AllPositionsSize(|edges|);
    assert forall i :: 0 <= i < |edges| ==> i in Elements(kept);
    var cyclic := CyclicNow(ids, nodes, mutable);
    while mutable != [] && cyclic
      invariant Selects(edges, kept, mutable) && CutSoFar(nodes, edges, kept)
      invariant cyclic <==> !Acyclic(EdgeArcs(mutable))
      invariant diagnostics.Valid() && old(diagnostics.removedHardEdges) <= diagnostics.removedHardEdges
      invariant AllRecorded(edges, kept, old(diagnostics.removedHardEdges), diagnostics.removedHardEdges)
      decreases |mutable|
    {
      var removeIdx := FirstOfAll(nodes, mutable);
      var removed := mutable[removeIdx];
      DropStep(nodes, edges, kept, mutable, removeIdx);
      SelectsWithout(edges, kept, mutable, removeIdx);
      ghost var rest := kept[..removeIdx] + kept[removeIdx + 1..];
      mutable := mutable[..removeIdx] + mutable[removeIdx + 1..];
      ghost var before := diagnostics.removedHardEdges;
      diagnostics.NoteDemotion(NodeLevel, removed);
      RecordStep(edges, kept, removeIdx, old(diagnostics.removedHardEdges), before, diagnostics.removedHardEdges);
      kept := rest;
      SelectedKnown(nodes, edges, kept, mutable);
      cyclic := CyclicNow(ids, nodes, mutable);
    }
    if mutable == [] {
      NoArcsAcyclic(EdgeArcs(mutable));
    }
    SelectedArcs(edges, kept, mutable);
  }

  lemma NoArcsAcyclic<N(!new)>(r: set<(N, N)>)
    requires r == {}
    ensures Acyclic(r)
  {
    CycleFreeIsAcyclic(r, {});
  }

  lemma SelectedKnown(nodes: map<string, Mssu>, edges: seq<DependencyEdge>, kept: seq<nat>, result: seq<DependencyEdge>)
    requires Selects(edges, kept, result) && EndpointsKnown(nodes, edges)
    ensures EndpointsKnown(nodes, result)
  {
    forall e | e in result ensures e in edges {
      var k :| 0 <= k < |result| && result[k] == e;
      assert edges[kept[k]] in edges;
    }
  }

  method CyclicNow(ids: seq<string>, nodes: map<string, Mssu>, edges: seq<DependencyEdge>) returns (cyclic: bool)
    requires Distinct(ids) && Elements(ids) == nodes.Keys && EndpointsKnown(nodes, edges)
    ensures cyclic <==> !Acyclic(EdgeArcs(edges))
  {
    EndsAreArcs(edges);
    forall a | a in Ends(edges) ensures a.0 in ids && a.1 in ids {
      var k :| 0 <= k < |edges| && Ends(edges)[k] == a;
      assert edges[k] in edges && edges[k].src in Elements(ids) && edges[k].dst in Elements(ids);
    }
    var acyclic := Kahn.IsAcyclic(ids, Ends(edges));
    cyclic := !acyclic;
  }

  /** No shorter prefix of the removal order would have done: any cut that keeps more edges is cyclic. */
  lemma ShorterCutIsCyclic(nodes: map<string, Mssu>, edges: seq<DependencyEdge>, kept: seq<nat>, other: seq<nat>)
    requires ShortestCut(nodes, edges, kept)
    requires Increasing(edges, other) && DropsPrefix(nodes, edges, other) && |other| > |kept|
    ensures !Acyclic(ArcsAt(edges, Elements(other)))
  {
    IncreasingDistinct(edges, kept);
    IncreasingDistinct(edges, other);
    PositionsBound(edges, other);
    var last :| LastDropped(nodes, edges, kept, last);
    forall x | x in Elements(kept) + {last} ensures x in Elements(other) {
      if x !in other {
        forall j | j in Elements(other) ensures j in Elements(kept) {
          DroppedBefore(nodes, edges, kept, last, j, x);
          BeforeTotal(nodes, edges, x, j);
          assert Before(nodes, edges, x, j);
        }
        SubsetSize(Elements(other), Elements(kept));
      }
    }
    assert ArcsAt(edges, Elements(kept) + {last}) <= ArcsAt(edges, Elements(other));
    if Acyclic(ArcsAt(edges, Elements(other))) {
      AcyclicSubset(ArcsAt(edges, Elements(kept) + {last}), ArcsAt(edges, Elements(other)));
    }
  }

  lemma IncreasingDistinct(edges: seq<DependencyEdge>, kept: seq<nat>)
    requires Increasing(edges, kept)
    ensures |Elements(kept)| == |kept|
  {
    DistinctSize(kept);
  }

  lemma PositionsBound(edges: seq<DependencyEdge>, kept: seq<nat>)
    requires Increasing(edges, kept)
    ensures |kept| <= |edges|
  {
    AllPositionsSize(|edges|);
    IncreasingDistinct(edges, kept);
    SubsetSize(Elements(kept), Elements(AllPositions(|edges|)));
  }

  lemma AllPositionsSize(n: nat)
    ensures forall i: nat :: i in Elements(AllPositions(n)) <==> i < n
    ensures |Elements(AllPositions(n))| == n
  {
    DistinctSize(AllPositions(n));
    forall i: nat | i < n ensures i in AllPositions(n) {
      assert AllPositions(n)[i] == i;
    }
  }

  lemma DroppedBefore(nodes: map<string, Mssu>, edges: seq<DependencyEdge>, kept: seq<nat>, last: nat, j: nat, x: nat)
    requires Increasing(edges, kept) && DropsPrefix(nodes, edges, kept) && LastDropped(nodes, edges, kept, last)
    requires j < |edges| && x < |edges| && (x in kept || x == last)
    ensures j in kept || j == x || Before(nodes, edges, j, x)
  {
    if x in kept && j !in kept { assert Before(nodes, edges, j, x); }
  }

  ghost function ProtectedPositions(nodes: map<string, Mssu>, edges: seq<DependencyEdge>): set<nat> {
    set i: nat | i < |edges| && Protected(nodes, edges[i])
  }

  /** Removal order gives up every unprotected edge before any protected one. */
  lemma ProtectedGoLast(nodes: map<string, Mssu>, edges: seq<DependencyEdge>, i: nat, j: nat)
    requires i < |edges| && j < |edges| && Before(nodes, edges, i, j) && Protected(nodes, edges[i])
    ensures Protected(nodes, edges[j])
  {
    assert RemovalRank(nodes, edges[i]).guarded == 1;
    assert RemovalRank(nodes, edges[j]).guarded == 1;
  }

  /** If a protected edge is lost, what was left with the last dropped edge was protected throughout. */
  lemma LossMeansAllProtected(nodes: map<string, Mssu>, edges: seq<DependencyEdge>, kept: seq<nat>, last: nat, i: nat)
    requires Increasing(edges, kept) && DropsPrefix(nodes, edges, kept) && LastDropped(nodes, edges, kept, last)
    requires i in ProtectedPositions(nodes, edges) && i !in kept
    ensures Elements(kept) + {last} <= ProtectedPositions(nodes, edges)
  {
    if i != last { ProtectedGoLast(nodes, edges, i, last); }
    forall j | j in kept ensures j in ProtectedPositions(nodes, edges) {
      ProtectedGoLast(nodes, edges, last, j);
    }
  }

  /** Protected edges survive exactly when they close no cycle among themselves. */
  lemma ProtectedSurviveIff(nodes: map<string, Mssu>, edges: seq<DependencyEdge>, kept: seq<nat>)
    requires ShortestCut(nodes, edges, kept)
    ensures ProtectedPositions(nodes, edges) <= Elements(kept) <==> Acyclic(ArcsAt(edges, ProtectedPositions(nodes, edges)))
  {
    var guarded := ProtectedPositions(nodes, edges);
    if guarded <= Elements(kept) {
      AcyclicSubset(ArcsAt(edges, guarded), ArcsAt(edges, Elements(kept)));
    } else {
      var i :| i in guarded && i !in Elements(kept);
      PartialCut(edges, kept, i);
      var last :| LastDropped(nodes, edges, kept, last);
      LossMeansAllProtected(nodes, edges, kept, last, i);
      if Acyclic(ArcsAt(edges, guarded)) {
        AcyclicSubset(ArcsAt(edges, Elements(kept) + {last}), ArcsAt(edges, guarded));
      }
    }
  }

  lemma PartialCut(edges: seq<DependencyEdge>, kept: seq<nat>, i: nat)
    requires Increasing(edges, kept) && i < |edges| && i !in kept
    ensures |kept| < |edges|
  {
    IncreasingDistinct(edges, kept);
    AllPositionsSize(|edges|);
    assert i in Elements(AllPositions(|edges|)) && i !in Elements(kept);
    SubsetSize(Elements(kept), Elements(AllPositions(|edges|)));
  }

  /** Arcs between distinct actions induced by the hard edges. */
  ghost function ActionArcs(nodes: map<string, Mssu>, edges: seq<DependencyEdge>): set<(string, string)> {
    set e, a, b | e in edges && e.src in nodes && e.dst in nodes && a in nodes[e.src].actions && b in nodes[e.dst].actions && a != b
      :: (a, b)
  }

  function WithArc(adjacency: map<string, set<string>>, a: string, b: string): map<string, set<string>> {
    var out := adjacency[a := (if a in adjacency then adjacency[a] else {}) + {b}];
    out[b := if b in out then out[b] else {}]
  }

  lemma WithArcAdds(adjacency: map<string, set<string>>, a: string, b: string)
    requires Tarjan.Complete(adjacency) && a != b
    ensures Tarjan.Complete(WithArc(adjacency, a, b))
    ensures Tarjan.Arcs(WithArc(adjacency, a, b)) == Tarjan.Arcs(adjacency) + {(a, b)}
  {
  }

  method AddProduct(adjacency: map<string, set<string>>, sources: set<string>, targets: set<string>)
    returns (out: map<string, set<string>>)
    requires Tarjan.Complete(adjacency)
    ensures Tarjan.Complete(out)
    ensures Tarjan.Arcs(out) == Tarjan.Arcs(adjacency) + set a, b | a in sources && b in targets && a != b :: (a, b)
  {
    out := adjacency;
    var left := sources;
    while left != {}
      invariant left <= sources && Tarjan.Complete(out)
      invariant Tarjan.Arcs(out) == Tarjan.Arcs(adjacency) + set a, b | a in sources - left && b in targets && a != b :: (a, b)
    {
      var a :| a in left;
      left := left - {a};
      ghost var before := Tarjan.Arcs(out);
      var right := targets;
      while right != {}
        invariant right <= targets && Tarjan.Complete(out)
        invariant Tarjan.Arcs(out) == before + set b | b in targets - right && a != b :: (a, b)
      {
        var b :| b in right;
        right := right - {b};
        if a != b {
          WithArcAdds(out, a, b);
          out := WithArc(out, a, b);
        }
      }
    }
  }

  method ActionAdjacency(nodes: map<string, Mssu>, edges: seq<DependencyEdge>) returns (adjacency: map<string, set<string>>)
    ensures Tarjan.Complete(adjacency) && Tarjan.Arcs(adjacency) == ActionArcs(nodes, edges)
  {
    adjacency := map[];
    for i := 0 to |edges|
      invariant Tarjan.Complete(adjacency) && Tarjan.Arcs(adjacency) == ActionArcs(nodes, edges[..i])
    {
      var e := edges[i];
      assert edges[..i + 1] == edges[..i] + [e];
      if e.src in nodes && e.dst in nodes {
        adjacency := AddProduct(adjacency, nodes[e.src].actions, nodes[e.dst].actions);
      }
    }
    assert edges[..|edges|] == edges;
  }

  /** Edges the action-level pass may demote: declared or templated, and never data edges. */
  predicate Demotable(e: DependencyEdge) {
    && e.kind != HardData
    && exists item | item in e.justification :: Text.StartsWith(item, "vdev_dep:") || Text.StartsWith(item, "rule_template:")
  }

  /** The edge carries no data, and was declared or comes from a template. */
  ghost predicate MayGo(e: DependencyEdge) {
    e.kind != HardData && exists item :: item in e.justification && ("vdev_dep:" <= item || "rule_template:" <= item)
  }

  /** An edge that may go and both of whose ends take part in an action cycle. */
  ghost predicate Removable(nodes: map<string, Mssu>, edges: seq<DependencyEdge>, e: DependencyEdge) {
    && MayGo(e) && e.src in nodes && e.dst in nodes
    && (exists a :: a in nodes[e.src].actions && Tarjan.OnCycle(ActionArcs(nodes, edges), a))
    && (exists b :: b in nodes[e.dst].actions && Tarjan.OnCycle(ActionArcs(nodes, edges), b))
  }

  /** One round of the action-level pass: the removable edge that comes first in removal order goes. */
  ghost predicate ActionStep(nodes: map<string, Mssu>, before: seq<DependencyEdge>, after: seq<DependencyEdge>) {
    exists p :: ActionStepAt(nodes, before, after, p)
  }

  ghost predicate ActionStepAt(nodes: map<string, Mssu>, before: seq<DependencyEdge>, after: seq<DependencyEdge>, p: nat) {
    && p < |before| && Removable(nodes, before, before[p]) && after == before[..p] + before[p + 1..]
    && forall k :: 0 <= k < |before| && k != p && Removable(nodes, before, before[k]) ==> Before(nodes, before, p, k)
  }

  ghost predicate ActionRun(nodes: map<string, Mssu>, run: seq<seq<DependencyEdge>>) {
    |run| > 0 && forall k :: 0 <= k < |run| - 1 ==> ActionStep(nodes, run[k], run[k + 1])
  }

  lemma ActionRunNext(nodes: map<string, Mssu>, run: seq<seq<DependencyEdge>>, next: seq<DependencyEdge>, k: nat)
    requires ActionRun(nodes, run) && ActionStepAt(nodes, run[|run| - 1], next, k)
    ensures ActionRun(nodes, run + [next])
  {
    assert ActionStep(nodes, run[|run| - 1], next);
  }

  /** The run cannot go on: the action graph is acyclic, or nothing on its cycles may be demoted. */
  ghost predicate Settled(nodes: map<string, Mssu>, edges: seq<DependencyEdge>) {
    Acyclic(ActionArcs(nodes, edges)) || forall e :: e in edges ==> !Removable(nodes, edges, e)
  }

  lemma ReachMore<N(!new)>(small: set<(N, N)>, big: set<(N, N)>, x: N, y: N)
    requires small <= big && Reach(small, x, y)
    ensures Reach(big, x, y)
  {
    var p :| Connects(small, p, x, y);
    assert Connects(big, p, x, y);
  }

  lemma OnCycleMore(small: set<(string, string)>, big: set<(string, string)>, x: string)
    requires small <= big && Tarjan.OnCycle(small, x)
    ensures Tarjan.OnCycle(big, x)
  {
    var y :| (x, y) in small && Reach(small, y, x);
    ReachMore(small, big, y, x);
  }

  /** Dropping further edges makes no edge removable. */
  lemma SettledStays(nodes: map<string, Mssu>, edges: seq<DependencyEdge>, fewer: seq<DependencyEdge>)
    requires Settled(nodes, edges) && forall e :: e in fewer ==> e in edges
    ensures Settled(nodes, fewer)
  {
    var small, big := ActionArcs(nodes, fewer), ActionArcs(nodes, edges);
    if Acyclic(big) {
      AcyclicSubset(small, big);
    } else {
      forall e | e in fewer ensures !Removable(nodes, fewer, e) {
        forall x | Tarjan.OnCycle(small, x) ensures Tarjan.OnCycle(big, x) { OnCycleMore(small, big, x); }
        assert !Removable(nodes, edges, e);
      }
    }
  }

  lemma DemotableMayGo(e: DependencyEdge)
    ensures Demotable(e) <==> MayGo(e)
  {
  }

  predicate Meets(actions: set<string>, others: set<string>) {
    exists a | a in actions :: a in others
  }

  method RemovablePositions(nodes: map<string, Mssu>, edges: seq<DependencyEdge>, cycleActions: set<string>) returns (removable: seq<nat>)
    requires forall a :: a in cycleActions <==> Tarjan.OnCycle(ActionArcs(nodes, edges), a)
    ensures Increasing(edges, removable)
    ensures forall k :: 0 <= k < |edges| ==> (k in removable <==> Removable(nodes, edges, edges[k]))
  {
    removable := [];
    for i := 0 to |edges|
      invariant forall k :: k in removable ==> k < i
      invariant Increasing(edges, removable)
      invariant forall k :: 0 <= k < i ==> (k in removable <==> Removable(nodes, edges, edges[k]))
    {
      var e := edges[i];
      assert forall k :: 0 <= k < |removable| ==> removable[k] in removable;
      DemotableMayGo(e);
      if e.src in nodes && e.dst in nodes && Meets(nodes[e.src].actions, cycleActions) && Meets(nodes[e.dst].actions, cycleActions)
        && Demotable(e)
      {
        assert Removable(nodes, edges, e);
        removable := removable + [i];
      } else {
        assert !Removable(nodes, edges, e);
      }
    }
  }

  method CycleActions(nodes: map<string, Mssu>, edges: seq<DependencyEdge>) returns (actions: set<string>)
    ensures forall a :: a in actions <==> Tarjan.OnCycle(ActionArcs(nodes, edges), a)
    ensures actions == {} <==> Acyclic(ActionArcs(nodes, edges))
  {
    var adjacency := ActionAdjacency(nodes, edges);
    var sccs := Tarjan.FindComponents(adjacency);
    actions := {};
    for i := 0 to |sccs|
      invariant forall a :: a in actions <==> exists k :: 0 <= k < i && a in sccs[k]
      invariant i > 0 ==> actions != {}
    {
      assert sccs[i] in sccs;
      actions := actions + sccs[i];
    }
    forall a ensures a in actions <==> exists c :: c in sccs && a in c {}
  }

  /** The edge the next round gives up, or none once the run has settled. */
  method ChooseDemotion(nodes: map<string, Mssu>, edges: seq<DependencyEdge>) returns (choice: Option<nat>)
    ensures choice.None? ==> Settled(nodes, edges)
    ensures choice.Some? ==> choice.value < |edges| && MayGo(edges[choice.value])
    ensures choice.Some? ==> ActionStepAt(nodes, edges, edges[..choice.value] + edges[choice.value + 1..], choice.value)
  {
    var cycleActions := CycleActions(nodes, edges);
    if cycleActions == {} { return None; }
    var removable := RemovablePositions(nodes, edges, cycleActions);
    if removable == [] {
      forall e | e in edges ensures !Removable(nodes, edges, e) {
        var k :| 0 <= k < |edges| && edges[k] == e;
        assert k !in removable;
      }
      return None;
    }
    var removeIdx := FirstMinimum(nodes, edges, removable);
    return Some(removeIdx);
  }

  /** Demotes edges between actions on a common cycle until none is left or none may go. */
  method BreakActionLevelCycles(nodes: map<string, Mssu>, edges: seq<DependencyEdge>, diagnostics: Diagnostics)
    returns (mutable: seq<DependencyEdge>, ghost kept: seq<nat>, ghost run: seq<seq<DependencyEdge>>)
    requires diagnostics.Valid()
    modifies diagnostics
    ensures diagnostics.Valid() && old(diagnostics.removedHardEdges) <= diagnostics.removedHardEdges
    ensures Selects(edges, kept, mutable) && AllRecorded(edges, kept, old(diagnostics.removedHardEdges), diagnostics.removedHardEdges)
    ensures forall i :: 0 <= i < |edges| && i !in kept ==> MayGo(edges[i])
    ensures ActionRun(nodes, run) && run[0] == edges && run[|run| - 1] == mutable
    ensures Settled(nodes, mutable)
  {
    mutable := edges;
    kept := AllPositions(|edges|);
    run := [edges];
    AllPositionsSize(|edges|);
    assert forall i :: 0 <= i < |edges| ==> i in Elements(kept);
    while true
      invariant Selects(edges, kept, mutable)
      invariant forall i :: 0 <= i < |edges| && i !in kept ==> MayGo(edges[i])
      invariant ActionRun(nodes, run) && run[0] == edges && run[|run| - 1] == mutable
      invariant diagnostics.Valid() && old(diagnostics.removedHardEdges) <= diagnostics.removedHardEdges
      invariant AllRecorded(edges, kept, old(diagnostics.removedHardEdges), diagnostics.removedHardEdges)
      decreases |mutable|
    {
      var choice := ChooseDemotion(nodes, mutable);
      if choice == None { return; }
      var removeIdx := choice.value;
      var removed := mutable[removeIdx];
      ghost var rest := kept[..removeIdx] + kept[removeIdx + 1..];
      SelectsWithout(edges, kept, mutable, removeIdx);
      mutable := mutable[..removeIdx] + mutable[removeIdx + 1..];
      ActionRunNext(nodes, run, mutable, removeIdx);
      run := run + [mutable];
      ghost var before := diagnostics.removedHardEdges;
      diagnostics.NoteDemotion(ActionLevel, removed);
      RecordStep(edges, kept, removeIdx, old(diagnostics.removedHardEdges), before, diagnostics.removedHardEdges);
      kept := rest;
    }
  }
}
