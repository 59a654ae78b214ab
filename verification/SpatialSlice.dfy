/** Backward slices of markers (optimizer/m2_reduction.py `_spatial_keep_with_policy`). Dependencies are always followed,
    control flow near the marker and a limited number of times for each function. */
module SpatialSlice {
  import opened Numbers
  import opened Sequences
  import opened Slices

  datatype EdgeType = DataDep | ControlDep | ExceptionDep | LifecycleDep | CfgNext | OtherType(name: string)

  datatype GraphEdge = GraphEdge(src: string, dst: string, edgeType: EdgeType)

  ghost predicate IsDependency(t: EdgeType) {
    t == DataDep || t == ControlDep || t == ExceptionDep || t == LifecycleDep
  }

  /** How a marker's slice is bounded: edge types, depth, and how often and how far back the control flow is followed. */
  datatype SlicePolicy = SlicePolicy(allowed: set<EdgeType>, depth: int, cfgLimit: int, cfgBackDepth: int)

  /** The edges, and the function each node belongs to. */
  datatype Graph = Graph(edges: seq<GraphEdge>, functionOf: map<string, string>)

  function Allowed(p: SlicePolicy): set<EdgeType> {
    if p.cfgBackDepth > 0 then p.allowed + {CfgNext} else p.allowed
  }

  /** An edge the policy allows that stands for data, control, an exception or a lifecycle. */
  ghost predicate Depends(e: GraphEdge, p: SlicePolicy) {
    e.edgeType in p.allowed && IsDependency(e.edgeType)
  }

  function NameOf(g: Graph, e: GraphEdge): string {
    if e.src in g.functionOf then g.functionOf[e.src] else ""
  }

  /** Backward steps along the dependencies a marker may follow. */
  ghost function DependencySteps(g: Graph, p: SlicePolicy): Steps {
    set e | e in g.edges && Depends(e, p) :: (e.dst, e.src)
  }

  /** The same and, when it may be followed at all, the control flow. */
  ghost function PossibleSteps(g: Graph, p: SlicePolicy): Steps {
    DependencySteps(g, p) + (set e | e in g.edges && p.cfgBackDepth > 0 && e.edgeType == CfgNext :: (e.dst, e.src))
  }

  /** The dependencies and the control-flow edges at the given places. */
  ghost function Followed(g: Graph, p: SlicePolicy, taken: set<nat>): Steps {
    DependencySteps(g, p) + (set i | i in taken && i < |g.edges| :: (g.edges[i].dst, g.edges[i].src))
  }

  // ----- counting the control flow

  ghost function TakenIn(g: Graph, taken: set<nat>, name: string): set<nat> {
    set i | i in taken && i < |g.edges| && NameOf(g, g.edges[i]) == name
  }

  function CountIn(counts: map<string, int>, name: string): int {
    if name in counts then counts[name] else 0
  }

  ghost predicate ControlFlow(g: Graph, taken: set<nat>) {
    forall i :: i in taken ==> i < |g.edges| && g.edges[i].edgeType == CfgNext
  }

  /** The table counts the control-flow edges taken in each named function, which are no more than the limit. */
  ghost predicate Counted(g: Graph, p: SlicePolicy, taken: set<nat>, counts: map<string, int>) {
    ControlFlow(g, taken) && forall name :: name != "" ==> |TakenIn(g, taken, name)| == CountIn(counts, name) <= Max(0, p.cfgLimit)
  }

  /** The function of the edge has used up its limit. */
  ghost predicate Full(g: Graph, p: SlicePolicy, taken: set<nat>, e: GraphEdge) {
    NameOf(g, e) != "" && |TakenIn(g, taken, NameOf(g, e))| >= Max(0, p.cfgLimit)
  }

  /** No control flow into the nodes is left that could still be taken. */
  ghost predicate Exhausted(g: Graph, p: SlicePolicy, taken: set<nat>, nodes: set<string>) {
    forall k :: 0 <= k < |g.edges| && g.edges[k].edgeType == CfgNext && k !in taken && g.edges[k].dst in nodes ==> Full(g, p, taken, g.edges[k])
  }

  /** All control flow taken leads from a node within the back depth. */
  ghost predicate Near(g: Graph, p: SlicePolicy, taken: set<nat>, steps: Steps, seeds: set<string>) {
    taken != {} ==> p.cfgBackDepth >= 1 && forall k :: k in taken ==>
      k < |g.edges| && g.edges[k].edgeType == CfgNext && g.edges[k].dst in Within(steps, seeds, p.cfgBackDepth - 1)
  }

  lemma TakenMore(g: Graph, taken: set<nat>, i: nat, name: string)
    requires i !in taken && i < |g.edges|
    ensures |TakenIn(g, taken + {i}, name)| == |TakenIn(g, taken, name)| + if NameOf(g, g.edges[i]) == name then 1 else 0
  {
    if NameOf(g, g.edges[i]) == name {
      assert TakenIn(g, taken + {i}, name) == TakenIn(g, taken, name) + {i};
    } else {
      assert TakenIn(g, taken + {i}, name) == TakenIn(g, taken, name);
    }
  }

  lemma StaysFull(g: Graph, p: SlicePolicy, taken: set<nat>, more: set<nat>, e: GraphEdge)
    requires taken <= more && Full(g, p, taken, e)
    ensures Full(g, p, more, e)
  {
    SubsetSize(TakenIn(g, taken, NameOf(g, e)), TakenIn(g, more, NameOf(g, e)));
  }

  lemma TakeOne(g: Graph, p: SlicePolicy, taken: set<nat>, counts: map<string, int>, i: nat, counts2: map<string, int>)
    requires Counted(g, p, taken, counts) && i !in taken && i < |g.edges| && g.edges[i].edgeType == CfgNext
    requires var name := NameOf(g, g.edges[i]);
      if name == "" then counts2 == counts else CountIn(counts, name) < Max(0, p.cfgLimit) && counts2 == counts[name := CountIn(counts, name) + 1]
    ensures Counted(g, p, taken + {i}, counts2)
  {
    forall name | name != "" ensures |TakenIn(g, taken + {i}, name)| == CountIn(counts2, name) <= Max(0, p.cfgLimit) {
      TakenMore(g, taken, i, name);
    }
  }

  /** Whether an edge is followed at this depth; control flow counts per function of its source. */
  method Follow(g: Graph, e: GraphEdge, p: SlicePolicy, depth: int, counts: map<string, int>) returns (ok: bool, counts2: map<string, int>)
    requires depth >= 0
    ensures Depends(e, p) ==> ok
    ensures ok && !Depends(e, p) ==> e.edgeType == CfgNext && depth < p.cfgBackDepth
    ensures ok && !Depends(e, p) && NameOf(g, e) != "" ==>
      CountIn(counts, NameOf(g, e)) < CountIn(counts2, NameOf(g, e)) <= Max(0, p.cfgLimit) && counts2 == counts[NameOf(g, e) := CountIn(counts, NameOf(g, e)) + 1]
    ensures !ok && e.edgeType == CfgNext && depth < p.cfgBackDepth ==> NameOf(g, e) != "" && CountIn(counts, NameOf(g, e)) >= Max(0, p.cfgLimit)
    ensures !ok || Depends(e, p) || NameOf(g, e) == "" ==> counts2 == counts
  {
    counts2 := counts;
    if e.edgeType !in Allowed(p) { return false, counts2; }
    if e.edgeType == DataDep || e.edgeType == ControlDep || e.edgeType == ExceptionDep || e.edgeType == LifecycleDep { return true, counts2; }
    if e.edgeType != CfgNext || depth >= p.cfgBackDepth { return false, counts2; }
    var name := NameOf(g, e);
    if name != "" {
      var count := CountIn(counts, name);
      if count >= Max(0, p.cfgLimit) { return false, counts2; }
      counts2 := counts[name := count + 1];
    }
    return true, counts2;
  }

  // ----- one node

  /** Edge `k` leads into the node and is a dependency or taken. */
  ghost predicate Enters(g: Graph, p: SlicePolicy, taken: set<nat>, node: string, k: nat) {
    k < |g.edges| && g.edges[k].dst == node && (Depends(g.edges[k], p) || k in taken)
  }

  /** After the first `n` edges: what has been taken, */
  ghost predicate ScanTaken(g: Graph, p: SlicePolicy, depth: int, node: string, before: set<nat>, n: nat, taken: set<nat>) {
    before <= taken && forall k :: k in taken && k !in before ==> k < n && k < |g.edges| && g.edges[k].dst == node && depth < p.cfgBackDepth
  }

  /** what has been seen, */
  ghost predicate ScanSeen(g: Graph, p: SlicePolicy, node: string, seen: set<string>, n: nat, taken: set<nat>, seen2: set<string>) {
    forall v :: v in seen2 <==> v in seen || exists k :: 0 <= k < n && Enters(g, p, taken, node, k) && g.edges[k].src == v
  }

  /** and what had to be left. */
  ghost predicate ScanLeft(g: Graph, p: SlicePolicy, node: string, n: nat, taken: set<nat>) {
    forall k :: 0 <= k < n && k < |g.edges| && g.edges[k].dst == node && g.edges[k].edgeType == CfgNext && k !in taken ==> Full(g, p, taken, g.edges[k])
  }

  ghost predicate Scanned(g: Graph, p: SlicePolicy, depth: int, node: string, before: set<nat>, seen: set<string>, n: nat, taken: set<nat>, seen2: set<string>) {
    && ScanTaken(g, p, depth, node, before, n, taken) && ScanSeen(g, p, node, seen, n, taken, seen2)
    && (depth < p.cfgBackDepth ==> ScanLeft(g, p, node, n, taken))
  }

  lemma SeenNext(g: Graph, p: SlicePolicy, node: string, seen: set<string>, n: nat, taken: set<nat>, seen2: set<string>, taken2: set<nat>)
    requires ScanSeen(g, p, node, seen, n, taken, seen2) && n < |g.edges| && (taken2 == taken || taken2 == taken + {n})
    ensures ScanSeen(g, p, node, seen, n + 1, taken2, if Enters(g, p, taken2, node, n) then seen2 + {g.edges[n].src} else seen2)
  {
    var seen3 := if Enters(g, p, taken2, node, n) then seen2 + {g.edges[n].src} else seen2;
    forall v ensures v in seen3 <==> v in seen || exists k :: 0 <= k < n + 1 && Enters(g, p, taken2, node, k) && g.edges[k].src == v {
      if k :| 0 <= k < n + 1 && Enters(g, p, taken2, node, k) && g.edges[k].src == v {
        assert k < n ==> Enters(g, p, taken, node, k);
      }
      if v in seen2 && v !in seen {
        var k :| 0 <= k < n && Enters(g, p, taken, node, k) && g.edges[k].src == v;
        assert Enters(g, p, taken2, node, k);
      }
    }
  }

  lemma LeftNext(g: Graph, p: SlicePolicy, node: string, n: nat, taken: set<nat>, taken2: set<nat>)
    requires ScanLeft(g, p, node, n, taken) && n < |g.edges| && taken <= taken2
    requires g.edges[n].dst == node && g.edges[n].edgeType == CfgNext && n !in taken2 ==> Full(g, p, taken2, g.edges[n])
    ensures ScanLeft(g, p, node, n + 1, taken2)
  {
    forall k | 0 <= k < n && g.edges[k].dst == node && g.edges[k].edgeType == CfgNext && k !in taken2 ensures Full(g, p, taken2, g.edges[k]) {
      StaysFull(g, p, taken, taken2, g.edges[k]);
    }
  }

  lemma ScanNext(g: Graph, p: SlicePolicy, depth: int, node: string, before: set<nat>, seen: set<string>, n: nat, taken: set<nat>, seen2: set<string>, take: bool)
    requires Scanned(g, p, depth, node, before, seen, n, taken, seen2) && n < |g.edges| && (g.edges[n].dst == node ==> n !in before)
    requires take ==> g.edges[n].dst == node && depth < p.cfgBackDepth
    requires !take && g.edges[n].dst == node && g.edges[n].edgeType == CfgNext && depth < p.cfgBackDepth ==> Full(g, p, taken, g.edges[n])
    ensures var taken2 := if take then taken + {n} else taken;
      Scanned(g, p, depth, node, before, seen, n + 1, taken2, if Enters(g, p, taken2, node, n) then seen2 + {g.edges[n].src} else seen2)
  {
    var taken2 := if take then taken + {n} else taken;
    SeenNext(g, p, node, seen, n, taken, seen2, taken2);
    if depth < p.cfgBackDepth { LeftNext(g, p, node, n, taken, taken2); }
  }

  /** What following the edges into some nodes at one depth means: nothing is taken elsewhere or too far back, and what is not
      taken is a dependency, no control flow, or of a function that has used up its limit. */
  ghost predicate Explored(g: Graph, p: SlicePolicy, depth: int, nodes: set<string>, before: set<nat>, seen: set<string>, taken: set<nat>, seen2: set<string>) {
    && before <= taken && (forall k :: k in taken && k !in before ==> k < |g.edges| && g.edges[k].dst in nodes && depth < p.cfgBackDepth)
    && seen2 == seen + Neighbours(Followed(g, p, taken), nodes)
    && (depth < p.cfgBackDepth ==> Exhausted(g, p, taken, nodes))
  }

  lemma ScannedAll(g: Graph, p: SlicePolicy, depth: int, node: string, before: set<nat>, seen: set<string>, taken: set<nat>, seen2: set<string>)
    requires Scanned(g, p, depth, node, before, seen, |g.edges|, taken, seen2)
    ensures Explored(g, p, depth, {node}, before, seen, taken, seen2)
  {
    forall v ensures v in Neighbours(Followed(g, p, taken), {node}) <==> exists k :: 0 <= k < |g.edges| && Enters(g, p, taken, node, k) && g.edges[k].src == v {
      if v in Neighbours(Followed(g, p, taken), {node}) {
        assert (node, v) in Followed(g, p, taken);
        if (node, v) in DependencySteps(g, p) {
          var e :| e in g.edges && Depends(e, p) && (e.dst, e.src) == (node, v);
          var k :| 0 <= k < |g.edges| && g.edges[k] == e;
          assert Enters(g, p, taken, node, k);
        } else {
          var k :| k in taken && k < |g.edges| && (g.edges[k].dst, g.edges[k].src) == (node, v);
          assert Enters(g, p, taken, node, k);
        }
      }
      if k :| 0 <= k < |g.edges| && Enters(g, p, taken, node, k) && g.edges[k].src == v {
        assert (node, v) in Followed(g, p, taken);
      }
    }
  }

  /** Follows the edges into one node. */
  method FollowInto(g: Graph, node: string, p: SlicePolicy, depth: int, counts: map<string, int>, seen: set<string>, ghost before: set<nat>)
    returns (seen2: set<string>, counts2: map<string, int>, ghost taken: set<nat>)
    requires depth >= 0 && Counted(g, p, before, counts) && forall k :: k in before ==> k < |g.edges| && g.edges[k].dst != node
    ensures Counted(g, p, taken, counts2) && Explored(g, p, depth, {node}, before, seen, taken, seen2)
  {
    seen2, counts2, taken := seen, counts, before;
    for i := 0 to |g.edges|
      invariant Counted(g, p, taken, counts2) && Scanned(g, p, depth, node, before, seen, i, taken, seen2)
    {
      var e := g.edges[i];
      ghost var take := false;
      if e.dst == node {
        ghost var counts1 := counts2;
        var ok;
        ok, counts2 := Follow(g, e, p, depth, counts2);
        take := ok && !Depends(e, p);
        if take { TakeOne(g, p, taken, counts1, i, counts2); }
        ScanNext(g, p, depth, node, before, seen, i, taken, seen2, take);
        if ok { seen2 := seen2 + {e.src}; }
      } else {
        ScanNext(g, p, depth, node, before, seen, i, taken, seen2, false);
      }
      taken := if take then taken + {i} else taken;
    }
    ScannedAll(g, p, depth, node, before, seen, taken, seen2);
  }

  // ----- one level

  lemma SamePlaces(g: Graph, p: SlicePolicy, taken: set<nat>, more: set<nat>, nodes: set<string>)
    requires taken <= more && forall k :: k in more && k !in taken ==> k < |g.edges| && g.edges[k].dst !in nodes
    ensures Neighbours(Followed(g, p, more), nodes) == Neighbours(Followed(g, p, taken), nodes)
  {
    assert Followed(g, p, taken) <= Followed(g, p, more);
    forall a | a in Followed(g, p, more) && a.0 in nodes ensures a in Followed(g, p, taken) {
      if a !in DependencySteps(g, p) {
        var k :| k in more && k < |g.edges| && (g.edges[k].dst, g.edges[k].src) == a;
        assert k in taken;
      }
    }
  }

  lemma ExploreMore(g: Graph, p: SlicePolicy, depth: int, nodes: set<string>, node: string, before: set<nat>, seen: set<string>,
                    taken: set<nat>, seen2: set<string>, taken3: set<nat>, seen3: set<string>)
    requires Explored(g, p, depth, nodes, before, seen, taken, seen2) && node !in nodes
    requires Explored(g, p, depth, {node}, taken, seen2, taken3, seen3)
    ensures Explored(g, p, depth, nodes + {node}, before, seen, taken3, seen3)
  {
    SamePlaces(g, p, taken, taken3, nodes);
    BothNeighbours(Followed(g, p, taken3), nodes, node);
    if depth < p.cfgBackDepth {
      ExhaustedStays(g, p, taken, taken3, nodes);
      ExhaustedBoth(g, p, taken3, nodes, {node});
    }
  }

  lemma BothNeighbours(steps: Steps, nodes: set<string>, node: string)
    ensures Neighbours(steps, nodes + {node}) == Neighbours(steps, nodes) + Neighbours(steps, {node})
  {
  }

  lemma ExhaustedBoth(g: Graph, p: SlicePolicy, taken: set<nat>, a: set<string>, b: set<string>)
    requires Exhausted(g, p, taken, a) && Exhausted(g, p, taken, b)
    ensures Exhausted(g, p, taken, a + b)
  {
  }

  /** Nothing has been taken into the nodes yet. */
  ghost predicate Fresh(g: Graph, taken: set<nat>, nodes: set<string>) {
    forall k :: k in taken ==> k < |g.edges| && g.edges[k].dst !in nodes
  }

  method SliceLevel(g: Graph, frontier: set<string>, p: SlicePolicy, depth: int, counts: map<string, int>, seen: set<string>, ghost before: set<nat>)
    returns (seen2: set<string>, counts2: map<string, int>, ghost taken: set<nat>)
    requires depth >= 0 && Counted(g, p, before, counts) && Fresh(g, before, frontier)
    ensures Counted(g, p, taken, counts2) && Explored(g, p, depth, frontier, before, seen, taken, seen2)
  {
    seen2, counts2, taken := seen, counts, before;
    var todo := frontier;
    while todo != {}
      invariant todo <= frontier && Counted(g, p, taken, counts2) && Explored(g, p, depth, frontier - todo, before, seen, taken, seen2)
    {
      var node :| node in todo;
      ghost var taken1, seen1 := taken, seen2;
      seen2, counts2, taken := FollowInto(g, node, p, depth, counts2, seen2, taken);
      ExploreMore(g, p, depth, frontier - todo, node, before, seen, taken1, seen1, taken, seen2);
      assert frontier - (todo - {node}) == (frontier - todo) + {node};
      todo := todo - {node};
    }
    assert frontier - todo == frontier;
  }

  // ----- one marker

  /** The steps in which `many` exceeds `few` leave from other nodes. */
  ghost predicate Outside(few: Steps, many: Steps, nodes: set<string>) {
    forall a :: a in many && a !in few ==> a.0 !in nodes
  }

  /** New steps that leave from outside a level do not change it or the levels below. */
  lemma {:induction false} SameLevels(few: Steps, many: Steps, seeds: set<string>, k: nat)
    requires few <= many && (k > 0 ==> Outside(few, many, Within(few, seeds, k - 1)))
    ensures Within(many, seeds, k) == Within(few, seeds, k)
  {
    if k > 0 {
      if k > 1 {
        WithinGrows(few, seeds, k - 2, k - 1);
        OutsideSubset(few, many, Within(few, seeds, k - 1), Within(few, seeds, k - 2));
      }
      SameLevels(few, many, seeds, k - 1);
      var level := Within(few, seeds, k - 1);
      assert forall a :: a in many && a.0 in level ==> a in few;
      assert Neighbours(many, level) == Neighbours(few, level);
    }
  }

  /** The nodes of the first `k` levels that lie within the back depth. */
  ghost function Drained(steps: Steps, seeds: set<string>, back: int, k: nat): set<string> {
    if back < 1 || k == 0 then {} else if back < k then Within(steps, seeds, back - 1) else Within(steps, seeds, k - 1)
  }

  /** `taken` explains the slice: it holds the nodes within the depth along dependencies and the control-flow edges taken;
      those lie within the back depth and within the limit of each named function, and one is left out only if it lies too far
      back or its function has used up its limit. */
  ghost predicate Explains(g: Graph, seeds: set<string>, p: SlicePolicy, taken: set<nat>, keep: set<string>) {
    var steps, depth := Followed(g, p, taken), Max(0, p.depth);
    && keep == Within(steps, seeds, depth) && Near(g, p, taken, steps, seeds)
    && (forall name :: name != "" ==> |TakenIn(g, taken, name)| <= Max(0, p.cfgLimit))
    && (p.depth > 0 ==> Exhausted(g, p, taken, Drained(steps, seeds, p.cfgBackDepth, depth + 1)))
  }

  ghost predicate IsSlice(g: Graph, seeds: set<string>, p: SlicePolicy, keep: set<string>) {
    exists taken :: Explains(g, seeds, p, taken, keep)
  }

  /** Before level `k`: `keep` holds the levels below and `frontier` the rest of level `k`, along what has been taken so far. */
  ghost predicate AtLevel(g: Graph, seeds: set<string>, p: SlicePolicy, taken: set<nat>, keep: set<string>, frontier: set<string>, k: nat) {
    var steps := Followed(g, p, taken);
    && keep !! frontier && keep + frontier == Within(steps, seeds, k) && keep == (if k == 0 then {} else Within(steps, seeds, k - 1))
    && ControlFlow(g, taken) && (forall i :: i in taken ==> g.edges[i].dst in keep)
    && Near(g, p, taken, steps, seeds)
  }

  lemma FollowedGrows(g: Graph, p: SlicePolicy, taken: set<nat>, more: set<nat>, nodes: set<string>)
    requires taken <= more && forall k :: k in more && k !in taken ==> k < |g.edges| && g.edges[k].dst !in nodes
    ensures Followed(g, p, taken) <= Followed(g, p, more)
    ensures Outside(Followed(g, p, taken), Followed(g, p, more), nodes)
  {
    forall a | a in Followed(g, p, more) - Followed(g, p, taken) ensures a.0 !in nodes {
      var k :| k in more && k < |g.edges| && (g.edges[k].dst, g.edges[k].src) == a;
      assert k !in taken;
    }
  }

  lemma NextLevel(g: Graph, seeds: set<string>, p: SlicePolicy, taken: set<nat>, keep: set<string>, frontier: set<string>, k: nat, taken2: set<nat>, seen: set<string>)
    requires AtLevel(g, seeds, p, taken, keep, frontier, k) && ControlFlow(g, taken2)
    requires Explored(g, p, k, frontier, taken, keep + frontier, taken2, seen)
    ensures AtLevel(g, seeds, p, taken2, keep + frontier, seen - (keep + frontier), k + 1)
    ensures if p.cfgBackDepth > k
      then Drained(Followed(g, p, taken), seeds, p.cfgBackDepth, k) == keep && Drained(Followed(g, p, taken2), seeds, p.cfgBackDepth, k + 1) == keep + frontier
      else Drained(Followed(g, p, taken2), seeds, p.cfgBackDepth, k + 1) == Drained(Followed(g, p, taken), seeds, p.cfgBackDepth, k)
  {
    var few, many, now := Followed(g, p, taken), Followed(g, p, taken2), keep + frontier;
    FollowedGrows(g, p, taken, taken2, keep);
    LevelGrows(few, many, seeds, keep, frontier, k);
    assert now + (seen - now) == seen;
    TakenNear(g, p, taken, few, many, seeds, now, k, taken2);
    DrainedNext(few, many, seeds, keep, frontier, k, p.cfgBackDepth);
  }

  /** New steps from the frontier leave the level as it is and lead to the next one. */
  lemma LevelGrows(few: Steps, many: Steps, seeds: set<string>, keep: set<string>, frontier: set<string>, k: nat)
    requires few <= many && keep !! frontier && keep + frontier == Within(few, seeds, k) && keep == (if k == 0 then {} else Within(few, seeds, k - 1))
    requires Outside(few, many, keep)
    ensures Within(many, seeds, k) == keep + frontier
    ensures Within(many, seeds, k + 1) == keep + frontier + Neighbours(many, frontier)
  {
    SameLevels(few, many, seeds, k);
    var now := keep + frontier;
    assert Neighbours(many, now) == Neighbours(many, keep) + Neighbours(many, frontier);
    assert Neighbours(many, keep) <= now by {
      assert forall a :: a in many && a.0 in keep ==> a in few;
      if k > 0 { assert Within(few, seeds, k) == keep + Neighbours(few, keep); }
    }
  }

  lemma StillWithin(few: Steps, many: Steps, seeds: set<string>, m: nat, n: nat, v: string)
    requires few <= many && m <= n && v in Within(few, seeds, m)
    ensures v in Within(many, seeds, n)
  {
    WithinMoreSteps(few, many, seeds, m);
    WithinGrows(many, seeds, m, n);
  }

  lemma TakenNear(g: Graph, p: SlicePolicy, taken: set<nat>, few: Steps, many: Steps, seeds: set<string>, nodes: set<string>, k: nat, taken2: set<nat>)
    requires Near(g, p, taken, few, seeds) && ControlFlow(g, taken2) && taken <= taken2 && few <= many && nodes == Within(many, seeds, k)
    requires forall i :: i in taken2 && i !in taken ==> g.edges[i].dst in nodes && k < p.cfgBackDepth
    ensures Near(g, p, taken2, many, seeds)
  {
    forall i | i in taken2 ensures p.cfgBackDepth >= 1 && g.edges[i].dst in Within(many, seeds, p.cfgBackDepth - 1) {
      if i in taken {
        StillWithin(few, many, seeds, p.cfgBackDepth - 1, p.cfgBackDepth - 1, g.edges[i].dst);
      } else {
        StillWithin(many, many, seeds, k, p.cfgBackDepth - 1, g.edges[i].dst);
      }
    }
  }

  lemma ExhaustedStays(g: Graph, p: SlicePolicy, taken: set<nat>, taken2: set<nat>, nodes: set<string>)
    requires Exhausted(g, p, taken, nodes) && taken <= taken2
    ensures Exhausted(g, p, taken2, nodes)
  {
    forall k | 0 <= k < |g.edges| && g.edges[k].edgeType == CfgNext && k !in taken2 && g.edges[k].dst in nodes ensures Full(g, p, taken2, g.edges[k]) {
      StaysFull(g, p, taken, taken2, g.edges[k]);
    }
  }

  lemma OutsideSubset(few: Steps, many: Steps, big: set<string>, small: set<string>)
    requires small <= big && Outside(few, many, big)
    ensures Outside(few, many, small)
  {
  }

  lemma OutsideLower(few: Steps, many: Steps, seeds: set<string>, m: nat, n: nat)
    requires m <= n && Outside(few, many, Within(few, seeds, n))
    ensures Outside(few, many, Within(few, seeds, m))
  {
    WithinGrows(few, seeds, m, n);
    OutsideSubset(few, many, Within(few, seeds, n), Within(few, seeds, m));
  }

  /** The levels up to `low` stay when new steps leave from beyond `keep`. */
  lemma LowStays(few: Steps, many: Steps, seeds: set<string>, low: nat, k: nat)
    requires low < k && few <= many && Outside(few, many, Within(few, seeds, k - 1))
    ensures Within(many, seeds, low) == Within(few, seeds, low)
  {
    OutsideLower(few, many, seeds, if low == 0 then 0 else low - 1, k - 1);
    SameLevels(few, many, seeds, low);
  }

  lemma DrainedNext(few: Steps, many: Steps, seeds: set<string>, keep: set<string>, frontier: set<string>, k: nat, back: int)
    requires few <= many && keep == (if k == 0 then {} else Within(few, seeds, k - 1))
    requires Outside(few, many, keep) && Within(many, seeds, k) == keep + frontier
    ensures if back > k then Drained(few, seeds, back, k) == keep && Drained(many, seeds, back, k + 1) == keep + frontier
            else Drained(many, seeds, back, k + 1) == Drained(few, seeds, back, k)
  {
    if 1 <= back <= k { LowStays(few, many, seeds, back - 1, k); }
  }

  /** Nothing is left in the levels within the back depth. */
  lemma NextExhausted(g: Graph, p: SlicePolicy, taken: set<nat>, taken2: set<nat>, keep: set<string>, frontier: set<string>, k: nat, drained: set<string>, drained2: set<string>)
    requires taken <= taken2 && Exhausted(g, p, taken, drained) && (k < p.cfgBackDepth ==> Exhausted(g, p, taken2, frontier))
    requires if p.cfgBackDepth > k then drained == keep && drained2 == keep + frontier else drained2 == drained
    ensures Exhausted(g, p, taken2, drained2)
  {
    ExhaustedStays(g, p, taken, taken2, drained);
  }

  // ----- the end

  lemma LevelsEnd(steps: Steps, seeds: set<string>, keep: set<string>, k: nat, n: nat)
    requires keep == Within(steps, seeds, k) && keep == (if k == 0 then {} else Within(steps, seeds, k - 1)) && n >= k
    ensures Within(steps, seeds, n) == keep
  {
    WithinClosed(steps, seeds, if k == 0 then 0 else k - 1, n);
  }

  lemma DrainedEnds(steps: Steps, seeds: set<string>, keep: set<string>, k: nat, back: int, depth: nat)
    requires k <= depth && keep == Within(steps, seeds, k) && keep == (if k == 0 then {} else Within(steps, seeds, k - 1))
    ensures Drained(steps, seeds, back, depth + 1) == Drained(steps, seeds, back, k)
  {
    if k == 0 {
      if back >= 1 { LevelsEnd(steps, seeds, keep, 0, if back < depth + 1 then back - 1 else depth); }
    } else if back > k {
      LevelsEnd(steps, seeds, keep, k, if back < depth + 1 then back - 1 else depth);
    }
  }

  lemma SliceEnds(g: Graph, seeds: set<string>, p: SlicePolicy, taken: set<nat>, keep: set<string>, frontier: set<string>, k: nat)
    requires AtLevel(g, seeds, p, taken, keep, frontier, k) && p.depth > 0 && k <= p.depth + 1 && (frontier == {} || k == p.depth + 1)
    ensures keep == Within(Followed(g, p, taken), seeds, p.depth)
    ensures Drained(Followed(g, p, taken), seeds, p.cfgBackDepth, p.depth + 1) == Drained(Followed(g, p, taken), seeds, p.cfgBackDepth, k)
  {
    if k <= p.depth {
      assert keep + frontier == keep;
      LevelsEnd(Followed(g, p, taken), seeds, keep, k, p.depth);
      DrainedEnds(Followed(g, p, taken), seeds, keep, k, p.cfgBackDepth, p.depth);
    }
  }

  lemma ExplainedBy(g: Graph, seeds: set<string>, p: SlicePolicy, taken: set<nat>, keep: set<string>, counts: map<string, int>, drained: set<string>)
    requires p.depth > 0 && keep == Within(Followed(g, p, taken), seeds, p.depth) && Near(g, p, taken, Followed(g, p, taken), seeds) && Counted(g, p, taken, counts)
    requires Exhausted(g, p, taken, drained) && drained == Drained(Followed(g, p, taken), seeds, p.cfgBackDepth, p.depth + 1)
    ensures Explains(g, seeds, p, taken, keep)
  {
  }

  /** The loop's variables before level `k`. */
  ghost predicate Slicing(g: Graph, seeds: set<string>, p: SlicePolicy, taken: set<nat>, counts: map<string, int>, keep: set<string>, frontier: set<string>, k: nat) {
    && Counted(g, p, taken, counts) && AtLevel(g, seeds, p, taken, keep, frontier, k)
    && Exhausted(g, p, taken, Drained(Followed(g, p, taken), seeds, p.cfgBackDepth, k))
  }

  lemma SliceStarts(g: Graph, seeds: set<string>, p: SlicePolicy)
    ensures Slicing(g, seeds, p, {}, map[], {}, seeds, 0)
    ensures p.depth <= 0 ==> Explains(g, seeds, p, {}, seeds)
  {
    forall name ensures TakenIn(g, {}, name) == {} {}
  }

  lemma SlicingNext(g: Graph, seeds: set<string>, p: SlicePolicy, taken: set<nat>, counts: map<string, int>, keep: set<string>, frontier: set<string>, k: nat,
                    taken2: set<nat>, counts2: map<string, int>, seen: set<string>)
    requires Slicing(g, seeds, p, taken, counts, keep, frontier, k)
    requires Counted(g, p, taken2, counts2) && Explored(g, p, k, frontier, taken, keep + frontier, taken2, seen)
    ensures Slicing(g, seeds, p, taken2, counts2, keep + frontier, seen - (keep + frontier), k + 1)
  {
    NextLevel(g, seeds, p, taken, keep, frontier, k, taken2, seen);
    NextExhausted(g, p, taken, taken2, keep, frontier, k, Drained(Followed(g, p, taken), seeds, p.cfgBackDepth, k),
                  Drained(Followed(g, p, taken2), seeds, p.cfgBackDepth, k + 1));
  }

  lemma SlicingDone(g: Graph, seeds: set<string>, p: SlicePolicy, taken: set<nat>, counts: map<string, int>, keep: set<string>, frontier: set<string>, k: nat)
    requires Slicing(g, seeds, p, taken, counts, keep, frontier, k)
    requires p.depth > 0 && k <= p.depth + 1 && (frontier == {} || k == p.depth + 1)
    ensures Explains(g, seeds, p, taken, keep)
  {
    SliceEnds(g, seeds, p, taken, keep, frontier, k);
    ExplainedBy(g, seeds, p, taken, keep, counts, Drained(Followed(g, p, taken), seeds, p.cfgBackDepth, k));
  }

  lemma FrontierIsFresh(g: Graph, seeds: set<string>, p: SlicePolicy, taken: set<nat>, counts: map<string, int>, keep: set<string>, frontier: set<string>, k: nat)
    requires Slicing(g, seeds, p, taken, counts, keep, frontier, k)
    ensures Counted(g, p, taken, counts) && Fresh(g, taken, frontier)
  {
  }

  /** The slice before level `k`, with all nodes seen so far. */
  ghost predicate MidSlice(g: Graph, seeds: set<string>, p: SlicePolicy, taken: set<nat>, counts: map<string, int>, keep: set<string>, frontier: set<string>, seen: set<string>, k: nat) {
    seen == keep + frontier && Slicing(g, seeds, p, taken, counts, keep, frontier, k)
  }

  /** Some choice of control flow explains the slice before level `k`. */
  ghost predicate Explained(g: Graph, seeds: set<string>, p: SlicePolicy, counts: map<string, int>, keep: set<string>, frontier: set<string>, seen: set<string>, k: nat) {
    exists taken :: MidSlice(g, seeds, p, taken, counts, keep, frontier, seen, k)
  }

  lemma StartExplained(g: Graph, seeds: set<string>, p: SlicePolicy)
    ensures Explained(g, seeds, p, map[], {}, seeds, seeds, 0)
  {
    SliceStarts(g, seeds, p);
    assert MidSlice(g, seeds, p, {}, map[], {}, seeds, seeds, 0);
  }

  lemma EndExplained(g: Graph, seeds: set<string>, p: SlicePolicy, counts: map<string, int>, keep: set<string>, frontier: set<string>, seen: set<string>, k: nat)
    requires Explained(g, seeds, p, counts, keep, frontier, seen, k)
    requires p.depth > 0 && k <= p.depth + 1 && (frontier == {} || k == p.depth + 1)
    ensures IsSlice(g, seeds, p, keep)
  {
    var taken :| MidSlice(g, seeds, p, taken, counts, keep, frontier, seen, k);
    SlicingDone(g, seeds, p, taken, counts, keep, frontier, k);
  }

  method NextSlice(g: Graph, ghost seeds: set<string>, p: SlicePolicy, counts: map<string, int>, keep: set<string>, frontier: set<string>, depth: nat,
                   seen: set<string>)
    returns (keep2: set<string>, frontier2: set<string>, seen2: set<string>, counts2: map<string, int>)
    requires Explained(g, seeds, p, counts, keep, frontier, seen, depth)
    ensures Explained(g, seeds, p, counts2, keep2, frontier2, seen2, depth + 1)
  {
    ghost var taken :| MidSlice(g, seeds, p, taken, counts, keep, frontier, seen, depth);
    FrontierIsFresh(g, seeds, p, taken, counts, keep, frontier, depth);
    ghost var taken2;
    seen2, counts2, taken2 := SliceLevel(g, frontier, p, depth, counts, seen, taken);
    SlicingNext(g, seeds, p, taken, counts, keep, frontier, depth, taken2, counts2, seen2);
    keep2, frontier2 := keep + frontier, seen2 - seen;
    assert MidSlice(g, seeds, p, taken2, counts2, keep2, frontier2, seen2, depth + 1);
  }

  method SliceLevels(g: Graph, seeds: set<string>, p: SlicePolicy) returns (keep: set<string>)
    requires p.depth > 0
    ensures IsSlice(g, seeds, p, keep)
  {
    StartExplained(g, seeds, p);
    keep := {};
    var frontier, seen, counts: map<string, int>, depth: nat := seeds, seeds, map[], 0;
    while frontier != {} && depth <= p.depth
      invariant depth <= p.depth + 1
      invariant Explained(g, seeds, p, counts, keep, frontier, seen, depth)
      decreases p.depth - depth
    {
      keep, frontier, seen, counts := NextSlice(g, seeds, p, counts, keep, frontier, depth, seen);
      depth := depth + 1;
    }
    EndExplained(g, seeds, p, counts, keep, frontier, seen, depth);
  }

  /** The slice of one marker. */
  method SliceMarker(g: Graph, seeds: set<string>, p: SlicePolicy) returns (keep: set<string>)
    ensures IsSlice(g, seeds, p, keep)
  {
    if p.depth <= 0 {
      SliceStarts(g, seeds, p);
      return seeds;
    }
    keep := SliceLevels(g, seeds, p);
  }

  /** Whatever is taken: dependencies are followed to exactly the given depth, and nothing lies beyond the depth along
      possible steps; without control flow the slice is exactly what depends within the depth. */
  lemma SliceBounds(g: Graph, seeds: set<string>, p: SlicePolicy, keep: set<string>)
    requires IsSlice(g, seeds, p, keep)
    ensures Within(DependencySteps(g, p), seeds, Max(0, p.depth)) <= keep <= Within(PossibleSteps(g, p), seeds, Max(0, p.depth))
    ensures p.cfgBackDepth <= 0 ==> keep == Within(DependencySteps(g, p), seeds, Max(0, p.depth))
  {
    var taken :| Explains(g, seeds, p, taken, keep);
    var few, steps, many := DependencySteps(g, p), Followed(g, p, taken), PossibleSteps(g, p);
    forall a | a in steps ensures a in many {
      if a !in few {
        var k :| k in taken && k < |g.edges| && (g.edges[k].dst, g.edges[k].src) == a;
        assert g.edges[k] in g.edges;
      }
    }
    WithinMoreSteps(few, steps, seeds, Max(0, p.depth));
    WithinMoreSteps(steps, many, seeds, Max(0, p.depth));
    if p.cfgBackDepth <= 0 { assert few == many; }
  }

  /** Slices of the first markers. */
  ghost predicate Sliced(g: Graph, markers: seq<(set<string>, SlicePolicy)>, slices: seq<set<string>>) {
    |slices| == |markers| && forall k :: 0 <= k < |markers| ==> IsSlice(g, markers[k].0, markers[k].1, slices[k])
  }

  ghost predicate IsUnion(keep: set<string>, slices: seq<set<string>>) {
    forall v :: v in keep <==> exists k :: 0 <= k < |slices| && v in slices[k]
  }

  /** The nodes kept are those of the markers' slices. */
  ghost predicate Keeps(g: Graph, markers: seq<(set<string>, SlicePolicy)>, keep: set<string>) {
    exists slices :: Sliced(g, markers, slices) && IsUnion(keep, slices)
  }

  lemma SlicedNext(g: Graph, markers: seq<(set<string>, SlicePolicy)>, i: nat, slices: seq<set<string>>, slice: set<string>)
    requires i < |markers| && Sliced(g, markers[..i], slices) && IsSlice(g, markers[i].0, markers[i].1, slice)
    ensures Sliced(g, markers[..i + 1], slices + [slice])
  {
    TakeNext(markers, i);
  }

  lemma UnionNext(keep: set<string>, slices: seq<set<string>>, slice: set<string>)
    requires IsUnion(keep, slices)
    ensures IsUnion(keep + slice, slices + [slice])
  {
    var more := slices + [slice];
    forall v | v in keep + slice ensures exists k :: 0 <= k < |more| && v in more[k] {
      if v in keep {
        var k :| 0 <= k < |slices| && v in slices[k];
        assert v in more[k];
      } else {
        assert v in more[|slices|];
      }
    }
  }

  /** The union of all markers' slices. */
  method SpatialKeep(g: Graph, markers: seq<(set<string>, SlicePolicy)>) returns (keep: set<string>)
    ensures Keeps(g, markers, keep)
  {
    keep := {};
    ghost var slices: seq<set<string>> := [];
    for i := 0 to |markers|
      invariant Sliced(g, markers[..i], slices) && IsUnion(keep, slices)
    {
      var slice := SliceMarker(g, markers[i].0, markers[i].1);
      SlicedNext(g, markers, i, slices, slice);
      UnionNext(keep, slices, slice);
      slices := slices + [slice];
      keep := keep + slice;
    }
    TakeAll(markers);
  }

  /** Whatever the policies, everything within the depth of some marker along its dependencies is kept, and nothing that lies
      beyond the depth of every marker along its possible steps. */
  lemma KeepsDependencies(g: Graph, markers: seq<(set<string>, SlicePolicy)>, keep: set<string>)
    requires Keeps(g, markers, keep)
    ensures forall k, v :: 0 <= k < |markers| && v in Within(DependencySteps(g, markers[k].1), markers[k].0, Max(0, markers[k].1.depth)) ==> v in keep
    ensures forall v :: v in keep ==> exists k :: 0 <= k < |markers| && v in Within(PossibleSteps(g, markers[k].1), markers[k].0, Max(0, markers[k].1.depth))
  {
    var slices :| Sliced(g, markers, slices) && IsUnion(keep, slices);
    forall k | 0 <= k < |markers|
      ensures Within(DependencySteps(g, markers[k].1), markers[k].0, Max(0, markers[k].1.depth)) <= slices[k]
      ensures slices[k] <= Within(PossibleSteps(g, markers[k].1), markers[k].0, Max(0, markers[k].1.depth))
    {
      SliceBounds(g, markers[k].0, markers[k].1, slices[k]);
    }
    forall v | v in keep ensures exists k :: 0 <= k < |markers| && v in Within(PossibleSteps(g, markers[k].1), markers[k].0, Max(0, markers[k].1.depth)) {
      var k :| 0 <= k < |slices| && v in slices[k];
    }
  }

  /** Without control flow, exactly the nodes within each marker's depth along dependencies are kept. */
  lemma KeepsOnlyDependencies(g: Graph, markers: seq<(set<string>, SlicePolicy)>, keep: set<string>)
    requires Keeps(g, markers, keep) && forall k :: 0 <= k < |markers| ==> markers[k].1.cfgBackDepth <= 0
    ensures forall v :: v in keep <==> exists k :: 0 <= k < |markers| && v in Within(DependencySteps(g, markers[k].1), markers[k].0, Max(0, markers[k].1.depth))
  {
    var slices :| Sliced(g, markers, slices) && IsUnion(keep, slices);
    forall k | 0 <= k < |markers| ensures slices[k] == Within(DependencySteps(g, markers[k].1), markers[k].0, Max(0, markers[k].1.depth)) {
      SliceBounds(g, markers[k].0, markers[k].1, slices[k]);
    }
  }
}
