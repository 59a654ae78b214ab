/** Bounded closures of a marker (optimizer/m3_mssu.py `_expand_closure`, `_prune_to_cap`). */
module Slices {
  import opened Digraph
  import opened Numbers
  import opened Sequences
  import Sorting
  import Text

  /** A step of a slice leads from a node to a neighbour. */
  type Steps = set<(string, string)>

  ghost function Neighbours(steps: Steps, nodes: set<string>): set<string> {
    set a | a in steps && a.0 in nodes :: a.1
  }

  /** The nodes at most `k` steps away from a seed. */
  ghost function Within(steps: Steps, seeds: set<string>, k: nat): set<string> {
    if k == 0 then seeds else Within(steps, seeds, k - 1) + Neighbours(steps, Within(steps, seeds, k - 1))
  }

  ghost predicate ShortWalk(steps: Steps, seeds: set<string>, v: string, k: nat) {
    exists p: seq<string> :: IsWalk(steps, p) && p[0] in seeds && p[|p| - 1] == v && |p| <= k + 1
  }

  /** Levels are distances: a node is within `k` exactly when a walk of at most `k` arcs leads to it from a seed. */
  lemma {:induction false} WithinIsDistance(steps: Steps, seeds: set<string>, v: string, k: nat)
    ensures v in Within(steps, seeds, k) <==> ShortWalk(steps, seeds, v, k)
    decreases k
  {
    if k == 0 {
      if v in seeds { assert IsWalk(steps, [v]); }
    } else {
      if v in Within(steps, seeds, k) {
        if v in Within(steps, seeds, k - 1) {
          WithinIsDistance(steps, seeds, v, k - 1);
        } else {
          var a :| a in steps && a.0 in Within(steps, seeds, k - 1) && a.1 == v;
          WithinIsDistance(steps, seeds, a.0, k - 1);
          var p: seq<string> :| IsWalk(steps, p) && p[0] in seeds && p[|p| - 1] == a.0 && |p| <= k;
          assert IsWalk(steps, p + [v]);
        }
      }
      if ShortWalk(steps, seeds, v, k) {
        var p: seq<string> :| IsWalk(steps, p) && p[0] in seeds && p[|p| - 1] == v && |p| <= k + 1;
        WithinFromWalk(steps, seeds, p, k);
      }
    }
  }

  lemma {:induction false} WithinFromWalk(steps: Steps, seeds: set<string>, p: seq<string>, k: nat)
    requires IsWalk(steps, p) && p[0] in seeds && |p| <= k + 1
    ensures p[|p| - 1] in Within(steps, seeds, k)
  {
    if k > 0 {
      if |p| <= k {
        WithinFromWalk(steps, seeds, p, k - 1);
      } else {
        var n := |p| - 1;
        WithinFromWalk(steps, seeds, p[..n], k - 1);
        assert (p[n - 1], p[n]) in steps;
      }
    }
  }

  lemma {:induction false} WithinGrows(steps: Steps, seeds: set<string>, m: nat, n: nat)
    requires m <= n
    ensures Within(steps, seeds, m) <= Within(steps, seeds, n)
  {
    if m < n { WithinGrows(steps, seeds, m, n - 1); }
  }

  /** A level without new neighbours is the last one. */
  lemma {:induction false} WithinClosed(steps: Steps, seeds: set<string>, m: nat, n: nat)
    requires m <= n && Neighbours(steps, Within(steps, seeds, m)) <= Within(steps, seeds, m)
    ensures Within(steps, seeds, n) == Within(steps, seeds, m)
  {
    if m < n { WithinClosed(steps, seeds, m, n - 1); }
  }

  lemma {:induction false} WithinMoreSteps(few: Steps, many: Steps, seeds: set<string>, k: nat)
    requires few <= many
    ensures Within(few, seeds, k) <= Within(many, seeds, k)
  {
    if k > 0 { WithinMoreSteps(few, many, seeds, k - 1); }
  }

  // ----- closure of a marker

  /** Edges into a node, respectively out of it, that the closure follows. */
  type Adjacency = map<string, set<string>>

  function At(adjacency: Adjacency, node: string): set<string> {
    if node in adjacency then adjacency[node] else {}
  }

  ghost function StepsOf(backward: Adjacency, forward: Adjacency): Steps {
    set u, v | u in backward.Keys + forward.Keys && v in At(backward, u) + At(forward, u) :: (u, v)
  }

  method Frontier(backward: Adjacency, forward: Adjacency, keep: set<string>, frontier: set<string>) returns (grown: set<string>, next: set<string>)
    requires frontier <= keep
    ensures grown == keep + Neighbours(StepsOf(backward, forward), frontier) && next == grown - keep
  {
    grown, next := keep, {};
    var todo := frontier;
    ghost var steps := StepsOf(backward, forward);
    while todo != {}
      invariant todo <= frontier && keep <= grown && next == grown - keep
      invariant grown == keep + Neighbours(steps, frontier - todo)
    {
      var node :| node in todo;
      var found := At(backward, node) + At(forward, node);
      assert forall v :: v in found <==> (node, v) in steps;
      todo := todo - {node};
      assert frontier - todo == (frontier - (todo + {node})) + {node};
      assert Neighbours(steps, frontier - todo) == Neighbours(steps, frontier - (todo + {node})) + found;
      next := next + (found - grown);
      grown := grown + found;
    }
    assert frontier - todo == frontier;
  }

  /** The frontier's neighbours complete the level when all others' are known already. */
  lemma LevelComplete(steps: Steps, keep: set<string>, frontier: set<string>, grown: set<string>)
    requires frontier <= keep && Neighbours(steps, keep - frontier) <= keep && grown == keep + Neighbours(steps, frontier)
    ensures grown == keep + Neighbours(steps, keep) && grown - (grown - keep) == keep
  {
    assert Neighbours(steps, keep) == Neighbours(steps, keep - frontier) + Neighbours(steps, frontier);
  }

  /** Level by level from the seeds, until the depth or the size limit is reached: always a level set, and the one of the
      full depth unless the size limit stopped it. */
  method ExpandClosure(seeds: set<string>, backward: Adjacency, forward: Adjacency, depthLimit: int, maxExpansion: int) returns (keep: set<string>)
    ensures seeds <= keep <= Within(StepsOf(backward, forward), seeds, Max(0, depthLimit))
    ensures keep == Within(StepsOf(backward, forward), seeds, Max(0, depthLimit)) || |keep| >= maxExpansion
  {
    ghost var steps := StepsOf(backward, forward);
    keep := seeds;
    var frontier, depth := seeds, 0;
    assert keep - frontier == {};
    while frontier != {} && depth < depthLimit && |keep| < maxExpansion
      invariant 0 <= depth <= Max(0, depthLimit) && keep == Within(steps, seeds, depth) && frontier <= keep
      invariant Neighbours(steps, keep - frontier) <= keep
      decreases depthLimit - depth
    {
      var grown, next := Frontier(backward, forward, keep, frontier);
      LevelComplete(steps, keep, frontier, grown);
      keep, frontier, depth := grown, next, depth + 1;
    }
    LevelReached(steps, seeds, keep, frontier, depth, Max(0, depthLimit));
  }

  lemma LevelReached(steps: Steps, seeds: set<string>, keep: set<string>, frontier: set<string>, depth: nat, limit: nat)
    requires depth <= limit && keep == Within(steps, seeds, depth) && Neighbours(steps, keep - frontier) <= keep
    ensures seeds <= keep <= Within(steps, seeds, limit)
    ensures frontier == {} || depth == limit ==> keep == Within(steps, seeds, limit)
  {
    WithinGrows(steps, seeds, 0, depth);
    WithinGrows(steps, seeds, depth, limit);
    if frontier == {} {
      assert keep - frontier == keep;
      WithinClosed(steps, seeds, depth, limit);
    }
  }

  // ----- pruning to a size

  /** Breadth-first distances from the seeds inside `nodes`. */
  ghost predicate IsDistance(d: map<string, nat>, steps: Steps, seeds: set<string>) {
    forall v, k: nat {:trigger Within(steps, seeds, k), v in d} :: v in Within(steps, seeds, k) <==> v in d && d[v] <= k
  }

  ghost function Inside(steps: Steps, nodes: set<string>): Steps {
    set a | a in steps && a.1 in nodes
  }

  /** `d` never undercuts a distance, and what has left the queue has its neighbours at most one step further. */
  ghost predicate Explores(d: map<string, nat>, steps: Steps, seeds: set<string>, queue: seq<string>) {
    && (forall v :: v in d ==> v in Within(steps, seeds, d[v])) && (forall v :: v in seeds ==> v in d && d[v] == 0)
    && (forall v :: v in d && d[v] == 0 ==> v in seeds)
    && (forall v :: v in queue ==> v in d)
    && (forall u, v :: u in d && u !in queue && (u, v) in steps ==> v in d && d[v] <= d[u] + 1)
    && Layered(d, queue)
  }

  /** The queue holds ascending distances that differ by at most one, the largest ones there are. */
  ghost predicate Layered(d: map<string, nat>, queue: seq<string>) {
    && (forall v :: v in queue ==> v in d)
    && (forall i, j :: 0 <= i < j < |queue| ==> d[queue[i]] <= d[queue[j]])
    && (queue != [] ==> forall v :: v in d ==> d[v] <= d[queue[0]] + 1)
  }

  lemma {:induction false} ExploredIsDistance(d: map<string, nat>, steps: Steps, seeds: set<string>, k: nat)
    requires Explores(d, steps, seeds, [])
    ensures forall v :: v in Within(steps, seeds, k) <==> v in d && d[v] <= k
  {
    if k > 0 {
      ExploredIsDistance(d, steps, seeds, k - 1);
      forall v | v in Within(steps, seeds, k) ensures v in d && d[v] <= k {
        if v !in Within(steps, seeds, k - 1) {
          var a :| a in steps && a.0 in Within(steps, seeds, k - 1) && a.1 == v;
          assert (a.0, v) in steps;
        }
      }
    }
    forall v | v in d && d[v] <= k ensures v in Within(steps, seeds, k) {
      WithinGrows(steps, seeds, d[v], k);
    }
  }

  /** `d2` gives the newly found nodes a distance one larger than that of `u`. */
  ghost predicate Discovers(d: map<string, nat>, u: string, found: set<string>, d2: map<string, nat>)
    requires u in d
  {
    && d2.Keys == d.Keys + found && d.Keys !! found
    && (forall v :: v in d ==> d2[v] == d[v]) && (forall v :: v in found ==> d2[v] == d[u] + 1)
  }

  lemma FoundWithin(d: map<string, nat>, steps: Steps, seeds: set<string>, u: string, found: set<string>, d2: map<string, nat>)
    requires u in d && Discovers(d, u, found, d2) && forall v :: v in d ==> v in Within(steps, seeds, d[v])
    requires forall v :: v in found ==> (u, v) in steps
    ensures forall v :: v in d2 ==> v in Within(steps, seeds, d2[v])
  {
    forall v | v in d2 ensures v in Within(steps, seeds, d2[v]) {
      if v in found { assert u in Within(steps, seeds, d[u]) && (u, v) in steps; }
    }
  }

  lemma ExploreStep(d: map<string, nat>, steps: Steps, seeds: set<string>, u: string, rest: seq<string>, found: set<string>, d2: map<string, nat>, added: seq<string>)
    requires Explores(d, steps, seeds, [u] + rest) && Discovers(d, u, found, d2)
    requires forall v :: v in found <==> (u, v) in steps && v !in d
    requires forall v :: v in added <==> v in found
    ensures Explores(d2, steps, seeds, rest + added)
  {
    var queue := [u] + rest;
    assert queue[0] == u && forall v :: v in rest ==> v in queue;
    FoundWithin(d, steps, seeds, u, found, d2);
    forall x, v | x in d2 && x !in rest + added && (x, v) in steps ensures v in d2 && d2[v] <= d2[x] + 1 {
      assert x in d;
      if x != u { assert x !in queue; }
    }
    LayersKept(d, u, rest, found, d2, added);
  }

  lemma LayersKept(d: map<string, nat>, u: string, rest: seq<string>, found: set<string>, d2: map<string, nat>, added: seq<string>)
    requires u in d && Layered(d, [u] + rest) && Discovers(d, u, found, d2) && forall v :: v in added <==> v in found
    ensures Layered(d2, rest + added)
  {
    var queue, queue2 := [u] + rest, rest + added;
    forall i | 0 <= i < |rest| ensures rest[i] in d && d[u] <= d[rest[i]] <= d[u] + 1 {
      assert queue[i + 1] == rest[i] && queue[0] == u;
    }
    forall i, j | 0 <= i < j < |queue2| ensures queue2[i] in d2 && queue2[j] in d2 && d2[queue2[i]] <= d2[queue2[j]] {
      if j < |rest| { assert queue[i + 1] == rest[i] && queue[j + 1] == rest[j]; }
    }
    if queue2 != [] {
      assert d2[queue2[0]] >= d[u];
      if rest == [] { assert queue2[0] in found; }
      assert queue[0] == u;
    }
  }

  method Members(s: set<string>) returns (r: seq<string>)
    ensures Distinct(r) && Elements(r) == s
  {
    r := [];
    var todo := s;
    while todo != {}
      invariant todo <= s && Distinct(r) && Elements(r) == s - todo
    {
      var x :| x in todo;
      todo := todo - {x};
      ElementsAppend(r, x);
      r := r + [x];
    }
  }

  /** Takes one node off the queue and puts its undiscovered neighbours on. */
  method ExploreNode(seeds: set<string>, backward: Adjacency, forward: Adjacency, nodes: set<string>, d: map<string, nat>, queue: seq<string>)
    returns (d2: map<string, nat>, queue2: seq<string>)
    requires queue != [] && Explores(d, Inside(StepsOf(backward, forward), nodes), seeds, queue)
    ensures Explores(d2, Inside(StepsOf(backward, forward), nodes), seeds, queue2)
    ensures d.Keys <= d2.Keys <= d.Keys + nodes && (d2.Keys == d.Keys ==> |queue2| < |queue|)
  {
    var current, rest := queue[0], queue[1..];
    assert queue == [current] + rest;
    var found := ((At(backward, current) + At(forward, current)) * nodes) - d.Keys;
    FoundNeighbours(backward, forward, nodes, current, found, d.Keys);
    var added := Members(found);
    d2 := map v | v in d.Keys + found :: if v in found then d[current] + 1 else d[v];
    ExploreStep(d, Inside(StepsOf(backward, forward), nodes), seeds, current, rest, found, d2, added);
    queue2 := rest + added;
    NothingAdded(d.Keys, found, added);
  }

  lemma NothingAdded(known: set<string>, found: set<string>, added: seq<string>)
    requires known !! found && Distinct(added) && Elements(added) == found
    ensures known + found == known ==> added == []
  {
    DistinctSize(added);
    assert |known + found| == |known| + |found|;
  }

  /** Distances of the nodes that can be reached inside `nodes`. */
  method Distances(seeds: set<string>, backward: Adjacency, forward: Adjacency, nodes: set<string>) returns (d: map<string, nat>)
    ensures IsDistance(d, Inside(StepsOf(backward, forward), nodes), seeds)
  {
    ghost var steps := Inside(StepsOf(backward, forward), nodes);
    d := map v | v in seeds :: 0;
    var queue := Members(seeds);
    assert Explores(d, steps, seeds, queue);
    while queue != []
      invariant Explores(d, steps, seeds, queue) && d.Keys <= nodes + seeds
      decreases |nodes + seeds| - |d.Keys|, |queue|
    {
      var d2, queue2 := ExploreNode(seeds, backward, forward, nodes, d, queue);
      SubsetSize(d.Keys, d2.Keys);
      SubsetSize(d2.Keys, nodes + seeds);
      d, queue := d2, queue2;
    }
    forall k: nat { ExploredIsDistance(d, steps, seeds, k); }
  }

  lemma FoundNeighbours(backward: Adjacency, forward: Adjacency, nodes: set<string>, u: string, found: set<string>, known: set<string>)
    requires found == ((At(backward, u) + At(forward, u)) * nodes) - known
    ensures forall v :: v in found <==> (u, v) in Inside(StepsOf(backward, forward), nodes) && v !in known
  {
    forall v ensures v in found <==> (u, v) in Inside(StepsOf(backward, forward), nodes) && v !in known {
      assert v in At(backward, u) + At(forward, u) <==> (u, v) in StepsOf(backward, forward);
    }
  }

  /** What pruning ranks by: required nodes first, then near ones, then by line and id. */
  datatype Ranking = Ranking(required: set<string>, distance: map<string, nat>, line: map<string, int>)

  function Bucket(r: Ranking, node: string): int {
    if node in r.required then 0 else 1
  }

  function DistanceOf(r: Ranking, node: string): int {
    if node in r.distance then r.distance[node] else 10000
  }

  function LineOf(r: Ranking, node: string): int {
    if node in r.line then r.line[node] else 0
  }

  predicate Before(r: Ranking, a: string, b: string) {
    if Bucket(r, a) != Bucket(r, b) then Bucket(r, a) < Bucket(r, b)
    else if DistanceOf(r, a) != DistanceOf(r, b) then DistanceOf(r, a) < DistanceOf(r, b)
    else if LineOf(r, a) != LineOf(r, b) then LineOf(r, a) < LineOf(r, b)
    else Text.Less(a, b)
  }

  /** `a` may stay while `b` goes: a required node never goes while another one stays; among equals the nearer stays (nodes out
      of reach count as 10000 away), then the one on the smaller line (0 if it has none), then the smaller id. */
  ghost predicate Deserves(r: Ranking, a: string, b: string) {
    (b in r.required ==> a in r.required) && ((a in r.required <==> b in r.required) ==> NoFurther(r, a, b))
  }

  ghost predicate NoFurther(r: Ranking, a: string, b: string) {
    var far, further := if a in r.distance then r.distance[a] else 10000, if b in r.distance then r.distance[b] else 10000;
    var at, under := if a in r.line then r.line[a] else 0, if b in r.line then r.line[b] else 0;
    far < further || (far == further && (at < under || (at == under && (a == b || Text.Less(a, b)))))
  }

  lemma DeservesExactly(r: Ranking, a: string, b: string)
    ensures Deserves(r, a, b) <==> !Before(r, b, a)
  {
    Text.LessTotal(a, b);
  }

  lemma BeforeIsWeak(r: Ranking)
    ensures Sorting.WeakOrder((a: string, b: string) => Before(r, a, b))
  {
    forall a, b | Before(r, a, b) ensures !Before(r, b, a) { Text.LessTotal(a, b); }
    forall a, b, c | !Before(r, a, b) && !Before(r, b, c) ensures !Before(r, a, c) {
      Text.LessTotal(a, b);
      Text.LessTotal(b, c);
      Text.LessTotal(a, c);
      if Text.Less(c, b) && Text.Less(b, a) { Text.LessTransitive(c, b, a); }
    }
  }

  /** What must stay: seeds, extra nodes and nodes with effects or markers, and those that control a node. */
  function Required(nodes: set<string>, seeds: set<string>, extra: set<string>, marked: set<string>, controllers: Adjacency): set<string> {
    seeds + (extra * nodes) + (marked * nodes) + (set n, c | n in nodes && c in At(controllers, n) && c in nodes :: c)
  }

  ghost predicate MustStay(nodes: set<string>, seeds: set<string>, extra: set<string>, marked: set<string>, controllers: Adjacency, required: set<string>) {
    forall v :: v in required <==> v in seeds || (v in nodes && (v in extra || v in marked || exists n :: n in nodes && v in At(controllers, n)))
  }

  lemma RequiredMustStay(nodes: set<string>, seeds: set<string>, extra: set<string>, marked: set<string>, controllers: Adjacency)
    ensures MustStay(nodes, seeds, extra, marked, controllers, Required(nodes, seeds, extra, marked, controllers))
  {
  }

  /** Seeds come first in the ranking, and only they. */
  ghost predicate SeedsLead(r: Ranking, seeds: set<string>) {
    seeds <= r.required && forall v :: DistanceOf(r, v) >= 0 && (DistanceOf(r, v) == 0 <==> v in seeds)
  }

  lemma DistancesLead(r: Ranking, steps: Steps, seeds: set<string>)
    requires seeds <= r.required && IsDistance(r.distance, steps, seeds)
    ensures SeedsLead(r, seeds)
  {
    assert Within(steps, seeds, 0) == seeds;
    forall v ensures DistanceOf(r, v) == 0 <==> v in seeds {
      assert v in Within(steps, seeds, 0) <==> v in r.distance && r.distance[v] <= 0;
    }
  }

  /** A seed is never ranked behind another node. */
  lemma SeedsFirst(r: Ranking, seeds: set<string>, ranked: seq<string>, i: nat, j: nat)
    requires SeedsLead(r, seeds) && Sorting.Sorted(ranked, (a: string, b: string) => Before(r, a, b))
    requires i < j < |ranked| && ranked[j] in seeds
    ensures ranked[i] in seeds
  {
    var less := (a: string, b: string) => Before(r, a, b);
    assert !less(ranked[j], ranked[i]);
  }

  lemma SeedsInCut(r: Ranking, seeds: set<string>, ranked: seq<string>, cap: nat, i: nat)
    requires SeedsLead(r, seeds) && Sorting.Sorted(ranked, (a: string, b: string) => Before(r, a, b))
    requires i < cap <= |ranked| && ranked[i] !in seeds
    ensures seeds * Elements(ranked) <= Elements(ranked[..cap])
  {
    forall v | v in seeds * Elements(ranked) ensures v in ranked[..cap] {
      var j :| 0 <= j < |ranked| && ranked[j] == v;
      SeedBeforeOther(r, seeds, ranked, i, j);
      assert ranked[..cap][j] == v;
    }
  }

  lemma SeedsSplit(cut: set<string>, seeds: set<string>, ranked: set<string>)
    requires cut <= ranked
    ensures |cut + seeds| == |cut + seeds * ranked| + |seeds - ranked|
  {
    var inside, outside := cut + seeds * ranked, seeds - ranked;
    assert cut + seeds == inside + outside;
    assert inside !! outside;
    assert |inside + outside| == |inside| + |outside|;
  }

  /** The cut of a ranking together with the seeds: as large as the cap, or as all seeds in the ranking if they are more,
      besides the seeds that are not ranked. */
  lemma CutSize(r: Ranking, seeds: set<string>, ranked: seq<string>, cap: nat)
    requires SeedsLead(r, seeds) && Sorting.Sorted(ranked, (a: string, b: string) => Before(r, a, b))
    requires Distinct(ranked) && cap <= |ranked|
    ensures |Elements(ranked[..cap]) + seeds| == Max(cap, |seeds * Elements(ranked)|) + |seeds - Elements(ranked)|
  {
    DistinctSize(ranked[..cap]);
    CutInside(ranked, cap);
    SeedsSplit(Elements(ranked[..cap]), seeds, Elements(ranked));
    RankedPart(r, seeds, ranked, cap);
  }

  lemma CutInside(ranked: seq<string>, cap: nat)
    requires cap <= |ranked|
    ensures Elements(ranked[..cap]) <= Elements(ranked)
  {
  }

  lemma RankedPart(r: Ranking, seeds: set<string>, ranked: seq<string>, cap: nat)
    requires SeedsLead(r, seeds) && Sorting.Sorted(ranked, (a: string, b: string) => Before(r, a, b))
    requires cap <= |ranked| && |Elements(ranked[..cap])| == cap
    ensures |Elements(ranked[..cap]) + seeds * Elements(ranked)| == Max(cap, |seeds * Elements(ranked)|)
  {
    if i :| 0 <= i < cap && ranked[i] !in seeds {
      SeedsInCut(r, seeds, ranked, cap, i);
      LargerUnion(seeds * Elements(ranked), Elements(ranked[..cap]));
    } else {
      CutOfSeeds(seeds, ranked, cap);
      LargerUnion(Elements(ranked[..cap]), seeds * Elements(ranked));
    }
  }

  lemma CutOfSeeds(seeds: set<string>, ranked: seq<string>, cap: nat)
    requires cap <= |ranked| && forall i :: 0 <= i < cap ==> ranked[i] in seeds
    ensures Elements(ranked[..cap]) <= seeds * Elements(ranked)
  {
    CutInside(ranked, cap);
  }

  lemma LargerUnion(small: set<string>, large: set<string>)
    requires small <= large
    ensures |small + large| == |large + small| == Max(|small|, |large|)
  {
    SubsetSize(small, large);
    assert small + large == large && large + small == large;
  }

  lemma SeedBeforeOther(r: Ranking, seeds: set<string>, ranked: seq<string>, i: nat, j: nat)
    requires SeedsLead(r, seeds) && Sorting.Sorted(ranked, (a: string, b: string) => Before(r, a, b))
    requires i < |ranked| && j < |ranked| && ranked[i] !in seeds && ranked[j] in seeds
    ensures j < i
  {
    if i < j { SeedsFirst(r, seeds, ranked, i, j); }
  }

  /** An oversized set is left with exactly as many nodes as the cap, or all its seeds if they are more, and with the seeds
      that were not among the nodes; every seed stays, and any other node that stays deserves it more than one that goes. */
  ghost predicate Prunes(nodes: set<string>, seeds: set<string>, cap: nat, ranking: Ranking, selected: set<string>) {
    && |selected| == Max(cap, |seeds * nodes|) + |seeds - nodes| && seeds <= selected <= nodes + seeds
    && forall a, b :: a in selected - seeds && b in nodes - selected ==> Deserves(ranking, a, b)
  }

  lemma PrunesInside(nodes: set<string>, seeds: set<string>, cap: nat, ranking: Ranking, selected: set<string>)
    requires Prunes(nodes, seeds, cap, ranking, selected) && seeds <= nodes
    ensures |selected| == Max(cap, |seeds|) && selected <= nodes
  {
    assert seeds * nodes == seeds && seeds - nodes == {};
  }

  lemma CutPrunes(nodes: set<string>, seeds: set<string>, cap: nat, r: Ranking, ranked: seq<string>, selected: set<string>)
    requires SeedsLead(r, seeds) && Sorting.Sorted(ranked, (a: string, b: string) => Before(r, a, b))
    requires Distinct(ranked) && Elements(ranked) == nodes && cap <= |ranked| && selected == Elements(ranked[..cap]) + seeds
    ensures Prunes(nodes, seeds, cap, r, selected)
  {
    CutSize(r, seeds, ranked, cap);
    CutInside(ranked, cap);
    CutRespectsRank(r, ranked, cap);
    forall a, b | a in selected - seeds && b in nodes - selected ensures Deserves(r, a, b) {
      assert a in Elements(ranked[..cap]) && b in Elements(ranked) && b !in Elements(ranked[..cap]);
      DeservesExactly(r, a, b);
    }
  }

  /** Pruning keeps a set within the cap and cuts a larger one down by its ranking. */
  method PruneToCap(nodes: set<string>, seeds: set<string>, extra: set<string>, marked: set<string>, controllers: Adjacency,
                    backward: Adjacency, forward: Adjacency, line: map<string, int>, cap: nat)
    returns (selected: set<string>, ghost ranking: Ranking)
    ensures |nodes| <= cap ==> selected == nodes
    ensures |nodes| > cap ==> Prunes(nodes, seeds, cap, ranking, selected)
    ensures |nodes| > cap ==> ranking.line == line && MustStay(nodes, seeds, extra, marked, controllers, ranking.required)
    ensures |nodes| > cap ==> IsDistance(ranking.distance, Inside(StepsOf(backward, forward), nodes), seeds)
  {
    ranking := Ranking({}, map[], map[]);
    if |nodes| <= cap { return nodes, ranking; }
    var distance := Distances(seeds, backward, forward, nodes);
    var r := Ranking(Required(nodes, seeds, extra, marked, controllers), distance, line);
    var members := Members(nodes);
    var ranked := Sorting.Sort(members, (a: string, b: string) => Before(r, a, b));
    RankedFits(r, members, ranked);
    DistinctSize(ranked);
    selected := (set x | x in ranked[..cap]) + seeds;
    DistancesLead(r, Inside(StepsOf(backward, forward), nodes), seeds);
    assert selected == Elements(ranked[..cap]) + seeds;
    CutPrunes(nodes, seeds, cap, r, ranked, selected);
    ranking := r;
    RequiredMustStay(nodes, seeds, extra, marked, controllers);
  }

  lemma RankedFits(r: Ranking, members: seq<string>, ranked: seq<string>)
    requires Distinct(members) && ranked == Sorting.Sort(members, (a: string, b: string) => Before(r, a, b))
    ensures Distinct(ranked) && Elements(ranked) == Elements(members) && Sorting.Sorted(ranked, (a: string, b: string) => Before(r, a, b))
  {
    var less, apart := (a: string, b: string) => Before(r, a, b), (a: string, b: string) => a != b;
    BeforeIsWeak(r);
    Sorting.SortSorts(members, less);
    assert Sorting.Pairwise(members, apart);
    Sorting.SortKeepsPairwise(members, less, apart);
    Sorting.SortPermutes(members, less);
    forall x ensures x in ranked <==> x in members { assert multiset(ranked)[x] == multiset(members)[x]; }
  }

  lemma CutRespectsRank(r: Ranking, ranked: seq<string>, cap: nat)
    requires Sorting.Sorted(ranked, (a: string, b: string) => Before(r, a, b)) && cap <= |ranked|
    ensures forall a, b :: a in ranked[..cap] && b in ranked && b !in ranked[..cap] ==> !Before(r, b, a)
  {
    var less := (a: string, b: string) => Before(r, a, b);
    forall a, b | a in ranked[..cap] && b in ranked && b !in ranked[..cap] ensures !Before(r, b, a) {
      var i :| 0 <= i < cap && ranked[..cap][i] == a;
      assert ranked == ranked[..cap] + ranked[cap..];
      var j :| 0 <= j < |ranked| - cap && ranked[cap..][j] == b;
      assert !less(ranked[cap + j], ranked[i]);
    }
  }
}
