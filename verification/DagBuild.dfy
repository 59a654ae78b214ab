/** The tail of the DAG builder: edge deduplication, both demotion passes, and the soft constraints that
    stand in for the demoted edges (optimizer/m4_typed_dag.py `build`, `_dedup_soft_order_constraints`). */
module DagBuild {
  import opened Contracts
  import opened Digraph
  import opened Sequences
  import opened CycleBreaking
  import EdgeRank
  import Text

  datatype EdgeKey = EdgeKey(src: string, dst: string, kind: EdgeKind)

  function KeyOf(e: DependencyEdge): EdgeKey {
    EdgeKey(e.src, e.dst, e.kind)
  }

  ghost predicate UniqueKeys(edges: seq<DependencyEdge>) {
    forall i, j :: 0 <= i < j < |edges| ==> KeyOf(edges[i]) != KeyOf(edges[j])
  }

  ghost predicate StillHard(hard: seq<DependencyEdge>, e: DependencyEdge) {
    exists f :: f in hard && KeyOf(f) == KeyOf(e)
  }

  /** `f` is the last of `edges` with its key. */
  ghost predicate LastOfKey(edges: seq<DependencyEdge>, f: DependencyEdge) {
    exists i :: 0 <= i < |edges| && edges[i] == f && LastAt(edges, i)
  }

  ghost predicate LastAt(edges: seq<DependencyEdge>, i: nat)
    requires i < |edges|
  {
    forall j :: i < j < |edges| ==> KeyOf(edges[j]) != KeyOf(edges[i])
  }

  lemma LastOfKeyExtend(edges: seq<DependencyEdge>, f: DependencyEdge, e: DependencyEdge)
    ensures LastOfKey(edges + [e], e)
    ensures LastOfKey(edges, f) && KeyOf(f) != KeyOf(e) ==> LastOfKey(edges + [e], f)
  {
    assert (edges + [e])[|edges|] == e && LastAt(edges + [e], |edges|);
    if LastOfKey(edges, f) && KeyOf(f) != KeyOf(e) {
      var i :| 0 <= i < |edges| && edges[i] == f && LastAt(edges, i);
      assert LastAt(edges + [e], i);
    }
  }

  ghost predicate LastByKey(edges: seq<DependencyEdge>, dedup: map<EdgeKey, DependencyEdge>) {
    && (forall k :: k in dedup ==> KeyOf(dedup[k]) == k && LastOfKey(edges, dedup[k]))
    && (forall e :: e in edges ==> KeyOf(e) in dedup)
  }

  lemma LastByKeyExtend(edges: seq<DependencyEdge>, dedup: map<EdgeKey, DependencyEdge>, e: DependencyEdge)
    requires LastByKey(edges, dedup)
    ensures LastByKey(edges + [e], dedup[KeyOf(e) := e])
  {
    var now := dedup[KeyOf(e) := e];
    LastOfKeyExtend(edges, e, e);
    forall k | k in now ensures LastOfKey(edges + [e], now[k]) {
      if k != KeyOf(e) { LastOfKeyExtend(edges, dedup[k], e); }
    }
  }

  ghost function KeysOf(edges: seq<DependencyEdge>): seq<EdgeKey> {
    seq(|edges|, i requires 0 <= i < |edges| => KeyOf(edges[i]))
  }

  /** The dictionary after `edges`: its keys in order of first mention. */
  ghost predicate Collected(edges: seq<DependencyEdge>, dedup: map<EdgeKey, DependencyEdge>, order: seq<EdgeKey>) {
    LastByKey(edges, dedup) && order == Unique(KeysOf(edges)) && forall k :: k in order <==> k in dedup
  }

  lemma CollectedExtend(edges: seq<DependencyEdge>, dedup: map<EdgeKey, DependencyEdge>, order: seq<EdgeKey>, e: DependencyEdge)
    requires Collected(edges, dedup, order)
    ensures Collected(edges + [e], dedup[KeyOf(e) := e], if KeyOf(e) in dedup then order else order + [KeyOf(e)])
  {
    LastByKeyExtend(edges, dedup, e);
    assert KeysOf(edges + [e]) == KeysOf(edges) + [KeyOf(e)];
  }

  lemma CollectedValues(edges: seq<DependencyEdge>, dedup: map<EdgeKey, DependencyEdge>, order: seq<EdgeKey>, result: seq<DependencyEdge>)
    requires Collected(edges, dedup, order) && |result| == |order|
    requires forall i :: 0 <= i < |order| ==> result[i] == dedup[order[i]]
    ensures KeysOf(result) == order && UniqueKeys(result)
    ensures forall f :: f in result ==> LastOfKey(edges, f)
    ensures forall e :: e in edges ==> StillHard(result, e)
  {
    assert KeysOf(result) == order;
    forall e | e in edges ensures StillHard(result, e) {
      assert KeyOf(e) in order;
      var i :| 0 <= i < |order| && order[i] == KeyOf(e);
      assert result[i] in result;
    }
  }

  /** One edge a key: the place of its first occurrence, the value of its last. */
  method DedupHardEdges(edges: seq<DependencyEdge>) returns (result: seq<DependencyEdge>)
    ensures KeysOf(result) == Unique(KeysOf(edges)) && UniqueKeys(result)
    ensures forall f :: f in result ==> LastOfKey(edges, f)
    ensures forall e :: e in edges ==> StillHard(result, e)
  {
    var dedup: map<EdgeKey, DependencyEdge> := map[];
    var order: seq<EdgeKey> := [];
    for n := 0 to |edges|
      invariant Collected(edges[..n], dedup, order)
    {
      var e := edges[n];
      assert edges[..n + 1] == edges[..n] + [e];
      CollectedExtend(edges[..n], dedup, order, e);
      if KeyOf(e) !in dedup { order := order + [KeyOf(e)]; }
      dedup := dedup[KeyOf(e) := e];
    }
    assert edges[..|edges|] == edges;
    result := seq(|order|, i requires 0 <= i < |order| => dedup[order[i]]);
    CollectedValues(edges, dedup, order, result);
  }

  /** How much a SOFT_ORDER reason weighs; ties are broken by the text itself. */
  function ReasonClass(reason: string): nat {
    if reason == "cycle_break" then 3
    else if Text.StartsWith(reason, "vdev_dep:") then 2
    else if Text.StartsWith(reason, "template:") then 1
    else 0
  }

  predicate Outranks(a: SoftConstraint, b: SoftConstraint) {
    var ra, rb := Text.Lower(a.reason), Text.Lower(b.reason);
    ReasonClass(ra) > ReasonClass(rb) || (ReasonClass(ra) == ReasonClass(rb) && Text.Less(rb, ra))
  }

  /** A broken cycle outweighs a declared dependency, that a template, and that anything else; equal weights are told apart
      by the text. */
  lemma OutranksExactly(a: SoftConstraint, b: SoftConstraint)
    ensures var ra, rb := Text.Lower(a.reason), Text.Lower(b.reason);
            Outranks(a, b) <==>
              if ra == "cycle_break" || rb == "cycle_break" then rb != "cycle_break"
              else if Text.StartsWith(ra, "vdev_dep:") != Text.StartsWith(rb, "vdev_dep:") then Text.StartsWith(ra, "vdev_dep:")
              else if !Text.StartsWith(ra, "vdev_dep:") && Text.StartsWith(ra, "template:") != Text.StartsWith(rb, "template:") then Text.StartsWith(ra, "template:")
              else Text.Less(rb, ra)
  {
    Text.LessIrreflexive(Text.Lower(a.reason));
  }

  lemma OutranksTransitive(a: SoftConstraint, b: SoftConstraint, c: SoftConstraint)
    requires Outranks(a, b) && !Outranks(c, b)
    ensures Outranks(a, c)
  {
    var ra, rb, rc := Text.Lower(a.reason), Text.Lower(b.reason), Text.Lower(c.reason);
    Text.LessTotal(rb, rc);
    if Text.Less(rc, rb) && Text.Less(rb, ra) { Text.LessTransitive(rc, rb, ra); }
  }

  predicate IsOrder(c: SoftConstraint) {
    c.kind == SoftOrder
  }

  /** The constraints that order nothing, in their original order. */
  ghost function Others(soft: seq<SoftConstraint>): seq<SoftConstraint> {
    if soft == [] then []
    else
      var front := Others(soft[..|soft| - 1]);
      if IsOrder(soft[|soft| - 1]) then front else front + [soft[|soft| - 1]]
  }

  /** `c` is the first of the heaviest SOFT_ORDER constraints of its scope. */
  ghost predicate Winner(soft: seq<SoftConstraint>, c: SoftConstraint) {
    exists i :: WinnerAt(soft, c, i)
  }

  ghost predicate WinnerAt(soft: seq<SoftConstraint>, c: SoftConstraint, i: nat) {
    && i < |soft| && soft[i] == c && IsOrder(c)
    && (forall j :: 0 <= j < i && IsOrder(soft[j]) && soft[j].scope == c.scope ==> Outranks(c, soft[j]))
    && (forall j :: i < j < |soft| && IsOrder(soft[j]) && soft[j].scope == c.scope ==> !Outranks(soft[j], c))
  }

  ghost predicate Winners(soft: seq<SoftConstraint>, keep: map<seq<string>, SoftConstraint>) {
    && (forall s :: s in keep ==> keep[s].scope == s && Winner(soft, keep[s]))
    && (forall j :: 0 <= j < |soft| && IsOrder(soft[j]) ==> soft[j].scope in keep)
  }

  function Challenge(keep: map<seq<string>, SoftConstraint>, c: SoftConstraint): map<seq<string>, SoftConstraint> {
    if c.scope in keep && !Outranks(c, keep[c.scope]) then keep else keep[c.scope := c]
  }

  lemma WinnersOther(soft: seq<SoftConstraint>, keep: map<seq<string>, SoftConstraint>, c: SoftConstraint)
    requires Winners(soft, keep) && !IsOrder(c)
    ensures Winners(soft + [c], keep)
  {
    forall s | s in keep ensures Winner(soft + [c], keep[s]) {
      var i :| WinnerAt(soft, keep[s], i);
      assert WinnerAt(soft + [c], keep[s], i);
    }
  }

  lemma WinnersChallenge(soft: seq<SoftConstraint>, keep: map<seq<string>, SoftConstraint>, c: SoftConstraint)
    requires Winners(soft, keep) && IsOrder(c)
    ensures Winners(soft + [c], Challenge(keep, c))
  {
    var now := Challenge(keep, c);
    forall s | s in now ensures now[s].scope == s && Winner(soft + [c], now[s]) {
      if s in keep && now[s] == keep[s] && (s != c.scope || !Outranks(c, keep[s])) {
        var i :| WinnerAt(soft, keep[s], i);
        assert WinnerAt(soft + [c], keep[s], i);
      } else {
        if s in keep {
          var i :| WinnerAt(soft, keep[s], i);
          forall j | 0 <= j < |soft| && IsOrder(soft[j]) && soft[j].scope == s ensures Outranks(c, soft[j]) {
            if j != i { HeaviestDominates(soft, keep[s], i, j); OutranksTransitive(c, keep[s], soft[j]); }
          }
        }
        assert WinnerAt(soft + [c], c, |soft|);
      }
    }
  }

  lemma HeaviestDominates(soft: seq<SoftConstraint>, c: SoftConstraint, i: nat, j: nat)
    requires WinnerAt(soft, c, i) && j < |soft| && j != i && IsOrder(soft[j]) && soft[j].scope == c.scope
    ensures !Outranks(soft[j], c)
  {
    Text.LessTotal(Text.Lower(soft[j].reason), Text.Lower(c.reason));
  }

  /** The values of `keep` in the order in which their scopes first appeared. */
  function Values(order: seq<seq<string>>, keep: map<seq<string>, SoftConstraint>): seq<SoftConstraint>
    requires forall s :: s in order ==> s in keep
  {
    seq(|order|, i requires 0 <= i < |order| => keep[order[i]])
  }

  ghost predicate OnePerScope(chosen: seq<SoftConstraint>) {
    forall i, j :: 0 <= i < j < |chosen| ==> chosen[i].scope != chosen[j].scope
  }

  /** The scopes of the SOFT_ORDER constraints. */
  ghost function OrderScopes(soft: seq<SoftConstraint>): seq<seq<string>> {
    if soft == [] then []
    else
      var front, last := OrderScopes(soft[..|soft| - 1]), soft[|soft| - 1];
      if IsOrder(last) then front + [last.scope] else front
  }

  function Scopes(constraints: seq<SoftConstraint>): seq<seq<string>> {
    seq(|constraints|, i requires 0 <= i < |constraints| => constraints[i].scope)
  }

  /** Every other constraint is kept; then comes the winner of each scope, in order of first mention. */
  ghost predicate Deduplicates(soft: seq<SoftConstraint>, result: seq<SoftConstraint>, chosen: seq<SoftConstraint>) {
    && result == Others(soft) + chosen && Scopes(chosen) == Unique(OrderScopes(soft))
    && (forall i :: 0 <= i < |chosen| ==> Winner(soft, chosen[i]))
    && OnePerScope(chosen)
    && (forall c :: c in soft && IsOrder(c) ==> exists w :: w in chosen && w.scope == c.scope)
  }

  /** The loop's variables after `soft`. */
  ghost predicate Gathered(soft: seq<SoftConstraint>, kept: seq<SoftConstraint>, keep: map<seq<string>, SoftConstraint>, order: seq<seq<string>>) {
    kept == Others(soft) && Winners(soft, keep) && order == Unique(OrderScopes(soft)) && forall s :: s in order <==> s in keep
  }

  lemma GatheredOther(soft: seq<SoftConstraint>, kept: seq<SoftConstraint>, keep: map<seq<string>, SoftConstraint>, order: seq<seq<string>>, c: SoftConstraint)
    requires Gathered(soft, kept, keep, order) && !IsOrder(c)
    ensures Gathered(soft + [c], kept + [c], keep, order)
  {
    assert (soft + [c])[..|soft|] == soft;
    WinnersOther(soft, keep, c);
  }

  lemma GatheredOrder(soft: seq<SoftConstraint>, kept: seq<SoftConstraint>, keep: map<seq<string>, SoftConstraint>, order: seq<seq<string>>, c: SoftConstraint)
    requires Gathered(soft, kept, keep, order) && IsOrder(c)
    ensures Gathered(soft + [c], kept, Challenge(keep, c), if c.scope in keep then order else order + [c.scope])
  {
    assert (soft + [c])[..|soft|] == soft;
    WinnersChallenge(soft, keep, c);
  }

  lemma ListsWinners(soft: seq<SoftConstraint>, order: seq<seq<string>>, keep: map<seq<string>, SoftConstraint>)
    requires Winners(soft, keep) && Distinct(order) && forall s :: s in order <==> s in keep
    ensures OnePerScope(Values(order, keep)) && Scopes(Values(order, keep)) == order
    ensures forall i :: 0 <= i < |order| ==> Winner(soft, Values(order, keep)[i])
    ensures forall c :: c in soft && IsOrder(c) ==> exists w :: w in Values(order, keep) && w.scope == c.scope
  {
    var chosen := Values(order, keep);
    forall i | 0 <= i < |order| ensures chosen[i].scope == order[i] {
      assert order[i] in keep;
    }
    forall i, j | 0 <= i < j < |chosen| ensures chosen[i].scope != chosen[j].scope {
      assert order[i] != order[j];
    }
    forall c | c in soft && IsOrder(c) ensures exists w :: w in chosen && w.scope == c.scope {
      assert c.scope in order;
      var k :| 0 <= k < |order| && order[k] == c.scope;
      assert chosen[k] in chosen;
    }
  }

  /** Keeps every other constraint and, for each scope, the first of its heaviest SOFT_ORDER constraints. */
  method DedupSoftOrder(soft: seq<SoftConstraint>) returns (result: seq<SoftConstraint>)
    ensures exists chosen :: Deduplicates(soft, result, chosen)
  {
    var kept: seq<SoftConstraint> := [];
    var keep: map<seq<string>, SoftConstraint> := map[];
    var order: seq<seq<string>> := [];
    for n := 0 to |soft|
      invariant Gathered(soft[..n], kept, keep, order)
    {
      var c := soft[n];
      assert soft[..n + 1] == soft[..n] + [c];
      if !IsOrder(c) {
        GatheredOther(soft[..n], kept, keep, order, c);
        kept := kept + [c];
      } else {
        GatheredOrder(soft[..n], kept, keep, order, c);
        if c.scope !in keep { order := order + [c.scope]; }
        keep := Challenge(keep, c);
      }
    }
    assert soft[..|soft|] == soft;
    ListsWinners(soft, order, keep);
    result := kept + Values(order, keep);
    assert Deduplicates(soft, result, Values(order, keep));
  }

  function CycleBreakConstraint(pair: (string, string)): SoftConstraint {
    SoftConstraint(SoftOrder, [pair.0, pair.1], "cycle_break", "", [], "true", "force_topological_local_order")
  }

  /** The ends of `e` are still ordered softly, by a constraint that names the broken cycle. */
  ghost predicate DemotedSoft(soft: seq<SoftConstraint>, e: DependencyEdge) {
    exists c :: c in soft && IsOrder(c) && c.scope == [e.src, e.dst] && Text.Lower(c.reason) == "cycle_break"
  }

  ghost function ProtectedArcs(nodes: map<string, Mssu>, edges: seq<DependencyEdge>): set<(string, string)> {
    set e | e in edges && EdgeRank.Protected(nodes, e) :: (e.src, e.dst)
  }

  /** A cycle-break constraint always wins its scope. */
  lemma CycleBreakWins(soft: seq<SoftConstraint>, c: SoftConstraint, w: SoftConstraint)
    requires c in soft && IsOrder(c) && c.reason == "cycle_break" && Winner(soft, w) && w.scope == c.scope
    ensures Text.Lower(w.reason) == "cycle_break"
  {
    assert Text.Lower("cycle_break") == "cycle_break";
    var i :| WinnerAt(soft, w, i);
    var j :| 0 <= j < |soft| && soft[j] == c;
    if j != i { HeaviestDominates(soft, w, i, j); }
  }

  method CycleBreakConstraints(removed: seq<(string, string)>) returns (soft: seq<SoftConstraint>)
    ensures forall p :: p in removed ==> CycleBreakConstraint(p) in soft
    ensures forall c :: c in soft ==> exists p :: p in removed && c == CycleBreakConstraint(p)
  {
    soft := [];
    for i := 0 to |removed|
      invariant forall k :: 0 <= k < i ==> CycleBreakConstraint(removed[k]) in soft
      invariant forall c :: c in soft ==> exists p :: p in removed && c == CycleBreakConstraint(p)
    {
      soft := soft + [CycleBreakConstraint(removed[i])];
    }
  }

  lemma RecordedIsDemoted(soft: seq<SoftConstraint>, result: seq<SoftConstraint>, chosen: seq<SoftConstraint>,
                          removed: seq<(string, string)>, e: DependencyEdge)
    requires (e.src, e.dst) in removed && forall p :: p in removed ==> CycleBreakConstraint(p) in soft
    requires Deduplicates(soft, result, chosen)
    ensures DemotedSoft(result, e)
  {
    var c := CycleBreakConstraint((e.src, e.dst));
    var w :| w in chosen && w.scope == c.scope;
    CycleBreakWins(soft, c, w);
    assert w in result;
  }

  /** An edge lost from a selection was recorded; one that stayed is still there. */
  lemma KeptOrRecorded(edges: seq<DependencyEdge>, kept: seq<nat>, result: seq<DependencyEdge>, removed: set<(string, string)>, e: DependencyEdge)
    requires Selects(edges, kept, result) && DroppedPairs(edges, kept) <= removed && e in edges
    ensures e in result || (e.src, e.dst) in removed
  {
    var i :| 0 <= i < |edges| && edges[i] == e;
    if i in kept {
      var k :| 0 <= k < |kept| && kept[k] == i;
      assert result[k] in result;
    } else {
      assert (e.src, e.dst) in DroppedPairs(edges, kept);
    }
  }

  /** A recorded pair is that of an edge that was lost. */
  lemma RecordedWasLost(edges: seq<DependencyEdge>, kept: seq<nat>, result: seq<DependencyEdge>, pair: (string, string)) returns (e: DependencyEdge)
    requires Selects(edges, kept, result) && UniqueKeys(edges) && pair in DroppedPairs(edges, kept)
    ensures e in edges && e !in result && pair == (e.src, e.dst)
  {
    var i :| 0 <= i < |edges| && i !in kept && pair == (edges[i].src, edges[i].dst);
    e := edges[i];
    forall k | 0 <= k < |result| ensures result[k] != e {
      assert kept[k] in kept && KeyOf(edges[kept[k]]) != KeyOf(edges[i]);
    }
  }

  lemma SelectedSubset(edges: seq<DependencyEdge>, kept: seq<nat>, result: seq<DependencyEdge>)
    requires Selects(edges, kept, result)
    ensures forall e :: e in result ==> e in edges
    ensures UniqueKeys(edges) ==> UniqueKeys(result)
  {
    forall e | e in result ensures e in edges {
      var k :| 0 <= k < |result| && result[k] == e;
      assert edges[kept[k]] in edges;
    }
  }

  /** The rank-driven pass keeps every data edge unless the protected edges themselves close a cycle. */
  lemma DataEdgesStay(nodes: map<string, Mssu>, edges: seq<DependencyEdge>, kept: seq<nat>, result: seq<DependencyEdge>, e: DependencyEdge)
    requires Selects(edges, kept, result) && ShortestCut(nodes, edges, kept)
    requires Acyclic(ProtectedArcs(nodes, edges)) && e in edges && EdgeRank.Protected(nodes, e)
    ensures e in result
  {
    var guarded := ProtectedPositions(nodes, edges);
    AcyclicSubset(ArcsAt(edges, guarded), ProtectedArcs(nodes, edges));
    ProtectedSurviveIff(nodes, edges, kept);
    var i :| 0 <= i < |edges| && edges[i] == e;
    assert i in guarded;
    var k :| 0 <= k < |kept| && kept[k] == i;
    assert result[k] in result;
  }

  lemma ActionPassKeepsData(edges: seq<DependencyEdge>, kept: seq<nat>, result: seq<DependencyEdge>, e: DependencyEdge)
    requires Selects(edges, kept, result) && e in edges && !MayGo(e)
    requires forall i :: 0 <= i < |edges| && i !in kept ==> MayGo(edges[i])
    ensures e in result
  {
    var i :| 0 <= i < |edges| && edges[i] == e;
    var k :| 0 <= k < |kept| && kept[k] == i;
    assert result[k] in result;
  }

  /** The edges left: one for each key, then a run of action-level demotions that has settled, then a shortest cut. */
  ghost predicate LeftHard(nodes: map<string, Mssu>, collected: seq<DependencyEdge>, hard: seq<DependencyEdge>) {
    exists run, kept :: LeftHardAt(nodes, collected, hard, run, kept)
  }

  ghost predicate LeftHardAt(nodes: map<string, Mssu>, collected: seq<DependencyEdge>, hard: seq<DependencyEdge>,
                             run: seq<seq<DependencyEdge>>, kept: seq<nat>) {
    && ActionRun(nodes, run) && KeysOf(run[0]) == Unique(KeysOf(collected)) && (forall f :: f in run[0] ==> LastOfKey(collected, f))
    && Settled(nodes, run[|run| - 1])
    && Selects(run[|run| - 1], kept, hard) && ShortestCut(nodes, run[|run| - 1], kept)
  }

  ghost predicate Kept(soft: seq<SoftConstraint>, c: SoftConstraint) {
    if IsOrder(c) then exists w :: w in soft && IsOrder(w) && w.scope == c.scope && !Outranks(c, w) else c in soft
  }

  /** Every constraint given is kept, an order constraint possibly by one of its scope that it does not outrank; no scope has
      two of them; what else there is stands for a demoted edge. */
  ghost predicate Gathers(given: seq<SoftConstraint>, collected: seq<DependencyEdge>, hard: seq<DependencyEdge>, soft: seq<SoftConstraint>) {
    && (forall c :: c in given ==> Kept(soft, c))
    && (forall i, j :: 0 <= i < j < |soft| && IsOrder(soft[i]) && IsOrder(soft[j]) ==> soft[i].scope != soft[j].scope)
    && (forall w :: w in soft ==> w in given || StandsIn(collected, hard, w))
  }

  /** `w` stands for an edge that was demoted. */
  ghost predicate StandsIn(collected: seq<DependencyEdge>, hard: seq<DependencyEdge>, w: SoftConstraint) {
    exists e :: LastOfKey(collected, e) && e !in hard && w == CycleBreakConstraint((e.src, e.dst))
  }

  lemma {:induction false} OthersExactly(soft: seq<SoftConstraint>)
    ensures forall c :: c in Others(soft) <==> c in soft && !IsOrder(c)
  {
    if soft != [] {
      OthersExactly(soft[..|soft| - 1]);
      assert soft == soft[..|soft| - 1] + [soft[|soft| - 1]];
    }
  }

  lemma WinnerStays(soft: seq<SoftConstraint>, result: seq<SoftConstraint>, chosen: seq<SoftConstraint>, c: SoftConstraint)
    requires Deduplicates(soft, result, chosen) && c in soft
    ensures Kept(result, c)
  {
    OthersExactly(soft);
    if IsOrder(c) {
      var w :| w in chosen && w.scope == c.scope;
      var k :| 0 <= k < |chosen| && chosen[k] == w;
      var i :| WinnerAt(soft, w, i);
      var j :| 0 <= j < |soft| && soft[j] == c;
      if j != i { HeaviestDominates(soft, w, i, j); } else { OutranksNotItself(c); }
      assert w in result;
    }
  }

  lemma OutranksNotItself(c: SoftConstraint)
    ensures !Outranks(c, c)
  {
    Text.LessIrreflexive(Text.Lower(c.reason));
  }

  lemma OneOrderEach(others: seq<SoftConstraint>, chosen: seq<SoftConstraint>, i: nat, j: nat)
    requires OnePerScope(chosen) && forall c :: c in others ==> !IsOrder(c)
    requires i < j < |others| + |chosen| && IsOrder((others + chosen)[i])
    ensures (others + chosen)[i].scope != (others + chosen)[j].scope
  {
    forall k | 0 <= k < |others| ensures !IsOrder((others + chosen)[k]) { assert others[k] in others; }
    var m, n := i - |others|, j - |others|;
    assert (others + chosen)[i] == chosen[m] && (others + chosen)[j] == chosen[n];
  }

  lemma ChosenGiven(soft: seq<SoftConstraint>, w: SoftConstraint)
    requires Winner(soft, w)
    ensures w in soft
  {
    var i :| WinnerAt(soft, w, i);
  }

  lemma ResultFrom(soft: seq<SoftConstraint>, result: seq<SoftConstraint>, chosen: seq<SoftConstraint>)
    requires Deduplicates(soft, result, chosen)
    ensures forall w :: w in result ==> w in soft
    ensures forall i, j :: 0 <= i < j < |result| && IsOrder(result[i]) && IsOrder(result[j]) ==> result[i].scope != result[j].scope
  {
    var others := Others(soft);
    OthersExactly(soft);
    forall k | 0 <= k < |chosen| ensures chosen[k] in soft { ChosenGiven(soft, chosen[k]); }
    forall i, j | 0 <= i < j < |result| && IsOrder(result[i]) && IsOrder(result[j]) ensures result[i].scope != result[j].scope {
      OneOrderEach(others, chosen, i, j);
    }
  }

  /** A constraint for a broken cycle stands for an edge that either pass has lost. */
  lemma BreakStandsIn(collected: seq<DependencyEdge>, unique: seq<DependencyEdge>, kept1: seq<nat>, after: seq<DependencyEdge>, kept2: seq<nat>, hard: seq<DependencyEdge>, pair: (string, string))
    requires UniqueKeys(unique) && forall f :: f in unique ==> LastOfKey(collected, f)
    requires Selects(unique, kept1, after) && Selects(after, kept2, hard)
    requires pair in DroppedPairs(unique, kept1) + DroppedPairs(after, kept2)
    ensures StandsIn(collected, hard, CycleBreakConstraint(pair))
  {
    SelectedSubset(unique, kept1, after);
    SelectedSubset(after, kept2, hard);
    var e;
    if pair in DroppedPairs(unique, kept1) {
      e := RecordedWasLost(unique, kept1, after, pair);
    } else {
      e := RecordedWasLost(after, kept2, hard, pair);
    }
    assert LastOfKey(collected, e) && e !in hard;
  }

  lemma SoftGathers(given: seq<SoftConstraint>, breaks: seq<SoftConstraint>, result: seq<SoftConstraint>, chosen: seq<SoftConstraint>,
                    collected: seq<DependencyEdge>, hard: seq<DependencyEdge>)
    requires Deduplicates(given + breaks, result, chosen) && forall c :: c in breaks ==> StandsIn(collected, hard, c)
    ensures Gathers(given, collected, hard, result)
  {
    ResultFrom(given + breaks, result, chosen);
    forall c | c in given ensures Kept(result, c) { WinnerStays(given + breaks, result, chosen, c); }
  }

  /** Every edge collected is still hard or recorded as demoted. */
  lemma HardOrDemoted(collected: seq<DependencyEdge>, unique: seq<DependencyEdge>, kept1: seq<nat>, after: seq<DependencyEdge>, kept2: seq<nat>, hard: seq<DependencyEdge>,
                      removed: seq<(string, string)>, soft: seq<SoftConstraint>, result: seq<SoftConstraint>, chosen: seq<SoftConstraint>, e: DependencyEdge)
    requires Selects(unique, kept1, after) && Selects(after, kept2, hard) && StillHard(unique, e)
    requires Elements(removed) == DroppedPairs(unique, kept1) + DroppedPairs(after, kept2)
    requires (forall p :: p in removed ==> CycleBreakConstraint(p) in soft) && Deduplicates(soft, result, chosen)
    ensures StillHard(hard, e) || DemotedSoft(result, e)
  {
    var f :| f in unique && KeyOf(f) == KeyOf(e);
    KeptOrRecorded(unique, kept1, after, Elements(removed), f);
    if f in after { KeptOrRecorded(after, kept2, hard, Elements(removed), f); }
    if f !in hard {
      assert (f.src, f.dst) in Elements(removed);
      RecordedIsDemoted(soft, result, chosen, removed, f);
    }
  }

  /** Data edges stay hard unless the protected edges themselves close a cycle. */
  lemma DataStaysHard(nodes: map<string, Mssu>, collected: seq<DependencyEdge>, unique: seq<DependencyEdge>, kept1: seq<nat>, after: seq<DependencyEdge>,
                      kept2: seq<nat>, hard: seq<DependencyEdge>, e: DependencyEdge)
    requires Selects(unique, kept1, after) && Selects(after, kept2, hard) && ShortestCut(nodes, after, kept2)
    requires (forall f :: f in unique ==> f in collected) && Acyclic(ProtectedArcs(nodes, collected))
    requires forall i :: 0 <= i < |unique| && i !in kept1 ==> MayGo(unique[i])
    requires StillHard(unique, e) && e.kind == HardData
    ensures StillHard(hard, e)
  {
    var f :| f in unique && KeyOf(f) == KeyOf(e);
    SelectedSubset(unique, kept1, after);
    AcyclicSubset(ProtectedArcs(nodes, after), ProtectedArcs(nodes, collected));
    ActionPassKeepsData(unique, kept1, after, f);
    DataEdgesStay(nodes, after, kept2, hard, f);
  }

  /** From the collected edges and constraints to the finished DAG. `added` are the constraints the resource
      pass contributes. */
  method FinishBuild(ids: seq<string>, nodes: map<string, Mssu>, collected: seq<DependencyEdge>,
                     injected: seq<SoftConstraint>, candidates: seq<SoftConstraint>, added: seq<SoftConstraint>)
    returns (dag: TypedDag, diagnostics: Diagnostics)
    requires Distinct(ids) && Elements(ids) == nodes.Keys && EndpointsKnown(nodes, collected)
    ensures dag.ids == ids && dag.nodes == nodes && UniqueKeys(dag.hardEdges)
    ensures Acyclic(EdgeArcs(dag.hardEdges)) && Settled(nodes, dag.hardEdges)
    ensures LeftHard(nodes, collected, dag.hardEdges)
    ensures forall e :: e in dag.hardEdges ==> LastOfKey(collected, e)
    ensures forall e :: e in collected ==> StillHard(dag.hardEdges, e) || DemotedSoft(dag.softConstraints, e)
    ensures Gathers(injected + candidates + added, collected, dag.hardEdges, dag.softConstraints)
    ensures Acyclic(ProtectedArcs(nodes, collected)) ==>
              forall e :: e in collected && e.kind == HardData ==> StillHard(dag.hardEdges, e)
  {
    diagnostics := new Diagnostics();
    var unique := DedupHardEdges(collected);
    UniqueKnown(nodes, collected, unique);
    var afterActions, kept1, run := BreakActionLevelCycles(nodes, unique, diagnostics);
    SelectedKnown(nodes, unique, kept1, afterActions);
    var hard, kept2 := BreakCycles(ids, nodes, afterActions, diagnostics);
    ghost var removed := diagnostics.removedHardEdges;
    assert Elements(removed) == DroppedPairs(unique, kept1) + DroppedPairs(afterActions, kept2);
    var breaks := CycleBreakConstraints(diagnostics.removedHardEdges);
    ghost var given := injected + candidates + added;
    var soft := injected + candidates + added + breaks;
    var result := DedupSoftOrder(soft);
    ghost var chosen :| Deduplicates(soft, result, chosen);
    dag := TypedDag(ids, nodes, hard, result);
    SelectedSubset(unique, kept1, afterActions);
    SelectedSubset(afterActions, kept2, hard);
    SettledStays(nodes, afterActions, hard);
    assert LeftHardAt(nodes, collected, hard, run, kept2);
    forall e | e in collected ensures StillHard(hard, e) || DemotedSoft(result, e) {
      HardOrDemoted(collected, unique, kept1, afterActions, kept2, hard, removed, soft, result, chosen, e);
    }
    forall c | c in breaks ensures StandsIn(collected, hard, c) {
      var pair :| pair in removed && c == CycleBreakConstraint(pair);
      assert pair in Elements(removed);
      BreakStandsIn(collected, unique, kept1, afterActions, kept2, hard, pair);
    }
    SoftGathers(given, breaks, result, chosen, collected, hard);
    if Acyclic(ProtectedArcs(nodes, collected)) {
      forall e | e in collected && e.kind == HardData ensures StillHard(hard, e) {
        DataStaysHard(nodes, collected, unique, kept1, afterActions, kept2, hard, e);
      }
    }
  }

  lemma UniqueKnown(nodes: map<string, Mssu>, collected: seq<DependencyEdge>, unique: seq<DependencyEdge>)
    requires EndpointsKnown(nodes, collected) && forall f :: f in unique ==> LastOfKey(collected, f)
    ensures EndpointsKnown(nodes, unique) && forall f :: f in unique ==> f in collected
  {
  }
}
