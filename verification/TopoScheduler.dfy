/** List scheduling of actions into batches under per-protocol capacities and device conflicts
    (optimizer/naive_topo_parallel.py). */
module TopoScheduler {
  import opened Digraph
  import opened Sequences

  datatype Protocol = Ble | Cloud | Local | Ha | Unknown

  /** `target` is the normalized device key, empty when unknown; `readLike` says its wording only reads. */
  datatype Action<N> = Action(protocol: Protocol, target: string, readLike: bool, mustHappenBefore: seq<N>)

  datatype Policy = Policy(maxParallel: int, bleParallel: int, cloudParallel: int, localParallel: int)

  /** The actions in declaration order, and the declared dependencies (before, after). */
  datatype Target<N(==)> = Target(ids: seq<N>, actions: map<N, Action<N>>, hardDependencies: seq<(N, N)>)

  datatype Outcome<N(==)> = Scheduled(batches: seq<seq<N>>) | DependencyCycle(unresolved: set<N>)

  ghost predicate WellFormed<N(!new)>(t: Target<N>) {
    Distinct(t.ids) && Elements(t.ids) == t.actions.Keys
  }

  // ----- the dependency graph

  ghost function Arcs<N(!new)>(out: map<N, set<N>>): set<(N, N)> {
    set u, v | u in out && v in out[u] :: (u, v)
  }

  /** The pairs that name two different known actions; the others are ignored. */
  ghost function Known<N(!new)>(t: Target<N>, pairs: set<(N, N)>): set<(N, N)> {
    set p | p in pairs && p.0 != p.1 && p.0 in t.actions && p.1 in t.actions
  }

  ghost function Declared<N(!new)>(t: Target<N>, ids: seq<N>): set<(N, N)> {
    set u, v | u in ids && u in t.actions && v in t.actions[u].mustHappenBefore :: (u, v)
  }

  ghost function HaLast<N(!new)>(ids: seq<N>, has: seq<N>): set<(N, N)> {
    set u, v | u in ids && v in has :: (u, v)
  }

  predicate IsHa<N(==)>(t: Target<N>, aid: N) {
    aid in t.actions && t.actions[aid].protocol == Ha
  }

  ghost predicate Depends<N(!new)>(t: Target<N>, u: N, v: N)
    requires u in t.actions && v in t.actions
  {
    (u, v) in t.hardDependencies || v in t.actions[u].mustHappenBefore || (!IsHa(t, u) && IsHa(t, v))
  }

  /** Declared dependencies, per-action successors, and "home assistant last". */
  ghost function DependencyArcs<N(!new)>(t: Target<N>): set<(N, N)> {
    set u, v | u in t.actions && v in t.actions && u != v && Depends(t, u, v) :: (u, v)
  }

  /** Sources of arcs into `v` that are not done yet. */
  ghost function Left<N(!new)>(out: map<N, set<N>>, done: set<N>, v: N): set<N> {
    set u | u in out && u !in done && v in out[u]
  }

  ghost predicate Counts<N(!new)>(out: map<N, set<N>>, done: set<N>, indegree: map<N, nat>) {
    indegree.Keys == out.Keys && forall v :: v in out ==> indegree[v] == |Left(out, done, v)|
  }

  ghost predicate Graphed<N(!new)>(t: Target<N>, out: map<N, set<N>>, indegree: map<N, nat>) {
    out.Keys == t.actions.Keys && Counts(out, {}, indegree) && forall u :: u in out ==> out[u] <= out.Keys
  }

  lemma LeftAdd<N(!new)>(out: map<N, set<N>>, src: N, dst: N, v: N)
    requires src in out && dst in out && dst !in out[src] && v in out
    ensures var out' := out[src := out[src] + {dst}];
            |Left(out', {}, v)| == |Left(out, {}, v)| + (if v == dst then 1 else 0)
  {
    var out' := out[src := out[src] + {dst}];
    if v == dst {
      assert Left(out', {}, v) == Left(out, {}, v) + {src};
    } else {
      assert Left(out', {}, v) == Left(out, {}, v);
    }
  }

  method AddArc<N(==,!new)>(t: Target<N>, out: map<N, set<N>>, indegree: map<N, nat>, src: N, dst: N) returns (out': map<N, set<N>>, indegree': map<N, nat>)
    requires Graphed(t, out, indegree)
    ensures Graphed(t, out', indegree')
    ensures Arcs(out') == Arcs(out) + Known(t, {(src, dst)})
  {
    if src == dst || src !in t.actions || dst !in t.actions || dst in out[src] {
      return out, indegree;
    }
    AddOk(t, out, indegree, src, dst);
    ArcsAdd(out, src, dst);
    out', indegree' := out[src := out[src] + {dst}], indegree[dst := indegree[dst] + 1];
  }

  lemma ArcsAdd<N(!new)>(out: map<N, set<N>>, src: N, dst: N)
    requires src in out
    ensures Arcs(out[src := out[src] + {dst}]) == Arcs(out) + {(src, dst)}
  {
  }

  lemma AddOk<N(!new)>(t: Target<N>, out: map<N, set<N>>, indegree: map<N, nat>, src: N, dst: N)
    requires Graphed(t, out, indegree) && src in out && dst in out && dst !in out[src]
    ensures Graphed(t, out[src := out[src] + {dst}], indegree[dst := indegree[dst] + 1])
  {
    AddCounts(out, indegree, src, dst);
  }

  lemma AddCounts<N(!new)>(out: map<N, set<N>>, indegree: map<N, nat>, src: N, dst: N)
    requires Counts(out, {}, indegree) && src in out && dst in out && dst !in out[src]
    ensures Counts(out[src := out[src] + {dst}], {}, indegree[dst := indegree[dst] + 1])
  {
    var out' := out[src := out[src] + {dst}];
    forall v | v in out ensures |Left(out', {}, v)| == |Left(out, {}, v)| + (if v == dst then 1 else 0) {
      LeftAdd(out, src, dst, v);
    }
  }

  method AddArcs<N(==,!new)>(t: Target<N>, out: map<N, set<N>>, indegree: map<N, nat>, pairs: seq<(N, N)>) returns (out': map<N, set<N>>, indegree': map<N, nat>)
    requires Graphed(t, out, indegree)
    ensures Graphed(t, out', indegree')
    ensures Arcs(out') == Arcs(out) + Known(t, Elements(pairs))
  {
    out', indegree' := out, indegree;
    for i := 0 to |pairs|
      invariant Graphed(t, out', indegree')
      invariant Arcs(out') == Arcs(out) + Known(t, Elements(pairs[..i]))
    {
      TakeNext(pairs, i);
      var pair := pairs[i];
      out', indegree' := AddArc(t, out', indegree', pair.0, pair.1);
      ElementsAppend(pairs[..i], pair);
      KnownUnion(t, Elements(pairs[..i]), {pair});
    }
    TakeAll(pairs);
  }

  function PairAll<N(!new)>(aid: N, targets: seq<N>): (pairs: seq<(N, N)>)
    ensures forall p :: p in pairs <==> p.0 == aid && p.1 in targets
  {
    if targets == [] then [] else PairAll(aid, targets[..|targets| - 1]) + [(aid, targets[|targets| - 1])]
  }

  method SplitHa<N(==,!new)>(t: Target<N>) returns (has: seq<N>, others: seq<N>)
    ensures forall a :: a in has <==> a in t.ids && IsHa(t, a)
    ensures forall a :: a in others <==> a in t.ids && !IsHa(t, a)
  {
    has, others := [], [];
    for i := 0 to |t.ids|
      invariant forall a :: a in has <==> a in t.ids[..i] && IsHa(t, a)
      invariant forall a :: a in others <==> a in t.ids[..i] && !IsHa(t, a)
    {
      if IsHa(t, t.ids[i]) { has := has + [t.ids[i]]; } else { others := others + [t.ids[i]]; }
    }
  }

  lemma KnownUnion<N(!new)>(t: Target<N>, a: set<(N, N)>, b: set<(N, N)>)
    ensures Known(t, a + b) == Known(t, a) + Known(t, b)
  {
  }

  lemma DeclaredExtend<N(!new)>(t: Target<N>, ids: seq<N>, aid: N)
    requires aid in t.actions
    ensures Declared(t, ids + [aid]) == Declared(t, ids) + Elements(PairAll(aid, t.actions[aid].mustHappenBefore))
  {
    forall u, v ensures (u, v) in Declared(t, ids + [aid]) <==> (u, v) in Declared(t, ids) || (u, v) in PairAll(aid, t.actions[aid].mustHappenBefore) {
      assert u in ids + [aid] <==> u in ids || u == aid;
    }
  }

  lemma HaLastExtend<N(!new)>(others: seq<N>, aid: N, has: seq<N>)
    ensures HaLast(others + [aid], has) == HaLast(others, has) + Elements(PairAll(aid, has))
  {
    forall u, v ensures (u, v) in HaLast(others + [aid], has) <==> (u, v) in HaLast(others, has) || (u, v) in PairAll(aid, has) {
      assert u in others + [aid] <==> u in others || u == aid;
    }
  }

  method AddDeclared<N(==,!new)>(t: Target<N>, out: map<N, set<N>>, indegree: map<N, nat>) returns (out': map<N, set<N>>, indegree': map<N, nat>)
    requires WellFormed(t) && Graphed(t, out, indegree)
    ensures Graphed(t, out', indegree') && Arcs(out') == Arcs(out) + Known(t, Declared(t, t.ids))
  {
    out', indegree' := out, indegree;
    assert Known(t, Declared(t, t.ids[..0])) == {};
    for i := 0 to |t.ids|
      invariant Graphed(t, out', indegree')
      invariant Arcs(out') == Arcs(out) + Known(t, Declared(t, t.ids[..i]))
    {
      var aid := t.ids[i];
      assert aid in Elements(t.ids);
      TakeNext(t.ids, i);
      var pairs := PairAll(aid, t.actions[aid].mustHappenBefore);
      out', indegree' := AddArcs(t, out', indegree', pairs);
      DeclaredExtend(t, t.ids[..i], aid);
      KnownUnion(t, Declared(t, t.ids[..i]), Elements(pairs));
    }
    TakeAll(t.ids);
  }

  method AddHaLast<N(==,!new)>(t: Target<N>, out: map<N, set<N>>, indegree: map<N, nat>, has: seq<N>, others: seq<N>)
    returns (out': map<N, set<N>>, indegree': map<N, nat>)
    requires Graphed(t, out, indegree)
    ensures Graphed(t, out', indegree') && Arcs(out') == Arcs(out) + Known(t, HaLast(others, has))
  {
    out', indegree' := out, indegree;
    assert Known(t, HaLast(others[..0], has)) == {};
    for i := 0 to |others|
      invariant Graphed(t, out', indegree')
      invariant Arcs(out') == Arcs(out) + Known(t, HaLast(others[..i], has))
    {
      TakeNext(others, i);
      var pairs := PairAll(others[i], has);
      out', indegree' := AddArcs(t, out', indegree', pairs);
      HaLastExtend(others[..i], others[i], has);
      KnownUnion(t, HaLast(others[..i], has), Elements(pairs));
    }
    TakeAll(others);
  }

  method NoArcs<N(==,!new)>(t: Target<N>) returns (out: map<N, set<N>>, indegree: map<N, nat>)
    ensures Graphed(t, out, indegree) && Arcs(out) == {}
  {
    out, indegree := map a | a in t.actions :: {}, map a | a in t.actions :: 0;
    assert forall v :: v in out ==> Left(out, {}, v) == {};
  }

  method ExplicitGraph<N(==,!new)>(t: Target<N>) returns (out: map<N, set<N>>, indegree: map<N, nat>)
    requires WellFormed(t)
    ensures Graphed(t, out, indegree) && Arcs(out) == DependencyArcs(t)
  {
    out, indegree := NoArcs(t);
    out, indegree := AddArcs(t, out, indegree, t.hardDependencies);
    out, indegree := AddDeclared(t, out, indegree);
    var has, others := SplitHa(t);
    out, indegree := AddHaLast(t, out, indegree, has, others);
    AllArcs(t, has, others);
  }

  lemma AllArcs<N(!new)>(t: Target<N>, has: seq<N>, others: seq<N>)
    requires WellFormed(t)
    requires forall a :: a in has <==> a in t.ids && IsHa(t, a)
    requires forall a :: a in others <==> a in t.ids && !IsHa(t, a)
    ensures Known(t, Elements(t.hardDependencies)) + Known(t, Declared(t, t.ids)) + Known(t, HaLast(others, has)) == DependencyArcs(t)
  {
    assert forall a :: a in t.actions <==> a in Elements(t.ids);
    var all := Known(t, Elements(t.hardDependencies)) + Known(t, Declared(t, t.ids)) + Known(t, HaLast(others, has));
    forall u, v ensures (u, v) in all <==> (u, v) in DependencyArcs(t) {
      if u in t.actions && v in t.actions {
        assert u in t.ids && v in t.ids;
        assert (u, v) in Declared(t, t.ids) <==> v in t.actions[u].mustHappenBefore;
        assert (u, v) in HaLast(others, has) <==> !IsHa(t, u) && IsHa(t, v);
      }
    }
  }

  // ----- choosing a batch

  predicate ReadOnly<N>(a: Action<N>) {
    a.protocol != Ha && a.readLike
  }

  predicate SameDeviceConflict<N>(left: Action<N>, right: Action<N>) {
    left.target != "" && left.target == right.target && !(ReadOnly(left) && ReadOnly(right))
  }

  /** On one device, if the device is known, only reads of other protocols than Home Assistant go together. */
  ghost predicate GoTogether<N>(a: Action<N>, b: Action<N>) {
    a.target != "" && a.target == b.target ==> a.readLike && b.readLike && a.protocol != Ha && b.protocol != Ha
  }

  ghost function CountOf<N>(t: Target<N>, selected: seq<N>, p: Protocol): nat {
    if selected == [] then 0
    else
      var last := selected[|selected| - 1];
      CountOf(t, selected[..|selected| - 1], p) + (if last in t.actions && t.actions[last].protocol == p then 1 else 0)
  }

  /** The batch stays within every capacity. */
  ghost predicate WithinLimits<N>(t: Target<N>, policy: Policy, batch: seq<N>) {
    && |batch| <= policy.maxParallel
    && CountOf(t, batch, Ble) <= policy.bleParallel
    && CountOf(t, batch, Cloud) <= policy.cloudParallel
    && CountOf(t, batch, Local) <= policy.localParallel
  }

  ghost predicate Joinable<N>(t: Target<N>, policy: Policy, aid: N, selected: seq<N>) {
    && aid in t.actions
    && (forall other :: other in selected && other in t.actions ==> GoTogether(t.actions[aid], t.actions[other]))
    && WithinLimits(t, policy, selected + [aid])
  }

  method CanJoin<N(==,!new)>(t: Target<N>, policy: Policy, aid: N, selected: seq<N>) returns (ok: bool)
    requires aid in t.actions && forall other :: other in selected ==> other in t.actions
    ensures ok <==> Joinable(t, policy, aid, selected)
  {
    var action := t.actions[aid];
    var counts: map<Protocol, nat> := map[Ble := 0, Cloud := 0, Local := 0, Ha := 0, Unknown := 0];
    forall p: Protocol ensures p in counts && counts[p] == 0 {
      match p { case Ble => case Cloud => case Local => case Ha => case Unknown => }
    }
    for i := 0 to |selected|
      invariant forall p: Protocol :: p in counts
      invariant forall p :: p in counts ==> counts[p] == CountOf(t, selected[..i], p)
      invariant forall k :: 0 <= k < i ==> GoTogether(action, t.actions[selected[k]])
    {
      var other := t.actions[selected[i]];
      if SameDeviceConflict(action, other) { return false; }
      TakeNext(selected, i);
      counts := counts[other.protocol := counts[other.protocol] + 1];
    }
    TakeAll(selected);
    assert (selected + [aid])[..|selected|] == selected;
    counts := counts[action.protocol := counts[action.protocol] + 1];
    assert forall p :: p in counts ==> counts[p] == CountOf(t, selected + [aid], p);
    return |selected| + 1 <= policy.maxParallel && counts[Ble] <= policy.bleParallel && counts[Cloud] <= policy.cloudParallel && counts[Local] <= policy.localParallel;
  }

  function Rank<N(==)>(ids: seq<N>, aid: N): (r: nat)
    requires aid in ids
    ensures r < |ids| && ids[r] == aid
  {
    if ids[0] == aid then 0 else 1 + Rank(ids[1..], aid)
  }

  /** `ordered` lists `ready` by increasing declaration rank. */
  ghost predicate ReadyOrder<N(!new)>(t: Target<N>, ready: set<N>, ordered: seq<N>) {
    && Elements(ordered) == ready
    && (forall i :: 0 <= i < |ordered| ==> ordered[i] in t.ids)
    && (forall i, j :: 0 <= i < j < |ordered| ==> Rank(t.ids, ordered[i]) < Rank(t.ids, ordered[j]))
  }

  /** The sort key of the source: declaration rank first, then the longer latency. */
  predicate Precedes<N(==)>(t: Target<N>, latency: map<N, real>, a: N, b: N)
    requires a in t.ids && b in t.ids && a in latency && b in latency
  {
    Rank(t.ids, a) < Rank(t.ids, b) || (Rank(t.ids, a) == Rank(t.ids, b) && latency[a] > latency[b])
  }

  method InsertByRank<N(==,!new)>(t: Target<N>, latency: map<N, real>, ghost placed: set<N>, ordered: seq<N>, aid: N)
    returns (result: seq<N>)
    requires WellFormed(t) && latency.Keys == t.actions.Keys && placed <= t.actions.Keys
    requires ReadyOrder(t, placed, ordered) && aid in t.actions && aid !in placed
    ensures ReadyOrder(t, placed + {aid}, result)
  {
    assert aid in Elements(t.ids);
    var k := |ordered|;
    while k > 0 && BelongsBefore(t, latency, placed, ordered, aid, k - 1)
      invariant 0 <= k <= |ordered|
      invariant forall j :: k <= j < |ordered| ==> Rank(t.ids, aid) < Rank(t.ids, ordered[j])
    {
      k := k - 1;
    }
    InsertKeepsOrder(t, placed, ordered, aid, k);
    result := ordered[..k] + [aid] + ordered[k..];
  }

  /** Whether the insertion point lies before position `j`. Ranks never tie, so latencies never decide. */
  predicate BelongsBefore<N(==,!new)>(t: Target<N>, latency: map<N, real>, ghost placed: set<N>, ordered: seq<N>, aid: N, j: nat)
    requires WellFormed(t) && latency.Keys == t.actions.Keys && placed <= t.actions.Keys
    requires ReadyOrder(t, placed, ordered) && aid in t.ids && aid !in placed && j < |ordered|
    ensures BelongsBefore(t, latency, placed, ordered, aid, j) <==> Rank(t.ids, aid) < Rank(t.ids, ordered[j])
  {
    assert ordered[j] in placed && aid in Elements(t.ids);
    Precedes(t, latency, aid, ordered[j])
  }

  lemma InsertKeepsOrder<N(!new)>(t: Target<N>, placed: set<N>, ordered: seq<N>, aid: N, k: nat)
    requires ReadyOrder(t, placed, ordered) && aid in t.ids && aid !in placed && k <= |ordered|
    requires forall j :: k <= j < |ordered| ==> Rank(t.ids, aid) < Rank(t.ids, ordered[j])
    requires k > 0 ==> Rank(t.ids, ordered[k - 1]) <= Rank(t.ids, aid)
    ensures ReadyOrder(t, placed + {aid}, ordered[..k] + [aid] + ordered[k..])
  {
    var result := ordered[..k] + [aid] + ordered[k..];
    forall i, j | 0 <= i < j < |result| ensures Rank(t.ids, result[i]) < Rank(t.ids, result[j]) {
      if i < k == j && i + 1 < k { assert Rank(t.ids, ordered[i]) < Rank(t.ids, ordered[k - 1]); }
      if i == k - 1 && j == k { assert ordered[i] in placed; }
    }
    assert ordered == ordered[..k] + ordered[k..];
  }

  /** Sorts the ready actions; the latencies take part in the key and still do not matter. */
  method SortReady<N(==,!new)>(t: Target<N>, latency: map<N, real>, ready: set<N>) returns (ordered: seq<N>)
    requires WellFormed(t) && latency.Keys == t.actions.Keys && ready <= t.actions.Keys
    ensures ReadyOrder(t, ready, ordered)
  {
    ordered := [];
    var todo := ready;
    while todo != {}
      invariant todo <= ready && ReadyOrder(t, ready - todo, ordered)
    {
      var aid :| aid in todo;
      ghost var placed := ready - todo;
      todo := todo - {aid};
      assert ready - todo == placed + {aid};
      ordered := InsertByRank(t, latency, placed, ordered, aid);
    }
  }

  lemma ReadyOrderUnique<N(!new)>(t: Target<N>, ready: set<N>, a: seq<N>, b: seq<N>)
    requires ReadyOrder(t, ready, a) && ReadyOrder(t, ready, b)
    ensures a == b
  {
    AscendingLength(t, ready, a);
    AscendingLength(t, ready, b);
    SameUpTo(t, ready, a, b, |a|);
  }

  lemma AscendingLength<N(!new)>(t: Target<N>, ready: set<N>, a: seq<N>)
    requires ReadyOrder(t, ready, a)
    ensures |a| == |ready|
  {
    DistinctSize(a);
  }

  lemma {:induction false} SameUpTo<N(!new)>(t: Target<N>, ready: set<N>, a: seq<N>, b: seq<N>, n: nat)
    requires ReadyOrder(t, ready, a) && ReadyOrder(t, ready, b) && |a| == |b| && n <= |a|
    ensures a[..n] == b[..n]
  {
    if n > 0 {
      var k := n - 1;
      SameUpTo(t, ready, a, b, k);
      NotEarlier(t, ready, a, b, k);
      NotEarlier(t, ready, b, a, k);
      TakeNext(a, k);
      TakeNext(b, k);
    }
  }

  lemma NotEarlier<N(!new)>(t: Target<N>, ready: set<N>, a: seq<N>, b: seq<N>, k: nat)
    requires ReadyOrder(t, ready, a) && ReadyOrder(t, ready, b) && k < |a| == |b| && a[..k] == b[..k]
    ensures Rank(t.ids, a[k]) <= Rank(t.ids, b[k])
  {
    assert forall j :: 0 <= j < k ==> a[..k][j] == a[j] && b[..k][j] == b[j];
    assert b[k] in Elements(a) by { assert b[k] in Elements(b); }
    var i :| 0 <= i < |a| && a[i] == b[k];
  }

  // ----- the shape of a batch

  /** Each member could join the members before it. */
  ghost predicate Grown<N(!new)>(t: Target<N>, policy: Policy, batch: seq<N>) {
    forall j :: 0 <= j < |batch| ==> Joinable(t, policy, batch[j], batch[..j])
  }

  lemma GrownExtend<N(!new)>(t: Target<N>, policy: Policy, batch: seq<N>, aid: N)
    requires Grown(t, policy, batch) && Joinable(t, policy, aid, batch)
    ensures Grown(t, policy, batch + [aid])
  {
    var now := batch + [aid];
    forall j | 0 <= j < |now| ensures Joinable(t, policy, now[j], now[..j]) {
      if j < |batch| { assert now[..j] == batch[..j]; } else { assert now[..j] == batch; }
    }
  }

  /** A run of `ordered` from position `k`, grown while the next action may join. */
  ghost predicate RunFrom<N(!new)>(t: Target<N>, policy: Policy, ordered: seq<N>, batch: seq<N>, k: nat) {
    && batch != [] && k + |batch| <= |ordered| && batch == ordered[k..k + |batch|]
    && (forall j :: 0 <= j < k ==> !Joinable(t, policy, ordered[j], []))
    && Grown(t, policy, batch)
    && (k + |batch| < |ordered| ==> !Joinable(t, policy, ordered[k + |batch|], batch))
  }

  /** The batch chosen from `ordered`: the first joinable run, or the first action alone if none may join. */
  ghost predicate IsBatch<N(!new)>(t: Target<N>, policy: Policy, ordered: seq<N>, batch: seq<N>) {
    || (exists k :: RunFrom(t, policy, ordered, batch, k))
    || (ordered != [] && batch == [ordered[0]] && forall j :: 0 <= j < |ordered| ==> !Joinable(t, policy, ordered[j], []))
  }

  method SelectBatch<N(==,!new)>(t: Target<N>, policy: Policy, ordered: seq<N>) returns (selected: seq<N>)
    requires ordered != [] && forall a :: a in ordered ==> a in t.actions
    ensures IsBatch(t, policy, ordered, selected)
  {
    selected := [];
    ghost var k := 0;
    var i := 0;
    while i < |ordered|
      invariant 0 <= k <= i <= |ordered| && selected == ordered[k..i]
      invariant forall j :: 0 <= j < k ==> !Joinable(t, policy, ordered[j], [])
      invariant Grown(t, policy, selected)
    {
      var aid := ordered[i];
      var ok := CanJoin(t, policy, aid, selected);
      if ok {
        GrownExtend(t, policy, selected, aid);
        selected := selected + [aid];
      } else if selected != [] {
        break;
      } else {
        k := i + 1;
      }
      i := i + 1;
    }
    if selected == [] {
      selected := [ordered[0]];
    } else {
      assert RunFrom(t, policy, ordered, selected, k);
    }
  }

  ghost predicate PositiveLimits(policy: Policy) {
    policy.maxParallel >= 1 && policy.bleParallel >= 1 && policy.cloudParallel >= 1 && policy.localParallel >= 1
  }

  lemma AloneJoins<N(!new)>(t: Target<N>, policy: Policy, aid: N)
    requires PositiveLimits(policy) && aid in t.actions
    ensures Joinable(t, policy, aid, [])
  {
    assert [aid][..0] == [] && [] + [aid] == [aid];
    assert forall p :: CountOf(t, [aid], p) <= 1;
  }

  /** With positive limits the batch is the longest joinable prefix. */
  lemma LongestPrefix<N(!new)>(t: Target<N>, policy: Policy, ordered: seq<N>, batch: seq<N>)
    requires PositiveLimits(policy) && IsBatch(t, policy, ordered, batch) && forall a :: a in ordered ==> a in t.actions
    ensures RunFrom(t, policy, ordered, batch, 0)
  {
    AloneJoins(t, policy, ordered[0]);
  }

  /** The batch is determined by the ordered ready actions. */
  lemma BatchUnique<N(!new)>(t: Target<N>, policy: Policy, ordered: seq<N>, a: seq<N>, b: seq<N>)
    requires IsBatch(t, policy, ordered, a) && IsBatch(t, policy, ordered, b)
    ensures a == b
  {
    if k: nat :| RunFrom(t, policy, ordered, a, k) { RunStarts(t, policy, ordered, a, k); }
    if k: nat :| RunFrom(t, policy, ordered, b, k) { RunStarts(t, policy, ordered, b, k); }
    if k: nat, l: nat :| RunFrom(t, policy, ordered, a, k) && RunFrom(t, policy, ordered, b, l) {
      RunUnique(t, policy, ordered, a, b, k, l);
    }
  }

  lemma RunUnique<N(!new)>(t: Target<N>, policy: Policy, ordered: seq<N>, a: seq<N>, b: seq<N>, k: nat, l: nat)
    requires RunFrom(t, policy, ordered, a, k) && RunFrom(t, policy, ordered, b, l)
    ensures a == b
  {
    RunStarts(t, policy, ordered, a, k);
    RunStarts(t, policy, ordered, b, l);
    assert k == l;
    JoinsNext(t, policy, ordered, a, b, k);
    JoinsNext(t, policy, ordered, b, a, k);
  }

  lemma RunStarts<N(!new)>(t: Target<N>, policy: Policy, ordered: seq<N>, a: seq<N>, k: nat)
    requires RunFrom(t, policy, ordered, a, k)
    ensures Joinable(t, policy, ordered[k], [])
  {
    assert Joinable(t, policy, a[0], a[..0]) && a[..0] == [] && a[0] == ordered[k];
  }

  lemma JoinsNext<N(!new)>(t: Target<N>, policy: Policy, ordered: seq<N>, a: seq<N>, b: seq<N>, k: nat)
    requires RunFrom(t, policy, ordered, b, k) && k + |a| <= |ordered| && a == ordered[k..k + |a|]
    ensures |a| < |b| ==> Joinable(t, policy, ordered[k + |a|], a)
  {
    if |a| < |b| {
      assert b[|a|] == ordered[k + |a|] && b[..|a|] == a;
    }
  }

  // ----- the scheduling loop

  ghost function Done<N>(batches: seq<seq<N>>): set<N> {
    if batches == [] then {} else Done(batches[..|batches| - 1]) + Elements(batches[|batches| - 1])
  }

  /** The actions not done whose predecessors are all done. */
  ghost function Ready<N(!new)>(t: Target<N>, done: set<N>): set<N> {
    set v | v in t.actions && v !in done && forall u :: (u, v) in DependencyArcs(t) ==> u in done
  }

  ghost predicate StepOk<N(!new)>(t: Target<N>, policy: Policy, done: set<N>, batch: seq<N>) {
    exists ordered :: ReadyOrder(t, Ready(t, done), ordered) && IsBatch(t, policy, ordered, batch)
  }

  /** Each batch is the one the policy picks from what is ready after the batches before it. */
  ghost predicate Run<N(!new)>(t: Target<N>, policy: Policy, batches: seq<seq<N>>) {
    forall i :: 0 <= i < |batches| ==> StepOk(t, policy, Done(batches[..i]), batches[i])
  }

  /** The ready actions read off the successor table. */
  ghost function ReadyOut<N(!new)>(out: map<N, set<N>>, done: set<N>): set<N> {
    set v | v in out && v !in done && Left(out, done, v) == {}
  }

  lemma ReadyOutIsReady<N(!new)>(t: Target<N>, out: map<N, set<N>>, done: set<N>)
    requires out.Keys == t.actions.Keys && Arcs(out) == DependencyArcs(t)
    ensures ReadyOut(out, done) == Ready(t, done)
  {
    forall v | v in out ensures Left(out, done, v) == {} <==> forall u :: (u, v) in DependencyArcs(t) ==> u in done {
      if Left(out, done, v) == {} {
        forall u | (u, v) in DependencyArcs(t) ensures u in done {
          assert (u, v) in Arcs(out);
          assert u !in Left(out, done, v);
        }
      } else {
        var u :| u in Left(out, done, v);
        assert (u, v) in Arcs(out);
      }
    }
  }

  lemma LeftAfter<N(!new)>(out: map<N, set<N>>, done: set<N>, aid: N, v: N)
    requires aid in out && aid !in done
    ensures |Left(out, done, v)| == |Left(out, done + {aid}, v)| + (if v in out[aid] then 1 else 0)
  {
    if v in out[aid] {
      assert Left(out, done, v) == Left(out, done + {aid}, v) + {aid};
    } else {
      assert Left(out, done, v) == Left(out, done + {aid}, v);
    }
  }

  lemma ReadyByCount<N(!new)>(out: map<N, set<N>>, done: set<N>, indegree: map<N, nat>)
    requires Counts(out, done, indegree)
    ensures ReadyOut(out, done) == set v | v in out && v !in done && indegree[v] == 0
  {
  }

  ghost predicate SourcesDone<N(!new)>(out: map<N, set<N>>, done: set<N>) {
    forall v :: v in done ==> Left(out, done, v) == {}
  }

  /** Midway through releasing the successors of an action: those in `todo` still count it. */
  ghost predicate Releasing<N(!new)>(out: map<N, set<N>>, done: set<N>, todo: set<N>, ready: set<N>, indegree: map<N, nat>) {
    && indegree.Keys == out.Keys && todo <= out.Keys && todo !! done
    && (forall v :: v in out ==> indegree[v] == |Left(out, done, v)| + (if v in todo then 1 else 0))
    && ready == set v | v in out && v !in done && indegree[v] == 0
  }

  lemma ReleaseStarts<N(!new)>(out: map<N, set<N>>, aid: N, ready: set<N>, done: set<N>, indegree: map<N, nat>)
    requires Counts(out, done, indegree) && ready == ReadyOut(out, done) && aid in ready && out[aid] <= out.Keys && SourcesDone(out, done)
    ensures Releasing(out, done + {aid}, out[aid], ready - {aid}, indegree) && SourcesDone(out, done + {aid})
  {
    forall v | v in out[aid] ensures v !in done + {aid} {
      assert aid in Left(out, done, v);
    }
    forall v | v in out { LeftAfter(out, done, aid, v); }
    ReadyByCount(out, done, indegree);
  }

  lemma ReleaseOne<N(!new)>(out: map<N, set<N>>, done: set<N>, todo: set<N>, ready: set<N>, indegree: map<N, nat>, nxt: N)
    requires Releasing(out, done, todo, ready, indegree) && nxt in todo
    ensures indegree[nxt] >= 1
    ensures Releasing(out, done, todo - {nxt}, if indegree[nxt] == 1 then ready + {nxt} else ready, indegree[nxt := indegree[nxt] - 1])
  {
  }

  /** Marks one action as done and releases its successors. */
  method Complete<N(==,!new)>(out: map<N, set<N>>, aid: N, ready: set<N>, ghost done: set<N>, indegree: map<N, nat>)
    returns (ready': set<N>, indegree': map<N, nat>)
    requires Counts(out, done, indegree) && ready == ReadyOut(out, done) && aid in ready && out[aid] <= out.Keys
    requires SourcesDone(out, done)
    ensures Counts(out, done + {aid}, indegree') && ready' == ReadyOut(out, done + {aid})
    ensures SourcesDone(out, done + {aid})
  {
    ReleaseStarts(out, aid, ready, done, indegree);
    ready', indegree' := ready - {aid}, indegree;
    var todo := out[aid];
    while todo != {}
      invariant Releasing(out, done + {aid}, todo, ready', indegree')
    {
      var nxt :| nxt in todo;
      ReleaseOne(out, done + {aid}, todo, ready', indegree', nxt);
      todo := todo - {nxt};
      indegree' := indegree'[nxt := indegree'[nxt] - 1];
      if indegree'[nxt] == 0 {
        ready' := ready' + {nxt};
      }
    }
    ReadyByCount(out, done + {aid}, indegree');
  }

  /** A batch taken from the ready actions stays ready while its members are completed one by one. */
  method CompleteAll<N(==,!new)>(out: map<N, set<N>>, selected: seq<N>, ready: set<N>, ghost done: set<N>, indegree: map<N, nat>)
    returns (ready': set<N>, indegree': map<N, nat>)
    requires Counts(out, done, indegree) && ready == ReadyOut(out, done) && SourcesDone(out, done)
    requires Elements(selected) <= ready && Distinct(selected) && forall u :: u in out ==> out[u] <= out.Keys
    ensures Counts(out, done + Elements(selected), indegree') && ready' == ReadyOut(out, done + Elements(selected))
    ensures SourcesDone(out, done + Elements(selected))
  {
    ready', indegree' := ready, indegree;
    assert done + Elements(selected[..0]) == done;
    for i := 0 to |selected|
      invariant Counts(out, done + Elements(selected[..i]), indegree') && ready' == ReadyOut(out, done + Elements(selected[..i]))
      invariant SourcesDone(out, done + Elements(selected[..i]))
    {
      StillReady(out, done, selected, i);
      ready', indegree' := Complete(out, selected[i], ready', done + Elements(selected[..i]), indegree');
      TakeNext(selected, i);
      ElementsAppend(selected[..i], selected[i]);
      assert done + Elements(selected[..i]) + {selected[i]} == done + Elements(selected[..i + 1]);
    }
    TakeAll(selected);
  }

  lemma StillReady<N(!new)>(out: map<N, set<N>>, done: set<N>, selected: seq<N>, i: nat)
    requires Elements(selected) <= ReadyOut(out, done) && Distinct(selected) && i < |selected|
    ensures selected[i] in ReadyOut(out, done + Elements(selected[..i]))
  {
    var aid := selected[i];
    assert aid in Elements(selected);
    assert Left(out, done + Elements(selected[..i]), aid) <= Left(out, done, aid);
  }

  lemma BatchInReady<N(!new)>(t: Target<N>, policy: Policy, ready: set<N>, ordered: seq<N>, batch: seq<N>)
    requires ReadyOrder(t, ready, ordered) && IsBatch(t, policy, ordered, batch)
    ensures batch != [] && Distinct(batch) && Elements(batch) <= ready
  {
    if k: nat :| RunFrom(t, policy, ordered, batch, k) {
      forall i | 0 <= i < |batch| ensures batch[i] == ordered[k + i] {}
    }
  }

  lemma RunExtend<N(!new)>(t: Target<N>, policy: Policy, batches: seq<seq<N>>, batch: seq<N>)
    requires Run(t, policy, batches) && StepOk(t, policy, Done(batches), batch)
    ensures Run(t, policy, batches + [batch])
    ensures Done(batches + [batch]) == Done(batches) + Elements(batch)
  {
    var now := batches + [batch];
    assert now[..|batches|] == batches;
    forall i | 0 <= i < |now| ensures StepOk(t, policy, Done(now[..i]), now[i]) {
      if i < |batches| { assert now[..i] == batches[..i] && StepOk(t, policy, Done(batches[..i]), batches[i]); }
    }
  }

  /** No cycle runs through what is done. */
  lemma {:induction false} DoneCycleFree<N(!new)>(t: Target<N>, policy: Policy, batches: seq<seq<N>>)
    requires Run(t, policy, batches)
    ensures CycleFree(DependencyArcs(t), Done(batches)) && Done(batches) <= t.actions.Keys
  {
    if batches != [] {
      var front, last := batches[..|batches| - 1], batches[|batches| - 1];
      assert forall i :: 0 <= i < |front| ==> front[..i] == batches[..i];
      DoneCycleFree(t, policy, front);
      assert StepOk(t, policy, Done(front), last);
      var ordered :| ReadyOrder(t, Ready(t, Done(front)), ordered) && IsBatch(t, policy, ordered, last);
      BatchInReady(t, policy, Ready(t, Done(front)), ordered, last);
      CycleFreeReady(t, Done(front), Elements(last));
    }
  }

  lemma CycleFreeReady<N(!new)>(t: Target<N>, done: set<N>, more: set<N>)
    requires CycleFree(DependencyArcs(t), done) && more <= Ready(t, done)
    ensures CycleFree(DependencyArcs(t), done + more)
  {
    var r := DependencyArcs(t);
    forall p: seq<N> | IsCycle(r, p) ensures p[0] !in done + more {
      if p[0] in more {
        CycleFreeExtend(r, done, p[0]);
      }
    }
  }

  /** Builds the batches; fails exactly when the dependencies close a cycle. `batches` is the run so far. */
  method Schedule<N(==,!new)>(t: Target<N>, policy: Policy, latency: map<N, real>) returns (outcome: Outcome<N>, ghost batches: seq<seq<N>>)
    requires WellFormed(t) && latency.Keys == t.actions.Keys
    ensures Run(t, policy, batches)
    ensures outcome.Scheduled? <==> Acyclic(DependencyArcs(t))
    ensures outcome.Scheduled? ==> outcome.batches == batches && Done(batches) == t.actions.Keys
    ensures outcome.DependencyCycle? ==> Ready(t, Done(batches)) == {} && outcome.unresolved == t.actions.Keys - Done(batches) != {}
  {
    var out, indegree := ExplicitGraph(t);
    var ready := set v | v in indegree && indegree[v] == 0;
    var done: set<N> := {};
    var plan: seq<seq<N>> := [];
    ReadyByCount(out, {}, indegree);
    ReadyOutIsReady(t, out, {});
    while |done| < |t.actions|
      invariant Run(t, policy, plan) && done == Done(plan) <= t.actions.Keys
      invariant Counts(out, done, indegree) && SourcesDone(out, done)
      invariant ready == ReadyOut(out, done) == Ready(t, done)
      decreases t.actions.Keys - done
    {
      DoneCycleFree(t, policy, plan);
      if ready == {} {
        batches := plan;
        SubsetSize(done, t.actions.Keys);
        StuckIsCyclic(t, done);
        return DependencyCycle(t.actions.Keys - done), batches;
      }
      var ordered := SortReady(t, latency, ready);
      assert forall a :: a in ordered ==> a in Elements(ordered);
      var selected := SelectBatch(t, policy, ordered);
      BatchInReady(t, policy, ready, ordered, selected);
      RunExtend(t, policy, plan, selected);
      plan := plan + [selected];
      ready, indegree := CompleteAll(out, selected, ready, done, indegree);
      ReadyOutIsReady(t, out, done + Elements(selected));
      assert selected[0] in Elements(selected);
      done := done + (set a | a in selected);
    }
    batches := plan;
    DoneCycleFree(t, policy, plan);
    SubsetSize(done, t.actions.Keys);
    CycleFreeIsAcyclic(DependencyArcs(t), done);
    return Scheduled(plan), batches;
  }

  lemma StuckIsCyclic<N(!new)>(t: Target<N>, done: set<N>)
    requires Ready(t, done) == {} && done <= t.actions.Keys && done != t.actions.Keys
    ensures !Acyclic(DependencyArcs(t)) && t.actions.Keys - done != {}
  {
    var left := t.actions.Keys - done;
    var missed :| missed in t.actions.Keys && missed !in done;
    assert missed in left;
    forall v | v in left ensures exists u :: u in left && (u, v) in DependencyArcs(t) {
      assert v !in Ready(t, done);
      var u :| (u, v) in DependencyArcs(t) && u !in done;
      assert u in left;
    }
    NoSourceHasCycle(DependencyArcs(t), left);
  }
}
