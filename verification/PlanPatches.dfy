/** What the level-1 patches do to a plan, told by its fields (optimizer/m6_trust.py `_apply_level1_patch`). */
module PlanPatches {
  import opened Contracts
  import opened Numbers
  import opened Options
  import opened PlanLayout
  import opened Sequences
  import Sorting
  import Text

  ghost predicate SameCaps(a: Plan, b: Plan) {
    a.maxParallel == b.maxParallel && a.bleParallel == b.bleParallel && a.cloudParallel == b.cloudParallel
  }

  // ----- session reuse

  ghost predicate Reuses(b: Batch) {
    b.sessionReuse != Some(false) || b.sessionMaxAge != Some(0)
  }

  ghost predicate SessionOff(before: Batch, after: Batch) {
    !Reuses(after) && after == before.(sessionReuse := after.sessionReuse, sessionMaxAge := after.sessionMaxAge)
  }

  /** Switching session reuse off leaves no batch that reuses sessions, and changes nothing else of the plan; there is
      something to change exactly when some batch does. */
  lemma SessionsOff(plan: Plan, rank: Ranks, ble: set<string>)
    ensures var after := Patched(plan, DisableSessionReuse, rank, ble);
            && SameCaps(after, plan) && |after.batches| == |plan.batches|
            && (forall i :: 0 <= i < |plan.batches| ==> SessionOff(plan.batches[i], after.batches[i]))
    ensures Changes(plan, DisableSessionReuse, rank, ble) <==> exists b :: b in plan.batches && Reuses(b)
  {
    var after := Patched(plan, DisableSessionReuse, rank, ble);
    if b :| b in plan.batches && Reuses(b) {
      var i :| 0 <= i < |plan.batches| && plan.batches[i] == b;
      assert after.batches[i] != b;
    } else {
      forall i | 0 <= i < |plan.batches| ensures after.batches[i] == plan.batches[i] { assert plan.batches[i] in plan.batches; }
      assert after.batches == plan.batches;
    }
  }

  // ----- spacing

  /** Two different BLE actions run in the batch. */
  ghost predicate SeveralBle(b: Batch, ble: set<string>) {
    exists x, y :: x in Tokens(Concat(b.groups)) && y in Tokens(Concat(b.groups)) && x != y && x in ble && y in ble
  }

  /** Rows that space the BLE actions of the batch and keep them apart; the scope names each once and no other. */
  ghost predicate SpacesBle(b: Batch, ble: set<string>, rows: seq<FallbackRow>, scope: seq<string>) {
    && Distinct(scope) && (forall id :: id in scope <==> id in Tokens(Concat(b.groups)) && id in ble)
    && FallbackRow(MinGap, scope, PreserveActionOrder, TransportSerial) in rows
    && FallbackRow(NoOverlap, scope, SerializeBle, TransportSerial) in rows
  }

  ghost predicate SpacesSomehow(b: Batch, ble: set<string>, rows: seq<FallbackRow>) {
    exists scope :: SpacesBle(b, ble, rows, scope)
  }

  const BUDGET_GUARD := Guard("BUDGET_K", [], "resource_constrained", true)

  /** `after` is `before` with a guard on the budget, at most one query a second, and, where several BLE actions run, rows
      that space them; nothing that was there is lost. */
  ghost predicate SpacedOut(before: Batch, after: Batch, ble: set<string>) {
    && after == before.(guards := after.guards, fallback := after.fallback, maxQps := after.maxQps)
    && before.guards <= after.guards && BUDGET_GUARD in after.guards && (BUDGET_GUARD in before.guards ==> after.guards == before.guards)
    && before.fallback <= after.fallback && (if SeveralBle(before, ble) then SpacesSomehow(before, ble, after.fallback) else after.fallback == before.fallback)
    && after.maxQps.Some? && after.maxQps.value <= 1.0
    && (if before.maxQps.Some? && before.maxQps.value <= 1.0 then after.maxQps == before.maxQps else after.maxQps == Some(1.0))
  }

  lemma ScopeSeveral(b: Batch, ble: set<string>)
    ensures |BleScope(b, ble)| >= 2 <==> SeveralBle(b, ble)
  {
    var scope := BleScope(b, ble);
    if |scope| >= 2 {
      assert scope[0] in scope && scope[1] in scope && scope[0] != scope[1];
    }
    if x, y :| x in Tokens(Concat(b.groups)) && y in Tokens(Concat(b.groups)) && x != y && x in ble && y in ble {
      assert x in scope && y in scope;
      var i :| 0 <= i < |scope| && scope[i] == x;
      var j :| 0 <= j < |scope| && scope[j] == y;
    }
  }

  lemma SpacedIsSpacedOut(b: Batch, ble: set<string>)
    ensures SpacedOut(b, Spaced(b, ble), ble)
  {
    var scope, after := BleScope(b, ble), Spaced(b, ble);
    ScopeSeveral(b, ble);
    if |scope| >= 2 { assert SpacesBle(b, ble, after.fallback, scope); }
  }

  /** Spacing does that to every batch, and a second time there is nothing left to change. */
  lemma SpacingDemands(plan: Plan, rank: Ranks, ble: set<string>)
    ensures var after := Patched(plan, EnforceMinGap, rank, ble);
            && SameCaps(after, plan) && |after.batches| == |plan.batches|
            && (forall i :: 0 <= i < |plan.batches| ==> SpacedOut(plan.batches[i], after.batches[i], ble))
            && !Changes(after, EnforceMinGap, rank, ble)
  {
    var after := Patched(plan, EnforceMinGap, rank, ble);
    var again := Patched(after, EnforceMinGap, rank, ble);
    forall i | 0 <= i < |plan.batches| ensures SpacedOut(plan.batches[i], after.batches[i], ble) && again.batches[i] == after.batches[i] {
      SpacedIsSpacedOut(plan.batches[i], ble);
      SpacedTwice(plan.batches[i], ble);
    }
    assert again.batches == after.batches;
  }

  lemma SpacedTwice(b: Batch, ble: set<string>)
    ensures Spaced(Spaced(b, ble), ble) == Spaced(b, ble)
  {
    assert BleScope(Spaced(b, ble), ble) == BleScope(b, ble);
  }

  // ----- parallelism

  /** Reducing parallelism lowers each limit by one, never below one, and touches only the groups of a batch. */
  lemma ReductionLowers(plan: Plan, rank: Ranks, ble: set<string>)
    ensures var after := Patched(plan, ReduceParallelism, rank, ble);
            && after.maxParallel == Max(1, plan.maxParallel - 1) && after.bleParallel == Max(1, plan.bleParallel - 1)
            && after.cloudParallel == Max(1, plan.cloudParallel - 1) && |after.batches| == |plan.batches|
            && forall i :: 0 <= i < |plan.batches| ==> after.batches[i] == plan.batches[i].(groups := after.batches[i].groups)
  {
  }

  /** `a` comes before `b`: a smaller rank, 10000 if it has none, or the same rank and the smaller name. */
  ghost predicate RankedFirst(rank: Ranks, a: string, b: string) {
    var ra, rb := if a in rank then rank[a] else 10000, if b in rank then rank[b] else 10000;
    ra < rb || (ra == rb && (a == b || Text.Less(a, b)))
  }

  lemma RankOrderIsWeak(rank: Ranks)
    ensures Sorting.WeakOrder((a: string, b: string) => RankThenId(rank, a, b))
  {
    forall a: string, b: string ensures !(Text.Less(a, b) && Text.Less(b, a)) && (Text.Less(a, b) || a == b || Text.Less(b, a)) { Text.LessTotal(a, b); }
    forall a: string, b: string, c: string | Text.Less(a, b) && Text.Less(b, c) ensures Text.Less(a, c) { Text.LessTransitive(a, b, c); }
  }

  lemma {:induction false} ChunksFull(items: seq<string>, size: nat, k: nat)
    requires size >= 1 && k + 1 < |Chunked(items, size)|
    ensures |Chunked(items, size)[k]| == size
  {
    if k > 0 { ChunksFull(items[size..], size, k - 1); }
  }

  /** A group within the cap stays as it is, blank entries aside; a larger one is sorted and cut into full chunks and a rest. */
  lemma RegroupExactly(group: seq<string>, cap: nat, rank: Ranks)
    requires cap >= 1
    ensures var ids, parts := NonBlank(group), Regroup(group, cap, rank);
            if |ids| <= cap then parts == (if ids == [] then [] else [ids])
            else
              var flat := Concat(parts);
              && multiset(flat) == multiset(ids) && (forall i, j :: 0 <= i < j < |flat| ==> RankedFirst(rank, flat[i], flat[j]))
              && (forall k :: 0 <= k < |parts| - 1 ==> |parts[k]| == cap)
  {
    var ids, less := NonBlank(group), (a: string, b: string) => RankThenId(rank, a, b);
    if |ids| > cap {
      var sorted := Sorting.Sort(ids, less);
      Sorting.SortPermutes(ids, less);
      RankOrderIsWeak(rank);
      Sorting.SortSorts(ids, less);
      forall i, j | 0 <= i < j < |sorted| ensures RankedFirst(rank, sorted[i], sorted[j]) {
        assert !less(sorted[j], sorted[i]);
        Text.LessTotal(sorted[i], sorted[j]);
      }
      forall k | 0 <= k < |Chunked(sorted, cap)| - 1 { ChunksFull(sorted, cap, k); }
    }
  }

  // ----- batching

  /** `a` is not found behind `b` in `ids`. */
  ghost predicate NotBehind(ids: seq<string>, a: string, b: string) {
    forall i, j :: 0 <= i < |ids| && 0 <= j < |ids| && ids[i] == a && ids[j] == b ==> i <= j
  }

  lemma {:induction false} LastMentionOf(ids: seq<string>, k: nat)
    requires Distinct(ids) && k < |ids|
    ensures LastMention(ids, ids[k]) == k
  {
    if ids[|ids| - 1] != ids[k] { LastMentionOf(ids[..|ids| - 1], k); }
  }

  /** Without batching, actions of one rank keep their order. */
  lemma UnbatchedIsStable(plan: Plan, rank: Ranks, ble: set<string>, i: nat, j: nat)
    requires |Order(plan.batches)| > 1 && Distinct(Order(plan.batches))
    requires i < j < |Order(Patched(plan, DisableBatching, rank, ble).batches)|
    ensures var ids, after := Order(plan.batches), Order(Patched(plan, DisableBatching, rank, ble).batches);
            RankOf(rank, after[i]) < RankOf(rank, after[j]) || (RankOf(rank, after[i]) == RankOf(rank, after[j]) && NotBehind(ids, after[i], after[j]))
  {
    var ids := Order(plan.batches);
    var sorted, less := ByRank(ids, rank), (a: string, b: string) => RankThenPosition(rank, ids, a, b);
    UnbatchedOrder(plan, rank);
    PositionOrderIsWeak(rank, ids);
    Sorting.SortSorts(ids, less);
    assert !less(sorted[j], sorted[i]);
    forall k | 0 <= k < |ids| ensures LastMention(ids, ids[k]) == k { LastMentionOf(ids, k); }
  }

  lemma PositionOrderIsWeak(rank: Ranks, ids: seq<string>)
    ensures Sorting.WeakOrder((a: string, b: string) => RankThenPosition(rank, ids, a, b))
  {
  }
}
