/** Execution layout of a plan and the level-1 plan patches (optimizer/m6_trust.py `_group_execution_layout`,
    `_plan_execution_order`, `_chunked`, `_apply_level1_patch`). */
module PlanLayout {
  import opened Contracts
  import opened Numbers
  import opened Options
  import opened Sequences
  import Sorting
  import Text

  datatype Mode = PreserveActionOrder | ForceTopologicalOrder | ForcePick | SerializeBle | OtherMode(name: string)

  datatype RowReason = NoReason | TransportSerial | OtherReason(text: string)

  datatype FallbackRow = FallbackRow(kind: SoftKind, scope: seq<string>, mode: Mode, reason: RowReason)

  datatype Guard = Guard(kind: string, scope: seq<string>, expr: string, enforced: bool)

  /** `Numbered` stands for the name made of a position with three digits. */
  datatype BatchId = Given(name: string) | Numbered(position: nat)

  /** Entries of the session and rate policies are `None` where they are absent. */
  datatype Batch = Batch(id: BatchId, groups: seq<seq<string>>, sessionReuse: Option<bool>, sessionMaxAge: Option<int>, maxQps: Option<real>,
    batchSize: int, guards: seq<Guard>, fallback: seq<FallbackRow>)

  datatype Plan = Plan(batches: seq<Batch>, maxParallel: int, bleParallel: int, cloudParallel: int)

  // ----- layout of a group

  predicate Blank(id: string) {
    Text.Strip(id) == ""
  }

  ghost predicate IsToken(id: string) {
    id != "" && Text.Strip(id) == id
  }

  /** The ids that are not blank, stripped. */
  function Tokens(ids: seq<string>): (tokens: seq<string>)
    ensures forall t :: t in tokens ==> IsToken(t)
  {
    if ids == [] then []
    else
      var front, last := Tokens(ids[..|ids| - 1]), ids[|ids| - 1];
      assert ids == ids[..|ids| - 1] + [last];
      if Blank(last) then front else front + [Text.Strip(last)]
  }

  predicate Touches(scope: seq<string>, group: seq<string>) {
    exists id :: id in scope && id in group
  }

  function RowsFor(group: seq<string>, rows: seq<FallbackRow>): seq<FallbackRow> {
    Filter(rows, (row: FallbackRow) => row.scope == [] || Touches(row.scope, group))
  }

  predicate KeepsOrder(group: seq<string>, rows: seq<FallbackRow>) {
    exists row :: row in rows && (row.mode == PreserveActionOrder || row.mode == ForceTopologicalOrder) && (row.scope == [] || Touches(row.scope, group))
  }

  /** The row makes `id` run serially: it names it, or none of the group. */
  predicate Serializes(row: FallbackRow, group: seq<string>, id: string) {
    (row.mode == PreserveActionOrder || row.mode == ForcePick) && (id in row.scope || !Touches(row.scope, group))
  }

  predicate RunsSerially(group: seq<string>, rows: seq<FallbackRow>, id: string) {
    exists row :: row in rows && Serializes(row, group, id)
  }

  /** The parallel part and the serial part of a group, each in the order of the group. */
  datatype Layout = Layout(parallel: seq<string>, serial: seq<string>)

  function GroupLayout(batch: Batch, group: seq<string>): Layout {
    var rows := RowsFor(group, batch.fallback);
    if KeepsOrder(group, rows) then Layout([], group)
    else Layout(Filter(group, (id: string) => !RunsSerially(group, rows, id)), Filter(group, (id: string) => RunsSerially(group, rows, id)))
  }

  lemma LayoutPermutes(batch: Batch, group: seq<string>)
    ensures multiset(GroupLayout(batch, group).parallel) + multiset(GroupLayout(batch, group).serial) == multiset(group)
  {
    var rows := RowsFor(group, batch.fallback);
    FilterPartitions(group, (id: string) => !RunsSerially(group, rows, id), (id: string) => RunsSerially(group, rows, id));
  }

  // ----- execution order

  ghost function GroupOrder(batch: Batch, group: seq<string>): seq<string> {
    var l := GroupLayout(batch, Tokens(group));
    l.parallel + l.serial
  }

  ghost function GroupsOrder(batch: Batch, groups: seq<seq<string>>): seq<string> {
    if groups == [] then [] else GroupsOrder(batch, groups[..|groups| - 1]) + GroupOrder(batch, groups[|groups| - 1])
  }

  ghost function Order(batches: seq<Batch>): seq<string> {
    if batches == [] then []
    else Order(batches[..|batches| - 1]) + GroupsOrder(batches[|batches| - 1], batches[|batches| - 1].groups)
  }

  method GroupExecutionOrder(batch: Batch, group: seq<string>) returns (ordered: seq<string>)
    ensures ordered == GroupOrder(batch, group)
  {
    var tokens := Tokens(group);
    if tokens == [] {
      EmptyGroupOrder(batch, group);
      return [];
    }
    var layout := GroupLayout(batch, tokens);
    ordered := layout.parallel;
    ordered := ordered + layout.serial;
  }

  lemma GroupsOrderNext(batch: Batch, groups: seq<seq<string>>, j: nat)
    requires j < |groups|
    ensures GroupsOrder(batch, groups[..j + 1]) == GroupsOrder(batch, groups[..j]) + GroupOrder(batch, groups[j])
  {
    assert groups[..j + 1][..j] == groups[..j];
  }

  method BatchExecutionOrder(batch: Batch) returns (ordered: seq<string>)
    ensures ordered == GroupsOrder(batch, batch.groups)
  {
    ordered := [];
    for j := 0 to |batch.groups|
      invariant ordered == GroupsOrder(batch, batch.groups[..j])
    {
      var part := GroupExecutionOrder(batch, batch.groups[j]);
      GroupsOrderNext(batch, batch.groups, j);
      ordered := ordered + part;
    }
    assert batch.groups[..|batch.groups|] == batch.groups;
  }

  lemma GroupNext(batch: Batch, groups: seq<seq<string>>, group: seq<string>)
    ensures GroupsOrder(batch, groups + [group]) == GroupsOrder(batch, groups) + GroupOrder(batch, group)
  {
    assert (groups + [group])[..|groups|] == groups;
  }

  /** Groups of a batch run one after the other. */
  lemma {:induction false} GroupsInOrder(batch: Batch, a: seq<seq<string>>, b: seq<seq<string>>)
    ensures GroupsOrder(batch, a + b) == GroupsOrder(batch, a) + GroupsOrder(batch, b)
  {
    if b == [] {
      assert a + b == a;
    } else {
      var front, last := b[..|b| - 1], b[|b| - 1];
      PlusAssociates(a, front, [last]);
      assert front + [last] == b;
      GroupsInOrder(batch, a, front);
      GroupNext(batch, a + front, last);
      GroupNext(batch, front, last);
      PlusAssociates(GroupsOrder(batch, a), GroupsOrder(batch, front), GroupOrder(batch, last));
    }
  }

  lemma BatchNext(batches: seq<Batch>, b: Batch)
    ensures Order(batches + [b]) == Order(batches) + GroupsOrder(b, b.groups)
  {
    assert (batches + [b])[..|batches|] == batches;
  }

  /** And so do batches. */
  lemma {:induction false} BatchesInOrder(a: seq<Batch>, b: seq<Batch>)
    ensures Order(a + b) == Order(a) + Order(b)
  {
    if b == [] {
      assert a + b == a;
    } else {
      var front, last := b[..|b| - 1], b[|b| - 1];
      PlusAssociates(a, front, [last]);
      assert front + [last] == b;
      BatchesInOrder(a, front);
      BatchNext(a + front, last);
      BatchNext(front, last);
      PlusAssociates(Order(a), Order(front), GroupsOrder(last, last.groups));
    }
  }

  lemma EmptyGroupOrder(batch: Batch, group: seq<string>)
    requires Tokens(group) == []
    ensures GroupOrder(batch, group) == []
  {
    LayoutPermutes(batch, []);
    assert multiset(GroupOrder(batch, group)) == multiset{};
    assert |multiset(GroupOrder(batch, group))| == |GroupOrder(batch, group)|;
  }

  method PlanExecutionOrder(plan: Plan) returns (ordered: seq<string>)
    ensures ordered == Order(plan.batches)
  {
    ordered := [];
    for i := 0 to |plan.batches|
      invariant ordered == Order(plan.batches[..i])
    {
      var part := BatchExecutionOrder(plan.batches[i]);
      ordered := ordered + part;
      assert plan.batches[..i + 1][..i] == plan.batches[..i];
    }
    assert plan.batches[..|plan.batches|] == plan.batches;
  }

  /** All actions of a plan as listed, batch by batch. */
  ghost function Listed(batches: seq<Batch>): seq<string> {
    if batches == [] then [] else Listed(batches[..|batches| - 1]) + Tokens(Concat(batches[|batches| - 1].groups))
  }

  lemma {:induction false} TokensAppend(a: seq<string>, b: seq<string>)
    ensures Tokens(a + b) == Tokens(a) + Tokens(b)
  {
    if b == [] {
      assert a + b == a;
    } else {
      assert (a + b)[..|a + b| - 1] == a + b[..|b| - 1];
      TokensAppend(a, b[..|b| - 1]);
    }
  }

  lemma {:induction false} GroupsOrderPermutes(batch: Batch, groups: seq<seq<string>>)
    ensures multiset(GroupsOrder(batch, groups)) == multiset(Tokens(Concat(groups)))
  {
    if groups != [] {
      var front, last := groups[..|groups| - 1], groups[|groups| - 1];
      GroupsOrderPermutes(batch, front);
      LayoutPermutes(batch, Tokens(last));
      TokensAppend(Concat(front), last);
    }
  }

  /** The execution order is a permutation of the plan's actions. */
  lemma {:induction false} OrderPermutes(batches: seq<Batch>)
    ensures multiset(Order(batches)) == multiset(Listed(batches))
  {
    if batches != [] {
      OrderPermutes(batches[..|batches| - 1]);
      GroupsOrderPermutes(batches[|batches| - 1], batches[|batches| - 1].groups);
    }
  }

  // ----- level-1 strategies

  datatype Strategy = ReduceParallelism | DisableSessionReuse | DisableBatching | EnforceMinGap

  /** Position of each action in the routine; 10000 when unknown. */
  type Ranks = map<string, int>

  function RankOf(rank: Ranks, id: string): int {
    if id in rank then rank[id] else 10000
  }

  predicate RankThenId(rank: Ranks, a: string, b: string) {
    RankOf(rank, a) < RankOf(rank, b) || (RankOf(rank, a) == RankOf(rank, b) && Text.Less(a, b))
  }

  function Chunked(items: seq<string>, size: nat): (chunks: seq<seq<string>>)
    requires size >= 1
    ensures Concat(chunks) == items
    ensures forall c :: c in chunks ==> 0 < |c| <= size
  {
    if items == [] then []
    else if |items| <= size then
      assert [items][..0] == [];
      [items]
    else
      var rest := Chunked(items[size..], size);
      ConcatAppend([items[..size]], rest);
      assert [items[..size]][..0] == [] && items == items[..size] + items[size..];
      [items[..size]] + rest
  }

  function Lowered(limit: int): int {
    if limit > 1 then Max(1, limit - 1) else 1
  }

  function NonBlank(ids: seq<string>): seq<string> {
    Filter(ids, (id: string) => !Blank(id))
  }

  /** A group that is too large is sorted and cut into chunks. */
  function Regroup(group: seq<string>, cap: nat, rank: Ranks): seq<seq<string>>
    requires cap >= 1
  {
    var ordered := NonBlank(group);
    if ordered == [] then []
    else if |ordered| <= cap then [ordered]
    else Chunked(Sorting.Sort(ordered, (a: string, b: string) => RankThenId(rank, a, b)), cap)
  }

  function RegroupAll(groups: seq<seq<string>>, cap: nat, rank: Ranks): seq<seq<string>>
    requires cap >= 1
  {
    if groups == [] then [] else RegroupAll(groups[..|groups| - 1], cap, rank) + Regroup(groups[|groups| - 1], cap, rank)
  }

  function Regrouped(batch: Batch, cap: nat, rank: Ranks): Batch
    requires cap >= 1
  {
    var groups := RegroupAll(batch.groups, cap, rank);
    if groups == [] then batch else batch.(groups := groups)
  }

  /** No id that is not blank gets lost in regrouping, and no group exceeds the cap. */
  lemma RegroupConserves(group: seq<string>, cap: nat, rank: Ranks)
    requires cap >= 1
    ensures multiset(Concat(Regroup(group, cap, rank))) == multiset(NonBlank(group))
    ensures forall g :: g in Regroup(group, cap, rank) ==> 0 < |g| <= cap
  {
    var ordered, less := NonBlank(group), (a: string, b: string) => RankThenId(rank, a, b);
    assert [ordered][..0] == [];
    Sorting.SortPermutes(ordered, less);
  }

  lemma {:induction false} NonBlankAppend(a: seq<string>, b: seq<string>)
    ensures NonBlank(a + b) == NonBlank(a) + NonBlank(b)
  {
    if b == [] {
      assert a + b == a;
    } else {
      assert (a + b)[..|a + b| - 1] == a + b[..|b| - 1];
      NonBlankAppend(a, b[..|b| - 1]);
    }
  }

  lemma {:induction false} RegroupAllConserves(groups: seq<seq<string>>, cap: nat, rank: Ranks)
    requires cap >= 1
    ensures multiset(Concat(RegroupAll(groups, cap, rank))) == multiset(NonBlank(Concat(groups)))
    ensures forall g :: g in RegroupAll(groups, cap, rank) ==> 0 < |g| <= cap
  {
    if groups != [] {
      var front, last := groups[..|groups| - 1], groups[|groups| - 1];
      RegroupAllConserves(front, cap, rank);
      RegroupConserves(last, cap, rank);
      ConcatAppend(RegroupAll(front, cap, rank), Regroup(last, cap, rank));
      NonBlankAppend(Concat(front), last);
    }
  }

  lemma {:induction false} TokensWithout(t: seq<string>, k: nat)
    requires k < |t|
    ensures multiset(Tokens(t)) == multiset(Tokens(t[..k] + t[k + 1..])) + multiset(Tokens([t[k]]))
  {
    TokensAppend(t[..k], [t[k]]);
    TokensAppend(t[..k] + [t[k]], t[k + 1..]);
    TokensAppend(t[..k], t[k + 1..]);
    assert t == t[..k] + [t[k]] + t[k + 1..];
  }

  lemma {:induction false} TokensPermute(s: seq<string>, t: seq<string>)
    requires multiset(s) == multiset(t)
    ensures multiset(Tokens(s)) == multiset(Tokens(t))
  {
    assert |s| == |multiset(s)| == |multiset(t)| == |t|;
    if s != [] {
      var n := |s| - 1;
      Sorting.WithoutOne(s, n);
      assert s[..n] + s[n + 1..] == s[..n];
      var k :| 0 <= k < |t| && t[k] == s[n];
      Sorting.WithoutOne(t, k);
      TokensPermute(s[..n], t[..k] + t[k + 1..]);
      TokensWithout(s, n);
      TokensWithout(t, k);
    }
  }

  lemma {:induction false} TokensOfNonBlank(ids: seq<string>)
    ensures Tokens(NonBlank(ids)) == Tokens(ids)
  {
    if ids != [] {
      var front, last := ids[..|ids| - 1], ids[|ids| - 1];
      TokensOfNonBlank(front);
      if !Blank(last) {
        assert NonBlank(ids)[..|NonBlank(front)|] == NonBlank(front);
      }
    }
  }

  lemma RegroupedTokens(batch: Batch, cap: nat, rank: Ranks)
    requires cap >= 1
    ensures multiset(Tokens(Concat(Regrouped(batch, cap, rank).groups))) == multiset(Tokens(Concat(batch.groups)))
  {
    var groups := RegroupAll(batch.groups, cap, rank);
    if groups != [] {
      RegroupAllConserves(batch.groups, cap, rank);
      TokensPermute(Concat(groups), NonBlank(Concat(batch.groups)));
      TokensOfNonBlank(Concat(batch.groups));
    }
  }

  // ----- the patched plans

  ghost function MapBatches(batches: seq<Batch>, f: Batch -> Batch): (r: seq<Batch>)
    ensures |r| == |batches| && forall i :: 0 <= i < |r| ==> r[i] == f(batches[i])
  {
    seq(|batches|, i requires 0 <= i < |batches| => f(batches[i]))
  }

  lemma {:induction false} MapKeepsListed(batches: seq<Batch>, f: Batch -> Batch)
    requires forall b :: b in batches ==> multiset(Tokens(Concat(f(b).groups))) == multiset(Tokens(Concat(b.groups)))
    ensures multiset(Listed(MapBatches(batches, f))) == multiset(Listed(batches))
  {
    if batches != [] {
      MapKeepsListed(batches[..|batches| - 1], f);
      assert MapBatches(batches, f)[..|batches| - 1] == MapBatches(batches[..|batches| - 1], f);
      assert batches[|batches| - 1] in batches;
    }
  }

  ghost function ReducedPlan(plan: Plan, rank: Ranks): Plan {
    var cap := Lowered(plan.maxParallel);
    Plan(MapBatches(plan.batches, (b: Batch) => Regrouped(b, cap, rank)), cap, Lowered(plan.bleParallel), Lowered(plan.cloudParallel))
  }

  function WithoutSession(b: Batch): Batch {
    b.(sessionReuse := Some(false), sessionMaxAge := Some(0))
  }

  const SERIAL_FALLBACK := [FallbackRow(MinGap, [], PreserveActionOrder, NoReason), FallbackRow(NoOverlap, [], SerializeBle, NoReason)]

  /** A batch that runs one action alone. */
  function Single(position: nat, action: string): Batch {
    Batch(Numbered(position), [[action]], Some(false), Some(0), Some(1.0), 1, [], SERIAL_FALLBACK)
  }

  ghost function Singles(actions: seq<string>): (r: seq<Batch>)
    ensures |r| == |actions| && forall i :: 0 <= i < |r| ==> r[i] == Single(i, actions[i])
  {
    seq(|actions|, i requires 0 <= i < |actions| => Single(i, actions[i]))
  }

  /** Position of the last mention; 10000 when there is none. */
  function LastMention(ids: seq<string>, id: string): int {
    if ids == [] then 10000 else if ids[|ids| - 1] == id then |ids| - 1 else LastMention(ids[..|ids| - 1], id)
  }

  predicate RankThenPosition(rank: Ranks, ids: seq<string>, a: string, b: string) {
    RankOf(rank, a) < RankOf(rank, b) || (RankOf(rank, a) == RankOf(rank, b) && LastMention(ids, a) < LastMention(ids, b))
  }

  function ByRank(ids: seq<string>, rank: Ranks): seq<string> {
    Sorting.Sort(ids, (a: string, b: string) => RankThenPosition(rank, ids, a, b))
  }

  /** One batch for each action, in order of rank. */
  ghost function UnbatchedPlan(plan: Plan, rank: Ranks): Plan {
    var ids := Order(plan.batches);
    if |ids| > 1 then plan.(batches := Singles(ByRank(ids, rank))) else plan
  }

  function AppendRow(rows: seq<FallbackRow>, row: FallbackRow): seq<FallbackRow> {
    if row in rows then rows else rows + [row]
  }

  function AppendGuard(guards: seq<Guard>, g: Guard): seq<Guard> {
    if g in guards then guards else guards + [g]
  }

  /** The BLE actions of a batch. */
  function BleScope(b: Batch, ble: set<string>): (scope: seq<string>)
    ensures Distinct(scope) && forall id :: id in scope <==> id in Tokens(Concat(b.groups)) && id in ble
  {
    Unique(Filter(Tokens(Concat(b.groups)), (id: string) => id in ble))
  }

  function MinReal(a: real, b: real): real {
    if a <= b then a else b
  }

  function Spaced(b: Batch, ble: set<string>): Batch {
    var scope := BleScope(b, ble);
    var rows := if |scope| >= 2
      then AppendRow(AppendRow(b.fallback, FallbackRow(MinGap, scope, PreserveActionOrder, TransportSerial)),
                     FallbackRow(NoOverlap, scope, SerializeBle, TransportSerial))
      else b.fallback;
    b.(guards := AppendGuard(b.guards, Guard("BUDGET_K", [], "resource_constrained", true)), fallback := rows, maxQps := Some(MinReal(if b.maxQps == None then 5.0 else b.maxQps.value, 1.0)))
  }

  /** The plan after a strategy. */
  ghost function Patched(plan: Plan, strategy: Strategy, rank: Ranks, ble: set<string>): Plan {
    match strategy
    case ReduceParallelism => ReducedPlan(plan, rank)
    case DisableSessionReuse => plan.(batches := MapBatches(plan.batches, WithoutSession))
    case DisableBatching => UnbatchedPlan(plan, rank)
    case EnforceMinGap => plan.(batches := MapBatches(plan.batches, (b: Batch) => Spaced(b, ble)))
  }

  /** The strategy has something to change; unbatching counts as a change whenever there are two actions. */
  ghost predicate Changes(plan: Plan, strategy: Strategy, rank: Ranks, ble: set<string>) {
    if strategy == DisableBatching then |Order(plan.batches)| > 1 else Patched(plan, strategy, rank, ble) != plan
  }

  method RewriteBatches(batches: seq<Batch>, f: Batch -> Batch) returns (rewritten: seq<Batch>, changed: bool)
    ensures rewritten == MapBatches(batches, f) && changed == (rewritten != batches)
  {
    rewritten, changed := [], false;
    for i := 0 to |batches|
      invariant rewritten == MapBatches(batches[..i], f) && changed == (rewritten != batches[..i])
    {
      var before, after := batches[i], f(batches[i]);
      assert batches[..i + 1] == batches[..i] + [batches[i]];
      if before != after { changed := true; }
      rewritten := rewritten + [after];
      assert rewritten[..i] == MapBatches(batches[..i], f) && rewritten[i] == after;
    }
    assert batches[..|batches|] == batches;
  }

  method UnbatchPlan(plan: Plan, rank: Ranks) returns (patched: Plan, changed: bool)
    ensures changed == (|Order(plan.batches)| > 1) && patched == UnbatchedPlan(plan, rank)
  {
    var ids := PlanExecutionOrder(plan);
    patched, changed := plan, false;
    if |ids| > 1 {
      var sorted := ByRank(ids, rank);
      var batches: seq<Batch> := [];
      for i := 0 to |sorted|
        invariant batches == Singles(sorted)[..i]
      {
        batches := batches + [Single(i, sorted[i])];
      }
      patched, changed := plan.(batches := batches), true;
    }
  }

  /** Applies a level-1 strategy; the plan stays when nothing changes. */
  method ApplyLevel1(plan: Plan, strategy: Strategy, rank: Ranks, ble: set<string>) returns (patched: Plan, changed: bool)
    ensures changed == Changes(plan, strategy, rank, ble)
    ensures patched == if changed then Patched(plan, strategy, rank, ble) else plan
  {
    match strategy
    case ReduceParallelism =>
      var total, bleParallel, cloudParallel := Lowered(plan.maxParallel), Lowered(plan.bleParallel), Lowered(plan.cloudParallel);
      var batches, regrouped := RewriteBatches(plan.batches, (b: Batch) => Regrouped(b, total, rank));
      changed := regrouped || total != plan.maxParallel || bleParallel != plan.bleParallel || cloudParallel != plan.cloudParallel;
      patched := Plan(batches, total, bleParallel, cloudParallel);
    case DisableSessionReuse =>
      var batches, rewritten := RewriteBatches(plan.batches, WithoutSession);
      changed, patched := rewritten, plan.(batches := batches);
    case DisableBatching =>
      patched, changed := UnbatchPlan(plan, rank);
    case EnforceMinGap =>
      var batches, rewritten := RewriteBatches(plan.batches, (b: Batch) => Spaced(b, ble));
      changed, patched := rewritten, plan.(batches := batches);
  }

  // ----- what the patches keep

  lemma SingleIsSerial(position: nat, action: string)
    requires IsToken(action)
    ensures Tokens([action]) == [action] && GroupLayout(Single(position, action), [action]) == Layout([], [action])
  {
    var b := Single(position, action);
    assert [action][..0] == [];
    assert b.fallback[0] in b.fallback;
    assert b.fallback[0] in RowsFor([action], b.fallback);
  }

  lemma SingleOrder(position: nat, action: string)
    requires IsToken(action)
    ensures GroupsOrder(Single(position, action), Single(position, action).groups) == [action]
  {
    SingleIsSerial(position, action);
    assert [[action]][..0] == [];
  }

  lemma SinglesNext(actions: seq<string>, n: nat)
    requires n + 1 == |actions|
    ensures Singles(actions) == Singles(actions[..n]) + [Single(n, actions[n])]
  {
  }

  lemma {:induction false} SinglesOrder(actions: seq<string>)
    requires forall i :: 0 <= i < |actions| ==> IsToken(actions[i])
    ensures Order(Singles(actions)) == actions
  {
    if actions != [] {
      var n := |actions| - 1;
      SinglesOrder(actions[..n]);
      SinglesNext(actions, n);
      SingleOrder(n, actions[n]);
      BatchNext(Singles(actions[..n]), Single(n, actions[n]));
      assert actions == actions[..n] + [actions[n]];
    }
  }

  lemma {:induction false} OrderHoldsTokens(batches: seq<Batch>)
    ensures forall a :: a in Order(batches) ==> IsToken(a)
  {
    if batches != [] {
      OrderHoldsTokens(batches[..|batches| - 1]);
      var b := batches[|batches| - 1];
      GroupsOrderPermutes(b, b.groups);
      forall a | a in GroupsOrder(b, b.groups) ensures IsToken(a) {
        assert a in multiset(GroupsOrder(b, b.groups));
        assert a in Tokens(Concat(b.groups));
      }
    }
  }

  lemma RankOrderIsWeak(rank: Ranks, ids: seq<string>)
    ensures Sorting.WeakOrder((a: string, b: string) => RankThenPosition(rank, ids, a, b))
  {
  }

  lemma RanksAscend(ids: seq<string>, rank: Ranks)
    ensures multiset(ByRank(ids, rank)) == multiset(ids)
    ensures forall i, j :: 0 <= i < j < |ByRank(ids, rank)| ==> RankOf(rank, ByRank(ids, rank)[i]) <= RankOf(rank, ByRank(ids, rank)[j])
  {
    var less := (a: string, b: string) => RankThenPosition(rank, ids, a, b);
    var sorted := ByRank(ids, rank);
    Sorting.SortPermutes(ids, less);
    RankOrderIsWeak(rank, ids);
    Sorting.SortSorts(ids, less);
    forall i, j | 0 <= i < j < |sorted| ensures RankOf(rank, sorted[i]) <= RankOf(rank, sorted[j]) {
      assert !less(sorted[j], sorted[i]);
    }
  }

  /** Without batching the plan runs its actions sorted by rank. */
  lemma UnbatchedOrder(plan: Plan, rank: Ranks)
    requires |Order(plan.batches)| > 1
    ensures Order(UnbatchedPlan(plan, rank).batches) == ByRank(Order(plan.batches), rank)
    ensures forall i :: 0 <= i < |ByRank(Order(plan.batches), rank)| ==> IsToken(ByRank(Order(plan.batches), rank)[i])
  {
    var ids := Order(plan.batches);
    var sorted := ByRank(ids, rank);
    OrderHoldsTokens(plan.batches);
    RanksAscend(ids, rank);
    forall i | 0 <= i < |sorted| ensures IsToken(sorted[i]) {
      assert sorted[i] in multiset(sorted);
      assert sorted[i] in ids;
    }
    SinglesOrder(sorted);
  }

  /** Without batching every batch runs one action and runs it serially. */
  lemma UnbatchedIsSerial(plan: Plan, rank: Ranks, b: Batch)
    requires |Order(plan.batches)| > 1 && b in UnbatchedPlan(plan, rank).batches
    ensures |b.groups| == 1 && |b.groups[0]| == 1 && GroupLayout(b, Tokens(b.groups[0])) == Layout([], b.groups[0])
  {
    var sorted := ByRank(Order(plan.batches), rank);
    UnbatchedOrder(plan, rank);
    var i :| 0 <= i < |sorted| && b == Single(i, sorted[i]);
    SingleIsSerial(i, sorted[i]);
  }

  /** No level-1 strategy loses or repeats an action. */
  lemma ActionsConserved(plan: Plan, strategy: Strategy, rank: Ranks, ble: set<string>)
    ensures multiset(Order(Patched(plan, strategy, rank, ble).batches)) == multiset(Order(plan.batches))
  {
    OrderPermutes(plan.batches);
    OrderPermutes(Patched(plan, strategy, rank, ble).batches);
    match strategy
    case ReduceParallelism =>
      var cap := Lowered(plan.maxParallel);
      forall b | b in plan.batches { RegroupedTokens(b, cap, rank); }
      MapKeepsListed(plan.batches, (b: Batch) => Regrouped(b, cap, rank));
    case DisableSessionReuse =>
      MapKeepsListed(plan.batches, WithoutSession);
    case DisableBatching =>
      if |Order(plan.batches)| > 1 { UnbatchedOrder(plan, rank); RanksAscend(Order(plan.batches), rank); }
    case EnforceMinGap =>
      MapKeepsListed(plan.batches, (b: Batch) => Spaced(b, ble));
  }

  /** Reducing parallelism leaves no group above the new cap, unless all ids of the batch are blank. */
  lemma GroupsWithinCap(plan: Plan, rank: Ranks, i: nat)
    requires i < |plan.batches|
    ensures var b := ReducedPlan(plan, rank).batches[i];
            NonBlank(Concat(plan.batches[i].groups)) == [] || forall g :: g in b.groups ==> 0 < |g| <= Max(1, plan.maxParallel - 1)
  {
    var cap := Lowered(plan.maxParallel);
    RegroupAllConserves(plan.batches[i].groups, cap, rank);
    if RegroupAll(plan.batches[i].groups, cap, rank) == [] {
      assert multiset(NonBlank(Concat(plan.batches[i].groups))) == multiset{};
      assert |multiset(NonBlank(Concat(plan.batches[i].groups)))| == 0;
    }
  }

  /** After spacing, no action of a batch with several BLE actions that runs in parallel is one of them. */
  lemma BleRunsSerially(b: Batch, ble: set<string>, group: seq<string>)
    requires group in b.groups && |BleScope(b, ble)| >= 2
    ensures forall id :: id in GroupLayout(Spaced(b, ble), Tokens(group)).parallel ==> id !in ble
  {
    var after, tokens := Spaced(b, ble), Tokens(group);
    var row := FallbackRow(MinGap, BleScope(b, ble), PreserveActionOrder, TransportSerial);
    assert row in after.fallback;
    if id :| id in tokens && id in ble {
      TokensInConcat(b.groups, group, id);
      assert Touches(row.scope, tokens);
      assert row in RowsFor(tokens, after.fallback);
    }
    LayoutPermutes(after, tokens);
    forall id | id in GroupLayout(after, tokens).parallel ensures id in tokens {
      assert id in multiset(GroupLayout(after, tokens).parallel);
      assert id in multiset(tokens);
    }
  }

  lemma {:induction false} TokensInConcat(groups: seq<seq<string>>, group: seq<string>, id: string)
    requires group in groups && id in Tokens(group)
    ensures id in Tokens(Concat(groups))
  {
    var front, last := groups[..|groups| - 1], groups[|groups| - 1];
    assert groups == front + [last];
    TokensAppend(Concat(front), last);
    if group != last { TokensInConcat(front, group, id); }
  }
}
