/** Choice of the corridors in a plan and the plan-level saving (optimizer/ble_micro_refinement.py
    `estimate_plan_latency_ms`, `_select_corridors`, `refine_case`). */
module BlePlan {
  import opened BlePhases
  import opened Numbers
  import opened BleCorridor
  import opened BleValidator
  import opened BleTheorems
  import opened BleRefiner
  import opened Timelines
  import opened Sequences
  import Sorting
  import Text

  datatype Protocol = BleLane | CloudLane | LocalLane | HaLane | OtherLane

  datatype ProfileClass = SessionChain | ReadLike | ControlLike | Generic

  /** An action of the plan; `cost` is its estimated latency and `ble` its description for the refiner. */
  datatype PlanAction = PlanAction(protocol: Protocol, cost: int, runtimeTransport: bool, profileClass: ProfileClass, ble: Action)

  datatype Batch = Batch(id: string, groups: seq<seq<string>>)

  ghost predicate Priced(actions: map<string, PlanAction>) {
    forall a :: a in actions ==> actions[a].cost >= 0 && (actions[a].protocol == BleLane ==> actions[a].cost == LatencyMs(actions[a].ble.kind))
  }

  // ----- estimated latency

  function KnownOf(group: seq<string>, actions: map<string, PlanAction>): (known: seq<PlanAction>)
    ensures forall a :: a in known ==> exists id :: id in actions && actions[id] == a
  {
    if group == [] then []
    else
      var front, last := KnownOf(group[..|group| - 1], actions), group[|group| - 1];
      if last in actions then front + [actions[last]] else front
  }

  function SumCost(known: seq<PlanAction>): int {
    if known == [] then 0 else SumCost(known[..|known| - 1]) + known[|known| - 1].cost
  }

  function MaxCost(known: seq<PlanAction>): int
    requires known != []
  {
    if |known| == 1 then known[0].cost else Max(MaxCost(known[..|known| - 1]), known[|known| - 1].cost)
  }

  predicate AllOn(known: seq<PlanAction>, lane: Protocol) {
    forall a :: a in known ==> a.protocol == lane
  }

  /** BLE runs serially; the other lanes overlap with a penalty for each further action. */
  function GroupLatency(group: seq<string>, actions: map<string, PlanAction>): int {
    var known := KnownOf(group, actions);
    if known == [] then 0
    else if AllOn(known, BleLane) then SumCost(known)
    else if AllOn(known, LocalLane) then MaxCost(known) + Max(0, 20 * (|known| - 1))
    else if AllOn(known, HaLane) then MaxCost(known) + Max(0, 10 * (|known| - 1))
    else if AllOn(known, CloudLane) then MaxCost(known) + Max(0, 120 * (|known| - 1))
    else MaxCost(known)
  }

  function GroupsLatency(groups: seq<seq<string>>, actions: map<string, PlanAction>): int {
    if groups == [] then 0
    else if |groups| == 1 then GroupLatency(groups[0], actions)
    else Max(GroupsLatency(groups[..|groups| - 1], actions), GroupLatency(groups[|groups| - 1], actions))
  }

  /** The cost of the dearest known action, as the batch's actions go. */
  ghost predicate Dearest(known: seq<PlanAction>, cost: int) {
    (forall a :: a in known ==> a.cost <= cost) && exists a :: a in known && a.cost == cost
  }

  lemma {:induction false} MaxCostIsDearest(known: seq<PlanAction>)
    requires known != []
    ensures Dearest(known, MaxCost(known))
  {
    var front, last := known[..|known| - 1], known[|known| - 1];
    assert known == front + [last];
    if front != [] {
      MaxCostIsDearest(front);
      var a :| a in front && a.cost == MaxCost(front);
      assert a in known;
    }
    assert last in known;
  }

  /** A group of BLE actions takes the sum of their costs; any other takes the cost of its dearest action, and for each
      further action of a group on one lane 20 (local), 10 (Home Assistant) or 120 ms (cloud) more. */
  lemma LaneLatency(group: seq<string>, actions: map<string, PlanAction>, lane: Protocol, cost: int)
    requires var known := KnownOf(group, actions); known != [] && Dearest(known, cost)
    ensures var known, latency := KnownOf(group, actions), GroupLatency(group, actions);
            if AllOn(known, lane) then
              match lane
              case BleLane => latency == SumCost(known)
              case LocalLane => latency == cost + 20 * (|known| - 1)
              case HaLane => latency == cost + 10 * (|known| - 1)
              case CloudLane => latency == cost + 120 * (|known| - 1)
              case _ => latency == cost
            else (exists a, b :: a in known && b in known && a.protocol != b.protocol) ==> latency == cost
  {
    var known := KnownOf(group, actions);
    MaxCostIsDearest(known);
    assert known[0] in known;
  }

  /** A batch takes as long as its slowest group, and nothing without groups. */
  lemma {:induction false} SlowestGroup(groups: seq<seq<string>>, actions: map<string, PlanAction>)
    ensures forall g :: g in groups ==> GroupLatency(g, actions) <= GroupsLatency(groups, actions)
    ensures if groups == [] then GroupsLatency(groups, actions) == 0 else exists g :: g in groups && GroupLatency(g, actions) == GroupsLatency(groups, actions)
  {
    if groups != [] {
      var front, last := groups[..|groups| - 1], groups[|groups| - 1];
      assert groups == front + [last] && last in groups;
      SlowestGroup(front, actions);
      if front != [] {
        var g :| g in front && GroupLatency(g, actions) == GroupsLatency(front, actions);
        assert g in groups;
      }
    }
  }

  ghost function BatchCosts(plan: seq<Batch>, actions: map<string, PlanAction>): (costs: seq<int>)
    ensures |costs| == |plan| && forall k :: 0 <= k < |plan| ==> costs[k] == GroupsLatency(plan[k].groups, actions)
  {
    seq(|plan|, k requires 0 <= k < |plan| => GroupsLatency(plan[k].groups, actions))
  }

  /** Estimated latency of a plan. */
  ghost function PlanLatency(plan: seq<Batch>, actions: map<string, PlanAction>): int {
    Total(BatchCosts(plan, actions), |plan|)
  }

  method EstimatePlanLatency(plan: seq<Batch>, actions: map<string, PlanAction>) returns (total: int)
    ensures total == PlanLatency(plan, actions)
  {
    total := 0;
    ghost var costs := BatchCosts(plan, actions);
    for i := 0 to |plan|
      invariant total == Total(costs, i)
    {
      if plan[i].groups != [] {
        total := total + GroupsLatency(plan[i].groups, actions);
      } else {
        assert costs[i] == GroupsLatency([], actions);
      }
    }
  }

  lemma {:induction false} CostsNonNegative(known: seq<PlanAction>)
    requires forall a :: a in known ==> a.cost >= 0
    ensures SumCost(known) >= 0 && (known != [] ==> MaxCost(known) >= 0)
  {
    if |known| > 0 {
      CostsNonNegative(known[..|known| - 1]);
      assert known[|known| - 1] in known;
      if |known| == 1 { assert known[0] in known; }
    }
  }

  lemma {:induction false} GroupsNonNegative(groups: seq<seq<string>>, actions: map<string, PlanAction>)
    requires Priced(actions)
    ensures GroupsLatency(groups, actions) >= 0
  {
    if groups != [] {
      CostsNonNegative(KnownOf(groups[|groups| - 1], actions));
      GroupsNonNegative(groups[..|groups| - 1], actions);
    }
  }

  // ----- candidate rows

  datatype Row = NoRow | Row(batchId: string, actionId: string, profileClass: ProfileClass)

  /** A batch qualifies when it holds a single runtime BLE action; blank ids never do. */
  function RowOf(b: Batch, actions: map<string, PlanAction>): Row {
    var members := Concat(b.groups);
    if |members| != 1 || members[0] !in actions then NoRow
    else
      var a := actions[members[0]];
      if a.protocol != BleLane || !a.runtimeTransport || b.id == "" || members[0] == "" then NoRow
      else Row(b.id, members[0], a.profileClass)
  }

  function Rows(plan: seq<Batch>, actions: map<string, PlanAction>): (rows: seq<Row>)
    ensures |rows| == |plan| && forall i :: 0 <= i < |plan| ==> rows[i] == RowOf(plan[i], actions)
  {
    seq(|plan|, i requires 0 <= i < |plan| => RowOf(plan[i], actions))
  }

  lemma {:induction false} EmptyGroupsLatency(groups: seq<seq<string>>, actions: map<string, PlanAction>)
    requires Concat(groups) == []
    ensures GroupsLatency(groups, actions) == 0
  {
    if groups != [] {
      EmptyGroupsLatency(groups[..|groups| - 1], actions);
    }
  }

  /** A qualifying batch costs exactly the latency of its one action. */
  lemma {:induction false} SingletonLatency(groups: seq<seq<string>>, actions: map<string, PlanAction>, id: string)
    requires Priced(actions) && Concat(groups) == [id] && id in actions && actions[id].protocol == BleLane
    ensures GroupsLatency(groups, actions) == LatencyMs(actions[id].ble.kind)
  {
    var front, last := groups[..|groups| - 1], groups[|groups| - 1];
    assert Concat(groups) == Concat(front) + last;
    if last == [] {
      assert Concat(front) == [id];
      SingletonLatency(front, actions, id);
    } else {
      assert Concat(front) == [] && last == [id];
      EmptyGroupsLatency(front, actions);
      assert KnownOf([id][..0], actions) == [];
      assert KnownOf(last, actions) == [actions[id]];
      assert SumCost([actions[id]][..0]) == 0;
    }
  }

  // ----- maximal runs

  predicate Joins(rows: seq<Row>, i: nat, j: nat)
    requires i < |rows| && j < |rows|
  {
    rows[i].Row? && rows[j].Row? && rows[i].profileClass == rows[j].profileClass
  }

  /** The rows from `start` up to `end` qualify and share one profile class. */
  ghost predicate IsRun(rows: seq<Row>, start: nat, end: nat) {
    && start < end <= |rows| && rows[start].Row?
    && (forall k :: start <= k < end ==> rows[k].Row? && rows[k].profileClass == rows[start].profileClass)
  }

  /** A run that cannot be extended on either side. */
  ghost predicate MaximalRun(rows: seq<Row>, start: nat, end: nat) {
    && IsRun(rows, start, end)
    && (start > 0 ==> !Joins(rows, start - 1, start))
    && (end < |rows| ==> !Joins(rows, end - 1, end))
  }

  /** Two maximal runs are equal or do not touch. */
  lemma MaximalRunsDisjoint(rows: seq<Row>, s1: nat, e1: nat, s2: nat, e2: nat)
    requires MaximalRun(rows, s1, e1) && MaximalRun(rows, s2, e2) && s1 <= s2
    ensures (s1 == s2 && e1 == e2) || e1 <= s2
  {
    RunJoins(rows, s1, e1);
    RunJoins(rows, s2, e2);
  }

  lemma RunJoins(rows: seq<Row>, start: nat, end: nat)
    requires IsRun(rows, start, end)
    ensures forall j, k :: start <= j < end && start <= k < end ==> Joins(rows, j, k)
  {
  }

  /** Minimal length and minimal latency of a corridor, by profile class. */
  type Thresholds = ProfileClass -> (int, int)

  function IdsOf(rows: seq<Row>, start: nat, end: nat): (ids: seq<string>)
    requires start <= end <= |rows| && forall k :: start <= k < end ==> rows[k].Row?
    ensures |ids| == end - start && forall k :: start <= k < end ==> ids[k - start] == rows[k].actionId
  {
    seq(end - start, k requires 0 <= k < end - start => rows[start + k].actionId)
  }

  /** Neighbours among `ids` whose advertisement overlap is admitted. */
  function CountPairs(ids: seq<string>, actions: map<string, PlanAction>, policy: Policy): nat
    requires forall k :: 0 <= k < |ids| ==> ids[k] in actions
  {
    if |ids| <= 1 then 0
    else CountPairs(ids[..|ids| - 1], actions, policy)
         + (if AdvAdmitted(actions[ids[|ids| - 2]].ble, actions[ids[|ids| - 1]].ble, policy) then 1 else 0)
  }

  function LatencyOf(ids: seq<string>, actions: map<string, PlanAction>): int
    requires forall k :: 0 <= k < |ids| ==> ids[k] in actions
  {
    if ids == [] then 0 else LatencyOf(ids[..|ids| - 1], actions) + actions[ids[|ids| - 1]].cost
  }

  datatype Chosen = Chosen(index: nat, start: nat, end: nat, ids: seq<string>, originalLatency: int, pairs: nat, score: int)

  ghost predicate RowsKnown(rows: seq<Row>, actions: map<string, PlanAction>) {
    forall k :: 0 <= k < |rows| && rows[k].Row? ==> rows[k].actionId in actions && actions[rows[k].actionId].protocol == BleLane
  }

  /** Length, latency and overlap thresholds of the run's class are met. */
  ghost predicate Eligible(rows: seq<Row>, actions: map<string, PlanAction>, policy: Policy, thresholds: Thresholds, start: nat, end: nat)
    requires IsRun(rows, start, end) && RowsKnown(rows, actions)
  {
    var ids := IdsOf(rows, start, end);
    var (minLength, minLatency) := thresholds(rows[start].profileClass);
    |ids| >= minLength && LatencyOf(ids, actions) >= minLatency && CountPairs(ids, actions, policy) > 0
  }

  ghost predicate Describes(ch: Chosen, rows: seq<Row>, actions: map<string, PlanAction>, policy: Policy, thresholds: Thresholds) {
    && RowsKnown(rows, actions) && MaximalRun(rows, ch.start, ch.end) && Eligible(rows, actions, policy, thresholds, ch.start, ch.end)
    && ch.ids == IdsOf(rows, ch.start, ch.end) && ch.originalLatency == LatencyOf(ch.ids, actions)
    && ch.pairs == CountPairs(ch.ids, actions, policy) && ch.score == ch.originalLatency + 200 * |ch.ids| + 120 * ch.pairs
  }

  /** The batch holds exactly one action, a BLE action of this class that runs on the transport. */
  ghost predicate HoldsOne(b: Batch, actions: map<string, PlanAction>, id: string, profileClass: ProfileClass) {
    && Concat(b.groups) == [id] && id != "" && b.id != "" && id in actions
    && actions[id].protocol == BleLane && actions[id].runtimeTransport && actions[id].profileClass == profileClass
  }

  ghost predicate HoldsSome(b: Batch, actions: map<string, PlanAction>, profileClass: ProfileClass) {
    var members := Concat(b.groups);
    |members| == 1 && HoldsOne(b, actions, members[0], profileClass)
  }

  lemma RowHolds(b: Batch, actions: map<string, PlanAction>, profileClass: ProfileClass)
    ensures var row := RowOf(b, actions); HoldsSome(b, actions, profileClass) <==> row.Row? && row.profileClass == profileClass
    ensures var row := RowOf(b, actions); row.Row? ==> HoldsOne(b, actions, row.actionId, row.profileClass)
  {
    var members := Concat(b.groups);
    assert |members| == 1 ==> members == [members[0]];
  }

  /** The batches of a corridor hold its actions one by one, all of one class, and no neighbouring batch holds another of
      that class. */
  lemma CorridorBatches(ch: Chosen, plan: seq<Batch>, actions: map<string, PlanAction>, policy: Policy, thresholds: Thresholds) returns (profileClass: ProfileClass)
    requires Describes(ch, Rows(plan, actions), actions, policy, thresholds)
    ensures ch.start < ch.end <= |plan| && |ch.ids| == ch.end - ch.start
    ensures forall k :: ch.start <= k < ch.end ==> HoldsOne(plan[k], actions, ch.ids[k - ch.start], profileClass)
    ensures ch.start > 0 ==> !HoldsSome(plan[ch.start - 1], actions, profileClass)
    ensures ch.end < |plan| ==> !HoldsSome(plan[ch.end], actions, profileClass)
  {
    profileClass := RunBatches(Rows(plan, actions), plan, actions, ch.start, ch.end, ch.ids);
  }

  lemma RunBatches(rows: seq<Row>, plan: seq<Batch>, actions: map<string, PlanAction>, start: nat, end: nat, ids: seq<string>) returns (profileClass: ProfileClass)
    requires rows == Rows(plan, actions) && MaximalRun(rows, start, end) && ids == IdsOf(rows, start, end)
    ensures forall k :: start <= k < end ==> HoldsOne(plan[k], actions, ids[k - start], profileClass)
    ensures start > 0 ==> !HoldsSome(plan[start - 1], actions, profileClass)
    ensures end < |plan| ==> !HoldsSome(plan[end], actions, profileClass)
  {
    profileClass := rows[start].profileClass;
    RunHolds(rows, plan, actions, start, end, ids);
    if start > 0 { RowHolds(plan[start - 1], actions, profileClass); }
    if end < |plan| { RowHolds(plan[end], actions, profileClass); }
  }

  lemma RunHolds(rows: seq<Row>, plan: seq<Batch>, actions: map<string, PlanAction>, start: nat, end: nat, ids: seq<string>)
    requires rows == Rows(plan, actions) && IsRun(rows, start, end) && ids == IdsOf(rows, start, end)
    ensures forall k :: start <= k < end ==> HoldsOne(plan[k], actions, ids[k - start], rows[start].profileClass)
  {
    forall k | start <= k < end ensures HoldsOne(plan[k], actions, ids[k - start], rows[start].profileClass) {
      RowHolds(plan[k], actions, rows[start].profileClass);
    }
  }

  ghost predicate HasRange(chosen: seq<Chosen>, start: nat, end: nat) {
    exists k :: 0 <= k < |chosen| && chosen[k].start == start && chosen[k].end == end
  }

  /** The corridors are numbered in plan order and do not touch. */
  ghost predicate InPlanOrder(chosen: seq<Chosen>) {
    && (forall k :: 0 <= k < |chosen| ==> chosen[k].index == k)
    && (forall k, l :: 0 <= k < l < |chosen| ==> chosen[k].end <= chosen[l].start)
  }

  ghost function SumOriginal(chosen: seq<Chosen>): int {
    Sorting.SumBy(chosen, (ch: Chosen) => ch.originalLatency)
  }

  /** A qualifying row costs what its action costs. */
  ghost predicate RowCosts(rows: seq<Row>, actions: map<string, PlanAction>, costs: seq<int>) {
    && RowsKnown(rows, actions) && |costs| == |rows|
    && (forall k :: 0 <= k < |costs| ==> costs[k] >= 0)
    && (forall k :: 0 <= k < |rows| && rows[k].Row? ==> costs[k] == actions[rows[k].actionId].cost)
  }

  lemma PlanRowCosts(plan: seq<Batch>, actions: map<string, PlanAction>)
    requires Priced(actions)
    ensures RowCosts(Rows(plan, actions), actions, BatchCosts(plan, actions))
  {
    RowsAreKnown(plan, actions);
    var rows, costs := Rows(plan, actions), BatchCosts(plan, actions);
    forall k | 0 <= k < |plan| ensures costs[k] >= 0 && (rows[k].Row? ==> costs[k] == actions[rows[k].actionId].cost) {
      GroupsNonNegative(plan[k].groups, actions);
      if rows[k].Row? {
        assert Concat(plan[k].groups) == [rows[k].actionId];
        SingletonLatency(plan[k].groups, actions, rows[k].actionId);
      }
    }
  }

  lemma IdsStep(rows: seq<Row>, actions: map<string, PlanAction>, start: nat, end: nat)
    requires start < end <= |rows| && RowsKnown(rows, actions) && forall k :: start <= k < end ==> rows[k].Row?
    ensures LatencyOf(IdsOf(rows, start, end), actions) == LatencyOf(IdsOf(rows, start, end - 1), actions) + actions[rows[end - 1].actionId].cost
  {
    var ids := IdsOf(rows, start, end);
    assert ids[..|ids| - 1] == IdsOf(rows, start, end - 1);
  }

  /** A run takes as long as its batches take in the plan. */
  lemma {:induction false} RunLatency(rows: seq<Row>, actions: map<string, PlanAction>, costs: seq<int>, start: nat, end: nat)
    requires RowCosts(rows, actions, costs) && start <= end <= |rows| && forall k :: start <= k < end ==> rows[k].Row?
    ensures LatencyOf(IdsOf(rows, start, end), actions) == Total(costs, end) - Total(costs, start)
  {
    if start < end {
      RunLatency(rows, actions, costs, start, end - 1);
      IdsStep(rows, actions, start, end);
    } else {
      assert LatencyOf(IdsOf(rows, start, end), actions) == 0;
    }
  }

  lemma RowsAreKnown(plan: seq<Batch>, actions: map<string, PlanAction>)
    ensures RowsKnown(Rows(plan, actions), actions)
  {
    var rows := Rows(plan, actions);
    forall k | 0 <= k < |rows| && rows[k].Row? ensures rows[k].actionId in actions && actions[rows[k].actionId].protocol == BleLane {
      assert rows[k] == RowOf(plan[k], actions);
    }
  }

  ghost predicate AllDescribed(chosen: seq<Chosen>, rows: seq<Row>, actions: map<string, PlanAction>, policy: Policy, thresholds: Thresholds, upto: nat) {
    forall k :: 0 <= k < |chosen| ==> Describes(chosen[k], rows, actions, policy, thresholds) && chosen[k].end <= upto
  }

  ghost predicate NoneMissed(chosen: seq<Chosen>, rows: seq<Row>, actions: map<string, PlanAction>, policy: Policy, thresholds: Thresholds, upto: nat)
    requires RowsKnown(rows, actions)
  {
    forall s: nat, e: nat :: MaximalRun(rows, s, e) && e <= upto && Eligible(rows, actions, policy, thresholds, s, e) ==> HasRange(chosen, s, e)
  }

  /** Exactly the eligible maximal runs that end no later than `upto`. */
  ghost predicate Covers(chosen: seq<Chosen>, rows: seq<Row>, actions: map<string, PlanAction>, policy: Policy, thresholds: Thresholds, upto: nat) {
    && RowsKnown(rows, actions) && InPlanOrder(chosen)
    && AllDescribed(chosen, rows, actions, policy, thresholds, upto)
    && NoneMissed(chosen, rows, actions, policy, thresholds, upto)
  }

  /** Closes the run from `start` to `end`: it becomes a corridor if it is eligible. */
  method CloseRun(rows: seq<Row>, actions: map<string, PlanAction>, policy: Policy, thresholds: Thresholds, chosen: seq<Chosen>, start: nat, end: nat)
    returns (result: seq<Chosen>)
    requires MaximalRun(rows, start, end) && Covers(chosen, rows, actions, policy, thresholds, start)
    ensures Covers(result, rows, actions, policy, thresholds, end)
  {
    var ids := IdsOf(rows, start, end);
    var original := LatencyOf(ids, actions);
    var pairs := CountPairs(ids, actions, policy);
    var (minLength, minLatency) := thresholds(rows[start].profileClass);
    if |ids| >= minLength && original >= minLatency && pairs > 0 {
      var ch := Chosen(|chosen|, start, end, ids, original, pairs, original + 200 * |ids| + 120 * pairs);
      result := chosen + [ch];
      CoversMore(rows, actions, policy, thresholds, chosen, ch);
    } else {
      result := chosen;
      CoversStill(rows, actions, policy, thresholds, chosen, start, end);
    }
  }

  lemma RunsUpTo(rows: seq<Row>, start: nat, end: nat)
    requires MaximalRun(rows, start, end)
    ensures forall s: nat, e: nat {:trigger MaximalRun(rows, s, e)} :: MaximalRun(rows, s, e) && e <= end ==> e <= start || (s == start && e == end)
  {
    forall s: nat, e: nat | MaximalRun(rows, s, e) && e <= end ensures e <= start || (s == start && e == end) {
      if s <= start { MaximalRunsDisjoint(rows, s, e, start, end); } else { MaximalRunsDisjoint(rows, start, end, s, e); }
    }
  }

  lemma RangeMore(chosen: seq<Chosen>, ch: Chosen, start: nat, end: nat)
    ensures HasRange(chosen, start, end) ==> HasRange(chosen + [ch], start, end)
    ensures HasRange(chosen + [ch], ch.start, ch.end)
  {
    var result := chosen + [ch];
    if HasRange(chosen, start, end) {
      var k :| 0 <= k < |chosen| && chosen[k].start == start && chosen[k].end == end;
      assert result[k].start == start && result[k].end == end;
    }
    assert result[|chosen|].start == ch.start && result[|chosen|].end == ch.end;
  }

  lemma NoneMissedMore(rows: seq<Row>, actions: map<string, PlanAction>, policy: Policy, thresholds: Thresholds, chosen: seq<Chosen>, ch: Chosen)
    requires RowsKnown(rows, actions) && NoneMissed(chosen, rows, actions, policy, thresholds, ch.start) && MaximalRun(rows, ch.start, ch.end)
    ensures NoneMissed(chosen + [ch], rows, actions, policy, thresholds, ch.end)
  {
    RunsUpTo(rows, ch.start, ch.end);
    forall s: nat, e: nat | MaximalRun(rows, s, e) && e <= ch.end && Eligible(rows, actions, policy, thresholds, s, e) ensures HasRange(chosen + [ch], s, e) {
      RangeMore(chosen, ch, s, e);
    }
  }

  lemma DescribedMore(rows: seq<Row>, actions: map<string, PlanAction>, policy: Policy, thresholds: Thresholds, chosen: seq<Chosen>, ch: Chosen)
    requires AllDescribed(chosen, rows, actions, policy, thresholds, ch.start) && ch.start <= ch.end
    requires Describes(ch, rows, actions, policy, thresholds)
    ensures AllDescribed(chosen + [ch], rows, actions, policy, thresholds, ch.end)
  {
    var result := chosen + [ch];
    forall k | 0 <= k < |result| ensures Describes(result[k], rows, actions, policy, thresholds) && result[k].end <= ch.end {
      if k < |chosen| { assert result[k] == chosen[k]; }
    }
  }

  lemma OrderMore(chosen: seq<Chosen>, ch: Chosen)
    requires InPlanOrder(chosen) && ch.index == |chosen| && forall k :: 0 <= k < |chosen| ==> chosen[k].end <= ch.start
    ensures InPlanOrder(chosen + [ch])
  {
  }

  lemma CoversMore(rows: seq<Row>, actions: map<string, PlanAction>, policy: Policy, thresholds: Thresholds, chosen: seq<Chosen>, ch: Chosen)
    requires Covers(chosen, rows, actions, policy, thresholds, ch.start) && Describes(ch, rows, actions, policy, thresholds) && ch.index == |chosen|
    ensures Covers(chosen + [ch], rows, actions, policy, thresholds, ch.end)
  {
    NoneMissedMore(rows, actions, policy, thresholds, chosen, ch);
    DescribedMore(rows, actions, policy, thresholds, chosen, ch);
    OrderMore(chosen, ch);
  }

  lemma CoversStill(rows: seq<Row>, actions: map<string, PlanAction>, policy: Policy, thresholds: Thresholds, chosen: seq<Chosen>, start: nat, end: nat)
    requires MaximalRun(rows, start, end) && Covers(chosen, rows, actions, policy, thresholds, start)
    requires !Eligible(rows, actions, policy, thresholds, start, end)
    ensures Covers(chosen, rows, actions, policy, thresholds, end)
  {
    RunsUpTo(rows, start, end);
  }

  /** A batch without a row ends no run. */
  lemma ExtendOver(rows: seq<Row>, actions: map<string, PlanAction>, policy: Policy, thresholds: Thresholds, chosen: seq<Chosen>, i: nat)
    requires i < |rows| && rows[i] == NoRow && Covers(chosen, rows, actions, policy, thresholds, i)
    ensures Covers(chosen, rows, actions, policy, thresholds, i + 1)
  {
    forall s: nat, e: nat | MaximalRun(rows, s, e) && e <= i + 1 ensures e <= i {
    }
  }

  /** The open run holds the rows from `start` up to `i` and cannot be extended to the left. */
  ghost predicate OpenRun(rows: seq<Row>, start: nat, i: nat) {
    && start <= i <= |rows|
    && (start < i ==> IsRun(rows, start, i) && (start > 0 ==> !Joins(rows, start - 1, start)))
    && (start == i > 0 ==> rows[i - 1] == NoRow)
  }

  lemma OpenRunStep(rows: seq<Row>, start: nat, i: nat)
    requires OpenRun(rows, start, i) && i < |rows|
    ensures rows[i].Row? && (start == i || Joins(rows, start, i)) ==> OpenRun(rows, start, i + 1)
    ensures rows[i].Row? && !(start == i || Joins(rows, start, i)) ==> OpenRun(rows, i, i + 1)
    ensures rows[i] == NoRow ==> OpenRun(rows, i + 1, i + 1)
    ensures !(rows[i].Row? && (start == i || Joins(rows, start, i))) && start < i ==> MaximalRun(rows, start, i)
  {
    if start < i { assert rows[i - 1].Row? && rows[i - 1].profileClass == rows[start].profileClass; }
  }

  /** The name of a corridor holds its number with at least two digits. */
  function CorridorName(index: nat): string {
    "corridor_" + Text.Padded(index)
  }

  predicate HigherScore(a: Chosen, b: Chosen) {
    a.score > b.score || (a.score == b.score && Text.Less(CorridorName(a.index), CorridorName(b.index)))
  }

  lemma HigherScoreIsWeakOrder()
    ensures Sorting.WeakOrder(HigherScore)
  {
    forall a: string, b: string ensures !(Text.Less(a, b) && Text.Less(b, a)) && (Text.Less(a, b) || a == b || Text.Less(b, a)) { Text.LessTotal(a, b); }
    forall a: string, b: string, c: string | Text.Less(a, b) && Text.Less(b, c) ensures Text.Less(a, c) { Text.LessTransitive(a, b, c); }
  }

  /** Walks the rows with one open run and closes it at each break. */
  method CollectRuns(rows: seq<Row>, actions: map<string, PlanAction>, policy: Policy, thresholds: Thresholds) returns (chosen: seq<Chosen>)
    requires RowsKnown(rows, actions)
    ensures Covers(chosen, rows, actions, policy, thresholds, |rows|)
  {
    chosen := [];
    var start: nat := 0;
    for i := 0 to |rows|
      invariant OpenRun(rows, start, i)
      invariant Covers(chosen, rows, actions, policy, thresholds, start)
    {
      OpenRunStep(rows, start, i);
      if !(rows[i].Row? && (start == i || Joins(rows, start, i))) {
        if start < i {
          chosen := CloseRun(rows, actions, policy, thresholds, chosen, start, i);
        }
        if rows[i].Row? {
          start := i;
        } else {
          ExtendOver(rows, actions, policy, thresholds, chosen, i);
          start := i + 1;
        }
      }
    }
    if start < |rows| {
      chosen := CloseRun(rows, actions, policy, thresholds, chosen, start, |rows|);
    }
  }

  /** The corridors are the eligible maximal runs of the plan, the best scores first, equal ones by name. */
  ghost predicate Selects(corridors: seq<Chosen>, plan: seq<Batch>, actions: map<string, PlanAction>, policy: Policy, thresholds: Thresholds) {
    exists inOrder :: Covers(inOrder, Rows(plan, actions), actions, policy, thresholds, |plan|) && corridors == Sorting.Sort(inOrder, HigherScore)
  }

  method SelectCorridors(plan: seq<Batch>, actions: map<string, PlanAction>, policy: Policy, thresholds: Thresholds)
    returns (corridors: seq<Chosen>)
    ensures Selects(corridors, plan, actions, policy, thresholds)
  {
    RowsAreKnown(plan, actions);
    var chosen := CollectRuns(Rows(plan, actions), actions, policy, thresholds);
    corridors := Sorting.Sort(chosen, HigherScore);
  }

  /** Corridors in plan order take no longer than the part of the plan they lie in. */
  lemma {:induction false} CorridorsFit(chosen: seq<Chosen>, rows: seq<Row>, actions: map<string, PlanAction>, policy: Policy, thresholds: Thresholds, costs: seq<int>, upto: nat)
    requires RowCosts(rows, actions, costs) && upto <= |rows| && InPlanOrder(chosen)
    requires forall ch :: ch in chosen ==> Describes(ch, rows, actions, policy, thresholds) && ch.end <= upto
    ensures SumOriginal(chosen) <= Total(costs, upto)
  {
    if chosen == [] {
      TotalMonotone(costs, 0, upto);
    } else {
      var front, last := chosen[..|chosen| - 1], chosen[|chosen| - 1];
      CorridorsFit(front, rows, actions, policy, thresholds, costs, last.start);
      RunLatency(rows, actions, costs, last.start, last.end);
      TotalMonotone(costs, last.end, upto);
    }
  }

  // ----- the whole plan

  function BleActions(actions: map<string, PlanAction>): map<string, Action> {
    map id | id in actions :: actions[id].ble
  }

  ghost predicate BleIds(ids: seq<string>, actions: map<string, PlanAction>) {
    forall k :: 0 <= k < |ids| ==> ids[k] in actions && actions[ids[k]].protocol == BleLane
  }

  /** The corridor refined for `ids`, and what it overlaps. */
  ghost predicate CorridorOf(c: Corridor, ids: seq<string>, actions: map<string, PlanAction>, policy: Policy) {
    c.ids == ids && c.actions == BleActions(actions) && c.policy == policy && KnownIds(c) && Timed(c)
  }

  lemma {:induction false} LatenciesAgree(c: Corridor, actions: map<string, PlanAction>, policy: Policy, n: nat)
    requires CorridorOf(c, c.ids, actions, policy) && Priced(actions) && BleIds(c.ids, actions) && n <= |c.ids|
    ensures LatencySum(c, n) == LatencyOf(c.ids[..n], actions)
    ensures AdmittedPairs(c, n) == CountPairs(c.ids[..n], actions, policy)
  {
    if n > 0 {
      LatenciesAgree(c, actions, policy, n - 1);
      assert c.ids[..n][..n - 1] == c.ids[..n - 1];
    }
  }

  /** Whatever the timeouts, transfers take time, so a timeline never ends before 0. */
  lemma {:induction false} NeverEndsEarly(c: Corridor, n: nat)
    requires KnownIds(c) && Transfers(c) && n <= |c.ids|
    ensures MaxEnd(Timeline(c, n)) >= 0
    ensures n > 0 ==> SlotAt(c, n - 1).xferEnd >= 0
  {
    if n > 0 {
      NeverEndsEarly(c, n - 1);
      var s := SlotAt(c, n - 1);
      assert DurationsAt(c, n - 1).xfer >= XFER_MIN && DurationsAt(c, n - 1).settle >= 1;
      assert s.settleEnd >= s.xferEnd >= 0;
      var front, last := Timeline(c, n - 1), SlotEvents(c.ids[n - 1], s);
      MaxEndStep(front + last[..3], last[3]);
      assert front + last[..3] + [last[3]] == front + last;
    }
  }

  /** The result for one corridor: its saving never exceeds what it took. */
  ghost predicate Refines(ch: Chosen, r: Refinement, c: Corridor, actions: map<string, PlanAction>, policy: Policy) {
    && CorridorOf(c, ch.ids, actions, policy) && r.refinedEvents == Timeline(c, |ch.ids|) && Reports(c, r.refinedEvents, r.validation)
    && r.refinedLatency == MaxEnd(r.refinedEvents)
    && 0 <= r.latencySaved <= ch.originalLatency
    && (r.validation.Passed() ==> r.latencySaved == Max(0, ch.originalLatency - r.refinedLatency))
    && (!r.validation.Passed() ==> r.latencySaved == 0)
    && (Distinct(ch.ids) && Conservative(policy) ==> r.validation.Passed())
    && (Distinct(ch.ids) && Conservative(policy) && policy.advTimeout <= 150 ==>
          r.latencySaved == OverlappedAdv(c, |ch.ids|) && r.refinedLatency == ch.originalLatency - r.latencySaved)
  }

  lemma CorridorFacts(ch: Chosen, c: Corridor, actions: map<string, PlanAction>, policy: Policy)
    requires Priced(actions) && BleIds(ch.ids, actions) && ch.originalLatency == LatencyOf(ch.ids, actions) && CorridorOf(c, ch.ids, actions, policy)
    ensures LatencySum(c, |ch.ids|) == ch.originalLatency >= 0 && MaxEnd(Timeline(c, |ch.ids|)) >= 0
  {
    LatenciesAgree(c, actions, policy, |ch.ids|);
    TakeAll(ch.ids);
    TimedTransfers(c);
    NeverEndsEarly(c, |ch.ids|);
    LatencyNonNegative(ch.ids, actions);
  }

  method RefineChosen(ch: Chosen, actions: map<string, PlanAction>, policy: Policy) returns (r: Refinement, c: Corridor)
    requires Priced(actions) && BleIds(ch.ids, actions) && ch.originalLatency == LatencyOf(ch.ids, actions)
    ensures Refines(ch, r, c, actions, policy)
  {
    r, c := RefineCorridor(ch.ids, BleActions(actions), policy, ch.originalLatency);
    CorridorFacts(ch, c, actions, policy);
  }

  lemma {:induction false} LatencyNonNegative(ids: seq<string>, actions: map<string, PlanAction>)
    requires Priced(actions) && BleIds(ids, actions)
    ensures LatencyOf(ids, actions) >= 0
  {
    if ids != [] { LatencyNonNegative(ids[..|ids| - 1], actions); }
  }

  ghost function SumSaved(results: seq<Refinement>): int {
    Sorting.SumBy(results, (r: Refinement) => r.latencySaved)
  }

  lemma SortedCorridors(inOrder: seq<Chosen>)
    ensures var corridors := Sorting.Sort(inOrder, HigherScore);
            SumOriginal(corridors) == SumOriginal(inOrder) && |corridors| == |inOrder| && forall ch :: ch in corridors <==> ch in inOrder
  {
    var corridors := Sorting.Sort(inOrder, HigherScore);
    Sorting.SortPermutes(inOrder, HigherScore);
    Sorting.SumByPermutes(corridors, inOrder, (ch: Chosen) => ch.originalLatency);
    assert forall ch :: ch in corridors <==> ch in multiset(corridors);
    assert forall ch :: ch in inOrder <==> ch in multiset(inOrder);
    assert |multiset(corridors)| == |multiset(inOrder)|;
  }

  lemma CorridorIdsAreBle(ch: Chosen, rows: seq<Row>, actions: map<string, PlanAction>, policy: Policy, thresholds: Thresholds)
    requires Describes(ch, rows, actions, policy, thresholds)
    ensures BleIds(ch.ids, actions) && ch.originalLatency == LatencyOf(ch.ids, actions)
  {
    forall k | 0 <= k < |ch.ids| ensures ch.ids[k] in actions && actions[ch.ids[k]].protocol == BleLane {
      assert ch.ids[ch.start + k - ch.start] == rows[ch.start + k].actionId;
    }
  }

  ghost predicate Refinable(ch: Chosen, actions: map<string, PlanAction>) {
    BleIds(ch.ids, actions) && ch.originalLatency == LatencyOf(ch.ids, actions)
  }

  ghost predicate AllRefined(chosen: seq<Chosen>, results: seq<Refinement>, built: seq<Corridor>, actions: map<string, PlanAction>, policy: Policy) {
    |chosen| == |results| == |built| && forall k :: 0 <= k < |chosen| ==> Refines(chosen[k], results[k], built[k], actions, policy)
  }

  lemma AllRefinedNext(chosen: seq<Chosen>, k: nat, results: seq<Refinement>, built: seq<Corridor>, r: Refinement, c: Corridor, actions: map<string, PlanAction>, policy: Policy)
    requires k < |chosen| && AllRefined(chosen[..k], results, built, actions, policy) && Refines(chosen[k], r, c, actions, policy)
    ensures AllRefined(chosen[..k + 1], results + [r], built + [c], actions, policy)
  {
    TakeNext(chosen, k);
  }

  lemma SumsNext(chosen: seq<Chosen>, k: nat, results: seq<Refinement>, r: Refinement)
    requires k < |chosen|
    ensures SumSaved(results + [r]) == SumSaved(results) + r.latencySaved
    ensures SumOriginal(chosen[..k + 1]) == SumOriginal(chosen[..k]) + chosen[k].originalLatency
  {
    assert chosen[..k + 1][..k] == chosen[..k];
    assert (results + [r])[..|results|] == results;
  }

  /** Refines corridor after corridor; together they save no more than they took. */
  method RefineAll(chosen: seq<Chosen>, actions: map<string, PlanAction>, policy: Policy)
    returns (results: seq<Refinement>, saved: int, ghost built: seq<Corridor>)
    requires Priced(actions) && forall k :: 0 <= k < |chosen| ==> Refinable(chosen[k], actions)
    ensures AllRefined(chosen, results, built, actions, policy)
    ensures 0 <= saved == SumSaved(results) <= SumOriginal(chosen)
  {
    results, saved, built := [], 0, [];
    for k := 0 to |chosen|
      invariant AllRefined(chosen[..k], results, built, actions, policy)
      invariant 0 <= saved == SumSaved(results) <= SumOriginal(chosen[..k])
    {
      var refinement, c := RefineChosen(chosen[k], actions, policy);
      AllRefinedNext(chosen, k, results, built, refinement, c, actions, policy);
      SumsNext(chosen, k, results, refinement);
      if refinement.validation.Passed() {
        saved := saved + refinement.latencySaved;
      }
      results, built := results + [refinement], built + [c];
    }
    TakeAll(chosen);
  }

  lemma CoveredAreRefinable(chosen: seq<Chosen>, rows: seq<Row>, actions: map<string, PlanAction>, policy: Policy, thresholds: Thresholds, upto: nat)
    requires Covers(chosen, rows, actions, policy, thresholds, upto)
    ensures forall ch :: ch in chosen ==> Refinable(ch, actions)
  {
    forall k | 0 <= k < |chosen| ensures Refinable(chosen[k], actions) {
      CorridorIdsAreBle(chosen[k], rows, actions, policy, thresholds);
    }
  }

  /** The selected corridors take no longer than the plan. */
  lemma SelectedFit(corridors: seq<Chosen>, plan: seq<Batch>, actions: map<string, PlanAction>, policy: Policy, thresholds: Thresholds)
    requires Priced(actions) && Selects(corridors, plan, actions, policy, thresholds)
    ensures SumOriginal(corridors) <= PlanLatency(plan, actions) && forall ch :: ch in corridors ==> Refinable(ch, actions)
  {
    var rows := Rows(plan, actions);
    var inOrder :| Covers(inOrder, rows, actions, policy, thresholds, |plan|) && corridors == Sorting.Sort(inOrder, HigherScore);
    PlanRowCosts(plan, actions);
    CorridorsFit(inOrder, rows, actions, policy, thresholds, BatchCosts(plan, actions), |plan|);
    CoveredAreRefinable(inOrder, rows, actions, policy, thresholds, |plan|);
    SortedCorridors(inOrder);
  }

  datatype CaseResult = CaseResult(corridors: seq<Chosen>, refinements: seq<Refinement>, originalTotal: int, refinedTotal: int, saved: int)

  /** Refines every selected corridor of a plan. The saving is taken off the plan's latency without clamping. */
  method RefineCase(plan: seq<Batch>, actions: map<string, PlanAction>, policy: Policy, thresholds: Thresholds)
    returns (r: CaseResult)
    requires Priced(actions)
    ensures Selects(r.corridors, plan, actions, policy, thresholds)
    ensures exists built :: AllRefined(r.corridors, r.refinements, built, actions, policy)
    ensures r.originalTotal == PlanLatency(plan, actions) && r.saved == SumSaved(r.refinements)
    ensures 0 <= r.refinedTotal == r.originalTotal - r.saved <= r.originalTotal
  {
    var original := EstimatePlanLatency(plan, actions);
    var corridors := SelectCorridors(plan, actions, policy, thresholds);
    SelectedFit(corridors, plan, actions, policy, thresholds);
    var results, saved, built := RefineAll(corridors, actions, policy);
    r := CaseResult(corridors, results, original, Max(0, original - saved), saved);
  }

  lemma PairsGain(c: Corridor, actions: map<string, PlanAction>, policy: Policy)
    requires CorridorOf(c, c.ids, actions, policy) && Priced(actions) && BleIds(c.ids, actions) && 30 <= policy.advTimeout <= 120
    ensures 30 * CountPairs(c.ids, actions, policy) <= OverlappedAdv(c, |c.ids|) <= 120 * CountPairs(c.ids, actions, policy)
  {
    LatenciesAgree(c, actions, policy, |c.ids|);
    TakeAll(c.ids);
    SavingBounds(c, |c.ids|);
  }

  /** Under a conservative policy every selected corridor gains at least 30 ms for each admitted pair, and has one. */
  lemma SelectedCorridorsGain(ch: Chosen, r: Refinement, c: Corridor, rows: seq<Row>, actions: map<string, PlanAction>, policy: Policy, thresholds: Thresholds)
    requires Priced(actions) && Describes(ch, rows, actions, policy, thresholds) && Refines(ch, r, c, actions, policy)
    requires Distinct(ch.ids) && Conservative(policy) && 30 <= policy.advTimeout <= 120
    ensures ch.pairs >= 1 && 30 * ch.pairs <= r.latencySaved <= 120 * ch.pairs
  {
    CorridorIdsAreBle(ch, rows, actions, policy, thresholds);
    PairsGain(c, actions, policy);
  }
}
