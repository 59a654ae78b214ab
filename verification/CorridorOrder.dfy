/** In which order BLE corridors of equal score are selected (optimizer/ble_micro_refinement.py `_select_corridors`). */
module CorridorOrder {
  import opened Numbers
  import opened BleCorridor
  import opened BlePlan
  import opened Sequences
  import Sorting
  import Text

  /** The corridor numbered `j` comes before the one numbered `i`, though it lies behind it in the plan: the leading digits
      of `j`, as many as `i` has, make a smaller number. */
  ghost predicate Overtakes(i: nat, j: nat)
    requires i < j
  {
    Text.PaddedOrder(i, j);
    Text.Lead(j, Text.Width(i)) < i
  }

  lemma NameOrder(i: nat, j: nat)
    requires i < j
    ensures Text.Less(CorridorName(j), CorridorName(i)) <==> Overtakes(i, j)
    ensures Text.Less(CorridorName(i), CorridorName(j)) <==> !Overtakes(i, j)
  {
    Text.PaddedOrder(i, j);
    Text.LessAfterPrefix("corridor_", Text.Padded(i), Text.Padded(j));
    Text.LessAfterPrefix("corridor_", Text.Padded(j), Text.Padded(i));
    Text.LessTotal(Text.Padded(i), Text.Padded(j));
  }

  /** Among the first hundred corridors no one overtakes, and one of the next nine hundred overtakes those whose number is
      greater than its own without the last digit. */
  lemma OvertakesInNumbers(i: nat, j: nat)
    requires i < j < 1000
    ensures Overtakes(i, j) <==> i < 100 <= j && j / 10 < i
  {
    assert j / 10 < 100 && i / 10 < 100;
    assert Text.Width(j) == (if j < 100 then 2 else 3) && Text.Width(i) == (if i < 100 then 2 else 3);
    if i < 100 <= j { assert Text.Lead(j, 2) == Text.Lead(j / 10, 2) == j / 10; }
  }

  /** Where two different entries of the sorted list stood before. */
  lemma PlaceInPlan(inOrder: seq<Chosen>, corridors: seq<Chosen>, k: nat, l: nat) returns (i: nat, j: nat)
    requires InPlanOrder(inOrder) && corridors == Sorting.Sort(inOrder, HigherScore) && k < l < |corridors|
    ensures i < |inOrder| && j < |inOrder| && i != j && inOrder[i] == corridors[k] && inOrder[j] == corridors[l]
  {
    SortedCorridors(inOrder);
    assert corridors[k] in corridors && corridors[l] in corridors;
    i :| 0 <= i < |inOrder| && inOrder[i] == corridors[k];
    j :| 0 <= j < |inOrder| && inOrder[j] == corridors[l];
    Sorting.SortKeepsPairwise(inOrder, HigherScore, (a: Chosen, b: Chosen) => a != b);
  }

  /** Scores never rise; of two corridors of equal score the one further behind in the plan comes first exactly when it
      overtakes the other. */
  lemma ScoreOrder(corridors: seq<Chosen>, plan: seq<Batch>, actions: map<string, PlanAction>, policy: Policy, thresholds: Thresholds, k: nat, l: nat)
    requires Selects(corridors, plan, actions, policy, thresholds) && k < l < |corridors|
    ensures var a, b := corridors[k], corridors[l];
      && a.score >= b.score && a.index != b.index && (a.index < b.index ==> a.end <= b.start) && (b.index < a.index ==> b.end <= a.start)
      && (a.score == b.score ==> if a.index < b.index then !Overtakes(a.index, b.index) else Overtakes(b.index, a.index))
  {
    var inOrder :| Covers(inOrder, Rows(plan, actions), actions, policy, thresholds, |plan|) && corridors == Sorting.Sort(inOrder, HigherScore);
    HigherScoreIsWeakOrder();
    Sorting.SortSorts(inOrder, HigherScore);
    var i, j := PlaceInPlan(inOrder, corridors, k, l);
    if i < j { NameOrder(i, j); } else { NameOrder(j, i); }
  }

  /** No corridor comes before one of equal score that lies in front of it. */
  ghost predicate FollowsPlan(corridors: seq<Chosen>) {
    forall k, l :: 0 <= k < l < |corridors| && corridors[k].score == corridors[l].score ==> corridors[k].end <= corridors[l].start
  }

  ghost predicate SomeOvertakes(corridors: seq<Chosen>) {
    exists a, b :: a in corridors && b in corridors && a.score == b.score && a.index < b.index && Overtakes(a.index, b.index)
  }

  /** Equal scores come in plan order exactly when no corridor overtakes another one of its score. */
  lemma FollowsPlanExactly(corridors: seq<Chosen>, plan: seq<Batch>, actions: map<string, PlanAction>, policy: Policy, thresholds: Thresholds)
    requires Selects(corridors, plan, actions, policy, thresholds)
    ensures FollowsPlan(corridors) <==> !SomeOvertakes(corridors)
  {
    SelectedNonEmpty(corridors, plan, actions, policy, thresholds);
    forall k, l | 0 <= k < l < |corridors| && corridors[k].score == corridors[l].score
      ensures corridors[k].end <= corridors[l].start <==> corridors[k].index < corridors[l].index
      ensures corridors[k].index != corridors[l].index
      ensures if corridors[k].index < corridors[l].index then !Overtakes(corridors[k].index, corridors[l].index) else Overtakes(corridors[l].index, corridors[k].index)
    {
      ScoreOrder(corridors, plan, actions, policy, thresholds, k, l);
      assert corridors[k] in corridors && corridors[l] in corridors;
    }
    if SomeOvertakes(corridors) {
      var a, b :| a in corridors && b in corridors && a.score == b.score && a.index < b.index && Overtakes(a.index, b.index);
      var k :| 0 <= k < |corridors| && corridors[k] == a;
      var l :| 0 <= l < |corridors| && corridors[l] == b;
      assert l < k;
    }
  }

  lemma CoveredNonEmpty(chosen: seq<Chosen>, rows: seq<Row>, actions: map<string, PlanAction>, policy: Policy, thresholds: Thresholds, upto: nat)
    requires Covers(chosen, rows, actions, policy, thresholds, upto)
    ensures forall ch :: ch in chosen ==> ch.start < ch.end
  {
    forall k | 0 <= k < |chosen| ensures chosen[k].start < chosen[k].end {
      assert Describes(chosen[k], rows, actions, policy, thresholds);
      assert IsRun(rows, chosen[k].start, chosen[k].end);
    }
  }

  lemma SelectedNonEmpty(corridors: seq<Chosen>, plan: seq<Batch>, actions: map<string, PlanAction>, policy: Policy, thresholds: Thresholds)
    requires Selects(corridors, plan, actions, policy, thresholds)
    ensures forall ch :: ch in corridors ==> ch.start < ch.end
  {
    var inOrder :| Covers(inOrder, Rows(plan, actions), actions, policy, thresholds, |plan|) && corridors == Sorting.Sort(inOrder, HigherScore);
    CoveredNonEmpty(inOrder, Rows(plan, actions), actions, policy, thresholds, |plan|);
    SortedCorridors(inOrder);
  }

  /** Up to a hundred corridors equal scores always come in plan order. */
  lemma BestFirst(corridors: seq<Chosen>, plan: seq<Batch>, actions: map<string, PlanAction>, policy: Policy, thresholds: Thresholds, k: nat, l: nat)
    requires Selects(corridors, plan, actions, policy, thresholds) && k < l < |corridors| <= 100
    ensures corridors[k].score > corridors[l].score || (corridors[k].score == corridors[l].score && corridors[k].end <= corridors[l].start)
  {
    ScoreOrder(corridors, plan, actions, policy, thresholds, k, l);
    var inOrder :| Covers(inOrder, Rows(plan, actions), actions, policy, thresholds, |plan|) && corridors == Sorting.Sort(inOrder, HigherScore);
    var i, j := PlaceInPlan(inOrder, corridors, k, l);
    SortedCorridors(inOrder);
    if j < i { OvertakesInNumbers(j, i); }
  }

  // ----- a plan with 101 corridors of equal score

  const PLAN_SIZE := 303

  function Name(i: nat): string {
    Text.Padded(i)
  }

  lemma NamesDistinct(i: nat, j: nat)
    requires i != j
    ensures Name(i) != Name(j)
  {
    if i < j { Text.PaddedOrder(i, j); } else { Text.PaddedOrder(j, i); }
  }

  /** A sensor of its own that the scanner reads. */
  function Sensor(id: string): PlanAction {
    PlanAction(BleLane, 750, true, ReadLike, Action(ReadSensor, false, "scanner", id, "", false, false, false))
  }

  function State(id: string): PlanAction {
    PlanAction(HaLane, 50, false, Generic, Action(OtherKind, false, "", "", "", false, false, false))
  }

  /** Every third action is a Home Assistant action, the others read sensors. */
  const SENSOR_IDS: set<string> := set i | 0 <= i < PLAN_SIZE && i % 3 != 2 :: Name(i)

  const STATE_IDS: set<string> := set i | 0 <= i < PLAN_SIZE && i % 3 == 2 :: Name(i)

  const ACTIONS: map<string, PlanAction> := (map id | id in SENSOR_IDS :: Sensor(id)) + (map id | id in STATE_IDS :: State(id))

  const PLAN: seq<Batch> := seq(PLAN_SIZE, i requires 0 <= i < PLAN_SIZE => Batch(Name(i), [[Name(i)]]))

  lemma ActionAt(i: nat)
    requires i < PLAN_SIZE
    ensures Name(i) in ACTIONS && ACTIONS[Name(i)] == if i % 3 == 2 then State(Name(i)) else Sensor(Name(i))
  {
    if i % 3 == 2 {
      assert Name(i) in STATE_IDS;
    } else {
      assert Name(i) in SENSOR_IDS;
      if Name(i) in STATE_IDS {
        var j :| 0 <= j < PLAN_SIZE && j % 3 == 2 && Name(j) == Name(i);
        NamesDistinct(i, j);
      }
    }
  }

  lemma RowAt(i: nat)
    requires i < PLAN_SIZE
    ensures RowOf(PLAN[i], ACTIONS) == if i % 3 == 2 then NoRow else Row(Name(i), Name(i), ReadLike)
  {
    ActionAt(i);
    Text.PaddedWidth(i);
    assert [[Name(i)]][..0] == [];
    assert Concat(PLAN[i].groups) == [Name(i)];
  }

  /** The sensors may overlap and two of them make a corridor, as under the default policy. */
  ghost predicate PairsQualify(policy: Policy, thresholds: Thresholds) {
    && policy.allowAdvOverlap && (policy.requireSharedScanner ==> policy.sharedScannerAvailable)
    && thresholds(ReadLike).0 <= 2 && thresholds(ReadLike).1 <= 1500
  }

  /** The rows of the plan: pairs of sensors with a gap behind each. */
  ghost predicate Pairs(rows: seq<Row>) {
    |rows| == PLAN_SIZE && forall i :: 0 <= i < PLAN_SIZE ==> rows[i] == if i % 3 == 2 then NoRow else Row(Name(i), Name(i), ReadLike)
  }

  lemma PlanHasPairs()
    ensures Pairs(Rows(PLAN, ACTIONS))
  {
    forall i | 0 <= i < PLAN_SIZE { RowAt(i); }
  }

  lemma PairJoin(rows: seq<Row>, i: nat)
    requires Pairs(rows) && 0 < i < PLAN_SIZE
    ensures Joins(rows, i - 1, i) == (i % 3 == 1)
  {
  }

  lemma RunStart(rows: seq<Row>, start: nat, end: nat)
    requires Pairs(rows) && MaximalRun(rows, start, end)
    ensures start % 3 == 0
  {
    if start > 0 { PairJoin(rows, start); }
  }

  lemma RunEnd(rows: seq<Row>, start: nat, end: nat)
    requires Pairs(rows) && IsRun(rows, start, end) && start % 3 == 0 && (end < |rows| ==> !Joins(rows, end - 1, end))
    ensures end == start + 2
  {
    assert rows[start + 2] == NoRow;
    if end < |rows| { PairJoin(rows, end); }
  }

  lemma RunIsPair(rows: seq<Row>, start: nat, end: nat)
    requires Pairs(rows) && MaximalRun(rows, start, end)
    ensures start % 3 == 0 && end == start + 2
  {
    RunStart(rows, start, end);
    RunEnd(rows, start, end);
  }

  lemma PairIsRun(rows: seq<Row>, start: nat)
    requires Pairs(rows) && start % 3 == 0 && start < PLAN_SIZE
    ensures MaximalRun(rows, start, start + 2)
  {
    assert start + 2 < PLAN_SIZE;
  }

  lemma PairIds(rows: seq<Row>, start: nat)
    requires Pairs(rows) && start % 3 == 0 && start < PLAN_SIZE
    ensures IdsOf(rows, start, start + 2) == [Name(start), Name(start + 1)]
  {
    var ids := IdsOf(rows, start, start + 2);
    assert ids[start - start] == Name(start) && ids[start + 1 - start] == Name(start + 1);
  }

  lemma TwoIds(a: string, b: string, actions: map<string, PlanAction>, policy: Policy)
    requires a in actions && b in actions
    ensures forall k :: 0 <= k < |[a, b]| ==> [a, b][k] in actions
    ensures LatencyOf([a, b], actions) == actions[a].cost + actions[b].cost
    ensures CountPairs([a, b], actions, policy) == if AdvAdmitted(actions[a].ble, actions[b].ble, policy) then 1 else 0
  {
    var ids := [a, b];
    assert ids[..1] == [a] && [a][..0] == [];
    assert LatencyOf([a], actions) == actions[a].cost;
  }

  lemma SensorsOverlap(a: string, b: string, policy: Policy)
    requires a != b && policy.allowAdvOverlap && (policy.requireSharedScanner ==> policy.sharedScannerAvailable)
    ensures AdvAdmitted(Sensor(a).ble, Sensor(b).ble, policy)
  {
  }

  lemma TwoSensors(a: string, b: string, actions: map<string, PlanAction>, policy: Policy)
    requires a != b && policy.allowAdvOverlap && (policy.requireSharedScanner ==> policy.sharedScannerAvailable)
    requires a in actions && b in actions && actions[a] == Sensor(a) && actions[b] == Sensor(b)
    ensures var ids := [a, b]; (forall k :: 0 <= k < |ids| ==> ids[k] in actions) && LatencyOf(ids, actions) == 1500 && CountPairs(ids, actions, policy) == 1
  {
    SensorsOverlap(a, b, policy);
    TwoIds(a, b, actions, policy);
  }

  /** The actions of the plan. */
  ghost predicate Reading(actions: map<string, PlanAction>) {
    forall i: nat {:trigger Name(i)} :: i < PLAN_SIZE ==> Name(i) in actions && actions[Name(i)] == if i % 3 == 2 then State(Name(i)) else Sensor(Name(i))
  }

  lemma PlanIsReading()
    ensures Reading(ACTIONS)
  {
    forall i: nat | i < PLAN_SIZE ensures Name(i) in ACTIONS && ACTIONS[Name(i)] == if i % 3 == 2 then State(Name(i)) else Sensor(Name(i)) { ActionAt(i); }
  }

  lemma PairWorth(actions: map<string, PlanAction>, start: nat, policy: Policy)
    requires Reading(actions) && start % 3 == 0 && start < PLAN_SIZE
    requires policy.allowAdvOverlap && (policy.requireSharedScanner ==> policy.sharedScannerAvailable)
    ensures var ids := [Name(start), Name(start + 1)];
      (forall k :: 0 <= k < |ids| ==> ids[k] in actions) && LatencyOf(ids, actions) == 1500 && CountPairs(ids, actions, policy) == 1
  {
    var a, b := Name(start), Name(start + 1);
    NamesDistinct(start, start + 1);
    TwoSensors(a, b, actions, policy);
  }

  lemma PairQualifies(rows: seq<Row>, actions: map<string, PlanAction>, policy: Policy, thresholds: Thresholds, start: nat)
    requires Pairs(rows) && Reading(actions) && RowsKnown(rows, actions) && PairsQualify(policy, thresholds) && start % 3 == 0 && start < PLAN_SIZE
    ensures MaximalRun(rows, start, start + 2) && Eligible(rows, actions, policy, thresholds, start, start + 2)
  {
    PairIsRun(rows, start);
    PairIds(rows, start);
    PairWorth(actions, start, policy);
    assert rows[start].profileClass == ReadLike;
  }

  lemma ChosenIsPair(rows: seq<Row>, actions: map<string, PlanAction>, policy: Policy, thresholds: Thresholds, ch: Chosen)
    requires Pairs(rows) && Reading(actions) && PairsQualify(policy, thresholds) && Describes(ch, rows, actions, policy, thresholds)
    ensures ch.start % 3 == 0 && ch.end == ch.start + 2 && ch.score == 2020
  {
    RunIsPair(rows, ch.start, ch.end);
    PairIds(rows, ch.start);
    PairWorth(actions, ch.start, policy);
  }

  /** Every pair is there, and nothing else. */
  ghost predicate AllPairs(chosen: seq<Chosen>) {
    && InPlanOrder(chosen)
    && (forall k :: 0 <= k < |chosen| ==> chosen[k].start % 3 == 0 && chosen[k].end == chosen[k].start + 2 && chosen[k].start < PLAN_SIZE && chosen[k].score == 2020)
    && (forall m: nat {:trigger HasRange(chosen, 3 * m, 3 * m + 2)} :: m <= 100 ==> HasRange(chosen, 3 * m, 3 * m + 2))
  }

  lemma CoversAllPairs(chosen: seq<Chosen>, rows: seq<Row>, actions: map<string, PlanAction>, policy: Policy, thresholds: Thresholds)
    requires Pairs(rows) && Reading(actions) && PairsQualify(policy, thresholds) && Covers(chosen, rows, actions, policy, thresholds, PLAN_SIZE)
    ensures AllPairs(chosen)
  {
    forall k | 0 <= k < |chosen| ensures chosen[k].start % 3 == 0 && chosen[k].end == chosen[k].start + 2 && chosen[k].score == 2020 && chosen[k].start < PLAN_SIZE {
      ChosenIsPair(rows, actions, policy, thresholds, chosen[k]);
    }
    forall m: nat | m <= 100 ensures HasRange(chosen, 3 * m, 3 * m + 2) {
      PairQualifies(rows, actions, policy, thresholds, 3 * m);
    }
  }

  lemma StartsAscend(chosen: seq<Chosen>)
    requires AllPairs(chosen)
    ensures forall k, l :: 0 <= k < l < |chosen| ==> chosen[k].start < chosen[l].start
  {
  }

  lemma {:induction false} StartsAtLeast(chosen: seq<Chosen>, k: nat)
    requires AllPairs(chosen) && k < |chosen|
    ensures chosen[k].start >= 3 * k
  {
    if k > 0 {
      StartsAtLeast(chosen, k - 1);
      assert chosen[k - 1].end <= chosen[k].start;
    }
  }

  /** All pairs become corridors, in plan order. */
  lemma {:induction false} PairPlace(chosen: seq<Chosen>, k: nat)
    requires AllPairs(chosen) && k <= 100
    ensures k < |chosen| && chosen[k].start == 3 * k
  {
    if k > 0 { PairPlace(chosen, k - 1); }
    assert HasRange(chosen, 3 * k, 3 * k + 2);
    var l :| 0 <= l < |chosen| && chosen[l].start == 3 * k && chosen[l].end == 3 * k + 2;
    StartsAscend(chosen);
  }

  /** The plan gives 101 corridors of equal score. */
  lemma AllPairsChosen(chosen: seq<Chosen>)
    requires AllPairs(chosen)
    ensures |chosen| == 101 && chosen[11].start == 33 && chosen[100].start == 300
  {
    PairPlace(chosen, 11);
    PairPlace(chosen, 100);
    StartsAtLeast(chosen, |chosen| - 1);
  }

  lemma Overtaken(corridors: seq<Chosen>, inOrder: seq<Chosen>, k: nat, l: nat)
    requires corridors == Sorting.Sort(inOrder, HigherScore) && k < |corridors| && l < |corridors|
    requires corridors[k].index == 100 && corridors[l].index == 11 && corridors[k].score == corridors[l].score
    ensures k < l
  {
    HigherScoreIsWeakOrder();
    Sorting.SortSorts(inOrder, HigherScore);
    OvertakesInNumbers(11, 100);
    NameOrder(11, 100);
    assert HigherScore(corridors[k], corridors[l]);
  }

  /** The corridor at batch 300 comes before the one at batch 33. */
  ghost predicate LateOneFirst(corridors: seq<Chosen>) {
    exists k, l :: 0 <= k < l < |corridors| && corridors[k].start == 300 && corridors[l].start == 33
  }

  lemma SortedPairs(corridors: seq<Chosen>, inOrder: seq<Chosen>)
    requires AllPairs(inOrder) && corridors == Sorting.Sort(inOrder, HigherScore)
    ensures |corridors| == 101 && (forall ch :: ch in corridors ==> ch.score == 2020 && ch.end == ch.start + 2) && LateOneFirst(corridors)
  {
    AllPairsChosen(inOrder);
    SortedCorridors(inOrder);
    assert inOrder[100] in corridors && inOrder[11] in corridors;
    var k :| 0 <= k < |corridors| && corridors[k] == inOrder[100];
    var l :| 0 <= l < |corridors| && corridors[l] == inOrder[11];
    Overtaken(corridors, inOrder, k, l);
  }

  lemma LateIsOutOfOrder(corridors: seq<Chosen>)
    requires LateOneFirst(corridors) && forall ch :: ch in corridors ==> ch.score == 2020 && ch.end == ch.start + 2
    ensures !FollowsPlan(corridors)
  {
    var k, l :| 0 <= k < l < |corridors| && corridors[k].start == 300 && corridors[l].start == 33;
    assert corridors[k] in corridors && corridors[l] in corridors;
  }

  /** The selection for this plan holds 101 corridors of equal score, the one at batch 300 before the one at batch 33. */
  lemma OutOfPlanOrder(corridors: seq<Chosen>, policy: Policy, thresholds: Thresholds)
    requires PairsQualify(policy, thresholds) && Selects(corridors, PLAN, ACTIONS, policy, thresholds)
    ensures |corridors| == 101 && (forall ch :: ch in corridors ==> ch.score == 2020) && LateOneFirst(corridors) && !FollowsPlan(corridors)
  {
    var rows := Rows(PLAN, ACTIONS);
    var inOrder :| Covers(inOrder, rows, ACTIONS, policy, thresholds, |PLAN|) && corridors == Sorting.Sort(inOrder, HigherScore);
    PlanHasPairs();
    PlanIsReading();
    CoversAllPairs(inOrder, rows, ACTIONS, policy, thresholds);
    SortedPairs(corridors, inOrder);
    LateIsOutOfOrder(corridors);
  }
}
