/** The rollback loop of the trust layer (optimizer/m6_trust.py `evaluate`, `_level1_strategy_chain`,
    `_trace_compare_config`). Comparison, replay and replanning are parameters; nothing is known about them. */
module Rollback {
  import opened Contracts
  import opened Digraph
  import opened DagPatches
  import opened Numbers
  import opened Options
  import opened PlanLayout
  import opened PlanScopes
  import opened ParallelReduction
  import opened Sequences
  import Kahn

  const LEVEL1_STRATEGIES := [ReduceParallelism, DisableSessionReuse, DisableBatching, EnforceMinGap]

  /** The strategies in the order in which they are tried. */
  function StrategyChain(orderType: bool, timeouts: bool): seq<Strategy> {
    var preferred := if orderType then [EnforceMinGap] else if timeouts then [ReduceParallelism, DisableBatching, DisableSessionReuse] else [];
    Unique(preferred + LEVEL1_STRATEGIES)
  }

  function FirstUntried(chain: seq<Strategy>, tried: seq<Strategy>): Option<Strategy> {
    if chain == [] then None
    else
      var earlier := FirstUntried(chain[..|chain| - 1], tried);
      if earlier.Some? then earlier else if chain[|chain| - 1] in tried then None else Some(chain[|chain| - 1])
  }

  ghost predicate IsFirstUntried(chain: seq<Strategy>, tried: seq<Strategy>, s: Strategy) {
    s !in tried && exists k :: 0 <= k < |chain| && chain[k] == s && TriedUpTo(chain, tried, k)
  }

  ghost predicate TriedUpTo(chain: seq<Strategy>, tried: seq<Strategy>, k: nat)
    requires k <= |chain|
  {
    forall j :: 0 <= j < k ==> chain[j] in tried
  }

  lemma {:induction false} FirstUntriedFits(chain: seq<Strategy>, tried: seq<Strategy>)
    ensures var next := FirstUntried(chain, tried);
            if next.Some? then next.value in chain && next.value !in tried && IsFirstUntried(chain, tried, next.value) else forall s :: s in chain ==> s in tried
  {
    if chain != [] {
      FirstUntriedFits(chain[..|chain| - 1], tried);
      var next := FirstUntried(chain[..|chain| - 1], tried);
      if next.Some? {
        var front := chain[..|chain| - 1];
        var k :| 0 <= k < |front| && front[k] == next.value && TriedUpTo(front, tried, k);
        assert forall j :: 0 <= j < k ==> chain[j] == front[j];
        assert chain[k] == next.value && TriedUpTo(chain, tried, k);
      }
      assert chain == chain[..|chain| - 1] + [chain[|chain| - 1]];
      if next == None && chain[|chain| - 1] !in tried {
        assert forall j :: 0 <= j < |chain| - 1 ==> chain[j] in chain[..|chain| - 1];
        assert TriedUpTo(chain, tried, |chain| - 1);
      }
    }
  }

  lemma ChainIsComplete(orderType: bool, timeouts: bool)
    ensures forall s: Strategy :: s in StrategyChain(orderType, timeouts)
  {
    forall s: Strategy ensures s in LEVEL1_STRATEGIES {
      match s
      case ReduceParallelism => assert LEVEL1_STRATEGIES[0] == s;
      case DisableSessionReuse => assert LEVEL1_STRATEGIES[1] == s;
      case DisableBatching => assert LEVEL1_STRATEGIES[2] == s;
      case EnforceMinGap => assert LEVEL1_STRATEGIES[3] == s;
    }
  }

  ghost function Added(s: seq<Strategy>, x: Strategy): seq<Strategy> {
    if x in s then s else s + [x]
  }

  lemma UniqueAppend(s: seq<Strategy>, x: Strategy)
    ensures Unique(s + [x]) == Added(Unique(s), x)
  {
    assert (s + [x])[..|s|] == s;
  }

  lemma {:induction false} UniqueKeeps(s: seq<Strategy>)
    requires Distinct(s)
    ensures Unique(s) == s
  {
    if s != [] {
      UniqueKeeps(s[..|s| - 1]);
      UniqueAppend(s[..|s| - 1], s[|s| - 1]);
      assert s == s[..|s| - 1] + [s[|s| - 1]];
    }
  }

  lemma {:induction false} UniqueAbsorbs(u: seq<Strategy>, t: seq<Strategy>)
    requires Distinct(u) && forall x :: x in t ==> x in u
    ensures Unique(u + t) == u
  {
    if t == [] {
      UniqueKeeps(u);
      assert u + t == u;
    } else {
      var n := |t| - 1;
      assert t == t[..n] + [t[n]];
      UniqueAbsorbs(u, t[..n]);
      UniqueAppend(u + t[..n], t[n]);
      assert u + t == u + t[..n] + [t[n]];
    }
  }

  lemma LastMovesFirst(a: Strategy, b: Strategy, c: Strategy, d: Strategy)
    requires Distinct([d, a, b, c])
    ensures Unique([d] + [a, b, c, d]) == [d, a, b, c]
  {
    var u := [d, a, b, c];
    assert [d] + [a, b, c, d] == u + [d] && u[0] == d;
    UniqueAbsorbs(u, [d]);
  }

  lemma MiddleSwaps(a: Strategy, b: Strategy, c: Strategy, d: Strategy)
    requires Distinct([a, c, b, d])
    ensures Unique([a, c, b] + [a, b, c, d]) == [a, c, b, d]
  {
    var u := [a, c, b];
    assert u[0] == a && u[1] == c && u[2] == b;
    assert forall i :: 0 <= i < 3 ==> u[i] == [a, c, b, d][i];
    assert [a, c, b, d][3] == d && d !in u;
    UniqueAbsorbs(u, [a, b, c]);
    UniqueAppend(u + [a, b, c], d);
    assert u + [a, b, c, d] == u + [a, b, c] + [d];
  }

  /** Spacing comes first when order is at stake; when something timed out, session reuse goes after batching. */
  lemma ChainOrder(timeouts: bool)
    ensures StrategyChain(true, timeouts) == [EnforceMinGap, ReduceParallelism, DisableSessionReuse, DisableBatching]
    ensures StrategyChain(false, true) == [ReduceParallelism, DisableBatching, DisableSessionReuse, EnforceMinGap]
    ensures StrategyChain(false, false) == [ReduceParallelism, DisableSessionReuse, DisableBatching, EnforceMinGap]
  {
    LastMovesFirst(ReduceParallelism, DisableSessionReuse, DisableBatching, EnforceMinGap);
    MiddleSwaps(ReduceParallelism, DisableSessionReuse, DisableBatching, EnforceMinGap);
    UniqueKeeps(LEVEL1_STRATEGIES);
    assert [] + LEVEL1_STRATEGIES == LEVEL1_STRATEGIES;
  }

  datatype Summary<X> = Summary(strictPass: int, tolerantPass: int, counterexamples: seq<X>)

  /** Level 2 on the rules: the rules afterwards, and which were disabled or tightened. */
  datatype RuleChange<U> = RuleChange(rules: U, disabled: set<string>, tightened: set<string>)

  /** How traces are compared: what the target says, and the sets of actions whose order does not matter because the plan
      runs them in parallel. */
  datatype Config<C> = Config(base: C, scopes: seq<Scope>)

  /** Everything the loop asks of its surroundings: what the target says of comparisons, the comparison itself, how
      counterexamples are classified, the rule patch, what level 3 starts from, ranks and BLE actions of the routine. */
  datatype World<!R, !C, !X, !U> = World(
    base: C, summarize: (R, Config<C>) -> Summary<X>, orderType: X -> bool, timeouts: seq<X> -> bool,
    level2: (U, seq<X>) -> Option<RuleChange<U>>, level3: (Plan, seq<X>) -> Level3, rank: Ranks, ble: set<string>)

  function ScopesOf(plan: Option<Plan>): seq<Scope> {
    if plan == None then [] else Scopes(plan.value.batches)
  }

  /** The configuration that belongs to a plan. */
  function ConfigOf<R, C, X, U>(w: World<R, C, X, U>, plan: Option<Plan>): Config<C> {
    Config(w.base, ScopesOf(plan))
  }

  predicate OrderType<R, C, X, U>(w: World<R, C, X, U>, cases: seq<X>) {
    exists i :: 0 <= i < |cases| && w.orderType(cases[i])
  }

  /** The level-1 strategy tried next. */
  ghost function NextStrategy<R, C, X, U>(w: World<R, C, X, U>, cases: seq<X>, tried: seq<Strategy>): Option<Strategy> {
    FirstUntried(StrategyChain(OrderType(w, cases), w.timeouts(cases)), tried)
  }

  /** There is a strategy to try and it changes the plan. */
  ghost predicate Level1Applies<R, C, X, U>(w: World<R, C, X, U>, plan: Plan, cases: seq<X>, tried: seq<Strategy>) {
    var next := NextStrategy(w, cases, tried);
    next.Some? && Changes(plan, next.value, w.rank, w.ble)
  }

  datatype Entry = PlanPatch(strategy: Strategy) | RulePatch | ConstraintPatch

  /** Six different patches exist. */
  lemma AtMostSix(log: seq<Entry>)
    requires Distinct(log)
    ensures |log| <= 6
  {
    var all := {PlanPatch(ReduceParallelism), PlanPatch(DisableSessionReuse), PlanPatch(DisableBatching), PlanPatch(EnforceMinGap), RulePatch, ConstraintPatch};
    forall e | e in log ensures e in all {
      match e
      case PlanPatch(s) => match s { case ReduceParallelism => case DisableSessionReuse => case DisableBatching => case EnforceMinGap => }
      case RulePatch =>
      case ConstraintPatch =>
    }
    DistinctSize(log);
    SubsetSize(Elements(log), all);
    SixDifferent();
  }

  lemma SixDifferent()
    ensures |{PlanPatch(ReduceParallelism), PlanPatch(DisableSessionReuse), PlanPatch(DisableBatching), PlanPatch(EnforceMinGap), RulePatch, ConstraintPatch}| <= 6
  {
  }

  /** What a run is given: its surroundings, the first replay results, graph, plan and rules. */
  datatype Setup<!R, !C, !X, !U> = Setup(world: World<R, C, X, U>, replay: Option<(nat, Plan) -> R>, replan: Option<(nat, TypedDag) -> Plan>,
    replays: R, dag: TypedDag, plan: Option<Plan>, rules: U)

  /** The variables of the loop; `reference` is the plan level 3 starts from. */
  datatype LoopState<R, U> = LoopState(dag: TypedDag, plan: Option<Plan>, reference: Option<Plan>, rules: U, replays: R, log: seq<Entry>,
    tried: seq<Strategy>, level2Tried: bool, level3Tried: bool)

  /** Only soft constraints of the graph ever change. */
  ghost predicate SameHardPart(a: TypedDag, b: TypedDag) {
    a.ids == b.ids && a.nodes == b.nodes && a.hardEdges == b.hardEdges
  }

  // ----- what one iteration does

  /** What the comparison finds in a state. */
  ghost function CasesOf<R, C, X, U>(s: Setup<R, C, X, U>, st: LoopState<R, U>): seq<X> {
    s.world.summarize(st.replays, ConfigOf(s.world, st.plan)).counterexamples
  }

  /** Something differs, and there is a plan to patch and a way to replay it. */
  ghost predicate CanPatch<R, C, X, U>(s: Setup<R, C, X, U>, st: LoopState<R, U>) {
    CasesOf(s, st) != [] && st.plan.Some? && s.replay.Some?
  }

  ghost predicate Level1Works<R, C, X, U>(s: Setup<R, C, X, U>, st: LoopState<R, U>)
    requires st.plan.Some?
  {
    Level1Applies(s.world, st.plan.value, CasesOf(s, st), st.tried)
  }

  ghost predicate Level2Works<R, C, X, U>(s: Setup<R, C, X, U>, st: LoopState<R, U>) {
    !st.level2Tried && s.world.level2(st.rules, CasesOf(s, st)).Some?
  }

  ghost predicate Level3Starts<R, C, X, U>(s: Setup<R, C, X, U>, st: LoopState<R, U>) {
    !st.level3Tried && s.replan.Some? && OrderType(s.world, CasesOf(s, st))
  }

  /** What level 3 is asked for. */
  ghost function Wanted<R, C, X, U>(s: Setup<R, C, X, U>, st: LoopState<R, U>): Level3
    requires st.plan.Some?
  {
    s.world.level3(if st.reference.Some? then st.reference.value else st.plan.value, CasesOf(s, st))
  }

  /** The next strategy, tried or not possible any more. */
  ghost function TriedNext<R, C, X, U>(s: Setup<R, C, X, U>, st: LoopState<R, U>): seq<Strategy> {
    var next := NextStrategy(s.world, CasesOf(s, st), st.tried);
    if next.Some? then st.tried + [next.value] else st.tried
  }

  /** Level 1: the plan becomes that of the next strategy; graph and rules stay. */
  ghost predicate PatchesPlan<R, C, X, U>(s: Setup<R, C, X, U>, st: LoopState<R, U>, after: LoopState<R, U>)
    requires st.plan.Some?
  {
    var next := NextStrategy(s.world, CasesOf(s, st), st.tried);
    && next.Some? && after.log == st.log + [PlanPatch(next.value)]
    && Changes(st.plan.value, next.value, s.world.rank, s.world.ble) && after.plan == Some(Patched(st.plan.value, next.value, s.world.rank, s.world.ble))
    && after.dag == st.dag && after.rules == st.rules && after.reference == st.reference
    && after.level2Tried == st.level2Tried && after.level3Tried == st.level3Tried
  }

  /** Level 2: the rules become the patched ones, the graph loses the constraints of disabled rules and guards those of
      tightened ones; a planner makes the plan anew from that graph. */
  ghost predicate PatchesRules<R, C, X, U>(s: Setup<R, C, X, U>, st: LoopState<R, U>, after: LoopState<R, U>) {
    var change := s.world.level2(st.rules, CasesOf(s, st));
    && change.Some? && !st.level2Tried && after.log == st.log + [RulePatch]
    && after.rules == change.value.rules && SameHardPart(after.dag, st.dag)
    && Overlays(st.dag.softConstraints, after.dag.softConstraints, change.value.disabled, change.value.tightened)
    && (if s.replan.Some? then after.plan == Some(s.replan.value(|st.log|, after.dag)) && after.reference == after.plan
        else after.plan == st.plan && after.reference == st.reference)
    && after.level2Tried && after.level3Tried == st.level3Tried
  }

  /** Level 3: the graph gains the order and overlap constraints that are missing, and the planner makes the plan anew; the
      rules stay. */
  ghost predicate PatchesConstraints<R, C, X, U>(s: Setup<R, C, X, U>, st: LoopState<R, U>, after: LoopState<R, U>)
    requires st.plan.Some?
  {
    && Level3Starts(s, st) && after.log == st.log + [ConstraintPatch]
    && after.rules == st.rules && SameHardPart(after.dag, st.dag)
    && Establishes(st.dag.softConstraints, after.dag.softConstraints, Wanted(s, st)) && after.dag.softConstraints != st.dag.softConstraints
    && after.plan == Some(s.replan.value(|st.log|, after.dag)) && after.reference == st.reference
    && after.level2Tried && after.level3Tried
  }

  /** One patch: of level 1 if the next strategy changes the plan, else of level 2 if there is a rule patch and it was not
      tried, else of level 3. The new plan is replayed. */
  ghost predicate Moves<R, C, X, U>(s: Setup<R, C, X, U>, st: LoopState<R, U>, after: LoopState<R, U>) {
    && CanPatch(s, st) && after.plan.Some? && after.replays == s.replay.value(|st.log|, after.plan.value)
    && after.tried == TriedNext(s, st)
    && (if Level1Works(s, st) then PatchesPlan(s, st, after)
        else if Level2Works(s, st) then PatchesRules(s, st, after)
        else PatchesConstraints(s, st, after))
  }

  /** No patch: nothing differs or nothing can be replayed, or no level has anything to change. */
  ghost predicate Rests<R, C, X, U>(s: Setup<R, C, X, U>, st: LoopState<R, U>, end: LoopState<R, U>) {
    if !CanPatch(s, st) then end == st
    else
      && !Level1Works(s, st) && !Level2Works(s, st)
      && end == st.(tried := TriedNext(s, st), level2Tried := true, level3Tried := st.level3Tried || Level3Starts(s, st))
      && (Level3Starts(s, st) ==> Establishes(st.dag.softConstraints, st.dag.softConstraints, Wanted(s, st)))
  }

  /** The next level-1 strategy, applied. */
  method TryLevel1<R, C, X, U>(w: World<R, C, X, U>, plan: Plan, cases: seq<X>, tried: seq<Strategy>)
    returns (patched: Plan, strategy: Option<Strategy>, changed: bool)
    ensures strategy == NextStrategy(w, cases, tried)
    ensures strategy == None ==> !changed && forall s: Strategy :: s in tried
    ensures strategy.Some? ==> strategy.value !in tried && changed == Changes(plan, strategy.value, w.rank, w.ble)
    ensures changed ==> strategy.Some? && patched == Patched(plan, strategy.value, w.rank, w.ble)
  {
    var orderType, timeouts := OrderType(w, cases), w.timeouts(cases);
    var chain := StrategyChain(orderType, timeouts);
    ChainIsComplete(orderType, timeouts);
    FirstUntriedFits(chain, tried);
    strategy := FirstUntried(chain, tried);
    patched, changed := plan, false;
    if strategy.Some? {
      patched, changed := ApplyLevel1(plan, strategy.value, w.rank, w.ble);
    }
  }

  /** Level 1: the next strategy is tried, and applied if it changes the plan. */
  method StepLevel1<R, C, X, U>(s: Setup<R, C, X, U>, st: LoopState<R, U>, cases: seq<X>) returns (after: LoopState<R, U>, applied: bool)
    requires CanPatch(s, st) && cases == CasesOf(s, st)
    ensures applied <==> Level1Works(s, st)
    ensures applied ==> Moves(s, st, after)
    ensures !applied ==> after == st.(tried := TriedNext(s, st))
  {
    var patched, strategy, changed := TryLevel1(s.world, st.plan.value, cases, st.tried);
    after, applied := st, false;
    if strategy.Some? {
      after := st.(tried := st.tried + [strategy.value]);
      if changed {
        applied := true;
        after := after.(log := st.log + [PlanPatch(strategy.value)], plan := Some(patched), replays := s.replay.value(|st.log|, patched));
      }
    }
  }

  /** Level 2: rules are disabled or tightened once, with their constraints, and the plan is made anew if possible. */
  method StepLevel2<R, C, X, U>(s: Setup<R, C, X, U>, st: LoopState<R, U>, cases: seq<X>) returns (after: LoopState<R, U>, applied: bool)
    requires CanPatch(s, st) && cases == CasesOf(s, st)
    ensures applied <==> Level2Works(s, st)
    ensures applied ==> PatchesRules(s, st, after) && after.tried == st.tried && after.plan.Some? && after.replays == s.replay.value(|st.log|, after.plan.value)
    ensures !applied ==> after == st.(level2Tried := true)
  {
    after, applied := st.(level2Tried := true), false;
    if st.level2Tried { return; }
    var change := s.world.level2(st.rules, cases);
    if change.Some? {
      var patchedDag, effects := ApplyRuleOverlay(st.dag, change.value.disabled, change.value.tightened);
      var dag := if effects then patchedDag else st.dag;
      var plan, reference := st.plan.value, st.reference;
      if s.replan.Some? {
        plan := s.replan.value(|st.log|, dag);
        reference := Some(plan);
      }
      applied := true;
      after := LoopState(dag, Some(plan), reference, change.value.rules, s.replay.value(|st.log|, plan), st.log + [RulePatch],
                         st.tried, true, st.level3Tried);
    }
  }

  /** Level 3: order constraints are added once, when a counterexample is about order, and the plan is made anew. */
  method StepLevel3<R, C, X, U>(s: Setup<R, C, X, U>, st: LoopState<R, U>, cases: seq<X>) returns (after: LoopState<R, U>, applied: bool)
    requires CanPatch(s, st) && cases == CasesOf(s, st) && st.level2Tried
    ensures applied ==> PatchesConstraints(s, st, after) && after.tried == st.tried && after.replays == s.replay.value(|st.log|, after.plan.value)
    ensures !applied ==> after == st.(level3Tried := st.level3Tried || Level3Starts(s, st))
    ensures !applied && Level3Starts(s, st) ==> Establishes(st.dag.softConstraints, st.dag.softConstraints, Wanted(s, st))
  {
    after, applied := st, false;
    if st.level3Tried || s.replan == None || !OrderType(s.world, cases) { return; }
    var reference := if st.reference.Some? then st.reference.value else st.plan.value;
    var patchedDag, constrained := ApplyLevel3(st.dag, s.world.level3(reference, cases));
    after := st.(level3Tried := true);
    if constrained {
      var plan := s.replan.value(|st.log|, patchedDag);
      applied := true;
      after := after.(log := st.log + [ConstraintPatch], dag := patchedDag, plan := Some(plan), replays := s.replay.value(|st.log|, plan));
    }
  }

  /** One patch, of the first level that has one. */
  method PatchOnce<R, C, X, U>(s: Setup<R, C, X, U>, st: LoopState<R, U>, cases: seq<X>) returns (after: LoopState<R, U>, applied: bool)
    requires CanPatch(s, st) && cases == CasesOf(s, st)
    ensures if applied then Moves(s, st, after) else Rests(s, st, after)
  {
    after, applied := StepLevel1(s, st, cases);
    if applied { return; }
    after, applied := StepLevel2(s, after, cases);
    if applied { return; }
    after, applied := StepLevel3(s, after, cases);
  }

  // ----- whole runs

  ghost function Start<R, C, X, U>(s: Setup<R, C, X, U>): LoopState<R, U> {
    LoopState(s.dag, s.plan, s.plan, s.rules, s.replays, [], [], false, false)
  }

  /** The states of the loop, each made from the one before by one patch. */
  ghost predicate IsRun<R, C, X, U>(s: Setup<R, C, X, U>, run: seq<LoopState<R, U>>) {
    run != [] && run[0] == Start(s) && forall k :: 0 <= k < |run| - 1 ==> Moves(s, run[k], run[k + 1])
  }

  /** What has been logged has been tried, and nothing twice. */
  ghost predicate Accounted(log: seq<Entry>, tried: seq<Strategy>, level2Tried: bool, level3Tried: bool) {
    && Distinct(log) && Distinct(tried)
    && (forall e :: e in log && e.PlanPatch? ==> e.strategy in tried)
    && (RulePatch in log ==> level2Tried) && (ConstraintPatch in log ==> level3Tried)
  }

  /** The replay results belong to the plan: they are those of the last replay, or the initial ones. */
  ghost predicate Current<R, C, X, U>(s: Setup<R, C, X, U>, st: LoopState<R, U>) {
    if st.log == [] then st.replays == s.replays else s.replay.Some? && st.plan.Some? && st.replays == s.replay.value(|st.log| - 1, st.plan.value)
  }

  lemma AccountedMore(log: seq<Entry>, tried: seq<Strategy>, level2Tried: bool, level3Tried: bool, e: Entry,
                      tried2: seq<Strategy>, level2Now: bool, level3Now: bool)
    requires Accounted(log, tried, level2Tried, level3Tried) && Distinct(tried2) && tried <= tried2
    requires (level2Tried ==> level2Now) && (level3Tried ==> level3Now)
    requires match e
             case PlanPatch(p) => p in tried2 && p !in tried
             case RulePatch => level2Now && !level2Tried
             case ConstraintPatch => level3Now && !level3Tried
    ensures Accounted(log + [e], tried2, level2Now, level3Now)
  {
    assert forall p :: p in tried ==> p in tried2 by { assert forall i :: 0 <= i < |tried| ==> tried2[i] == tried[i]; }
  }

  lemma AccountedNext<R, C, X, U>(s: Setup<R, C, X, U>, st: LoopState<R, U>, after: LoopState<R, U>)
    requires Moves(s, st, after) && Accounted(st.log, st.tried, st.level2Tried, st.level3Tried)
    ensures Accounted(after.log, after.tried, after.level2Tried, after.level3Tried)
  {
    var cases := CasesOf(s, st);
    FirstUntriedFits(StrategyChain(OrderType(s.world, cases), s.world.timeouts(cases)), st.tried);
    var next := NextStrategy(s.world, cases, st.tried);
    var e := if Level1Works(s, st) then PlanPatch(next.value) else if Level2Works(s, st) then RulePatch else ConstraintPatch;
    AccountedMore(st.log, st.tried, st.level2Tried, st.level3Tried, e, after.tried, after.level2Tried, after.level3Tried);
  }

  /** Along a run nodes and hard edges never change, every patch is logged, none twice, and the replay results belong to the
      plan. */
  lemma {:induction false} RunKeeps<R, C, X, U>(s: Setup<R, C, X, U>, run: seq<LoopState<R, U>>, k: nat)
    requires IsRun(s, run) && k < |run|
    ensures |run[k].log| == k && SameHardPart(run[k].dag, s.dag) && Current(s, run[k])
    ensures Accounted(run[k].log, run[k].tried, run[k].level2Tried, run[k].level3Tried)
    ensures k > 0 ==> run[k].plan.Some? && CasesOf(s, Start(s)) != []
  {
    if k > 0 {
      RunKeeps(s, run, k - 1);
      assert Moves(s, run[k - 1], run[k - 1 + 1]);
      AccountedNext(s, run[k - 1], run[k]);
    }
  }

  datatype Outcome<R, U, X> = Outcome(state: LoopState<R, U>, summary: Summary<X>, comparedWith: Option<Plan>, acyclic: bool)

  /** The end of a run: before the bound its last state rests; at the bound nothing is tried any more, and the comparison
      still uses the configuration of the plan before the last patch. */
  ghost predicate Concludes<R, C, X, U>(s: Setup<R, C, X, U>, maxSteps: int, out: Outcome<R, U, X>, run: seq<LoopState<R, U>>) {
    && IsRun(s, run) && |run| - 1 <= Min(Max(1, maxSteps), 6)
    && (if |run| - 1 < Max(1, maxSteps) then Rests(s, run[|run| - 1], out.state) && out.comparedWith == out.state.plan
        else out.state == run[|run| - 1] && out.comparedWith == run[|run| - 2].plan)
    && out.summary == s.world.summarize(out.state.replays, ConfigOf(s.world, out.comparedWith))
    && (out.acyclic <==> Acyclic(Kahn.ArcSet(Ends(s.dag.hardEdges))))
  }

  /** Some run led to this outcome. */
  ghost predicate Concluded<R(!new), C, X, U(!new)>(s: Setup<R, C, X, U>, maxSteps: int, out: Outcome<R, U, X>) {
    exists run :: Concludes(s, maxSteps, out, run)
  }

  lemma ConcludedBy<R(!new), C, X, U(!new)>(s: Setup<R, C, X, U>, maxSteps: int, out: Outcome<R, U, X>, run: seq<LoopState<R, U>>)
    requires Concludes(s, maxSteps, out, run)
    ensures Concluded(s, maxSteps, out)
  {
  }

  /** One iteration: compare, then apply the next patch and replay. */
  method PatchStep<R, C, X, U>(s: Setup<R, C, X, U>, st: LoopState<R, U>) returns (after: LoopState<R, U>, summary: Summary<X>, patched: bool)
    ensures summary == s.world.summarize(st.replays, ConfigOf(s.world, st.plan))
    ensures if patched then Moves(s, st, after) else Rests(s, st, after)
  {
    summary := s.world.summarize(st.replays, ConfigOf(s.world, st.plan));
    after, patched := st, false;
    if summary.counterexamples == [] || st.plan == None || s.replay == None { return; }
    after, patched := PatchOnce(s, st, summary.counterexamples);
  }

  lemma RunNext<R, C, X, U>(s: Setup<R, C, X, U>, run: seq<LoopState<R, U>>, after: LoopState<R, U>)
    requires IsRun(s, run) && Moves(s, run[|run| - 1], after)
    ensures IsRun(s, run + [after])
  {
    var more := run + [after];
    forall k | 0 <= k < |more| - 1 ensures Moves(s, more[k], more[k + 1]) {
      if k < |run| - 1 { assert Moves(s, run[k], run[k + 1]); }
    }
  }

  /** What the patch loop leaves behind: a comparison of the current state if it ended before the bound, one with the
      configuration of an earlier plan otherwise. */
  ghost predicate Stopped<R, C, X, U>(
      s: Setup<R, C, X, U>, bound: nat, st: LoopState<R, U>, comparedWith: Option<Plan>, summary: Summary<X>, current: bool, run: seq<LoopState<R, U>>) {
    && bound >= 1 && IsRun(s, run) && |run| - 1 <= bound && (current <==> |run| - 1 < bound)
    && (if current then Rests(s, run[|run| - 1], st) && comparedWith == st.plan && summary == s.world.summarize(st.replays, ConfigOf(s.world, comparedWith))
        else st == run[|run| - 1] && comparedWith == run[|run| - 2].plan)
  }

  method PatchLoop<R, C, X, U>(s: Setup<R, C, X, U>, bound: nat)
    returns (st: LoopState<R, U>, comparedWith: Option<Plan>, summary: Summary<X>, summaryIsCurrent: bool, ghost run: seq<LoopState<R, U>>)
    requires bound >= 1
    ensures Stopped(s, bound, st, comparedWith, summary, summaryIsCurrent, run)
  {
    var applied := 0;
    st := LoopState(s.dag, s.plan, s.plan, s.rules, s.replays, [], [], false, false);
    comparedWith, summary, summaryIsCurrent := s.plan, Summary(0, 0, []), false;
    run := [st];
    while applied < bound
      invariant 0 <= applied == |run| - 1 <= bound && IsRun(s, run) && st == run[|run| - 1]
      invariant !summaryIsCurrent && (|run| > 1 ==> comparedWith == run[|run| - 2].plan)
    {
      comparedWith := st.plan;
      ghost var before := st;
      var patched;
      st, summary, patched := PatchStep(s, st);
      if !patched {
        summaryIsCurrent := true;
        break;
      }
      RunNext(s, run, st);
      run := run + [st];
      applied := applied + 1;
    }
  }

  /** The run, and the certificate's comparison: after a run that reached its bound it still uses the configuration of the
      plan before the last patch. */
  method Evaluate<R(!new), C, X, U(!new)>(s: Setup<R, C, X, U>, maxSteps: int) returns (out: Outcome<R, U, X>)
    requires Distinct(s.dag.ids) && Kahn.EndpointsIn(Ends(s.dag.hardEdges), s.dag.ids)
    ensures Concluded(s, maxSteps, out)
  {
    ghost var run;
    var st, comparedWith, summary, summaryIsCurrent;
    st, comparedWith, summary, summaryIsCurrent, run := PatchLoop(s, Max(1, maxSteps));
    RunKeeps(s, run, |run| - 1);
    AtMostSix(run[|run| - 1].log);
    if !summaryIsCurrent {
      summary := s.world.summarize(st.replays, ConfigOf(s.world, comparedWith));
    }
    var acyclic := Kahn.IsAcyclic(st.dag.ids, Ends(st.dag.hardEdges));
    out := Outcome(st, summary, comparedWith, acyclic);
    ConcludedBy(s, maxSteps, out, run);
  }

  lemma MoveConservesActions<R, C, X, U>(s: Setup<R, C, X, U>, st: LoopState<R, U>, after: LoopState<R, U>)
    requires Moves(s, st, after) && s.replan == None
    ensures multiset(Order(after.plan.value.batches)) == multiset(Order(st.plan.value.batches))
  {
    if Level1Works(s, st) {
      ActionsConserved(st.plan.value, NextStrategy(s.world, CasesOf(s, st), st.tried).value, s.world.rank, s.world.ble);
    }
  }

  /** Without a planner no patch of a run loses or repeats an action of the plan. */
  lemma {:induction false} RunConservesActions<R, C, X, U>(s: Setup<R, C, X, U>, run: seq<LoopState<R, U>>, k: nat)
    requires IsRun(s, run) && s.replan == None && s.plan.Some? && k < |run|
    ensures run[k].plan.Some? && multiset(Order(run[k].plan.value.batches)) == multiset(Order(s.plan.value.batches))
  {
    if k > 0 {
      RunConservesActions(s, run, k - 1);
      assert Moves(s, run[k - 1], run[k - 1 + 1]);
      MoveConservesActions(s, run[k - 1], run[k]);
    }
  }

  /** So a plan that lists no action twice never comes to do so. */
  lemma RunKeepsDistinct<R, C, X, U>(s: Setup<R, C, X, U>, run: seq<LoopState<R, U>>, k: nat)
    requires IsRun(s, run) && s.replan == None && s.plan.Some? && Distinct(Listed(s.plan.value.batches)) && k < |run|
    ensures run[k].plan.Some? && Distinct(Listed(run[k].plan.value.batches))
  {
    RunConservesActions(s, run, k);
    var first, later := s.plan.value.batches, run[k].plan.value.batches;
    OrderPermutes(first);
    OrderPermutes(later);
    DistinctPermutes(Listed(later), Listed(first));
  }

  // ----- the comparison of a run that reached its bound

  /** The last patch, made to `before`, replaced the plan by another one: unbatching may give the same batches, the other
      strategies never do, and the planner may. */
  ghost predicate Replaced<R, C, X, U>(s: Setup<R, C, X, U>, before: LoopState<R, U>, st: LoopState<R, U>)
    requires st.log != [] && before.plan.Some?
  {
    var e := st.log[|st.log| - 1];
    if e.PlanPatch? then e.strategy == DisableBatching ==> before.plan.value.batches != UnbatchedPlan(before.plan.value, s.world.rank).batches
    else s.replan.Some? && before.plan != Some(s.replan.value(|st.log| - 1, st.dag))
  }

  /** The last patch changed what runs in parallel: switching session reuse off never does, unbatching does unless nothing
      ran in parallel, spacing where a group it makes serial ran in parallel, and reducing parallelism where it cuts a group
      into chunks that run otherwise. */
  ghost predicate Rescoped<R, C, X, U>(s: Setup<R, C, X, U>, before: LoopState<R, U>, st: LoopState<R, U>)
    requires st.log != [] && before.plan.Some?
  {
    var plan := before.plan.value;
    match st.log[|st.log| - 1]
    case PlanPatch(DisableSessionReuse) => false
    case PlanPatch(DisableBatching) => Scopes(plan.batches) != []
    case PlanPatch(EnforceMinGap) => SpacingBites(plan.batches, s.world.ble)
    case PlanPatch(ReduceParallelism) => SomeRescoped(plan.batches, Lowered(plan.maxParallel), s.world.rank)
    case _ => s.replan.Some? && Scopes(plan.batches) != Scopes(s.replan.value(|st.log| - 1, st.dag).batches)
  }

  lemma PatchRescopes(plan: Plan, strategy: Strategy, rank: Ranks, ble: set<string>)
    requires Changes(plan, strategy, rank, ble)
    ensures var after := Scopes(Patched(plan, strategy, rank, ble).batches);
            match strategy
            case DisableSessionReuse => after == Scopes(plan.batches)
            case DisableBatching => after == []
            case EnforceMinGap => after != Scopes(plan.batches) <==> SpacingBites(plan.batches, ble)
            case ReduceParallelism =>
              Distinct(Listed(plan.batches)) ==> (after != Scopes(plan.batches) <==> SomeRescoped(plan.batches, Lowered(plan.maxParallel), rank))
  {
    match strategy
    case DisableSessionReuse => SessionKeepsScopes(plan, rank, ble);
    case DisableBatching => UnbatchedScopes(plan, rank);
    case EnforceMinGap => SpacingExactly(plan, rank, ble);
    case ReduceParallelism => if Distinct(Listed(plan.batches)) { ReducedExactly(plan, rank); }
  }

  /** No action is listed twice in the plan that the last patch reduces. */
  ghost predicate ReducesDistinct(log: seq<Entry>, before: Plan) {
    log != [] && log[|log| - 1] == PlanPatch(ReduceParallelism) ==> Distinct(Listed(before.batches))
  }

  lemma PlanReplaced<R, C, X, U>(s: Setup<R, C, X, U>, before: LoopState<R, U>, st: LoopState<R, U>)
    requires Moves(s, before, st)
    ensures before.plan != st.plan <==> Replaced(s, before, st)
  {
  }

  lemma PlanRescoped<R, C, X, U>(s: Setup<R, C, X, U>, before: LoopState<R, U>, st: LoopState<R, U>)
    requires Moves(s, before, st) && ReducesDistinct(st.log, before.plan.value)
    ensures ScopesOf(before.plan) != ScopesOf(st.plan) <==> Rescoped(s, before, st)
  {
    if Level1Works(s, before) {
      PatchRescopes(before.plan.value, NextStrategy(s.world, CasesOf(s, before), before.tried).value, s.world.rank, s.world.ble);
    }
  }

  /** Before its bound a run compares with the plan it returns; at its bound it compares with the plan before the last
      patch, which is another one, or has another configuration, exactly when the patch made it so. */
  lemma StaleExactly<R(!new), C, X, U>(s: Setup<R, C, X, U>, maxSteps: int, out: Outcome<R, U, X>, run: seq<LoopState<R, U>>)
    requires Concludes(s, maxSteps, out, run)
    ensures var n := |run| - 1;
            if n < Max(1, maxSteps) then out.comparedWith == out.state.plan
            else
              && Moves(s, run[n - 1], out.state) && out.comparedWith == run[n - 1].plan
              && (out.comparedWith != out.state.plan <==> Replaced(s, run[n - 1], out.state))
              && (ReducesDistinct(out.state.log, run[n - 1].plan.value) ==>
                    (ConfigOf(s.world, out.comparedWith) != ConfigOf(s.world, out.state.plan) <==> Rescoped(s, run[n - 1], out.state)))
  {
    var n := |run| - 1;
    if n >= Max(1, maxSteps) {
      var before := run[n - 1];
      assert Moves(s, before, out.state) by { assert Moves(s, run[n - 1], run[n - 1 + 1]); }
      PlanReplaced(s, before, out.state);
      if ReducesDistinct(out.state.log, before.plan.value) { PlanRescoped(s, before, out.state); }
    }
  }

  lemma ReductionIsFirst(timeouts: bool)
    ensures FirstUntried(StrategyChain(false, timeouts), []) == Some(ReduceParallelism)
  {
    ChainOrder(timeouts);
    FirstOfChain(StrategyChain(false, timeouts));
  }

  lemma {:induction false} FirstOfChain(chain: seq<Strategy>)
    requires chain != []
    ensures FirstUntried(chain, []) == Some(chain[0])
  {
    if |chain| > 1 { FirstOfChain(chain[..|chain| - 1]); }
  }

  /** The first comparison finds a difference, none of them about order. */
  ghost predicate DiffersAtFirst<R, C, X, U>(s: Setup<R, C, X, U>) {
    s.replay.Some? && CasesOf(s, Start(s)) != [] && !OrderType(s.world, CasesOf(s, Start(s)))
  }

  /** Whatever the replays say: one step on a plan that runs at most two actions together reduces it to serial runs, and
      the returned comparison still lets actions be in any order. */
  lemma StaleRun<R(!new), C, X, U(!new)>(s: Setup<R, C, X, U>, out: Outcome<R, U, X>)
    requires s.plan.Some? && s.plan.value.maxParallel <= 2 && Scopes(s.plan.value.batches) != []
    requires DiffersAtFirst(s) && Concluded(s, 1, out)
    ensures ScopesOf(out.comparedWith) == Scopes(s.plan.value.batches) && ScopesOf(out.state.plan) == []
    ensures out.summary == s.world.summarize(out.state.replays, Config(s.world.base, Scopes(s.plan.value.batches)))
  {
    var plan, rank := s.plan.value, s.world.rank;
    var run :| Concludes(s, 1, out, run);
    ReductionIsFirst(s.world.timeouts(CasesOf(s, Start(s))));
    ReducedToSerial(plan, rank);
    if |run| > 1 { assert Moves(s, run[0], run[0 + 1]); }
  }

  const BOTH_TOGETHER := Plan([Batch(Given("B001"), [["a", "b"]], None, None, None, 1, [], [])], 2, 1, 1)

  /** Such a run compares two actions as parallel that the returned plan runs one after the other. */
  lemma StaleExample<R(!new), C, X, U(!new)>(s: Setup<R, C, X, U>, out: Outcome<R, U, X>)
    requires s.plan == Some(BOTH_TOGETHER) && DiffersAtFirst(s) && Concluded(s, 1, out)
    ensures ConfigOf(s.world, out.comparedWith).scopes == [["a", "b"]] && ConfigOf(s.world, out.state.plan).scopes == []
  {
    TogetherScopes();
    StaleRun(s, out);
  }

  lemma TogetherScopes()
    ensures Scopes(BOTH_TOGETHER.batches) == [["a", "b"]]
  {
    var b := BOTH_TOGETHER.batches[0];
    ScopesAppend([], b);
    GroupsScopesLast(b, [], ["a", "b"]);
    assert [b] == [] + [b] && [["a", "b"]] == [] + [["a", "b"]];
    TokensAppend(["a"], ["b"]);
    assert ["a"] + ["b"] == ["a", "b"];
    NoRowsLayout(b, ["a", "b"]);
  }
}
