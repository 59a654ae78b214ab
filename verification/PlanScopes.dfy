/** The sets of actions a plan runs in parallel, on which the comparison of traces depends, and what the level-1 patches do
    to them (optimizer/m6_trust.py `_parallel_action_scopes`, `_trace_compare_config`, `_apply_level1_patch`). */
module PlanScopes {
  import opened Contracts
  import opened PlanLayout
  import opened Sequences

  type Scope = seq<string>

  /** The parallel part of a group, if it has more than one action. */
  function GroupScopes(b: Batch, group: seq<string>): seq<Scope> {
    var tokens := Tokens(group);
    if |tokens| < 2 then []
    else
      var together := GroupLayout(b, tokens).parallel;
      if |together| > 1 then [together] else []
  }

  function GroupsScopes(b: Batch, groups: seq<seq<string>>): seq<Scope> {
    if groups == [] then [] else GroupsScopes(b, groups[..|groups| - 1]) + GroupScopes(b, groups[|groups| - 1])
  }

  function Scopes(batches: seq<Batch>): seq<Scope> {
    if batches == [] then []
    else Scopes(batches[..|batches| - 1]) + GroupsScopes(batches[|batches| - 1], batches[|batches| - 1].groups)
  }

  lemma GroupsScopesNext(b: Batch, groups: seq<seq<string>>, j: nat)
    requires j < |groups|
    ensures GroupsScopes(b, groups[..j + 1]) == GroupsScopes(b, groups[..j]) + GroupScopes(b, groups[j])
  {
    assert groups[..j + 1][..j] == groups[..j];
  }

  lemma ScopesAppend(batches: seq<Batch>, b: Batch)
    ensures Scopes(batches + [b]) == Scopes(batches) + GroupsScopes(b, b.groups)
  {
    assert (batches + [b])[..|batches|] == batches;
  }

  method BatchScopes(b: Batch) returns (scopes: seq<Scope>)
    ensures scopes == GroupsScopes(b, b.groups)
  {
    scopes := [];
    for j := 0 to |b.groups|
      invariant scopes == GroupsScopes(b, b.groups[..j])
    {
      var tokens := Tokens(b.groups[j]);
      GroupsScopesNext(b, b.groups, j);
      if |tokens| >= 2 {
        var layout := GroupLayout(b, tokens);
        if |layout.parallel| > 1 { scopes := scopes + [layout.parallel]; }
      }
    }
    TakeAll(b.groups);
  }

  method ParallelActionScopes(plan: Plan) returns (scopes: seq<Scope>)
    ensures scopes == Scopes(plan.batches)
  {
    scopes := [];
    for i := 0 to |plan.batches|
      invariant scopes == Scopes(plan.batches[..i])
    {
      var part := BatchScopes(plan.batches[i]);
      TakeNext(plan.batches, i);
      ScopesAppend(plan.batches[..i], plan.batches[i]);
      scopes := scopes + part;
    }
    TakeAll(plan.batches);
  }

  lemma GroupsScopesLast(b: Batch, front: seq<seq<string>>, last: seq<string>)
    ensures GroupsScopes(b, front + [last]) == GroupsScopes(b, front) + GroupScopes(b, last)
  {
    assert (front + [last])[..|front|] == front;
  }

  // ----- session reuse

  lemma {:induction false} SameFallback(b: Batch, c: Batch, groups: seq<seq<string>>)
    requires b.fallback == c.fallback
    ensures GroupsScopes(b, groups) == GroupsScopes(c, groups)
  {
    if groups != [] { SameFallback(b, c, groups[..|groups| - 1]); }
  }

  lemma {:induction false} MappedScopes(batches: seq<Batch>, f: Batch -> Batch)
    requires forall b :: b in batches ==> GroupsScopes(f(b), f(b).groups) == GroupsScopes(b, b.groups)
    ensures Scopes(MapBatches(batches, f)) == Scopes(batches)
  {
    if batches != [] {
      MappedScopes(batches[..|batches| - 1], f);
      assert MapBatches(batches, f)[..|batches| - 1] == MapBatches(batches[..|batches| - 1], f);
      assert batches[|batches| - 1] in batches;
    }
  }

  /** Switching session reuse off never changes what runs in parallel. */
  lemma SessionKeepsScopes(plan: Plan, rank: Ranks, ble: set<string>)
    ensures Scopes(Patched(plan, DisableSessionReuse, rank, ble).batches) == Scopes(plan.batches)
  {
    forall b | b in plan.batches { SameFallback(WithoutSession(b), b, b.groups); }
    MappedScopes(plan.batches, WithoutSession);
  }

  // ----- unbatching

  lemma SingleScopes(position: nat, action: string)
    requires IsToken(action)
    ensures GroupsScopes(Single(position, action), Single(position, action).groups) == []
  {
    SingleIsSerial(position, action);
    GroupsScopesLast(Single(position, action), [], [action]);
    assert [[action]] == [] + [[action]];
  }

  lemma {:induction false} SinglesScopes(actions: seq<string>)
    requires forall i :: 0 <= i < |actions| ==> IsToken(actions[i])
    ensures Scopes(Singles(actions)) == []
  {
    if actions != [] {
      var n := |actions| - 1;
      SinglesScopes(actions[..n]);
      SinglesNext(actions, n);
      ScopesAppend(Singles(actions[..n]), Single(n, actions[n]));
      SingleScopes(n, actions[n]);
    }
  }

  /** Without batching nothing runs in parallel. */
  lemma UnbatchedScopes(plan: Plan, rank: Ranks)
    requires |Order(plan.batches)| > 1
    ensures Scopes(UnbatchedPlan(plan, rank).batches) == []
  {
    UnbatchedOrder(plan, rank);
    SinglesScopes(ByRank(Order(plan.batches), rank));
  }

  // ----- spacing

  lemma {:induction false} FilterAppend<T(!new)>(s: seq<T>, x: T, keep: T -> bool)
    ensures Filter(s + [x], keep) == Filter(s, keep) + if keep(x) then [x] else []
  {
    assert (s + [x])[..|s|] == s;
  }

  lemma RowElsewhere(group: seq<string>, rows: seq<FallbackRow>, row: FallbackRow)
    requires row.scope != [] && !Touches(row.scope, group)
    ensures RowsFor(group, AppendRow(rows, row)) == RowsFor(group, rows)
  {
    FilterAppend(rows, row, (r: FallbackRow) => r.scope == [] || Touches(r.scope, group));
  }

  lemma LayoutByRows(b: Batch, c: Batch, group: seq<string>)
    requires RowsFor(group, b.fallback) == RowsFor(group, c.fallback)
    ensures GroupLayout(b, group) == GroupLayout(c, group)
  {
  }

  /** The group holds a BLE action of a batch with several of them. */
  ghost predicate MadeSerial(b: Batch, ble: set<string>, group: seq<string>) {
    |BleScope(b, ble)| >= 2 && exists id :: id in Tokens(group) && id in ble
  }

  lemma SpacedElsewhere(b: Batch, ble: set<string>, group: seq<string>)
    requires group in b.groups && !MadeSerial(b, ble, group)
    ensures GroupScopes(Spaced(b, ble), group) == GroupScopes(b, group)
  {
    var scope, tokens := BleScope(b, ble), Tokens(group);
    if |scope| >= 2 {
      assert !Touches(scope, tokens);
      var row1, row2 := FallbackRow(MinGap, scope, PreserveActionOrder, TransportSerial), FallbackRow(NoOverlap, scope, SerializeBle, TransportSerial);
      RowElsewhere(tokens, b.fallback, row1);
      RowElsewhere(tokens, AppendRow(b.fallback, row1), row2);
    }
    LayoutByRows(Spaced(b, ble), b, tokens);
  }

  lemma SpacedSerial(b: Batch, ble: set<string>, group: seq<string>)
    requires group in b.groups && MadeSerial(b, ble, group)
    ensures GroupScopes(Spaced(b, ble), group) == []
  {
    var after, tokens := Spaced(b, ble), Tokens(group);
    var row := FallbackRow(MinGap, BleScope(b, ble), PreserveActionOrder, TransportSerial);
    var id :| id in tokens && id in ble;
    TokensInConcat(b.groups, group, id);
    assert id in row.scope && Touches(row.scope, tokens);
    assert row in after.fallback;
    assert row in RowsFor(tokens, after.fallback);
  }

  /** The group runs several actions in parallel and one of them is made serial. */
  ghost predicate Loses(b: Batch, ble: set<string>, group: seq<string>) {
    MadeSerial(b, ble, group) && GroupScopes(b, group) != []
  }

  lemma {:induction false} SpacedGroups(b: Batch, ble: set<string>, groups: seq<seq<string>>)
    requires forall g :: g in groups ==> g in b.groups
    ensures |GroupsScopes(Spaced(b, ble), groups)| <= |GroupsScopes(b, groups)|
    ensures (exists g :: g in groups && Loses(b, ble, g)) ==> |GroupsScopes(Spaced(b, ble), groups)| < |GroupsScopes(b, groups)|
    ensures (forall g :: g in groups ==> !Loses(b, ble, g)) ==> GroupsScopes(Spaced(b, ble), groups) == GroupsScopes(b, groups)
  {
    if groups != [] {
      var front, last := groups[..|groups| - 1], groups[|groups| - 1];
      assert groups == front + [last] && last in groups;
      SpacedGroups(b, ble, front);
      if MadeSerial(b, ble, last) { SpacedSerial(b, ble, last); } else { SpacedElsewhere(b, ble, last); }
    }
  }

  /** Some batch with several BLE actions has one of them in a group that runs several actions in parallel. */
  ghost predicate SpacingBites(batches: seq<Batch>, ble: set<string>) {
    exists b :: b in batches && BatchLoses(b, ble)
  }

  ghost predicate BatchLoses(b: Batch, ble: set<string>) {
    exists g :: g in b.groups && Loses(b, ble, g)
  }

  ghost function SpacedAll(batches: seq<Batch>, ble: set<string>): seq<Batch> {
    MapBatches(batches, (b: Batch) => Spaced(b, ble))
  }

  lemma SpacedAllNext(front: seq<Batch>, b: Batch, ble: set<string>)
    ensures Scopes(SpacedAll(front + [b], ble)) == Scopes(SpacedAll(front, ble)) + GroupsScopes(Spaced(b, ble), b.groups)
  {
    assert SpacedAll(front + [b], ble) == SpacedAll(front, ble) + [Spaced(b, ble)];
    ScopesAppend(SpacedAll(front, ble), Spaced(b, ble));
  }

  /** Spacing takes scopes away, and only where it bites. */
  ghost predicate SpacingTakes(batches: seq<Batch>, ble: set<string>) {
    var after, before := Scopes(SpacedAll(batches, ble)), Scopes(batches);
    |after| <= |before| && if SpacingBites(batches, ble) then |after| < |before| else after == before
  }

  lemma SpacedStep(front: seq<Batch>, b: Batch, ble: set<string>)
    requires SpacingTakes(front, ble)
    ensures SpacingTakes(front + [b], ble)
  {
    SpacedGroups(b, ble, b.groups);
    SpacedAllNext(front, b, ble);
    ScopesAppend(front, b);
    BitesNext(front, b, ble);
  }

  lemma {:induction false} SpacedBatches(batches: seq<Batch>, ble: set<string>)
    ensures SpacingTakes(batches, ble)
  {
    if batches != [] {
      var front, b := batches[..|batches| - 1], batches[|batches| - 1];
      SpacedBatches(front, ble);
      SpacedStep(front, b, ble);
      assert batches == front + [b];
    }
  }

  lemma BitesNext(front: seq<Batch>, b: Batch, ble: set<string>)
    ensures SpacingBites(front + [b], ble) <==> SpacingBites(front, ble) || BatchLoses(b, ble)
  {
    assert b in front + [b];
    if SpacingBites(front, ble) {
      var c :| c in front && BatchLoses(c, ble);
      assert c in front + [b];
    }
  }

  lemma SpacedPlan(plan: Plan, rank: Ranks, ble: set<string>)
    ensures Patched(plan, EnforceMinGap, rank, ble).batches == SpacedAll(plan.batches, ble)
  {
  }

  lemma SpacedDiffers(batches: seq<Batch>, ble: set<string>)
    ensures Scopes(SpacedAll(batches, ble)) != Scopes(batches) <==> SpacingBites(batches, ble)
  {
    SpacedBatches(batches, ble);
  }

  /** Spacing changes what runs in parallel exactly when it bites. */
  lemma SpacingExactly(plan: Plan, rank: Ranks, ble: set<string>)
    ensures Scopes(Patched(plan, EnforceMinGap, rank, ble).batches) != Scopes(plan.batches) <==> SpacingBites(plan.batches, ble)
  {
    SpacedPlan(plan, rank, ble);
    SpacedDiffers(plan.batches, ble);
  }

  // ----- less parallelism

  /** Every group has at most `cap` ids that are not blank. */
  ghost predicate Fitting(batches: seq<Batch>, cap: nat) {
    forall b, g :: b in batches && g in b.groups ==> |NonBlank(g)| <= cap
  }

  lemma SameTokens(b: Batch, g: seq<string>, h: seq<string>)
    requires Tokens(g) == Tokens(h)
    ensures GroupScopes(b, g) == GroupScopes(b, h)
  {
  }

  lemma RegroupOne(b: Batch, more: seq<seq<string>>, group: seq<string>, cap: nat, rank: Ranks)
    requires cap >= 1 && |NonBlank(group)| <= cap
    ensures GroupsScopes(b, more + Regroup(group, cap, rank)) == GroupsScopes(b, more) + GroupScopes(b, group)
  {
    TokensOfNonBlank(group);
    SameTokens(b, NonBlank(group), group);
    if NonBlank(group) == [] {
      assert GroupScopes(b, group) == [];
      assert more + [] == more;
    } else {
      GroupsScopesLast(b, more, NonBlank(group));
    }
  }

  lemma {:induction false} RegroupFitting(b: Batch, groups: seq<seq<string>>, cap: nat, rank: Ranks)
    requires cap >= 1 && forall g :: g in groups ==> |NonBlank(g)| <= cap
    ensures GroupsScopes(b, RegroupAll(groups, cap, rank)) == GroupsScopes(b, groups)
  {
    if groups != [] {
      var front, last := groups[..|groups| - 1], groups[|groups| - 1];
      assert last in groups;
      RegroupFitting(b, front, cap, rank);
      RegroupOne(b, RegroupAll(front, cap, rank), last, cap, rank);
    }
  }

  /** Nothing changes when no group is too large for the new cap. */
  lemma ReducedFitting(plan: Plan, rank: Ranks)
    requires Fitting(plan.batches, Lowered(plan.maxParallel))
    ensures Scopes(ReducedPlan(plan, rank).batches) == Scopes(plan.batches)
  {
    var cap := Lowered(plan.maxParallel);
    forall b | b in plan.batches ensures GroupsScopes(Regrouped(b, cap, rank), Regrouped(b, cap, rank).groups) == GroupsScopes(b, b.groups) {
      RegroupFitting(b, b.groups, cap, rank);
      SameFallback(Regrouped(b, cap, rank), b, Regrouped(b, cap, rank).groups);
    }
    MappedScopes(plan.batches, (b: Batch) => Regrouped(b, cap, rank));
  }

  ghost predicate NoneLarger(scopes: seq<Scope>, cap: nat) {
    forall s :: s in scopes ==> |s| <= cap
  }

  lemma {:induction false} TokensAtMost(ids: seq<string>)
    ensures |Tokens(ids)| <= |NonBlank(ids)|
  {
    if ids != [] { TokensAtMost(ids[..|ids| - 1]); }
  }

  lemma GroupAtMost(b: Batch, group: seq<string>, cap: nat)
    requires |NonBlank(group)| <= cap
    ensures NoneLarger(GroupScopes(b, group), cap)
  {
    var tokens := Tokens(group);
    TokensAtMost(group);
    LayoutPermutes(b, tokens);
    var l := GroupLayout(b, tokens);
    assert |multiset(l.parallel)| + |multiset(l.serial)| == |multiset(tokens)|;
  }

  lemma {:induction false} NonBlankAtMost(ids: seq<string>)
    ensures |NonBlank(ids)| <= |ids|
  {
    if ids != [] { NonBlankAtMost(ids[..|ids| - 1]); }
  }

  lemma {:induction false} GroupsAtMost(b: Batch, groups: seq<seq<string>>, cap: nat)
    requires forall g :: g in groups ==> |NonBlank(g)| <= cap
    ensures NoneLarger(GroupsScopes(b, groups), cap)
  {
    if groups != [] {
      assert groups == groups[..|groups| - 1] + [groups[|groups| - 1]];
      GroupsAtMost(b, groups[..|groups| - 1], cap);
      GroupAtMost(b, groups[|groups| - 1], cap);
    }
  }

  lemma {:induction false} NoBlankGroups(groups: seq<seq<string>>, cap: nat, rank: Ranks)
    requires cap >= 1 && RegroupAll(groups, cap, rank) == []
    ensures forall g :: g in groups ==> NonBlank(g) == []
  {
    if groups != [] {
      var front, last := groups[..|groups| - 1], groups[|groups| - 1];
      assert groups == front + [last];
      NoBlankGroups(front, cap, rank);
      RegroupConserves(last, cap, rank);
      assert |multiset(NonBlank(last))| == |NonBlank(last)|;
    }
  }

  lemma RegroupedAtMost(b: Batch, cap: nat, rank: Ranks)
    requires cap >= 1
    ensures NoneLarger(GroupsScopes(Regrouped(b, cap, rank), Regrouped(b, cap, rank).groups), cap)
  {
    var after := Regrouped(b, cap, rank);
    RegroupAllConserves(b.groups, cap, rank);
    if RegroupAll(b.groups, cap, rank) == [] { NoBlankGroups(b.groups, cap, rank); }
    forall g | g in after.groups ensures |NonBlank(g)| <= cap { NonBlankAtMost(g); }
    GroupsAtMost(after, after.groups, cap);
  }

  lemma {:induction false} ReducedAtMost(batches: seq<Batch>, cap: nat, rank: Ranks)
    requires cap >= 1
    ensures NoneLarger(Scopes(MapBatches(batches, (b: Batch) => Regrouped(b, cap, rank))), cap)
  {
    if batches != [] {
      var front, f := batches[..|batches| - 1], (b: Batch) => Regrouped(b, cap, rank);
      ReducedAtMost(front, cap, rank);
      assert MapBatches(batches, f)[..|batches| - 1] == MapBatches(front, f);
      RegroupedAtMost(batches[|batches| - 1], cap, rank);
    }
  }

  /** What runs in parallel changes whenever a scope is larger than the new cap. */
  lemma ReducedChanges(plan: Plan, rank: Ranks)
    requires !NoneLarger(Scopes(plan.batches), Lowered(plan.maxParallel))
    ensures Scopes(ReducedPlan(plan, rank).batches) != Scopes(plan.batches)
  {
    ReducedAtMost(plan.batches, Lowered(plan.maxParallel), rank);
  }

  lemma {:induction false} GroupsScopesHold(b: Batch, groups: seq<seq<string>>)
    ensures forall s :: s in GroupsScopes(b, groups) ==> |s| > 1
  {
    if groups != [] { GroupsScopesHold(b, groups[..|groups| - 1]); }
  }

  /** Every scope holds two actions or more. */
  lemma {:induction false} ScopesHold(batches: seq<Batch>)
    ensures forall s :: s in Scopes(batches) ==> |s| > 1
  {
    if batches != [] {
      ScopesHold(batches[..|batches| - 1]);
      GroupsScopesHold(batches[|batches| - 1], batches[|batches| - 1].groups);
    }
  }

  lemma TwoIsLarger(scopes: seq<Scope>)
    requires scopes != [] && forall s :: s in scopes ==> |s| > 1
    ensures !NoneLarger(scopes, 1)
  {
    assert scopes[0] in scopes;
  }

  /** From a limit of two or less nothing runs in parallel afterwards. */
  lemma ReducedToSerial(plan: Plan, rank: Ranks)
    requires plan.maxParallel <= 2
    ensures Scopes(ReducedPlan(plan, rank).batches) == []
  {
    var after := ReducedPlan(plan, rank);
    ReducedAtMost(plan.batches, 1, rank);
    ScopesHold(after.batches);
    if Scopes(after.batches) != [] { TwoIsLarger(Scopes(after.batches)); }
  }

  lemma {:induction false} AllTogether(b: Batch, groups: seq<seq<string>>, g: seq<string>)
    requires b.fallback == [] && g in groups && |Tokens(g)| >= 2
    ensures Tokens(g) in GroupsScopes(b, groups)
  {
    var front, last := groups[..|groups| - 1], groups[|groups| - 1];
    assert groups == front + [last];
    if g == last {
      NoRowsLayout(b, Tokens(g));
      assert GroupScopes(b, g) == [Tokens(g)];
    } else {
      AllTogether(b, front, g);
    }
  }

  lemma NoRowsLayout(b: Batch, tokens: seq<string>)
    requires b.fallback == []
    ensures GroupLayout(b, tokens).parallel == tokens
  {
    assert RowsFor(tokens, []) == [];
    KeepAllOf(tokens, (id: string) => !RunsSerially(tokens, [], id));
  }

  lemma {:induction false} KeepAllOf<T(!new)>(s: seq<T>, keep: T -> bool)
    requires forall x :: keep(x)
    ensures Filter(s, keep) == s
  {
    if s != [] { KeepAllOf(s[..|s| - 1], keep); }
  }

  lemma {:induction false} TokensCount(ids: seq<string>)
    ensures |Tokens(ids)| == |NonBlank(ids)|
  {
    if ids != [] { TokensCount(ids[..|ids| - 1]); }
  }

  lemma {:induction false} ScopeOfBatch(batches: seq<Batch>, b: Batch, s: Scope)
    requires b in batches && s in GroupsScopes(b, b.groups)
    ensures s in Scopes(batches)
  {
    var front, last := batches[..|batches| - 1], batches[|batches| - 1];
    assert batches == front + [last];
    if b != last { ScopeOfBatch(front, b, s); }
  }

  /** Without fallback rows, reducing parallelism changes what runs in parallel exactly when a group is too large. */
  lemma ReducedWithoutRows(plan: Plan, rank: Ranks)
    requires forall b :: b in plan.batches ==> b.fallback == []
    ensures Scopes(ReducedPlan(plan, rank).batches) != Scopes(plan.batches) <==> !Fitting(plan.batches, Lowered(plan.maxParallel))
  {
    var cap := Lowered(plan.maxParallel);
    if Fitting(plan.batches, cap) {
      ReducedFitting(plan, rank);
    } else {
      var b, g :| b in plan.batches && g in b.groups && |NonBlank(g)| > cap;
      TokensCount(g);
      AllTogether(b, b.groups, g);
      ScopeOfBatch(plan.batches, b, Tokens(g));
      ReducedChanges(plan, rank);
    }
  }
}
