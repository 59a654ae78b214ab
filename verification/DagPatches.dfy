/** Patches of the typed graph during rollback (optimizer/m6_trust.py `_apply_rule_overlay_to_dag`,
    `_apply_level3_constraint_patch`, `_dag_has_path`). Both patches touch soft constraints only. */
module DagPatches {
  import opened Contracts
  import opened Digraph
  import opened Sequences
  import Sorting
  import Text

  // ----- level 2: rules switched off or tightened

  const SAFE_MODE := "rollback_safe_mode"

  function Tighten(guard: string): string {
    if Text.Contains(Text.Lower(guard), SAFE_MODE) then guard
    else if guard == "true" then SAFE_MODE
    else "(" + guard + ") AND " + SAFE_MODE
  }

  /** A tightened guard demands safe mode, and tightening again changes nothing. */
  lemma TightenDemandsSafeMode(guard: string)
    ensures Text.Contains(Text.Lower(Tighten(guard)), SAFE_MODE) && Tighten(Tighten(guard)) == Tighten(guard)
  {
    var t, n := Tighten(guard), |guard|;
    if !Text.Contains(Text.Lower(guard), SAFE_MODE) {
      if guard == "true" {
        assert SAFE_MODE <= Text.Lower(t)[0..];
      } else {
        var prefix := "(" + guard + ") AND ";
        assert t == prefix + SAFE_MODE;
        assert SAFE_MODE <= Text.Lower(t)[|prefix|..];
      }
    }
  }

  function Overlaid(c: SoftConstraint, tightened: set<string>): SoftConstraint {
    if c.ruleId != "" && c.ruleId in tightened then c.(guard := Tighten(c.guard)) else c
  }

  /** Constraints of disabled rules are dropped, those of tightened rules guarded. */
  ghost function Overlay(constraints: seq<SoftConstraint>, disabled: set<string>, tightened: set<string>): seq<SoftConstraint> {
    if constraints == [] then []
    else
      var front, c := Overlay(constraints[..|constraints| - 1], disabled, tightened), constraints[|constraints| - 1];
      if c.ruleId != "" && c.ruleId in disabled then front else front + [Overlaid(c, tightened)]
  }

  method ApplyRuleOverlay(dag: TypedDag, disabled: set<string>, tightened: set<string>) returns (patched: TypedDag, changed: bool)
    ensures patched == dag.(softConstraints := Overlay(dag.softConstraints, disabled, tightened))
    ensures Overlays(dag.softConstraints, patched.softConstraints, disabled, tightened)
    ensures changed == (patched != dag)
  {
    var kept: seq<SoftConstraint> := [];
    changed := false;
    ghost var all := dag.softConstraints;
    for i := 0 to |dag.softConstraints|
      invariant kept == Overlay(all[..i], disabled, tightened) && |kept| <= i
      invariant changed == (kept != all[..i])
    {
      var c := dag.softConstraints[i];
      assert all[..i + 1][..i] == all[..i];
      if c.ruleId != "" && c.ruleId in disabled {
        changed := true;
      } else {
        var after := Overlaid(c, tightened);
        if after != c { changed := true; }
        assert (kept + [after])[..|kept|] == kept && (kept + [after])[|kept|] == after;
        assert all[..i + 1][i] == c;
        kept := kept + [after];
      }
    }
    assert all[..|all|] == all;
    patched := dag.(softConstraints := kept);
    ghost var places := OverlayLeaves(all, disabled, tightened);
  }

  /** After the overlay no constraint of a disabled rule is left, and all others are, in order. */
  lemma {:induction false} OverlayExactly(constraints: seq<SoftConstraint>, disabled: set<string>, tightened: set<string>)
    ensures Overlay(constraints, disabled, tightened) == OverlayAll(Filter(constraints, (c: SoftConstraint) => c.ruleId == "" || c.ruleId !in disabled), tightened)
  {
    if constraints != [] {
      var n, keep := |constraints| - 1, (c: SoftConstraint) => c.ruleId == "" || c.ruleId !in disabled;
      OverlayExactly(constraints[..n], disabled, tightened);
      var front := Filter(constraints[..n], keep);
      assert OverlayAll(front + [constraints[n]], tightened) == OverlayAll(front, tightened) + [Overlaid(constraints[n], tightened)];
    }
  }

  ghost function OverlayAll(constraints: seq<SoftConstraint>, tightened: set<string>): (r: seq<SoftConstraint>)
    ensures |r| == |constraints| && forall i :: 0 <= i < |r| ==> r[i] == Overlaid(constraints[i], tightened)
  {
    seq(|constraints|, i requires 0 <= i < |constraints| => Overlaid(constraints[i], tightened))
  }

  ghost predicate Rising(kept: seq<nat>) {
    forall k, l :: 0 <= k < l < |kept| ==> kept[k] < kept[l]
  }

  /** Only the guard may change: that of a tightened rule demands safe mode afterwards, in addition to what it demanded. */
  ghost predicate Guarded(before: SoftConstraint, after: SoftConstraint, tightened: set<string>) {
    && after == before.(guard := after.guard)
    && if before.ruleId == "" || before.ruleId !in tightened then after.guard == before.guard else Demanding(before.guard, after.guard)
  }

  ghost predicate Demanding(before: string, after: string) {
    && Text.Contains(Text.Lower(after), SAFE_MODE)
    && (Text.Contains(Text.Lower(before), SAFE_MODE) ==> after == before)
    && (after == before || (before == "true" && after == SAFE_MODE) || after == "(" + before + ") AND " + SAFE_MODE)
  }

  /** The constraints at the places `kept`, and no others, are left, in order: those of no disabled rule. */
  ghost predicate OverlaysAt(before: seq<SoftConstraint>, after: seq<SoftConstraint>, kept: seq<nat>, disabled: set<string>, tightened: set<string>) {
    && |kept| == |after| && Rising(kept)
    && (forall i: nat :: i in kept <==> i < |before| && (before[i].ruleId == "" || before[i].ruleId !in disabled))
    && (forall k :: 0 <= k < |after| ==> kept[k] in kept && Guarded(before[kept[k]], after[k], tightened))
  }

  ghost predicate Overlays(before: seq<SoftConstraint>, after: seq<SoftConstraint>, disabled: set<string>, tightened: set<string>) {
    exists kept :: OverlaysAt(before, after, kept, disabled, tightened)
  }

  lemma TightenDemands(guard: string)
    ensures Demanding(guard, Tighten(guard))
  {
    TightenDemandsSafeMode(guard);
  }

  lemma OverlaidIsGuarded(c: SoftConstraint, tightened: set<string>)
    ensures Guarded(c, Overlaid(c, tightened), tightened)
  {
    TightenDemands(c.guard);
  }

  ghost predicate Stays(c: SoftConstraint, disabled: set<string>) {
    c.ruleId == "" || c.ruleId !in disabled
  }

  lemma OverlayDrops(before: seq<SoftConstraint>, after: seq<SoftConstraint>, kept: seq<nat>, c: SoftConstraint, disabled: set<string>, tightened: set<string>)
    requires OverlaysAt(before, after, kept, disabled, tightened) && !Stays(c, disabled)
    ensures OverlaysAt(before + [c], after, kept, disabled, tightened)
  {
  }

  lemma OverlayTakes(before: seq<SoftConstraint>, after: seq<SoftConstraint>, kept: seq<nat>, c: SoftConstraint, d: SoftConstraint, disabled: set<string>, tightened: set<string>)
    requires OverlaysAt(before, after, kept, disabled, tightened) && Stays(c, disabled) && Guarded(c, d, tightened)
    ensures OverlaysAt(before + [c], after + [d], kept + [|before|], disabled, tightened)
  {
    var all, places := before + [c], kept + [|before|];
    forall k | 0 <= k < |after| + 1 ensures places[k] in places && Guarded(all[places[k]], (after + [d])[k], tightened) {
      if k < |after| { assert kept[k] in kept && all[kept[k]] == before[kept[k]]; }
    }
    forall k | 0 <= k < |kept| ensures kept[k] < |before| { assert kept[k] in kept; }
    forall i: nat ensures i in places <==> i < |all| && Stays(all[i], disabled) {
      if i < |before| { assert all[i] == before[i]; }
    }
  }

  /** What the overlay leaves, constraint by constraint. */
  lemma {:induction false} OverlayLeaves(before: seq<SoftConstraint>, disabled: set<string>, tightened: set<string>) returns (kept: seq<nat>)
    ensures OverlaysAt(before, Overlay(before, disabled, tightened), kept, disabled, tightened)
  {
    kept := [];
    if before != [] {
      var n := |before| - 1;
      var front, c := before[..n], before[n];
      kept := OverlayLeaves(front, disabled, tightened);
      assert before == front + [c];
      if Stays(c, disabled) {
        OverlaidIsGuarded(c, tightened);
        OverlayTakes(front, Overlay(front, disabled, tightened), kept, c, Overlaid(c, tightened), disabled, tightened);
        kept := kept + [n];
      } else {
        OverlayDrops(front, Overlay(front, disabled, tightened), kept, c, disabled, tightened);
      }
    }
  }

  // ----- level 3: order and overlap constraints

  /** What identifies a soft constraint. */
  datatype Key = Key(kind: SoftKind, scope: seq<string>, guard: string, fallback: string)

  function SortedScope(scope: seq<string>): seq<string> {
    Sorting.Sort(scope, Text.Less)
  }

  function KeyOf(c: SoftConstraint): Key {
    Key(c.kind, SortedScope(c.scope), c.guard, c.fallback)
  }

  function Keys(constraints: seq<SoftConstraint>): set<Key> {
    set c | c in constraints :: KeyOf(c)
  }

  const PRESERVE := "preserve_action_order"
  const BLE_SERIAL := "set_ble_parallelism_to_1"

  /** The two actions as a sorted set. */
  function PairScope(src: string, dst: string): seq<string> {
    if src == dst then [src] else if Text.Less(src, dst) then [src, dst] else [dst, src]
  }

  ghost function OrderConstraint(src: string, dst: string): SoftConstraint {
    SoftConstraint(SoftOrder, PairScope(src, dst), "m6_level3_action_order", "", [src, dst], "true", PRESERVE)
  }

  function SerialConstraint(scope: seq<string>): SoftConstraint {
    SoftConstraint(NoOverlap, scope, "m6_level3_ble_serial", "", [], "true", BLE_SERIAL)
  }

  ghost function AddNew(constraints: seq<SoftConstraint>, c: SoftConstraint): seq<SoftConstraint> {
    if KeyOf(c) in Keys(constraints) then constraints else constraints + [c]
  }

  /** The order of actions, those the counterexamples implicate (all when there are none), the pairs of one parallel group,
      the BLE actions. */
  datatype Level3 = Level3(order: seq<string>, implicated: set<string>, together: set<(string, string)>, ble: set<string>)

  predicate Skipped(l: Level3, src: string, dst: string) {
    (l.implicated != {} && src !in l.implicated && dst !in l.implicated) || (src, dst) in l.together
  }

  /** Constraints after the first `n` neighbouring pairs. */
  ghost function Ordered(constraints: seq<SoftConstraint>, l: Level3, n: nat): seq<SoftConstraint>
    requires n < |l.order| || n == 0
  {
    if n == 0 then constraints
    else
      var before, src, dst := Ordered(constraints, l, n - 1), l.order[n - 1], l.order[n];
      if Skipped(l, src, dst) then before else AddNew(before, OrderConstraint(src, dst))
  }

  function PairCount(l: Level3): nat {
    if l.order == [] then 0 else |l.order| - 1
  }

  function BleScope(l: Level3): seq<string> {
    Filter(l.order, (a: string) => a in l.ble)
  }

  ghost function Constrained(constraints: seq<SoftConstraint>, l: Level3): seq<SoftConstraint> {
    var ordered := Ordered(constraints, l, PairCount(l));
    if |BleScope(l)| >= 2 then AddNew(ordered, SerialConstraint(BleScope(l))) else ordered
  }

  lemma KeysAppend(constraints: seq<SoftConstraint>, c: SoftConstraint)
    ensures Keys(constraints + [c]) == Keys(constraints) + {KeyOf(c)}
  {
  }

  lemma PairKey(src: string, dst: string)
    ensures KeyOf(OrderConstraint(src, dst)) == Key(SoftOrder, PairScope(src, dst), "true", PRESERVE)
  {
    Text.LessTotal(src, dst);
    var scope := PairScope(src, dst);
    Sorting.SortKeeps(scope, Text.Less);
  }

  method AddOrder(constraints: seq<SoftConstraint>, existing: set<Key>, src: string, dst: string)
    returns (after: seq<SoftConstraint>, known: set<Key>, added: bool)
    requires existing == Keys(constraints)
    ensures after == AddNew(constraints, OrderConstraint(src, dst)) && known == Keys(after) && added == (after != constraints)
  {
    var scope := PairScope(src, dst);
    var key := Key(SoftOrder, scope, "true", PRESERVE);
    PairKey(src, dst);
    if key in existing {
      return constraints, existing, false;
    }
    var c := SoftConstraint(SoftOrder, scope, "m6_level3_action_order", "", [src, dst], "true", PRESERVE);
    KeysAppend(constraints, c);
    after, known, added := constraints + [c], existing + {key}, true;
    assert |after| == |constraints| + 1;
  }

  method ApplyLevel3(dag: TypedDag, l: Level3) returns (patched: TypedDag, changed: bool)
    ensures patched == dag.(softConstraints := Constrained(dag.softConstraints, l))
    ensures Establishes(dag.softConstraints, patched.softConstraints, l)
    ensures changed == (patched != dag)
  {
    var constraints := dag.softConstraints;
    var existing := Keys(constraints);
    changed := false;
    for i := 0 to PairCount(l)
      invariant constraints == Ordered(dag.softConstraints, l, i) && existing == Keys(constraints)
      invariant dag.softConstraints <= constraints && changed == (constraints != dag.softConstraints)
    {
      var src, dst := l.order[i], l.order[i + 1];
      if !Skipped(l, src, dst) {
        var before := constraints;
        var added;
        constraints, existing, added := AddOrder(constraints, existing, src, dst);
        changed := changed || added;
        assert before <= constraints;
      }
    }
    var scope := BleScope(l);
    if |scope| >= 2 {
      var c := SerialConstraint(scope);
      if KeyOf(c) !in existing {
        constraints, changed := constraints + [c], true;
        assert |constraints| > |dag.softConstraints|;
      }
    }
    patched := dag.(softConstraints := constraints);
    Level3Establishes(dag.softConstraints, l);
  }

  // ----- what level 3 achieves

  lemma {:induction false} OrderedKeeps(constraints: seq<SoftConstraint>, l: Level3, m: nat, n: nat)
    requires m <= n && (n < |l.order| || n == 0)
    ensures Ordered(constraints, l, m) <= Ordered(constraints, l, n)
  {
    if m < n { OrderedKeeps(constraints, l, m, n - 1); }
  }

  lemma KeysGrow(a: seq<SoftConstraint>, b: seq<SoftConstraint>)
    requires a <= b
    ensures Keys(a) <= Keys(b)
  {
    forall c | c in a ensures c in b { assert forall i :: 0 <= i < |a| ==> b[i] == a[i]; }
  }

  lemma KeyEstablished(constraints: seq<SoftConstraint>, l: Level3, i: nat)
    requires i + 1 < |l.order| && !Skipped(l, l.order[i], l.order[i + 1])
    ensures constraints <= Constrained(constraints, l)
    ensures KeyOf(OrderConstraint(l.order[i], l.order[i + 1])) in Keys(Constrained(constraints, l))
  {
    var c := OrderConstraint(l.order[i], l.order[i + 1]);
    OrderedKeeps(constraints, l, 0, PairCount(l));
    OrderedKeeps(constraints, l, i + 1, PairCount(l));
    KeysAppend(Ordered(constraints, l, i), c);
    KeysGrow(Ordered(constraints, l, i + 1), Constrained(constraints, l));
  }

  lemma {:induction false} NothingToAdd(constraints: seq<SoftConstraint>, l: Level3, n: nat)
    requires n < |l.order| || n == 0
    requires forall i :: 0 <= i < n && !Skipped(l, l.order[i], l.order[i + 1]) ==> KeyOf(OrderConstraint(l.order[i], l.order[i + 1])) in Keys(constraints)
    ensures Ordered(constraints, l, n) == constraints
  {
    if n > 0 { NothingToAdd(constraints, l, n - 1); }
  }

  /** A second application finds nothing to add. */
  lemma Level3Idempotent(constraints: seq<SoftConstraint>, l: Level3)
    ensures Constrained(Constrained(constraints, l), l) == Constrained(constraints, l)
  {
    var once := Constrained(constraints, l);
    forall i | 0 <= i < PairCount(l) && !Skipped(l, l.order[i], l.order[i + 1])
      ensures KeyOf(OrderConstraint(l.order[i], l.order[i + 1])) in Keys(once)
    {
      KeyEstablished(constraints, l, i);
    }
    NothingToAdd(once, l, PairCount(l));
    if |BleScope(l)| >= 2 { KeysAppend(Ordered(constraints, l, PairCount(l)), SerialConstraint(BleScope(l))); }
  }

  // ----- which constraints level 3 adds

  /** The pair at place `i` of the order is one that level 3 looks at. */
  ghost predicate Unskipped(l: Level3, i: nat) {
    && i + 1 < |l.order| && (l.order[i], l.order[i + 1]) !in l.together
    && (l.implicated == {} || l.order[i] in l.implicated || l.order[i + 1] in l.implicated)
  }

  /** `c` is about the order of these two actions, in whichever direction. */
  ghost predicate TiesPair(c: SoftConstraint, src: string, dst: string) {
    c.kind == SoftOrder && multiset(c.scope) == multiset({src, dst}) && c.guard == "true" && c.fallback == PRESERVE
  }

  ghost predicate Tied(constraints: seq<SoftConstraint>, src: string, dst: string) {
    exists c :: c in constraints && TiesPair(c, src, dst)
  }

  /** The pair at place `i` is not tied yet, and no earlier pair consists of the same two actions. */
  ghost predicate FirstTie(before: seq<SoftConstraint>, l: Level3, i: nat) {
    && Unskipped(l, i) && !Tied(before, l.order[i], l.order[i + 1])
    && forall j: nat {:trigger Unskipped(l, j)} :: j < i && Unskipped(l, j) ==> {l.order[j], l.order[j + 1]} != {l.order[i], l.order[i + 1]}
  }

  /** `c` demands `src` before `dst`. */
  ghost predicate Demands(c: SoftConstraint, src: string, dst: string) {
    TiesPair(c, src, dst) && c.orderedScope == [src, dst]
  }

  /** The scope consists of the BLE actions of the order, as often as they occur there. */
  ghost predicate AllBle(scope: seq<string>, l: Level3) {
    forall a :: multiset(scope)[a] == if a in l.ble then multiset(l.order)[a] else 0
  }

  ghost predicate TiesBle(c: SoftConstraint, l: Level3) {
    c.kind == NoOverlap && AllBle(c.scope, l) && c.guard == "true" && c.fallback == BLE_SERIAL
  }

  ghost predicate BleTied(constraints: seq<SoftConstraint>, l: Level3) {
    exists c :: c in constraints && TiesBle(c, l)
  }

  ghost predicate SeveralBle(l: Level3) {
    exists i, j :: 0 <= i < j < |l.order| && l.order[i] in l.ble && l.order[j] in l.ble
  }

  /** After the constraints at hand come one for each pair that has to be tied, in the order and direction of the plan, and
      one that keeps the BLE actions apart if there are several and nothing does so yet. */
  ghost predicate EstablishesAt(before: seq<SoftConstraint>, after: seq<SoftConstraint>, l: Level3, pairs: seq<nat>) {
    && before <= after && Rising(pairs) && (forall i: nat :: i in pairs <==> FirstTie(before, l, i))
    && |after| == |before| + |pairs| + (if SeveralBle(l) && !BleTied(before, l) then 1 else 0)
    && (forall k :: 0 <= k < |pairs| ==> pairs[k] in pairs && Demands(after[|before| + k], l.order[pairs[k]], l.order[pairs[k] + 1]))
    && (SeveralBle(l) && !BleTied(before, l) ==> TiesBle(after[|after| - 1], l))
  }

  ghost predicate Establishes(before: seq<SoftConstraint>, after: seq<SoftConstraint>, l: Level3) {
    exists pairs :: EstablishesAt(before, after, l, pairs)
  }

  lemma LessIsWeakOrder()
    ensures Sorting.WeakOrder(Text.Less)
  {
    forall x, y ensures Text.Less(x, y) ==> !Text.Less(y, x) { Text.LessTotal(x, y); }
    forall x, y, z | !Text.Less(x, y) && !Text.Less(y, z) ensures !Text.Less(x, z) {
      Text.LessTotal(x, y);
      Text.LessTotal(y, z);
      Text.LessTotal(x, z);
      if Text.Less(x, z) && y != x && y != z { Text.LessTransitive(z, y, x); }
    }
  }

  lemma LessSeparates(s: seq<string>)
    ensures Sorting.Separates(s, Text.Less)
  {
    forall i, j | 0 <= i < |s| && 0 <= j < |s| && !Text.Less(s[i], s[j]) && !Text.Less(s[j], s[i]) ensures s[i] == s[j] {
      Text.LessTotal(s[i], s[j]);
    }
    forall i | 0 <= i < |s| ensures !Text.Less(s[i], s[i]) { Text.LessIrreflexive(s[i]); }
  }

  /** Scopes are the same when sorted exactly when they hold the same actions equally often. */
  lemma SameSorted(a: seq<string>, b: seq<string>)
    ensures SortedScope(a) == SortedScope(b) <==> multiset(a) == multiset(b)
  {
    Sorting.SortPermutes(a, Text.Less);
    Sorting.SortPermutes(b, Text.Less);
    LessIsWeakOrder();
    Sorting.SortSorts(a, Text.Less);
    Sorting.SortSorts(b, Text.Less);
    LessSeparates(SortedScope(a));
    if multiset(a) == multiset(b) { Sorting.SortedUnique(SortedScope(a), SortedScope(b), Text.Less); }
  }

  lemma PairScopeHolds(src: string, dst: string)
    ensures multiset(PairScope(src, dst)) == multiset({src, dst})
  {
    var scope := PairScope(src, dst);
    assert src == dst ==> {src, dst} == {src};
    forall a ensures multiset(scope)[a] == multiset({src, dst})[a] {}
  }

  /** The key of a constraint says whether it ties the pair. */
  lemma PairKeyTies(c: SoftConstraint, src: string, dst: string)
    ensures KeyOf(c) == KeyOf(OrderConstraint(src, dst)) <==> TiesPair(c, src, dst)
  {
    SameSorted(c.scope, PairScope(src, dst));
    PairScopeHolds(src, dst);
  }

  lemma TiedByKey(constraints: seq<SoftConstraint>, src: string, dst: string)
    ensures KeyOf(OrderConstraint(src, dst)) in Keys(constraints) <==> Tied(constraints, src, dst)
  {
    forall c | c in constraints ensures KeyOf(c) == KeyOf(OrderConstraint(src, dst)) <==> TiesPair(c, src, dst) {
      PairKeyTies(c, src, dst);
    }
  }

  lemma SameElements(p: set<string>, q: set<string>)
    ensures multiset(p) == multiset(q) <==> p == q
  {
    if multiset(p) == multiset(q) {
      forall x ensures x in p <==> x in q { assert multiset(p)[x] == multiset(q)[x]; }
    }
  }

  lemma SamePair(a: string, b: string, c: string, d: string)
    ensures TiesPair(OrderConstraint(a, b), c, d) <==> {a, b} == {c, d}
  {
    PairScopeHolds(a, b);
    SameElements({a, b}, {c, d});
  }

  /** A pair is tied after the first `n` pairs if it was before or one of those consists of the same two actions. */
  ghost predicate EarlierSame(l: Level3, n: nat, src: string, dst: string) {
    exists j: nat {:trigger Unskipped(l, j)} :: j < n && Unskipped(l, j) && {l.order[j], l.order[j + 1]} == {src, dst}
  }

  lemma TiedAppend(constraints: seq<SoftConstraint>, c: SoftConstraint, src: string, dst: string)
    ensures Tied(constraints + [c], src, dst) <==> Tied(constraints, src, dst) || TiesPair(c, src, dst)
  {
    if Tied(constraints, src, dst) {
      var d :| d in constraints && TiesPair(d, src, dst);
      assert d in constraints + [c];
    }
    if TiesPair(c, src, dst) { assert (constraints + [c])[|constraints|] == c; }
  }

  lemma {:induction false} TiedAfter(constraints: seq<SoftConstraint>, l: Level3, n: nat, src: string, dst: string)
    requires n < |l.order| || n == 0
    ensures Tied(Ordered(constraints, l, n), src, dst) <==> Tied(constraints, src, dst) || EarlierSame(l, n, src, dst)
  {
    if n > 0 {
      var m := n - 1;
      TiedAfter(constraints, l, m, src, dst);
      OrderedNext(constraints, l, m);
      TiedNext(Ordered(constraints, l, m), Ordered(constraints, l, m + 1), l, m, src, dst);
      EarlierNext(l, m, src, dst);
    } else {
      assert Ordered(constraints, l, 0) == constraints;
    }
  }

  lemma OrderedNext(constraints: seq<SoftConstraint>, l: Level3, n: nat)
    requires n + 1 < |l.order|
    ensures var before := Ordered(constraints, l, n);
            Ordered(constraints, l, n + 1) == if Skipped(l, l.order[n], l.order[n + 1]) then before else AddNew(before, OrderConstraint(l.order[n], l.order[n + 1]))
  {
  }

  lemma TiedNext(before: seq<SoftConstraint>, after: seq<SoftConstraint>, l: Level3, n: nat, src: string, dst: string)
    requires n + 1 < |l.order|
    requires after == if Skipped(l, l.order[n], l.order[n + 1]) then before else AddNew(before, OrderConstraint(l.order[n], l.order[n + 1]))
    ensures Tied(after, src, dst) <==> Tied(before, src, dst) || (Unskipped(l, n) && {l.order[n], l.order[n + 1]} == {src, dst})
  {
    var a, b := l.order[n], l.order[n + 1];
    if Unskipped(l, n) {
      SamePair(a, b, src, dst);
      TiedByKey(before, a, b);
      TiedAppend(before, OrderConstraint(a, b), src, dst);
      TiedSame(before, a, b, src, dst);
    }
  }

  lemma TiedSame(constraints: seq<SoftConstraint>, a: string, b: string, src: string, dst: string)
    ensures {a, b} == {src, dst} ==> (Tied(constraints, a, b) <==> Tied(constraints, src, dst))
  {
  }

  lemma EarlierNext(l: Level3, n: nat, src: string, dst: string)
    ensures EarlierSame(l, n + 1, src, dst) <==> EarlierSame(l, n, src, dst) || (Unskipped(l, n) && {l.order[n], l.order[n + 1]} == {src, dst})
  {
  }

  /** What the loop over the first `n` pairs has added. */
  ghost predicate OrdersAt(before: seq<SoftConstraint>, after: seq<SoftConstraint>, l: Level3, n: nat, pairs: seq<nat>) {
    && before <= after && Rising(pairs) && (forall i: nat :: i in pairs <==> i < n && FirstTie(before, l, i))
    && |after| == |before| + |pairs|
    && (forall k :: 0 <= k < |pairs| ==> pairs[k] in pairs && Demands(after[|before| + k], l.order[pairs[k]], l.order[pairs[k] + 1]))
  }

  lemma OrdersNext(before: seq<SoftConstraint>, after: seq<SoftConstraint>, l: Level3, n: nat, pairs: seq<nat>, c: SoftConstraint)
    requires OrdersAt(before, after, l, n, pairs) && FirstTie(before, l, n) && Demands(c, l.order[n], l.order[n + 1])
    ensures OrdersAt(before, after + [c], l, n + 1, pairs + [n])
  {
    var all, more := pairs + [n], after + [c];
    forall k | 0 <= k < |all| ensures all[k] in all && Demands(more[|before| + k], l.order[all[k]], l.order[all[k] + 1]) {
      if k < |pairs| { assert pairs[k] in pairs && more[|before| + k] == after[|before| + k]; }
    }
    forall k | 0 <= k < |pairs| ensures pairs[k] < n { assert pairs[k] in pairs; }
  }

  lemma OrdersSame(before: seq<SoftConstraint>, after: seq<SoftConstraint>, l: Level3, n: nat, pairs: seq<nat>)
    requires OrdersAt(before, after, l, n, pairs) && !FirstTie(before, l, n)
    ensures OrdersAt(before, after, l, n + 1, pairs)
  {
  }

  lemma OwnOrderDemands(src: string, dst: string)
    ensures Demands(OrderConstraint(src, dst), src, dst)
  {
    PairScopeHolds(src, dst);
  }

  /** A pair is added by the loop exactly when it is the first that ties its actions. */
  lemma AddsFirst(constraints: seq<SoftConstraint>, l: Level3, n: nat)
    requires n + 1 < |l.order|
    ensures FirstTie(constraints, l, n) <==>
              !Skipped(l, l.order[n], l.order[n + 1]) && KeyOf(OrderConstraint(l.order[n], l.order[n + 1])) !in Keys(Ordered(constraints, l, n))
  {
    var a, b := l.order[n], l.order[n + 1];
    TiedByKey(Ordered(constraints, l, n), a, b);
    TiedAfter(constraints, l, n, a, b);
  }

  lemma {:induction false} OrdersFirst(constraints: seq<SoftConstraint>, l: Level3, n: nat) returns (pairs: seq<nat>)
    requires n < |l.order| || n == 0
    ensures OrdersAt(constraints, Ordered(constraints, l, n), l, n, pairs)
  {
    pairs := [];
    if n > 0 {
      var before, a, b := Ordered(constraints, l, n - 1), l.order[n - 1], l.order[n];
      pairs := OrdersFirst(constraints, l, n - 1);
      AddsFirst(constraints, l, n - 1);
      if FirstTie(constraints, l, n - 1) {
        OwnOrderDemands(a, b);
        OrdersNext(constraints, before, l, n - 1, pairs, OrderConstraint(a, b));
        pairs := pairs + [n - 1];
      } else {
        OrdersSame(constraints, before, l, n - 1, pairs);
      }
    }
  }

  lemma {:induction false} FilterCounts(s: seq<string>, keep: string -> bool, a: string)
    ensures multiset(Filter(s, keep))[a] == if keep(a) then multiset(s)[a] else 0
  {
    if s != [] {
      FilterCounts(s[..|s| - 1], keep, a);
      assert s == s[..|s| - 1] + [s[|s| - 1]];
    }
  }

  lemma BleScopeCounts(l: Level3)
    ensures AllBle(BleScope(l), l)
  {
    forall a ensures multiset(BleScope(l))[a] == if a in l.ble then multiset(l.order)[a] else 0 {
      FilterCounts(l.order, (b: string) => b in l.ble, a);
    }
  }

  ghost predicate SomeKept(s: seq<string>, keep: string -> bool) {
    exists i :: 0 <= i < |s| && keep(s[i])
  }

  ghost predicate TwoKept(s: seq<string>, keep: string -> bool) {
    exists i, j :: 0 <= i < j < |s| && keep(s[i]) && keep(s[j])
  }

  lemma KeptAppend(s: seq<string>, a: string, keep: string -> bool)
    ensures SomeKept(s + [a], keep) <==> SomeKept(s, keep) || keep(a)
    ensures TwoKept(s + [a], keep) <==> TwoKept(s, keep) || (SomeKept(s, keep) && keep(a))
  {
    var t := s + [a];
    assert t[|s|] == a && forall i :: 0 <= i < |s| ==> t[i] == s[i];
  }

  lemma {:induction false} SeveralKept(s: seq<string>, keep: string -> bool)
    ensures |Filter(s, keep)| >= 1 <==> SomeKept(s, keep)
    ensures |Filter(s, keep)| >= 2 <==> TwoKept(s, keep)
  {
    if s != [] {
      var n := |s| - 1;
      SeveralKept(s[..n], keep);
      KeptAppend(s[..n], s[n], keep);
      assert s == s[..n] + [s[n]];
    }
  }

  lemma BleScopeSeveral(l: Level3)
    ensures |BleScope(l)| >= 2 <==> SeveralBle(l)
  {
    var keep := (a: string) => a in l.ble;
    SeveralKept(l.order, keep);
    assert TwoKept(l.order, keep) <==> SeveralBle(l);
  }

  lemma SerialKeyTies(c: SoftConstraint, l: Level3)
    ensures KeyOf(c) == KeyOf(SerialConstraint(BleScope(l))) <==> TiesBle(c, l)
  {
    SameSorted(c.scope, BleScope(l));
    BleScopeCounts(l);
    if AllBle(c.scope, l) {
      forall a ensures multiset(c.scope)[a] == multiset(BleScope(l))[a] {}
    }
  }

  lemma BleTiedByKey(constraints: seq<SoftConstraint>, l: Level3)
    ensures KeyOf(SerialConstraint(BleScope(l))) in Keys(constraints) <==> BleTied(constraints, l)
  {
    forall c | c in constraints ensures KeyOf(c) == KeyOf(SerialConstraint(BleScope(l))) <==> TiesBle(c, l) {
      SerialKeyTies(c, l);
    }
  }

  lemma OrdersTieNoBle(before: seq<SoftConstraint>, after: seq<SoftConstraint>, l: Level3, n: nat, pairs: seq<nat>)
    requires OrdersAt(before, after, l, n, pairs)
    ensures BleTied(after, l) <==> BleTied(before, l)
  {
    forall k | |before| <= k < |after| ensures after[k].kind == SoftOrder {
      var m := k - |before|;
      assert after[|before| + m] == after[k] && pairs[m] in pairs;
    }
    if BleTied(before, l) {
      var c :| c in before && TiesBle(c, l);
      var k :| 0 <= k < |before| && before[k] == c;
      assert after[k] == c;
    }
  }

  lemma SerialLast(before: seq<SoftConstraint>, ordered: seq<SoftConstraint>, l: Level3, n: nat, pairs: seq<nat>, c: SoftConstraint)
    requires OrdersAt(before, ordered, l, n, pairs) && (forall i: nat :: FirstTie(before, l, i) ==> i < n) && TiesBle(c, l)
    ensures EstablishesAt(before, if SeveralBle(l) && !BleTied(before, l) then ordered + [c] else ordered, l, pairs)
  {
    var after := if SeveralBle(l) && !BleTied(before, l) then ordered + [c] else ordered;
    forall k | 0 <= k < |pairs| ensures pairs[k] in pairs && Demands(after[|before| + k], l.order[pairs[k]], l.order[pairs[k] + 1]) {
      assert after[|before| + k] == ordered[|before| + k];
    }
  }

  /** Exactly the constraints that are missing are added. */
  lemma Level3Establishes(constraints: seq<SoftConstraint>, l: Level3)
    ensures Establishes(constraints, Constrained(constraints, l), l)
  {
    var n := PairCount(l);
    var ordered, c := Ordered(constraints, l, n), SerialConstraint(BleScope(l));
    var pairs := OrdersFirst(constraints, l, n);
    OrdersTieNoBle(constraints, ordered, l, n, pairs);
    BleTiedByKey(ordered, l);
    BleScopeSeveral(l);
    SerialKeyTies(c, l);
    SerialLast(constraints, ordered, l, n, pairs, c);
    assert EstablishesAt(constraints, Constrained(constraints, l), l, pairs);
  }

  /** Nothing is removed, and afterwards every pair that is not skipped is tied by an order constraint, in whichever direction. */
  lemma OrderEstablished(constraints: seq<SoftConstraint>, l: Level3, i: nat)
    requires Unskipped(l, i)
    ensures constraints <= Constrained(constraints, l) && Tied(Constrained(constraints, l), l.order[i], l.order[i + 1])
  {
    KeyEstablished(constraints, l, i);
    TiedByKey(Constrained(constraints, l), l.order[i], l.order[i + 1]);
  }

  ghost predicate OwnOrder(constraints: seq<SoftConstraint>, src: string, dst: string) {
    exists c :: c in constraints && Demands(c, src, dst)
  }

  lemma TieAdded(before: seq<SoftConstraint>, after: seq<SoftConstraint>, l: Level3, pairs: seq<nat>, i: nat)
    requires EstablishesAt(before, after, l, pairs) && FirstTie(before, l, i)
    ensures OwnOrder(after, l.order[i], l.order[i + 1])
  {
    var k :| 0 <= k < |pairs| && pairs[k] == i;
    assert after[|before| + k] in after;
  }

  lemma AddedIsTie(before: seq<SoftConstraint>, after: seq<SoftConstraint>, l: Level3, pairs: seq<nat>, c: SoftConstraint) returns (i: nat)
    requires EstablishesAt(before, after, l, pairs) && c in after && c !in before && c.kind == SoftOrder
    ensures FirstTie(before, l, i) && Demands(c, l.order[i], l.order[i + 1])
  {
    var k :| 0 <= k < |after| && after[k] == c;
    assert forall h :: 0 <= h < |before| ==> after[h] == before[h] && before[h] != c;
    var m := k - |before|;
    i := pairs[m];
    assert pairs[m] in pairs && after[|before| + m] == c;
  }

  lemma DemandsPlace(c: SoftConstraint, l: Level3, i: nat, j: nat)
    requires Distinct(l.order) && i + 1 < |l.order| && j + 1 < |l.order|
    requires Demands(c, l.order[i], l.order[i + 1]) && Demands(c, l.order[j], l.order[j + 1])
    ensures i == j
  {
    assert c.orderedScope[0] == l.order[i];
    assert c.orderedScope[0] == l.order[j];
  }

  /** A pair of the plan gets its own order, first action before second, exactly when no constraint ties the two already:
      one that demands the opposite order blocks it. */
  lemma OwnOrderExactly(before: seq<SoftConstraint>, after: seq<SoftConstraint>, l: Level3, i: nat)
    requires Establishes(before, after, l) && Distinct(l.order) && Unskipped(l, i) && !OwnOrder(before, l.order[i], l.order[i + 1])
    ensures OwnOrder(after, l.order[i], l.order[i + 1]) <==> !Tied(before, l.order[i], l.order[i + 1])
  {
    var pairs :| EstablishesAt(before, after, l, pairs);
    var a, b := l.order[i], l.order[i + 1];
    if !Tied(before, a, b) {
      forall j: nat | j < i && Unskipped(l, j) ensures {l.order[j], l.order[j + 1]} != {a, b} { assert l.order[j] !in {a, b}; }
      TieAdded(before, after, l, pairs, i);
    } else if OwnOrder(after, a, b) {
      var c :| c in after && Demands(c, a, b);
      var j := AddedIsTie(before, after, l, pairs, c);
      DemandsPlace(c, l, i, j);
    }
  }

  /** With the opposite order on record, level 3 does not establish the order of the plan. */
  lemma OppositeOrderStays(src: string, dst: string, c: SoftConstraint)
    requires src != dst && Demands(c, dst, src)
    ensures Constrained([c], Level3([src, dst], {}, {}, {})) == [c] && !OwnOrder([c], src, dst)
  {
    var l, before := Level3([src, dst], {}, {}, {}), [c];
    assert {src, dst} == {dst, src} && c in before;
    TiedByKey(before, src, dst);
    assert Ordered(before, l, 1) == before by { assert Ordered(before, l, 0) == before; }
    FilterNone(l.order, (a: string) => a in l.ble);
    assert c.orderedScope[0] == dst;
  }

  // ----- paths

  function Successors(edges: seq<DependencyEdge>, node: string): (r: seq<string>)
    ensures forall v :: v in r <==> (node, v) in EdgeArcs(edges)
  {
    if edges == [] then []
    else
      var front, e := Successors(edges[..|edges| - 1], node), edges[|edges| - 1];
      assert edges == edges[..|edges| - 1] + [e];
      if e.src == node then front + [e.dst] else front
  }

  ghost function Endpoints(edges: seq<DependencyEdge>): set<string> {
    (set e | e in edges :: e.src) + (set e | e in edges :: e.dst)
  }

  /** All nodes in sight are reachable, and what has been seen leads on only to what is in sight. */
  ghost predicate Searching(arcs: set<(string, string)>, src: string, dst: string, queue: seq<string>, seen: set<string>) {
    && (forall v :: v in queue || v in seen ==> Reach(arcs, src, v))
    && (src in queue || src in seen) && dst !in seen
    && (forall u, v :: u in seen && (u, v) in arcs ==> v in seen || v in queue)
  }

  lemma SearchStep(arcs: set<(string, string)>, src: string, dst: string, queue: seq<string>, seen: set<string>, next: seq<string>)
    requires queue != [] && Searching(arcs, src, dst, queue, seen) && queue[0] != dst
    requires forall v :: v in next <==> (queue[0], v) in arcs
    ensures Searching(arcs, src, dst, queue[1..] + next, seen + {queue[0]})
    ensures queue[0] in seen ==> Searching(arcs, src, dst, queue[1..], seen)
  {
    var node := queue[0];
    assert queue == [node] + queue[1..] && node in queue;
    forall v | v in next ensures Reach(arcs, src, v) {
      ReachArc(arcs, node, v);
      ReachTrans(arcs, src, node, v);
    }
  }

  lemma SearchFails(arcs: set<(string, string)>, src: string, dst: string, seen: set<string>)
    requires Searching(arcs, src, dst, [], seen)
    ensures !Reach(arcs, src, dst)
  {
    if Reach(arcs, src, dst) {
      var u, v := Crossing(arcs, src, dst, seen);
    }
  }

  method HasPath(edges: seq<DependencyEdge>, src: string, dst: string) returns (found: bool)
    ensures found <==> Reach(EdgeArcs(edges), src, dst)
  {
    ghost var arcs, nodes := EdgeArcs(edges), Endpoints(edges) + {src};
    var queue: seq<string>, seen: set<string> := [src], {};
    ReachRefl(arcs, src);
    while queue != []
      invariant Searching(arcs, src, dst, queue, seen) && seen <= nodes && forall v :: v in queue ==> v in nodes
      decreases |nodes| - |seen|, |queue|
    {
      var node := queue[0];
      assert node in queue && queue == [node] + queue[1..];
      if node == dst { return true; }
      var next := Successors(edges, node);
      SearchStep(arcs, src, dst, queue, seen, next);
      queue := queue[1..];
      if node !in seen {
        seen, queue := seen + {node}, queue + next;
        SubsetSize(seen, nodes);
      }
    }
    SearchFails(arcs, src, dst, seen);
    return false;
  }
}
