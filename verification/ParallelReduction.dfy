/** What reducing parallelism does to the actions that run in parallel (optimizer/m6_trust.py `_apply_level1_patch`,
    `_group_execution_layout`, `_parallel_action_scopes`). */
module ParallelReduction {
  import opened Contracts
  import opened Numbers
  import opened Options
  import opened PlanLayout
  import opened PlanScopes
  import opened Sequences
  import Sorting
  import Text

  // ----- which part of a group runs in parallel

  ghost predicate HoldsOrder(row: FallbackRow, ids: seq<string>) {
    (row.mode == PreserveActionOrder || row.mode == ForceTopologicalOrder) && (row.scope == [] || Touches(row.scope, ids))
  }

  /** A row for order applies to the ids, or one that picks every id: they run serially. */
  ghost predicate Held(b: Batch, ids: seq<string>) {
    exists row :: row in b.fallback && (HoldsOrder(row, ids) || (row.mode == ForcePick && row.scope == []))
  }

  /** A row picks the id to run serially. */
  ghost predicate Picked(b: Batch, id: string) {
    exists row :: row in b.fallback && row.mode == ForcePick && id in row.scope
  }

  ghost function Free(b: Batch, ids: seq<string>): seq<string> {
    Filter(ids, (id: string) => !Picked(b, id))
  }

  /** The part of the ids that runs in parallel. */
  ghost function Part(b: Batch, ids: seq<string>): seq<string> {
    if Held(b, ids) then [] else Free(b, ids)
  }

  lemma {:induction false} FilterSame<T(!new)>(s: seq<T>, p: T -> bool, q: T -> bool)
    requires forall x :: x in s ==> p(x) == q(x)
    ensures Filter(s, p) == Filter(s, q)
  {
    if s != [] {
      assert s == s[..|s| - 1] + [s[|s| - 1]];
      FilterSame(s[..|s| - 1], p, q);
    }
  }

  lemma KeepsOrderExactly(b: Batch, ids: seq<string>)
    ensures KeepsOrder(ids, RowsFor(ids, b.fallback)) <==> exists row :: row in b.fallback && HoldsOrder(row, ids)
  {
    if row :| row in b.fallback && HoldsOrder(row, ids) { assert row in RowsFor(ids, b.fallback); }
  }

  /** Without a row for order, an id runs serially exactly when it is picked, alone or with all others. */
  lemma SerialExactly(b: Batch, ids: seq<string>, id: string)
    requires id in ids && !KeepsOrder(ids, RowsFor(ids, b.fallback))
    ensures RunsSerially(ids, RowsFor(ids, b.fallback), id) <==> Held(b, ids) || Picked(b, id)
  {
    KeepsOrderExactly(b, ids);
    if row :| row in b.fallback && row.mode == ForcePick && (row.scope == [] || id in row.scope) {
      assert row in RowsFor(ids, b.fallback) && Serializes(row, ids, id);
    }
  }

  lemma PartExactly(b: Batch, ids: seq<string>)
    ensures GroupLayout(b, ids).parallel == Part(b, ids)
  {
    KeepsOrderExactly(b, ids);
    var rows := RowsFor(ids, b.fallback);
    if !KeepsOrder(ids, rows) {
      forall id | id in ids ensures RunsSerially(ids, rows, id) <==> Held(b, ids) || Picked(b, id) { SerialExactly(b, ids, id); }
      if Held(b, ids) {
        FilterNone(ids, (id: string) => !RunsSerially(ids, rows, id));
      } else {
        FilterSame(ids, (id: string) => !RunsSerially(ids, rows, id), (id: string) => !Picked(b, id));
      }
    }
  }

  /** The part of a group that runs in parallel comes first, the rest follows. */
  lemma PartComesFirst(b: Batch, group: seq<string>)
    ensures Part(b, Tokens(group)) <= GroupOrder(b, group) && multiset(GroupOrder(b, group)) == multiset(Tokens(group))
  {
    PartExactly(b, Tokens(group));
    LayoutPermutes(b, Tokens(group));
  }

  lemma {:induction false} FilterAtMost<T(!new)>(s: seq<T>, keep: T -> bool)
    ensures |Filter(s, keep)| <= |s|
  {
    if s != [] { FilterAtMost(s[..|s| - 1], keep); }
  }

  ghost function PartOf(b: Batch, group: seq<string>): seq<string> {
    Part(b, Tokens(group))
  }

  lemma GroupScopesExactly(b: Batch, group: seq<string>)
    ensures GroupScopes(b, group) == if |PartOf(b, group)| > 1 then [PartOf(b, group)] else []
  {
    PartExactly(b, Tokens(group));
    FilterAtMost(Tokens(group), (id: string) => !Picked(b, id));
  }

  // ----- several groups of a batch

  lemma {:induction false} NoScopesExactly(b: Batch, groups: seq<seq<string>>)
    ensures GroupsScopes(b, groups) == [] <==> forall h :: h in groups ==> |PartOf(b, h)| <= 1
  {
    if groups != [] {
      var front, last := groups[..|groups| - 1], groups[|groups| - 1];
      assert groups == front + [last];
      NoScopesExactly(b, front);
      GroupScopesExactly(b, last);
    }
  }

  lemma {:induction false} ScopeFrom(b: Batch, groups: seq<seq<string>>, s: Scope) returns (h: seq<string>)
    requires s in GroupsScopes(b, groups)
    ensures h in groups && s == PartOf(b, h) && |s| > 1
  {
    var front, last := groups[..|groups| - 1], groups[|groups| - 1];
    assert groups == front + [last];
    GroupScopesExactly(b, last);
    if s in GroupScopes(b, last) { h := last; } else { h := ScopeFrom(b, front, s); }
  }

  lemma {:induction false} ScopeOf(b: Batch, groups: seq<seq<string>>, h: seq<string>)
    requires h in groups && |PartOf(b, h)| > 1
    ensures PartOf(b, h) in GroupsScopes(b, groups)
  {
    var front, last := groups[..|groups| - 1], groups[|groups| - 1];
    assert groups == front + [last];
    GroupScopesExactly(b, last);
    if h != last { ScopeOf(b, front, h); }
  }

  lemma PartInTokens(b: Batch, group: seq<string>)
    ensures forall t :: t in PartOf(b, group) ==> t in Tokens(group)
  {
  }

  lemma DistinctFront(a: seq<string>, b: seq<string>)
    requires Distinct(a + b)
    ensures Distinct(a) && Distinct(b) && Unshared(a, b)
  {
    var s := a + b;
    forall i, j | 0 <= i < j < |a| ensures a[i] != a[j] { assert s[i] != s[j]; }
    forall i, j | 0 <= i < j < |b| ensures b[i] != b[j] { assert s[|a| + i] != s[|a| + j]; }
    forall i, j | 0 <= i < |a| && 0 <= j < |b| ensures a[i] != b[j] { assert s[i] != s[|a| + j]; }
  }

  ghost predicate PartInside(b: Batch, h: seq<string>, f: Scope) {
    forall t :: t in PartOf(b, h) ==> t in f
  }

  ghost predicate PartsInside(b: Batch, groups: seq<seq<string>>, f: Scope) {
    forall h :: h in groups ==> PartInside(b, h, f)
  }

  ghost predicate Somewhere(b: Batch, groups: seq<seq<string>>, f: Scope) {
    exists h :: h in groups && PartOf(b, h) == f
  }

  ghost predicate Unshared(x: seq<string>, y: seq<string>) {
    forall t :: t in x ==> t !in y
  }

  lemma OnlyLast(b: Batch, front: seq<seq<string>>, last: seq<string>, f: Scope)
    requires Unshared(Tokens(Concat(front)), Tokens(last)) && |f| > 1 && PartOf(b, last) == f && PartsInside(b, front, f)
    ensures GroupsScopes(b, front + [last]) == [f]
  {
    forall h | h in front ensures PartOf(b, h) == [] { OtherIsEmpty(b, front, h, last, f); }
    NoScopesExactly(b, front);
    GroupScopesExactly(b, last);
    GroupsScopesLast(b, front, last);
  }

  lemma NotLast(b: Batch, front: seq<seq<string>>, last: seq<string>, f: Scope)
    requires Unshared(Tokens(Concat(front)), Tokens(last)) && Somewhere(b, front, f) && PartInside(b, last, f)
    ensures GroupsScopes(b, front + [last]) == GroupsScopes(b, front)
  {
    var h :| h in front && PartOf(b, h) == f;
    LastIsEmpty(b, front, h, last, f);
    GroupScopesExactly(b, last);
    GroupsScopesLast(b, front, last);
  }

  /** Groups without a common id, all of whose parallel parts come from one of them. */
  lemma {:induction false} OnlyScope(b: Batch, groups: seq<seq<string>>, f: Scope)
    requires Distinct(Tokens(Concat(groups))) && |f| > 1 && Somewhere(b, groups, f) && PartsInside(b, groups, f)
    ensures GroupsScopes(b, groups) == [f]
  {
    var front, last := groups[..|groups| - 1], groups[|groups| - 1];
    assert groups == front + [last];
    TokensAppend(Concat(front), last);
    DistinctFront(Tokens(Concat(front)), Tokens(last));
    if PartOf(b, last) == f {
      OnlyLast(b, front, last, f);
    } else {
      assert Somewhere(b, front, f);
      NotLast(b, front, last, f);
      OnlyScope(b, front, f);
    }
  }

  lemma OtherIsEmpty(b: Batch, front: seq<seq<string>>, h: seq<string>, last: seq<string>, f: Scope)
    requires h in front && PartOf(b, last) == f && PartInside(b, h, f) && Unshared(Tokens(Concat(front)), Tokens(last))
    ensures PartOf(b, h) == []
  {
    if PartOf(b, h) != [] {
      var t := PartOf(b, h)[0];
      assert t in PartOf(b, h) && t in Tokens(h);
      TokensInConcat(front, h, t);
    }
  }

  lemma LastIsEmpty(b: Batch, front: seq<seq<string>>, h: seq<string>, last: seq<string>, f: Scope)
    requires h in front && PartOf(b, h) == f && PartInside(b, last, f) && Unshared(Tokens(Concat(front)), Tokens(last))
    ensures PartOf(b, last) == []
  {
    if PartOf(b, last) != [] {
      var t := PartOf(b, last)[0];
      assert t in PartOf(b, last) && t in Tokens(last) && t in Tokens(h);
      TokensInConcat(front, h, t);
    }
  }

  // ----- one group and its chunks

  /** A chunk holds less than what the rows for order apply to, so it may be free where the group was held. */
  lemma HeldByGroup(b: Batch, part: seq<string>, whole: seq<string>)
    requires Held(b, part) && forall t :: t in part ==> t in whole
    ensures Held(b, whole)
  {
    var row :| row in b.fallback && (HoldsOrder(row, part) || (row.mode == ForcePick && row.scope == []));
    if row.scope != [] {
      var id :| id in row.scope && id in part;
      assert Touches(row.scope, whole);
    }
    assert HoldsOrder(row, whole) || (row.mode == ForcePick && row.scope == []);
  }

  /** The group runs in parallel what it ran before: if it was held, no chunk runs two actions in parallel; if not, at most
      one action was free, or all that were free are in one chunk in the same order. */
  ghost predicate Kept(b: Batch, group: seq<string>, cap: nat, rank: Ranks)
    requires cap >= 1
  {
    var chunks := Regroup(group, cap, rank);
    if Held(b, Tokens(group)) then forall h :: h in chunks ==> Held(b, Tokens(h)) || |Free(b, Tokens(h))| <= 1
    else |Free(b, Tokens(group))| <= 1 || exists h :: h in chunks && Free(b, Tokens(h)) == Free(b, Tokens(group))
  }

  lemma ChunkTokens(group: seq<string>, cap: nat, rank: Ranks)
    requires cap >= 1
    ensures multiset(Tokens(Concat(Regroup(group, cap, rank)))) == multiset(Tokens(group))
    ensures forall h, t :: h in Regroup(group, cap, rank) && t in Tokens(h) ==> t in Tokens(group)
  {
    var chunks := Regroup(group, cap, rank);
    RegroupConserves(group, cap, rank);
    TokensPermute(Concat(chunks), NonBlank(group));
    TokensOfNonBlank(group);
    forall h, t | h in chunks && t in Tokens(h) ensures t in Tokens(group) {
      TokensInConcat(chunks, h, t);
      assert t in multiset(Tokens(Concat(chunks)));
    }
  }

  lemma DistinctByCount(s: seq<string>)
    requires forall x :: multiset(s)[x] <= 1
    ensures Distinct(s)
  {
    forall i, j | 0 <= i < j < |s| ensures s[i] != s[j] {
      assert s == s[..j] + [s[j]] + s[j + 1..];
      assert s[..j][i] == s[i] && s[i] in s[..j];
      assert multiset(s[..j])[s[i]] >= 1 && multiset([s[j]])[s[j]] == 1;
      assert multiset(s)[s[j]] == multiset(s[..j])[s[j]] + 1 + multiset(s[j + 1..])[s[j]];
    }
  }

  lemma DistinctPermutes(s: seq<string>, t: seq<string>)
    requires multiset(s) == multiset(t) && Distinct(t)
    ensures Distinct(s)
  {
    forall x ensures multiset(s)[x] <= 1 { DistinctCounts(t, x); }
    DistinctByCount(s);
  }

  lemma FreeWithin(b: Batch, part: seq<string>, whole: seq<string>)
    requires forall t :: t in part ==> t in whole
    ensures forall t :: t in Free(b, part) ==> t in Free(b, whole)
  {
  }

  lemma DistinctFree(b: Batch, ids: seq<string>)
    requires Distinct(ids)
    ensures Distinct(Free(b, ids))
  {
    FilterOrdered(ids, (id: string) => !Picked(b, id));
  }

  lemma HeldKept(b: Batch, group: seq<string>, cap: nat, rank: Ranks)
    requires cap >= 1 && Held(b, Tokens(group))
    ensures GroupsScopes(b, Regroup(group, cap, rank)) == GroupScopes(b, group) <==> Kept(b, group, cap, rank)
  {
    GroupScopesExactly(b, group);
    NoScopesExactly(b, Regroup(group, cap, rank));
  }

  lemma AtMostOne(s: seq<string>, t: seq<string>)
    requires Distinct(s) && |t| <= 1 && forall x :: x in s ==> x in t
    ensures |s| <= 1
  {
    DistinctSize(s);
    DistinctSize(t);
    SubsetSize(Elements(s), Elements(t));
  }

  lemma UnheldKept(b: Batch, group: seq<string>, cap: nat, rank: Ranks)
    requires cap >= 1 && Distinct(Tokens(group)) && !Held(b, Tokens(group))
    ensures GroupsScopes(b, Regroup(group, cap, rank)) == GroupScopes(b, group) <==> Kept(b, group, cap, rank)
  {
    var chunks, f := Regroup(group, cap, rank), Free(b, Tokens(group));
    ChunkTokens(group, cap, rank);
    DistinctPermutes(Tokens(Concat(chunks)), Tokens(group));
    GroupScopesExactly(b, group);
    forall h | h in chunks ensures PartOf(b, h) == Free(b, Tokens(h)) && PartInside(b, h, f) {
      if Held(b, Tokens(h)) { HeldByGroup(b, Tokens(h), Tokens(group)); }
      FreeWithin(b, Tokens(h), Tokens(group));
    }
    if |f| <= 1 {
      forall h | h in chunks ensures |PartOf(b, h)| <= 1 {
        DistinctChunk(chunks, h);
        DistinctFree(b, Tokens(h));
        AtMostOne(PartOf(b, h), f);
      }
      NoScopesExactly(b, chunks);
    } else if h :| h in chunks && Free(b, Tokens(h)) == f {
      assert Somewhere(b, chunks, f);
      OnlyScope(b, chunks, f);
    } else if GroupsScopes(b, chunks) == [f] {
      assert f in GroupsScopes(b, chunks);
      var h := ScopeFrom(b, chunks, f);
    }
  }

  lemma {:induction false} DistinctChunk(groups: seq<seq<string>>, h: seq<string>)
    requires h in groups && Distinct(Tokens(Concat(groups)))
    ensures Distinct(Tokens(h))
  {
    var front, last := groups[..|groups| - 1], groups[|groups| - 1];
    assert groups == front + [last];
    TokensAppend(Concat(front), last);
    DistinctFront(Tokens(Concat(front)), Tokens(last));
    if h != last { DistinctChunk(front, h); }
  }

  /** Cutting a group into chunks leaves its scopes alone exactly when it is kept. */
  lemma KeptExactly(b: Batch, group: seq<string>, cap: nat, rank: Ranks)
    requires cap >= 1 && Distinct(Tokens(group))
    ensures GroupsScopes(b, Regroup(group, cap, rank)) == GroupScopes(b, group) <==> Kept(b, group, cap, rank)
  {
    if Held(b, Tokens(group)) { HeldKept(b, group, cap, rank); } else { UnheldKept(b, group, cap, rank); }
  }

  // ----- all groups of a plan

  datatype Cell = Cell(batch: Batch, group: seq<string>)

  ghost function BatchCells(b: Batch, groups: seq<seq<string>>): seq<Cell> {
    if groups == [] then [] else BatchCells(b, groups[..|groups| - 1]) + [Cell(b, groups[|groups| - 1])]
  }

  ghost function Cells(batches: seq<Batch>): seq<Cell> {
    if batches == [] then []
    else Cells(batches[..|batches| - 1]) + BatchCells(batches[|batches| - 1], batches[|batches| - 1].groups)
  }

  lemma {:induction false} BatchCellsMembers(b: Batch, groups: seq<seq<string>>)
    ensures forall c :: c in BatchCells(b, groups) <==> c.batch == b && c.group in groups
  {
    if groups != [] {
      assert groups == groups[..|groups| - 1] + [groups[|groups| - 1]];
      BatchCellsMembers(b, groups[..|groups| - 1]);
    }
  }

  lemma {:induction false} CellsMembers(batches: seq<Batch>)
    ensures forall c :: c in Cells(batches) <==> c.batch in batches && c.group in c.batch.groups
  {
    if batches != [] {
      var last := batches[|batches| - 1];
      assert batches == batches[..|batches| - 1] + [last];
      CellsMembers(batches[..|batches| - 1]);
      BatchCellsMembers(last, last.groups);
    }
  }

  ghost function Ids(cells: seq<Cell>): seq<string> {
    if cells == [] then [] else Ids(cells[..|cells| - 1]) + Tokens(cells[|cells| - 1].group)
  }

  /** What runs in parallel before and after. */
  function Before(cells: seq<Cell>): seq<Scope> {
    if cells == [] then [] else Before(cells[..|cells| - 1]) + GroupScopes(cells[|cells| - 1].batch, cells[|cells| - 1].group)
  }

  ghost function After(cells: seq<Cell>, cap: nat, rank: Ranks): seq<Scope>
    requires cap >= 1
  {
    Concat(CellsAfter(cells, cap, rank))
  }

  ghost function CellsAfter(cells: seq<Cell>, cap: nat, rank: Ranks): (r: seq<seq<Scope>>)
    requires cap >= 1
    ensures |r| == |cells| && forall i :: 0 <= i < |r| ==> r[i] == CellAfter(cells[i], cap, rank)
  {
    seq(|cells|, i requires 0 <= i < |cells| => CellAfter(cells[i], cap, rank))
  }

  ghost function CellAfter(c: Cell, cap: nat, rank: Ranks): seq<Scope>
    requires cap >= 1
  {
    GroupsScopes(c.batch, Regroup(c.group, cap, rank))
  }

  lemma CellNext(cells: seq<Cell>, c: Cell)
    ensures Ids(cells + [c]) == Ids(cells) + Tokens(c.group)
    ensures Before(cells + [c]) == Before(cells) + GroupScopes(c.batch, c.group)
  {
    assert (cells + [c])[..|cells|] == cells;
  }

  lemma {:induction false} CellsAppend(x: seq<Cell>, y: seq<Cell>)
    ensures Ids(x + y) == Ids(x) + Ids(y) && Before(x + y) == Before(x) + Before(y)
  {
    if y == [] {
      assert x + y == x;
    } else {
      var front, last := y[..|y| - 1], y[|y| - 1];
      PlusAssociates(x, front, [last]);
      assert front + [last] == y;
      CellsAppend(x, front);
      CellNext(x + front, last);
      CellNext(front, last);
      PlusAssociates(Ids(x), Ids(front), Tokens(last.group));
      PlusAssociates(Before(x), Before(front), GroupScopes(last.batch, last.group));
    }
  }

  lemma AfterNext(cells: seq<Cell>, c: Cell, cap: nat, rank: Ranks)
    requires cap >= 1
    ensures After(cells + [c], cap, rank) == After(cells, cap, rank) + CellAfter(c, cap, rank)
  {
    var parts := CellsAfter(cells + [c], cap, rank);
    assert parts[..|cells|] == CellsAfter(cells, cap, rank);
  }

  lemma CellsAfterAppend(x: seq<Cell>, y: seq<Cell>, cap: nat, rank: Ranks)
    requires cap >= 1
    ensures CellsAfter(x + y, cap, rank) == CellsAfter(x, cap, rank) + CellsAfter(y, cap, rank)
  {
  }

  lemma AfterAppend(x: seq<Cell>, y: seq<Cell>, cap: nat, rank: Ranks)
    requires cap >= 1
    ensures After(x + y, cap, rank) == After(x, cap, rank) + After(y, cap, rank)
  {
    CellsAfterAppend(x, y, cap, rank);
    ConcatAppend(CellsAfter(x, cap, rank), CellsAfter(y, cap, rank));
  }

  lemma {:induction false} GroupsScopesAppend(b: Batch, x: seq<seq<string>>, y: seq<seq<string>>)
    ensures GroupsScopes(b, x + y) == GroupsScopes(b, x) + GroupsScopes(b, y)
  {
    if y == [] {
      assert x + y == x;
    } else {
      assert (x + y)[..|x + y| - 1] == x + y[..|y| - 1] && (x + y)[|x + y| - 1] == y[|y| - 1];
      GroupsScopesAppend(b, x, y[..|y| - 1]);
    }
  }

  lemma {:induction false} BatchCellsMean(b: Batch, groups: seq<seq<string>>, cap: nat, rank: Ranks)
    requires cap >= 1
    ensures var cells := BatchCells(b, groups);
      && Ids(cells) == Tokens(Concat(groups)) && Before(cells) == GroupsScopes(b, groups)
      && After(cells, cap, rank) == GroupsScopes(b, RegroupAll(groups, cap, rank))
  {
    if groups != [] {
      var front, last := groups[..|groups| - 1], groups[|groups| - 1];
      BatchCellsMean(b, front, cap, rank);
      assert BatchCells(b, groups)[..|BatchCells(b, front)|] == BatchCells(b, front);
      AfterNext(BatchCells(b, front), Cell(b, last), cap, rank);
      TokensAppend(Concat(front), last);
      GroupsScopesAppend(b, RegroupAll(front, cap, rank), Regroup(last, cap, rank));
    }
  }

  lemma RegroupedScopes(b: Batch, cap: nat, rank: Ranks)
    requires cap >= 1
    ensures GroupsScopes(Regrouped(b, cap, rank), Regrouped(b, cap, rank).groups) == GroupsScopes(b, RegroupAll(b.groups, cap, rank))
  {
    SameFallback(Regrouped(b, cap, rank), b, Regrouped(b, cap, rank).groups);
    if RegroupAll(b.groups, cap, rank) == [] {
      NoBlankGroups(b.groups, cap, rank);
      forall h | h in b.groups ensures |PartOf(b, h)| <= 1 {
        TokensCount(h);
        FilterAtMost(Tokens(h), (id: string) => !Picked(b, id));
      }
      NoScopesExactly(b, b.groups);
    }
  }

  /** The batches after the patch. */
  ghost function Reduced(batches: seq<Batch>, cap: nat, rank: Ranks): seq<Batch>
    requires cap >= 1
  {
    MapBatches(batches, (b: Batch) => Regrouped(b, cap, rank))
  }

  lemma ReducedNext(front: seq<Batch>, last: Batch, cap: nat, rank: Ranks)
    requires cap >= 1
    ensures Reduced(front + [last], cap, rank) == Reduced(front, cap, rank) + [Regrouped(last, cap, rank)]
  {
  }

  lemma ReducedIs(plan: Plan, rank: Ranks)
    ensures ReducedPlan(plan, rank).batches == Reduced(plan.batches, Lowered(plan.maxParallel), rank)
  {
  }

  lemma {:induction false} CellsMean(batches: seq<Batch>, cap: nat, rank: Ranks)
    requires cap >= 1
    ensures var cells := Cells(batches);
      && Ids(cells) == Listed(batches) && Before(cells) == Scopes(batches)
      && After(cells, cap, rank) == Scopes(Reduced(batches, cap, rank))
  {
    if batches != [] {
      var front, last := batches[..|batches| - 1], batches[|batches| - 1];
      assert batches == front + [last];
      CellsMean(front, cap, rank);
      BatchCellsMean(last, last.groups, cap, rank);
      CellsAppend(Cells(front), BatchCells(last, last.groups));
      AfterAppend(Cells(front), BatchCells(last, last.groups), cap, rank);
      RegroupedScopes(last, cap, rank);
      ReducedNext(front, last, cap, rank);
      ScopesAppend(Reduced(front, cap, rank), Regrouped(last, cap, rank));
    }
  }

  // ----- when anything changes

  lemma SplitEarlier<T(!new)>(x: seq<T>, a: seq<T>, y: seq<T>, b: seq<T>, first: T -> bool)
    requires (forall e :: e in y ==> first(e)) && (forall e :: e in a ==> !first(e)) && |x| < |y|
    ensures x + a != y + b
  {
    assert y[|x|] in y && (y + b)[|x|] == y[|x|];
    if a != [] { assert a[0] in a && (x + a)[|x|] == a[0]; }
  }

  /** Two sequences of first elements and others agree only in both parts. */
  lemma SplitUnique<T(!new)>(x: seq<T>, a: seq<T>, y: seq<T>, b: seq<T>, first: T -> bool)
    requires (forall e :: e in x ==> first(e)) && (forall e :: e in y ==> first(e))
    requires (forall e :: e in a ==> !first(e)) && (forall e :: e in b ==> !first(e))
    ensures x + a == y + b <==> x == y && a == b
  {
    if x + a == y + b {
      if |x| < |y| { SplitEarlier(x, a, y, b, first); }
      if |y| < |x| { SplitEarlier(y, b, x, a, first); }
      assert x == (x + a)[..|x|] && y == (y + b)[..|y|] && a == (x + a)[|x|..] && b == (y + b)[|y|..];
    }
  }

  ghost predicate AllFrom(scopes: seq<Scope>, ids: seq<string>) {
    forall s :: s in scopes ==> s != [] && forall t :: t in s ==> t in ids
  }

  lemma GroupsFrom(b: Batch, groups: seq<seq<string>>, ids: seq<string>)
    requires forall h, t :: h in groups && t in Tokens(h) ==> t in ids
    ensures AllFrom(GroupsScopes(b, groups), ids)
  {
    forall s | s in GroupsScopes(b, groups) ensures s != [] && forall t :: t in s ==> t in ids {
      var h := ScopeFrom(b, groups, s);
    }
  }

  lemma CellFrom(c: Cell, cap: nat, rank: Ranks)
    requires cap >= 1
    ensures AllFrom(GroupScopes(c.batch, c.group), Tokens(c.group))
    ensures AllFrom(GroupsScopes(c.batch, Regroup(c.group, cap, rank)), Tokens(c.group))
  {
    GroupScopesExactly(c.batch, c.group);
    ChunkTokens(c.group, cap, rank);
    GroupsFrom(c.batch, Regroup(c.group, cap, rank), Tokens(c.group));
  }

  lemma FromBoth(s: seq<Scope>, ids: seq<string>, t: seq<Scope>, more: seq<string>)
    requires AllFrom(s, ids) && AllFrom(t, more)
    ensures AllFrom(s + t, ids + more)
  {
  }

  lemma {:induction false} CellsFrom(cells: seq<Cell>, cap: nat, rank: Ranks)
    requires cap >= 1
    ensures AllFrom(Before(cells), Ids(cells)) && AllFrom(After(cells, cap, rank), Ids(cells))
  {
    if cells != [] {
      var front, last := cells[..|cells| - 1], cells[|cells| - 1];
      assert cells == front + [last];
      CellsFrom(front, cap, rank);
      CellFrom(last, cap, rank);
      CellNext(front, last);
      AfterNext(front, last, cap, rank);
      FromBoth(Before(front), Ids(front), GroupScopes(last.batch, last.group), Tokens(last.group));
      FromBoth(After(front, cap, rank), Ids(front), CellAfter(last, cap, rank), Tokens(last.group));
    }
  }

  ghost predicate AllKept(cells: seq<Cell>, cap: nat, rank: Ranks)
    requires cap >= 1
  {
    forall c :: c in cells ==> Kept(c.batch, c.group, cap, rank)
  }

  lemma PartsUnmixed(front: seq<Cell>, last: Cell, cap: nat, rank: Ranks)
    requires cap >= 1 && Unshared(Ids(front), Tokens(last.group))
    ensures After(front + [last], cap, rank) == Before(front + [last])
            <==> After(front, cap, rank) == Before(front) && CellAfter(last, cap, rank) == GroupScopes(last.batch, last.group)
  {
    CellsFrom(front, cap, rank);
    CellFrom(last, cap, rank);
    AfterNext(front, last, cap, rank);
    assert (front + [last])[..|front|] == front;
    SplitUnique(After(front, cap, rank), CellAfter(last, cap, rank), Before(front), GroupScopes(last.batch, last.group), (s: Scope) => s != [] && s[0] in Ids(front));
  }

  lemma AllKeptNext(front: seq<Cell>, last: Cell, cap: nat, rank: Ranks)
    requires cap >= 1
    ensures AllKept(front + [last], cap, rank) <==> AllKept(front, cap, rank) && Kept(last.batch, last.group, cap, rank)
  {
    assert last in front + [last];
  }

  /** The change of the whole is the change of some group. */
  lemma {:induction false} AllKeptExactly(cells: seq<Cell>, cap: nat, rank: Ranks)
    requires cap >= 1 && Distinct(Ids(cells))
    ensures After(cells, cap, rank) == Before(cells) <==> AllKept(cells, cap, rank)
  {
    if cells != [] {
      var front, last := cells[..|cells| - 1], cells[|cells| - 1];
      assert cells == front + [last];
      DistinctFront(Ids(front), Tokens(last.group));
      AllKeptExactly(front, cap, rank);
      KeptExactly(last.batch, last.group, cap, rank);
      PartsUnmixed(front, last, cap, rank);
      AllKeptNext(front, last, cap, rank);
    }
  }

  lemma FittingIsKept(b: Batch, group: seq<string>, cap: nat, rank: Ranks)
    requires cap >= 1 && |NonBlank(group)| <= cap
    ensures Kept(b, group, cap, rank)
  {
    TokensOfNonBlank(group);
    TokensCount(group);
    if NonBlank(group) != [] {
      assert NonBlank(group) in Regroup(group, cap, rank);
    }
    FilterAtMost(Tokens(group), (id: string) => !Picked(b, id));
  }

  /** Some group that is too large for the cap does not run in parallel what it ran before. */
  ghost predicate SomeRescoped(batches: seq<Batch>, cap: nat, rank: Ranks)
    requires cap >= 1
  {
    exists b, g :: b in batches && g in b.groups && |NonBlank(g)| > cap && !Kept(b, g, cap, rank)
  }

  /** Reducing parallelism changes what runs in parallel exactly when some group that is too large is not kept. */
  lemma ReducedExactly(plan: Plan, rank: Ranks)
    requires Distinct(Listed(plan.batches))
    ensures Scopes(ReducedPlan(plan, rank).batches) != Scopes(plan.batches) <==> SomeRescoped(plan.batches, Lowered(plan.maxParallel), rank)
  {
    var cap, cells := Lowered(plan.maxParallel), Cells(plan.batches);
    ReducedIs(plan, rank);
    CellsMean(plan.batches, cap, rank);
    CellsMembers(plan.batches);
    AllKeptExactly(cells, cap, rank);
    if !AllKept(cells, cap, rank) {
      var c :| c in cells && !Kept(c.batch, c.group, cap, rank);
      if |NonBlank(c.group)| <= cap { FittingIsKept(c.batch, c.group, cap, rank); }
    } else {
      forall b, g | b in plan.batches && g in b.groups ensures Kept(b, g, cap, rank) { assert Cell(b, g) in cells; }
    }
  }

  // ----- when actions become parallel

  /** Two actions run in parallel with each other. */
  ghost predicate Together(batches: seq<Batch>, x: string, y: string) {
    x != y && exists s :: s in Scopes(batches) && x in s && y in s
  }

  /** The group ran serially, and a chunk that no row for order applies to has two free actions. */
  ghost predicate FreesChunk(b: Batch, group: seq<string>, cap: nat, rank: Ranks)
    requires cap >= 1
  {
    Held(b, Tokens(group)) && exists h :: h in Regroup(group, cap, rank) && !Held(b, Tokens(h)) && |Free(b, Tokens(h))| > 1
  }

  ghost predicate SomeFreed(batches: seq<Batch>, cap: nat, rank: Ranks)
    requires cap >= 1
  {
    exists b, g :: b in batches && g in b.groups && FreesChunk(b, g, cap, rank)
  }

  ghost predicate SomeGained(before: seq<Batch>, after: seq<Batch>) {
    exists x, y :: Together(after, x, y) && !Together(before, x, y)
  }

  lemma {:induction false} ConcatFrom<T>(parts: seq<seq<T>>, x: T) returns (i: nat)
    requires x in Concat(parts)
    ensures i < |parts| && x in parts[i]
  {
    if x in parts[|parts| - 1] { i := |parts| - 1; } else { i := ConcatFrom(parts[..|parts| - 1], x); }
  }

  lemma {:induction false} ConcatOf<T>(parts: seq<seq<T>>, i: nat, x: T)
    requires i < |parts| && x in parts[i]
    ensures x in Concat(parts)
  {
    if i < |parts| - 1 { ConcatOf(parts[..|parts| - 1], i, x); }
  }

  /** Where a scope after the patch comes from. */
  lemma ReducedFrom(batches: seq<Batch>, cap: nat, rank: Ranks, s: Scope) returns (b: Batch, g: seq<string>, h: seq<string>)
    requires cap >= 1 && s in Scopes(Reduced(batches, cap, rank))
    ensures b in batches && g in b.groups && h in Regroup(g, cap, rank) && s == PartOf(b, h) && |s| > 1
  {
    var cells := Cells(batches);
    CellsMean(batches, cap, rank);
    CellsMembers(batches);
    var i := ConcatFrom(CellsAfter(cells, cap, rank), s);
    b, g := cells[i].batch, cells[i].group;
    assert cells[i] in cells;
    h := ScopeFrom(b, Regroup(g, cap, rank), s);
  }

  lemma AfterOf(cells: seq<Cell>, cap: nat, rank: Ranks, c: Cell, h: seq<string>)
    requires cap >= 1 && c in cells && h in Regroup(c.group, cap, rank) && |PartOf(c.batch, h)| > 1
    ensures PartOf(c.batch, h) in After(cells, cap, rank)
  {
    var i :| 0 <= i < |cells| && cells[i] == c;
    ScopeOf(c.batch, Regroup(c.group, cap, rank), h);
    ConcatOf(CellsAfter(cells, cap, rank), i, PartOf(c.batch, h));
  }

  lemma ReducedOf(batches: seq<Batch>, cap: nat, rank: Ranks, b: Batch, g: seq<string>, h: seq<string>)
    requires cap >= 1 && b in batches && g in b.groups && h in Regroup(g, cap, rank) && |PartOf(b, h)| > 1
    ensures PartOf(b, h) in Scopes(Reduced(batches, cap, rank))
  {
    CellsMean(batches, cap, rank);
    CellsMembers(batches);
    AfterOf(Cells(batches), cap, rank, Cell(b, g), h);
  }

  lemma {:induction false} BeforeFrom(cells: seq<Cell>, s: Scope) returns (c: Cell)
    requires s in Before(cells)
    ensures c in cells && s == PartOf(c.batch, c.group) && |s| > 1
  {
    var front, last := cells[..|cells| - 1], cells[|cells| - 1];
    assert cells == front + [last];
    GroupScopesExactly(last.batch, last.group);
    if s in GroupScopes(last.batch, last.group) { c := last; } else { c := BeforeFrom(front, s); }
  }

  lemma TwoInside(s: seq<string>, x: string, y: string)
    requires x in s && y in s && x != y
    ensures |s| > 1
  {
  }

  /** A pair that was not together before comes from a chunk that was freed. */
  lemma GainedIsFreed(batches: seq<Batch>, cap: nat, rank: Ranks, x: string, y: string)
    requires cap >= 1 && Together(Reduced(batches, cap, rank), x, y) && !Together(batches, x, y)
    ensures SomeFreed(batches, cap, rank)
  {
    var s :| s in Scopes(Reduced(batches, cap, rank)) && x in s && y in s;
    var b, g, h := ReducedFrom(batches, cap, rank, s);
    if !Held(b, Tokens(g)) {
      ChunkTokens(g, cap, rank);
      FreeWithin(b, Tokens(h), Tokens(g));
      TwoInside(PartOf(b, g), x, y);
      ScopeOf(b, b.groups, g);
      ScopeOfBatch(batches, b, PartOf(b, g));
    }
    assert FreesChunk(b, g, cap, rank);
  }

  lemma {:induction false} SameCell(cells: seq<Cell>, c: Cell, d: Cell, x: string)
    requires Distinct(Ids(cells)) && c in cells && d in cells && x in Tokens(c.group) && x in Tokens(d.group)
    ensures c == d
  {
    var front, last := cells[..|cells| - 1], cells[|cells| - 1];
    assert cells == front + [last];
    DistinctFront(Ids(front), Tokens(last.group));
    if c != last { IdsHold(front, c, x); }
    if d != last { IdsHold(front, d, x); }
    if c != last && d != last { SameCell(front, c, d, x); }
  }

  lemma {:induction false} IdsHold(cells: seq<Cell>, c: Cell, x: string)
    requires c in cells && x in Tokens(c.group)
    ensures x in Ids(cells)
  {
    var front, last := cells[..|cells| - 1], cells[|cells| - 1];
    assert cells == front + [last];
    if c != last { IdsHold(front, c, x); }
  }

  /** What a held group holds runs with nothing else. */
  lemma HeldAlone(batches: seq<Batch>, b: Batch, g: seq<string>, x: string, y: string)
    requires Distinct(Listed(batches)) && b in batches && g in b.groups && Held(b, Tokens(g)) && x in Tokens(g)
    ensures !Together(batches, x, y)
  {
    if Together(batches, x, y) {
      var s :| s in Scopes(batches) && x in s && y in s;
      var none: Ranks := map[];
      CellsMean(batches, 1, none);
      CellsMembers(batches);
      var c := BeforeFrom(Cells(batches), s);
      SameCell(Cells(batches), c, Cell(b, g), x);
      assert false;
    }
  }

  lemma ChunkIsGained(batches: seq<Batch>, cap: nat, rank: Ranks, b: Batch, g: seq<string>, h: seq<string>)
    requires cap >= 1 && Distinct(Listed(batches)) && b in batches && g in b.groups && Held(b, Tokens(g)) && h in Regroup(g, cap, rank)
    requires |PartOf(b, h)| > 1
    ensures SomeGained(batches, Reduced(batches, cap, rank))
  {
    var s := PartOf(b, h);
    ReducedOf(batches, cap, rank, b, g, h);
    DistinctPart(batches, b, g, cap, rank, h);
    ChunkTokens(g, cap, rank);
    assert s[0] in s && s[1] in s && s[0] in Tokens(g);
    HeldAlone(batches, b, g, s[0], s[1]);
    assert Together(Reduced(batches, cap, rank), s[0], s[1]);
  }

  lemma FreedIsGained(batches: seq<Batch>, cap: nat, rank: Ranks)
    requires cap >= 1 && Distinct(Listed(batches)) && SomeFreed(batches, cap, rank)
    ensures SomeGained(batches, Reduced(batches, cap, rank))
  {
    var b, g :| b in batches && g in b.groups && FreesChunk(b, g, cap, rank);
    var h :| h in Regroup(g, cap, rank) && !Held(b, Tokens(h)) && |Free(b, Tokens(h))| > 1;
    ChunkIsGained(batches, cap, rank, b, g, h);
  }

  lemma {:induction false} DistinctCell(cells: seq<Cell>, c: Cell)
    requires Distinct(Ids(cells)) && c in cells
    ensures Distinct(Tokens(c.group))
  {
    var front, last := cells[..|cells| - 1], cells[|cells| - 1];
    assert cells == front + [last];
    DistinctFront(Ids(front), Tokens(last.group));
    if c != last { DistinctCell(front, c); }
  }

  lemma DistinctGroup(batches: seq<Batch>, b: Batch, g: seq<string>, cap: nat, rank: Ranks)
    requires cap >= 1 && Distinct(Listed(batches)) && b in batches && g in b.groups
    ensures Distinct(Tokens(g))
  {
    CellsMean(batches, cap, rank);
    CellsMembers(batches);
    DistinctCell(Cells(batches), Cell(b, g));
  }

  lemma DistinctCut(g: seq<string>, cap: nat, rank: Ranks, h: seq<string>)
    requires cap >= 1 && Distinct(Tokens(g)) && h in Regroup(g, cap, rank)
    ensures Distinct(Tokens(h))
  {
    ChunkTokens(g, cap, rank);
    DistinctPermutes(Tokens(Concat(Regroup(g, cap, rank))), Tokens(g));
    DistinctChunk(Regroup(g, cap, rank), h);
  }

  lemma DistinctPart(batches: seq<Batch>, b: Batch, g: seq<string>, cap: nat, rank: Ranks, h: seq<string>)
    requires cap >= 1 && Distinct(Listed(batches)) && b in batches && g in b.groups && h in Regroup(g, cap, rank)
    ensures Distinct(PartOf(b, h))
  {
    DistinctGroup(batches, b, g, cap, rank);
    DistinctCut(g, cap, rank, h);
    DistinctFree(b, Tokens(h));
  }

  /** Reducing parallelism makes actions run in parallel that did not before exactly when it cuts a chunk with two free
      actions out of a group that ran serially because of its other actions. */
  lemma GainsExactly(plan: Plan, rank: Ranks)
    requires Distinct(Listed(plan.batches))
    ensures SomeGained(plan.batches, ReducedPlan(plan, rank).batches) <==> SomeFreed(plan.batches, Lowered(plan.maxParallel), rank)
  {
    var batches, cap := plan.batches, Lowered(plan.maxParallel);
    ReducedIs(plan, rank);
    if SomeGained(batches, Reduced(batches, cap, rank)) {
      var x, y :| Together(Reduced(batches, cap, rank), x, y) && !Together(batches, x, y);
      GainedIsFreed(batches, cap, rank, x, y);
    }
    if SomeFreed(batches, cap, rank) { FreedIsGained(batches, cap, rank); }
  }

  // ----- a group that is freed

  /** A batch that keeps the order of its three actions because of a row for the last one. */
  ghost function InOrder(a: string, b: string, c: string): Batch {
    Batch(Given("B001"), [[a, b, c]], None, None, None, 1, [], [FallbackRow(MinGap, [c], PreserveActionOrder, NoReason)])
  }

  ghost predicate ThreeActions(a: string, b: string, c: string, rank: Ranks) {
    && IsToken(a) && IsToken(b) && IsToken(c) && a != b && b != c && a != c
    && !RankThenId(rank, b, a) && !RankThenId(rank, c, b)
  }

  lemma OneToken(a: string)
    requires IsToken(a)
    ensures Tokens([a]) == [a] && NonBlank([a]) == [a]
  {
    assert [a][..0] == [] && !Blank(a);
    assert NonBlank([]) == [] && [] + [a] == [a];
    assert NonBlank([a]) == NonBlank([a][..0]) + [a];
  }

  lemma ThreeTokens(a: string, b: string, c: string)
    requires IsToken(a) && IsToken(b) && IsToken(c)
    ensures Tokens([a, b]) == [a, b] && Tokens([a, b, c]) == [a, b, c] && NonBlank([a, b, c]) == [a, b, c]
  {
    assert [a, b] == [a] + [b] && [a, b, c] == [a, b] + [c];
    OneToken(a); OneToken(b); OneToken(c);
    TokensAppend([a], [b]);
    TokensAppend([a, b], [c]);
    NonBlankAppend([a], [b]);
    NonBlankAppend([a, b], [c]);
  }

  lemma ThreeChunked(ids: seq<string>)
    requires |ids| == 3
    ensures Chunked(ids, 2) == [ids[..2], ids[2..]]
  {
    assert Chunked(ids[2..], 2) == [ids[2..]];
    assert [ids[..2]] + [ids[2..]] == [ids[..2], ids[2..]];
  }

  lemma RegroupSorted(group: seq<string>, cap: nat, rank: Ranks)
    requires |group| > cap >= 1 && NonBlank(group) == group && forall i :: 0 <= i < |group| - 1 ==> !RankThenId(rank, group[i + 1], group[i])
    ensures Regroup(group, cap, rank) == Chunked(group, cap)
  {
    Sorting.SortKeeps(group, (x: string, y: string) => RankThenId(rank, x, y));
  }

  lemma ThreeChunks(a: string, b: string, c: string, rank: Ranks)
    requires ThreeActions(a, b, c, rank)
    ensures Regroup([a, b, c], 2, rank) == [[a, b], [c]]
  {
    var ids := [a, b, c];
    ThreeTokens(a, b, c);
    RegroupSorted(ids, 2, rank);
    ThreeChunked(ids);
    assert ids[..2] == [a, b] && ids[2..] == [c];
  }

  lemma FirstTwoAreFree(a: string, b: string, c: string)
    requires a != c && b != c
    ensures !Held(InOrder(a, b, c), [a, b]) && Free(InOrder(a, b, c), [a, b]) == [a, b] && Held(InOrder(a, b, c), [a, b, c])
  {
    var batch := InOrder(a, b, c);
    RowForLast(a, b, c);
    forall id ensures !Picked(batch, id) { assert forall row :: row in batch.fallback ==> row == batch.fallback[0]; }
    KeepAllOf([a, b], (id: string) => !Picked(batch, id));
  }

  lemma RowForLast(a: string, b: string, c: string)
    requires a != c && b != c
    ensures !Held(InOrder(a, b, c), [a, b]) && Held(InOrder(a, b, c), [a, b, c])
  {
    var rows := InOrder(a, b, c).fallback;
    var row := rows[0];
    assert rows == [row] && row in rows && row.scope == [c];
    assert c in row.scope && c in [a, b, c] && c !in [a, b];
    assert HoldsOrder(row, [a, b, c]) && !HoldsOrder(row, [a, b]);
  }

  lemma OnlyListed(batch: Batch, g: seq<string>)
    requires batch.groups == [g]
    ensures Listed([batch]) == Tokens(g)
  {
    assert [batch][..0] == [] && [g][..0] == [];
    assert Concat([g]) == [] + g == g;
    assert Listed([batch]) == [] + Tokens(Concat([g]));
  }

  /** With the limit lowered from 3 to 2, two actions that ran one after the other run in parallel. */
  lemma GainExample(a: string, b: string, c: string, rank: Ranks)
    requires ThreeActions(a, b, c, rank)
    ensures var plan := Plan([InOrder(a, b, c)], 3, 1, 1);
      !Together(plan.batches, a, b) && Together(ReducedPlan(plan, rank).batches, a, b)
  {
    var batch, g, h := InOrder(a, b, c), [a, b, c], [a, b];
    FirstTwoAreFree(a, b, c);
    ThreeTokens(a, b, c);
    ThreeChunks(a, b, c, rank);
    ReducedIs(Plan([batch], 3, 1, 1), rank);
    OnlyListed(batch, g);
    ExampleGains(batch, g, h, rank);
  }

  lemma ExampleGains(batch: Batch, g: seq<string>, h: seq<string>, rank: Ranks)
    requires batch.groups == [g] && h in Regroup(g, 2, rank) && |h| == 2 && h[0] != h[1] && Tokens(h) == h && Free(batch, h) == h && !Held(batch, h)
    requires Held(batch, Tokens(g)) && Distinct(Listed([batch])) && h[0] in Tokens(g)
    ensures !Together([batch], h[0], h[1]) && Together(Reduced([batch], 2, rank), h[0], h[1])
  {
    assert batch in [batch] && g in batch.groups;
    ReducedOf([batch], 2, rank, batch, g, h);
    HeldAlone([batch], batch, g, h[0], h[1]);
    assert h[0] in h && h[1] in h;
  }

  lemma LettersAreActions()
    ensures ThreeActions("a", "b", "c", map[])
  {
    var none: Ranks := map[];
    assert RankOf(none, "a") == RankOf(none, "b") == RankOf(none, "c");
    Text.LessTotal("a", "b");
    Text.LessTotal("b", "c");
  }
}
