/** What every run of the batch scheduler guarantees. */
module TopoTheorems {
  import opened Digraph
  import opened Sequences
  import opened TopoScheduler

  /** A batch is a non-empty, duplicate-free choice from what was ready. */
  lemma BatchReady<N(!new)>(t: Target<N>, policy: Policy, batches: seq<seq<N>>, i: nat)
    requires Run(t, policy, batches) && i < |batches|
    ensures batches[i] != [] && Distinct(batches[i]) && Elements(batches[i]) <= Ready(t, Done(batches[..i]))
  {
    assert StepOk(t, policy, Done(batches[..i]), batches[i]);
    var ready := Ready(t, Done(batches[..i]));
    var ordered :| ReadyOrder(t, ready, ordered) && IsBatch(t, policy, ordered, batches[i]);
    BatchInReady(t, policy, ready, ordered, batches[i]);
  }

  lemma {:induction false} DoneMembers<N(!new)>(batches: seq<seq<N>>, n: nat, a: N)
    requires n <= |batches|
    ensures a in Done(batches[..n]) <==> exists i :: 0 <= i < n && a in batches[i]
  {
    if n > 0 {
      DoneMembers(batches, n - 1, a);
      assert batches[..n][..n - 1] == batches[..n - 1] && batches[..n][n - 1] == batches[n - 1];
    }
  }

  /** Action `a` is the `k`-th member of batch `i`. */
  ghost predicate PlacedAt<N>(batches: seq<seq<N>>, a: N, i: nat, k: nat) {
    i < |batches| && k < |batches[i]| && batches[i][k] == a
  }

  /** Every action of a finished schedule occurs in exactly one batch, exactly once there. */
  lemma EachActionOnce<N(!new)>(t: Target<N>, policy: Policy, batches: seq<seq<N>>, a: N)
    requires Run(t, policy, batches) && Done(batches) == t.actions.Keys && a in t.actions
    ensures exists i, k :: PlacedAt(batches, a, i, k)
    ensures forall i, k, j, l :: PlacedAt(batches, a, i, k) && PlacedAt(batches, a, j, l) ==> i == j && k == l
  {
    assert batches[..|batches|] == batches;
    DoneMembers(batches, |batches|, a);
    var i :| 0 <= i < |batches| && a in batches[i];
    var k :| 0 <= k < |batches[i]| && batches[i][k] == a;
    assert PlacedAt(batches, a, i, k);
    forall i, k, j, l | PlacedAt(batches, a, i, k) && PlacedAt(batches, a, j, l) ensures i == j && k == l {
      SameBatch(t, policy, batches, a, i, j);
      BatchReady(t, policy, batches, i);
    }
  }

  lemma SameBatch<N(!new)>(t: Target<N>, policy: Policy, batches: seq<seq<N>>, a: N, i: nat, j: nat)
    requires Run(t, policy, batches) && i < |batches| && j < |batches| && a in batches[i] && a in batches[j]
    ensures i == j
  {
    NotDoneBefore(t, policy, batches, a, i);
    NotDoneBefore(t, policy, batches, a, j);
  }

  lemma NotDoneBefore<N(!new)>(t: Target<N>, policy: Policy, batches: seq<seq<N>>, a: N, i: nat)
    requires Run(t, policy, batches) && i < |batches| && a in batches[i]
    ensures forall j :: 0 <= j < i ==> a !in batches[j]
  {
    BatchReady(t, policy, batches, i);
    assert a in Elements(batches[i]);
    DoneMembers(batches, i, a);
  }

  /** Dependencies go from a strictly earlier batch to a later one; in particular a batch is an antichain. */
  lemma DependenciesGoForward<N(!new)>(t: Target<N>, policy: Policy, batches: seq<seq<N>>, u: N, v: N, i: nat, j: nat)
    requires Run(t, policy, batches) && i < |batches| && j < |batches| && u in batches[i] && v in batches[j]
    requires (u, v) in DependencyArcs(t)
    ensures i < j
  {
    BatchReady(t, policy, batches, j);
    assert v in Elements(batches[j]);
    DoneMembers(batches, j, u);
    var k :| 0 <= k < j && u in batches[k];
    SameBatch(t, policy, batches, u, i, k);
  }

  /** Home-assistant actions come strictly after all others. */
  lemma HaComesLast<N(!new)>(t: Target<N>, policy: Policy, batches: seq<seq<N>>, u: N, v: N, i: nat, j: nat)
    requires Run(t, policy, batches) && i < |batches| && j < |batches| && u in batches[i] && v in batches[j]
    requires !IsHa(t, u) && IsHa(t, v)
    ensures i < j
  {
    BatchReady(t, policy, batches, i);
    BatchReady(t, policy, batches, j);
    assert u in Elements(batches[i]) && v in Elements(batches[j]);
    assert (u, v) in DependencyArcs(t);
    DependenciesGoForward(t, policy, batches, u, v, i, j);
  }

  /** With positive limits each batch is the longest joinable prefix of the ready actions in declaration order. */
  lemma BatchIsLongestPrefix<N(!new)>(t: Target<N>, policy: Policy, batches: seq<seq<N>>, i: nat, ordered: seq<N>)
    requires Run(t, policy, batches) && PositiveLimits(policy) && i < |batches|
    requires ReadyOrder(t, Ready(t, Done(batches[..i])), ordered)
    ensures RunFrom(t, policy, ordered, batches[i], 0)
  {
    var ready := Ready(t, Done(batches[..i]));
    assert StepOk(t, policy, Done(batches[..i]), batches[i]);
    var other :| ReadyOrder(t, ready, other) && IsBatch(t, policy, other, batches[i]);
    ReadyOrderUnique(t, ready, ordered, other);
    forall a | a in ordered ensures a in t.actions {
      assert a in Elements(ordered);
    }
    LongestPrefix(t, policy, ordered, batches[i]);
  }

  /** Any two members that share a known device only read it, and neither is a Home Assistant action. */
  ghost predicate ConflictFree<N(!new)>(t: Target<N>, batch: seq<N>) {
    && (forall k :: 0 <= k < |batch| ==> batch[k] in t.actions)
    && (forall k, l :: 0 <= k < |batch| && 0 <= l < |batch| && k != l && t.actions[batch[k]].target != "" ==>
          t.actions[batch[k]].target == t.actions[batch[l]].target ==> t.actions[batch[k]].readLike && t.actions[batch[k]].protocol != Ha)
  }

  /** With positive limits each batch respects every capacity and holds no two actions that fight over a device. */
  lemma BatchRespectsLimits<N(!new)>(t: Target<N>, policy: Policy, batches: seq<seq<N>>, i: nat)
    requires Run(t, policy, batches) && PositiveLimits(policy) && i < |batches|
    ensures WithinLimits(t, policy, batches[i])
    ensures ConflictFree(t, batches[i])
  {
    assert StepOk(t, policy, Done(batches[..i]), batches[i]);
    var ordered :| ReadyOrder(t, Ready(t, Done(batches[..i])), ordered) && IsBatch(t, policy, ordered, batches[i]);
    BatchIsLongestPrefix(t, policy, batches, i, ordered);
    GrownWithinLimits(t, policy, batches[i]);
  }

  lemma GrownWithinLimits<N(!new)>(t: Target<N>, policy: Policy, batch: seq<N>)
    requires Grown(t, policy, batch) && batch != []
    ensures WithinLimits(t, policy, batch)
    ensures ConflictFree(t, batch)
  {
    var last := |batch| - 1;
    assert Joinable(t, policy, batch[last], batch[..last]) && batch[..last] + [batch[last]] == batch;
    forall k, l | 0 <= k < l < |batch| ensures batch[k] in t.actions && batch[l] in t.actions && GoTogether(t.actions[batch[l]], t.actions[batch[k]]) {
      assert Joinable(t, policy, batch[k], batch[..k]) && Joinable(t, policy, batch[l], batch[..l]);
      assert batch[..l][k] == batch[k];
    }
  }

  /** Some member of the batch has the known device of `a`, and one of the two writes it or is a Home Assistant action. */
  ghost predicate Fights<N(!new)>(t: Target<N>, batch: seq<N>, a: N)
    requires a in t.actions
  {
    exists b :: b in batch && b in t.actions && t.actions[a].target != "" && t.actions[b].target == t.actions[a].target
      && !(t.actions[a].readLike && t.actions[b].readLike && t.actions[a].protocol != Ha && t.actions[b].protocol != Ha)
  }

  /** The batch is full for an action of protocol `p`. */
  ghost predicate Full<N(!new)>(t: Target<N>, policy: Policy, batch: seq<N>, p: Protocol) {
    || |batch| == policy.maxParallel || (p == Ble && CountOf(t, batch, Ble) == policy.bleParallel)
    || (p == Cloud && CountOf(t, batch, Cloud) == policy.cloudParallel) || (p == Local && CountOf(t, batch, Local) == policy.localParallel)
  }

  /** A batch ends before the next ready action exactly because that fights over a device with a member, or the batch is full
      for it. */
  lemma NextIsKeptOut<N(!new)>(t: Target<N>, policy: Policy, batches: seq<seq<N>>, i: nat, ordered: seq<N>)
    requires Run(t, policy, batches) && PositiveLimits(policy) && i < |batches|
    requires ReadyOrder(t, Ready(t, Done(batches[..i])), ordered) && |batches[i]| < |ordered|
    ensures var next := ordered[|batches[i]|];
            next in t.actions && (Fights(t, batches[i], next) || Full(t, policy, batches[i], t.actions[next].protocol))
  {
    var batch, next := batches[i], ordered[|batches[i]|];
    BatchIsLongestPrefix(t, policy, batches, i, ordered);
    BatchRespectsLimits(t, policy, batches, i);
    assert next in Elements(ordered);
    CountNext(t, batch, next);
  }

  lemma CountNext<N(!new)>(t: Target<N>, batch: seq<N>, next: N)
    requires next in t.actions
    ensures forall p :: CountOf(t, batch + [next], p) == CountOf(t, batch, p) + (if t.actions[next].protocol == p then 1 else 0)
  {
    assert (batch + [next])[..|batch|] == batch;
  }

  /** The schedule is a function of target and policy: supplied latencies cannot change it. */
  lemma ScheduleUnique<N(!new)>(t: Target<N>, policy: Policy, a: seq<seq<N>>, b: seq<seq<N>>)
    requires Run(t, policy, a) && Run(t, policy, b)
    requires Done(a) == t.actions.Keys && Done(b) == t.actions.Keys
    ensures a == b
  {
    var n := if |a| <= |b| then |a| else |b|;
    SamePrefix(t, policy, a, b, n);
    assert a[..|a|] == a && b[..|b|] == b;
    if |a| < |b| { NothingAfterDone(t, policy, b, n); }
    if |b| < |a| { NothingAfterDone(t, policy, a, n); }
  }

  lemma NothingAfterDone<N(!new)>(t: Target<N>, policy: Policy, batches: seq<seq<N>>, n: nat)
    requires Run(t, policy, batches) && n <= |batches| && Done(batches[..n]) == t.actions.Keys
    ensures n == |batches|
  {
    if n < |batches| {
      assert batches[n] == [] || batches[n][0] in Elements(batches[n]);
      BatchReady(t, policy, batches, n);
    }
  }

  lemma {:induction false} SamePrefix<N(!new)>(t: Target<N>, policy: Policy, a: seq<seq<N>>, b: seq<seq<N>>, n: nat)
    requires Run(t, policy, a) && Run(t, policy, b) && n <= |a| && n <= |b|
    ensures a[..n] == b[..n]
  {
    if n > 0 {
      SamePrefix(t, policy, a, b, n - 1);
      var done := Done(a[..n - 1]);
      assert StepOk(t, policy, done, a[n - 1]) && StepOk(t, policy, done, b[n - 1]);
      StepUnique(t, policy, done, a[n - 1], b[n - 1]);
      TakeNext(a, n - 1);
      TakeNext(b, n - 1);
    }
  }

  lemma StepUnique<N(!new)>(t: Target<N>, policy: Policy, done: set<N>, a: seq<N>, b: seq<N>)
    requires StepOk(t, policy, done, a) && StepOk(t, policy, done, b)
    ensures a == b
  {
    var x :| ReadyOrder(t, Ready(t, done), x) && IsBatch(t, policy, x, a);
    var y :| ReadyOrder(t, Ready(t, done), y) && IsBatch(t, policy, y, b);
    ReadyOrderUnique(t, Ready(t, done), x, y);
    BatchUnique(t, policy, x, a, b);
  }

  /** No capacity and no conflict ever kept a ready action out of its batch. */
  ghost predicate NothingBinds<N(!new)>(t: Target<N>, batches: seq<seq<N>>) {
    forall i :: 0 <= i < |batches| ==> Elements(batches[i]) == Ready(t, Done(batches[..i]))
  }

  /** Every capacity is at least the number of actions, and no two actions conflict on a device. */
  ghost predicate NothingCanBind<N(!new)>(t: Target<N>, policy: Policy) {
    && policy.maxParallel >= |t.ids| && policy.bleParallel >= |t.ids| && policy.cloudParallel >= |t.ids| && policy.localParallel >= |t.ids|
    && forall a, b :: a in t.actions && b in t.actions && a != b ==> GoTogether(t.actions[a], t.actions[b])
  }

  lemma {:induction false} CountAtMost<N>(t: Target<N>, selected: seq<N>, p: Protocol)
    ensures CountOf(t, selected, p) <= |selected|
  {
    if selected != [] { CountAtMost(t, selected[..|selected| - 1], p); }
  }

  lemma RanksApart<N(!new)>(t: Target<N>, ready: set<N>, ordered: seq<N>)
    requires ReadyOrder(t, ready, ordered)
    ensures Distinct(ordered) && |ordered| <= |t.ids|
  {
    assert Elements(ordered) <= Elements(t.ids);
    DistinctSize(ordered);
    SubsetSize(Elements(ordered), Elements(t.ids));
    ElementsSize(t.ids);
  }

  lemma {:induction false} ElementsSize<N>(s: seq<N>)
    ensures |Elements(s)| <= |s|
  {
    if s != [] {
      ElementsSize(s[..|s| - 1]);
      ElementsAppend(s[..|s| - 1], s[|s| - 1]);
      assert s == s[..|s| - 1] + [s[|s| - 1]];
    }
  }

  lemma NextJoins<N(!new)>(t: Target<N>, policy: Policy, ready: set<N>, ordered: seq<N>, m: nat)
    requires NothingCanBind(t, policy) && ReadyOrder(t, ready, ordered) && ready <= t.actions.Keys && m < |ordered|
    ensures Joinable(t, policy, ordered[m], ordered[..m])
  {
    RanksApart(t, ready, ordered);
    forall k | 0 <= k <= m ensures ordered[k] in t.actions { assert ordered[k] in Elements(ordered); }
    forall other | other in ordered[..m] ensures other != ordered[m] && other in t.actions {
      var k :| 0 <= k < m && other == ordered[k];
    }
    var batch := ordered[..m] + [ordered[m]];
    CountAtMost(t, batch, Ble);
    CountAtMost(t, batch, Cloud);
    CountAtMost(t, batch, Local);
  }

  lemma PrefixIsAll<N(!new)>(t: Target<N>, policy: Policy, ready: set<N>, ordered: seq<N>, batch: seq<N>)
    requires NothingCanBind(t, policy) && ReadyOrder(t, ready, ordered) && ready <= t.actions.Keys && RunFrom(t, policy, ordered, batch, 0)
    ensures batch == ordered
  {
    if |batch| < |ordered| { NextJoins(t, policy, ready, ordered, |batch|); }
  }

  /** Then every batch takes all ready actions. */
  lemma NothingBindsWhenWide<N(!new)>(t: Target<N>, policy: Policy, batches: seq<seq<N>>)
    requires WellFormed(t) && Run(t, policy, batches) && NothingCanBind(t, policy)
    ensures NothingBinds(t, batches)
  {
    forall i | 0 <= i < |batches| ensures Elements(batches[i]) == Ready(t, Done(batches[..i])) {
      var ready := Ready(t, Done(batches[..i]));
      assert StepOk(t, policy, Done(batches[..i]), batches[i]);
      var ordered :| ReadyOrder(t, ready, ordered) && IsBatch(t, policy, ordered, batches[i]);
      BatchInReady(t, policy, ready, ordered, batches[i]);
      assert batches[i][0] in Elements(batches[i]);
      assert batches[i][0] in t.ids by { assert batches[i][0] in Elements(t.ids); }
      BatchIsLongestPrefix(t, policy, batches, i, ordered);
      PrefixIsAll(t, policy, ready, ordered, batches[i]);
    }
  }

  /** `p` is a dependency chain that ends in `v`. */
  ghost predicate ChainTo<N(!new)>(t: Target<N>, p: seq<N>, v: N) {
    IsWalk(DependencyArcs(t), p) && p[|p| - 1] == v
  }

  /** When nothing binds, the batch index of an action is the length of its longest dependency chain. */
  lemma IndexIsDepth<N(!new)>(t: Target<N>, policy: Policy, batches: seq<seq<N>>, v: N, i: nat)
    requires Run(t, policy, batches) && Done(batches) == t.actions.Keys && NothingBinds(t, batches)
    requires i < |batches| && v in batches[i]
    ensures exists p :: ChainTo(t, p, v) && |p| == i + 1
    ensures forall p :: ChainTo(t, p, v) ==> |p| <= i + 1
  {
    var p := LongChain(t, policy, batches, v, i);
    forall u, v, i | (u, v) in DependencyArcs(t) && 0 <= i < |batches| && v in batches[i] ensures Before(batches, u, i) {
      var j := SourceBatch(t, policy, batches, u, v, i);
    }
    forall p | ChainTo(t, p, v) ensures |p| <= i + 1 {
      ChainBound(DependencyArcs(t), batches, p, i);
    }
  }

  lemma {:induction false} LongChain<N(!new)>(t: Target<N>, policy: Policy, batches: seq<seq<N>>, v: N, i: nat) returns (p: seq<N>)
    requires Run(t, policy, batches) && NothingBinds(t, batches) && i < |batches| && v in batches[i]
    ensures ChainTo(t, p, v) && |p| == i + 1
  {
    if i == 0 {
      p := [v];
    } else {
      var u := LatePredecessor(t, policy, batches, v, i);
      var q := LongChain(t, policy, batches, u, i - 1);
      p := q + [v];
    }
  }

  /** An action that was not ready one batch earlier depends on a member of that batch. */
  lemma LatePredecessor<N(!new)>(t: Target<N>, policy: Policy, batches: seq<seq<N>>, v: N, i: nat) returns (u: N)
    requires Run(t, policy, batches) && NothingBinds(t, batches) && 0 < i < |batches| && v in batches[i]
    ensures (u, v) in DependencyArcs(t) && u in batches[i - 1]
  {
    BatchReady(t, policy, batches, i);
    assert v in Elements(batches[i]) && v in Ready(t, Done(batches[..i]));
    NotDoneBefore(t, policy, batches, v, i);
    assert v !in Elements(batches[i - 1]) && v !in Ready(t, Done(batches[..i - 1]));
    DoneMembers(batches, i - 1, v);
    u :| (u, v) in DependencyArcs(t) && u !in Done(batches[..i - 1]);
    TakeNext(batches, i - 1);
    assert (batches[..i - 1] + [batches[i - 1]])[..i - 1] == batches[..i - 1];
  }

  ghost predicate Before<N>(batches: seq<seq<N>>, u: N, i: nat) {
    exists j :: 0 <= j < i && j < |batches| && u in batches[j]
  }

  ghost predicate SourcesBefore<N(!new)>(r: set<(N, N)>, batches: seq<seq<N>>) {
    forall u, v, i {:trigger Before(batches, u, i), (u, v) in r} ::
      (u, v) in r && 0 <= i < |batches| && v in batches[i] ==> Before(batches, u, i)
  }

  lemma {:induction false} ChainBound<N(!new)>(r: set<(N, N)>, batches: seq<seq<N>>, p: seq<N>, i: nat)
    requires SourcesBefore(r, batches) && IsWalk(r, p) && i < |batches| && p[|p| - 1] in batches[i]
    ensures |p| <= i + 1
  {
    if |p| > 1 {
      var front, u, v := p[..|p| - 1], p[|p| - 2], p[|p| - 1];
      assert (u, v) in r;
      assert Before(batches, u, i);
      var j :| 0 <= j < i && j < |batches| && u in batches[j];
      ChainBound(r, batches, front, j);
    }
  }

  lemma SourceBatch<N(!new)>(t: Target<N>, policy: Policy, batches: seq<seq<N>>, u: N, v: N, i: nat) returns (j: nat)
    requires Run(t, policy, batches) && Done(batches) == t.actions.Keys
    requires (u, v) in DependencyArcs(t) && i < |batches| && v in batches[i]
    ensures j < i && u in batches[j]
  {
    assert batches[..|batches|] == batches;
    DoneMembers(batches, |batches|, u);
    j :| 0 <= j < |batches| && u in batches[j];
    DependenciesGoForward(t, policy, batches, u, v, j, i);
  }
}
