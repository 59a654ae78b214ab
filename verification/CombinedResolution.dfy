/** Greedy choice among the refined corridors (optimizer/combined_micro_refinement.py `resolve_combined_candidates`,
    `_candidate_conflict_reasons`, `_ranges_adjacent_or_overlap`). */
module CombinedResolution {
  import opened Numbers
  import opened Timelines
  import Sorting
  import Text

  datatype Source = Api | Ble

  /** Names of the shared resources a corridor touches. */
  datatype Domains = Domains(sessions: set<string>, devices: set<string>, hosts: set<string>, endpoints: set<string>)

  /** Keys of the resources an owner of events uses; an absent key is empty. */
  datatype Keys = Keys(host: string, bucket: string, session: string, endpoint: string)

  /** A refined corridor up for inclusion. `ordinals` are the numbers of those batches that are named by number; `events`
      is its timeline, `owners` the actions or steps whose ends stand for its batches, `keys` their resources. */
  datatype Candidate = Candidate(source: Source, id: string, batches: seq<string>, actions: seq<string>, saved: int, validated: bool,
    ordinals: seq<int>, domains: Domains, owners: seq<string>, events: seq<Event>, keys: map<string, Keys>)

  datatype Policy = Policy(forbidBatchOverlap: bool, forbidActionOverlap: bool, requireValidation: bool, gapThreshold: int,
    forbidAdjacentSessions: bool, forbidAdjacentHosts: bool, forbidAdjacentEndpoints: bool)

  // ----- conflicts

  function Least(s: seq<int>): (m: int)
    requires s != []
    ensures m in s && forall x :: x in s ==> m <= x
  {
    if |s| == 1 then s[0]
    else
      var front, last := Least(s[..|s| - 1]), s[|s| - 1];
      assert s == s[..|s| - 1] + [last];
      Min(front, last)
  }

  function Greatest(s: seq<int>): (m: int)
    requires s != []
    ensures m in s && forall x :: x in s ==> x <= m
  {
    if |s| == 1 then s[0]
    else
      var front, last := Greatest(s[..|s| - 1]), s[|s| - 1];
      assert s == s[..|s| - 1] + [last];
      Max(front, last)
  }

  predicate RangesNear(left: seq<int>, right: seq<int>, gapThreshold: int) {
    if left == [] || right == [] then false
    else
      var leftMin, leftMax, rightMin, rightMax := Least(left), Greatest(left), Least(right), Greatest(right);
      if leftMax >= rightMin && rightMax >= leftMin then true
      else if leftMax < rightMin then rightMin - leftMax <= gapThreshold + 1
      else leftMin - rightMax <= gapThreshold + 1
  }

  ghost predicate Spans(s: seq<int>, x: int) {
    s != [] && Least(s) <= x <= Greatest(s)
  }

  ghost function Distance(x: int, y: int): int {
    if x <= y then y - x else x - y
  }

  /** Two ranges of batches are near exactly when some of their points lie at most `gapThreshold + 1` apart. */
  lemma RangesNearExactly(left: seq<int>, right: seq<int>, gapThreshold: int)
    ensures RangesNear(left, right, gapThreshold) <==>
            exists x, y :: Spans(left, x) && Spans(right, y) && Distance(x, y) <= Max(0, gapThreshold + 1)
  {
    if left != [] && right != [] {
      var leftMin, leftMax, rightMin, rightMax := Least(left), Greatest(left), Least(right), Greatest(right);
      if leftMax < rightMin {
        assert Spans(left, leftMax) && Spans(right, rightMin);
      } else if rightMax < leftMin {
        assert Spans(left, leftMin) && Spans(right, rightMax);
      } else {
        var x := Max(leftMin, rightMin);
        assert Spans(left, x) && Spans(right, x);
      }
    }
  }

  predicate Meet(a: seq<string>, b: seq<string>) {
    exists x :: x in a && x in b
  }

  predicate Share(a: set<string>, b: set<string>) {
    a * b != {}
  }

  datatype Reason = BatchOverlap | ActionOverlap | BleDomainAdjacent | ApiHostAdjacent | ApiEndpointAdjacent | ValidationFailed | NonPositiveSaving

  function DomainReasons(left: Candidate, right: Candidate, policy: Policy): seq<Reason> {
    if left.source != right.source || !RangesNear(left.ordinals, right.ordinals, policy.gapThreshold) then []
    else if left.source == Ble then
      if policy.forbidAdjacentSessions && (Share(left.domains.sessions, right.domains.sessions) || Share(left.domains.devices, right.domains.devices))
      then [BleDomainAdjacent] else []
    else
      (if policy.forbidAdjacentHosts && Share(left.domains.hosts, right.domains.hosts) then [ApiHostAdjacent] else [])
      + (if policy.forbidAdjacentEndpoints && Share(left.domains.endpoints, right.domains.endpoints) then [ApiEndpointAdjacent] else [])
  }

  function ConflictReasons(left: Candidate, right: Candidate, policy: Policy): seq<Reason> {
    (if policy.forbidBatchOverlap && Meet(left.batches, right.batches) then [BatchOverlap] else [])
    + (if policy.forbidActionOverlap && Meet(left.actions, right.actions) then [ActionOverlap] else [])
    + DomainReasons(left, right, policy)
  }

  predicate Conflict(left: Candidate, right: Candidate, policy: Policy) {
    ConflictReasons(left, right, policy) != []
  }

  lemma DomainsSymmetric(left: Candidate, right: Candidate, policy: Policy)
    ensures DomainReasons(left, right, policy) == DomainReasons(right, left, policy)
  {
    assert left.domains.sessions * right.domains.sessions == right.domains.sessions * left.domains.sessions;
    assert left.domains.devices * right.domains.devices == right.domains.devices * left.domains.devices;
    assert left.domains.hosts * right.domains.hosts == right.domains.hosts * left.domains.hosts;
    assert left.domains.endpoints * right.domains.endpoints == right.domains.endpoints * left.domains.endpoints;
  }

  lemma ConflictSymmetric(left: Candidate, right: Candidate, policy: Policy)
    ensures ConflictReasons(left, right, policy) == ConflictReasons(right, left, policy)
  {
    DomainsSymmetric(left, right, policy);
  }

  /** Two candidates of one lane lie so near that shared resources matter, and share some that the policy guards. */
  ghost predicate ShareNearby(a: Candidate, b: Candidate, policy: Policy) {
    && a.source == b.source && RangesNear(a.ordinals, b.ordinals, policy.gapThreshold)
    && exists x :: GuardsShared(a, b, policy, x)
  }

  ghost predicate GuardsShared(a: Candidate, b: Candidate, policy: Policy, x: string) {
    match a.source
    case Ble => policy.forbidAdjacentSessions && ((x in a.domains.sessions && x in b.domains.sessions) || (x in a.domains.devices && x in b.domains.devices))
    case Api =>
      || (policy.forbidAdjacentHosts && x in a.domains.hosts && x in b.domains.hosts)
      || (policy.forbidAdjacentEndpoints && x in a.domains.endpoints && x in b.domains.endpoints)
  }

  /** Two candidates conflict exactly when they have a batch or an action in common that the policy wants apart, or share a
      guarded resource nearby. */
  lemma ConflictExactly(a: Candidate, b: Candidate, policy: Policy)
    ensures Conflict(a, b, policy) <==>
              || (policy.forbidBatchOverlap && exists x :: x in a.batches && x in b.batches)
              || (policy.forbidActionOverlap && exists x :: x in a.actions && x in b.actions)
              || ShareNearby(a, b, policy)
  {
    DomainsExactly(a, b, policy);
  }

  lemma SharedExactly(p: set<string>, q: set<string>)
    ensures Share(p, q) <==> exists x :: x in p && x in q
  {
    if x :| x in p && x in q { assert x in p * q; }
    if Share(p, q) {
      var x :| x in p * q;
    }
  }

  lemma DomainsExactly(a: Candidate, b: Candidate, policy: Policy)
    ensures DomainReasons(a, b, policy) != [] <==> ShareNearby(a, b, policy)
  {
    SharedExactly(a.domains.sessions, b.domains.sessions);
    SharedExactly(a.domains.devices, b.domains.devices);
    SharedExactly(a.domains.hosts, b.domains.hosts);
    SharedExactly(a.domains.endpoints, b.domains.endpoints);
    if DomainReasons(a, b, policy) != [] {
      var x: string;
      if a.source == Ble {
        if Share(a.domains.sessions, b.domains.sessions) {
          x :| x in a.domains.sessions && x in b.domains.sessions;
        } else {
          x :| x in a.domains.devices && x in b.domains.devices;
        }
      } else if policy.forbidAdjacentHosts && Share(a.domains.hosts, b.domains.hosts) {
        x :| x in a.domains.hosts && x in b.domains.hosts;
      } else {
        x :| x in a.domains.endpoints && x in b.domains.endpoints;
      }
      assert GuardsShared(a, b, policy, x);
    }
  }

  // ----- the order of the pool

  function Normalize(c: Candidate): Candidate {
    c.(saved := Max(0, c.saved))
  }

  function NormalizeAll(pool: seq<Candidate>): (r: seq<Candidate>)
    ensures |r| == |pool| && forall i :: 0 <= i < |r| ==> r[i] == Normalize(pool[i])
  {
    seq(|pool|, i requires 0 <= i < |pool| => Normalize(pool[i]))
  }

  predicate SourceLess(a: Candidate, b: Candidate) {
    (a.source == Api && b.source == Ble) || (a.source == b.source && Text.Less(a.id, b.id))
  }

  /** Larger savings first, then by source and corridor. */
  predicate Better(a: Candidate, b: Candidate) {
    a.saved > b.saved || (a.saved == b.saved && SourceLess(a, b))
  }

  // ----- the greedy pass

  datatype Winner = Nobody | WonBy(candidate: Candidate)

  /** Why a candidate lost, and to whom. */
  datatype Verdict = Verdict(winner: Winner, loser: Candidate, reasons: seq<Reason>)

  datatype Decision = Decision(accepted: seq<Candidate>, rejected: seq<Candidate>, conflicts: seq<Verdict>)

  /** The earliest accepted candidate in conflict with `c`. */
  function FirstRival(accepted: seq<Candidate>, c: Candidate, policy: Policy): Winner {
    if accepted == [] then Nobody
    else
      var earlier, last := FirstRival(accepted[..|accepted| - 1], c, policy), accepted[|accepted| - 1];
      if earlier.WonBy? then earlier else if Conflict(last, c, policy) then WonBy(last) else Nobody
  }

  ghost predicate Worthy(c: Candidate, policy: Policy) {
    (policy.requireValidation ==> c.validated) && c.saved > 0
  }

  function Consider(d: Decision, c: Candidate, policy: Policy): Decision {
    if policy.requireValidation && !c.validated then Decision(d.accepted, d.rejected + [c], d.conflicts + [Verdict(Nobody, c, [ValidationFailed])])
    else if c.saved <= 0 then Decision(d.accepted, d.rejected + [c], d.conflicts + [Verdict(Nobody, c, [NonPositiveSaving])])
    else
      var rival := FirstRival(d.accepted, c, policy);
      if rival == Nobody then d.(accepted := d.accepted + [c])
      else Decision(d.accepted, d.rejected + [c], d.conflicts + [Verdict(rival, c, ConflictReasons(rival.candidate, c, policy))])
  }

  function Greedy(pool: seq<Candidate>, policy: Policy): Decision {
    if pool == [] then Decision([], [], []) else Consider(Greedy(pool[..|pool| - 1], policy), pool[|pool| - 1], policy)
  }

  ghost function SortedPool(ble: seq<Candidate>, api: seq<Candidate>): seq<Candidate> {
    Sorting.Sort(NormalizeAll(ble + api), Better)
  }

  /** The decision as reported: the greedy one with both lists in order of source and corridor. */
  function Outcome(pool: seq<Candidate>, policy: Policy): Decision {
    var g := Greedy(pool, policy);
    Decision(Sorting.Sort(g.accepted, SourceLess), Sorting.Sort(g.rejected, SourceLess), g.conflicts)
  }

  method FindRival(accepted: seq<Candidate>, c: Candidate, policy: Policy) returns (rival: Winner, reasons: seq<Reason>)
    ensures rival == FirstRival(accepted, c, policy)
    ensures rival.WonBy? ==> reasons == ConflictReasons(rival.candidate, c, policy)
  {
    rival, reasons := Nobody, [];
    var i := 0;
    while i < |accepted|
      invariant 0 <= i <= |accepted|
      invariant rival == Nobody == FirstRival(accepted[..i], c, policy)
    {
      var overlap := ConflictReasons(accepted[i], c, policy);
      assert accepted[..i + 1] == accepted[..i] + [accepted[i]];
      RivalNext(accepted[..i], accepted[i], c, policy, overlap != []);
      if overlap != [] {
        RivalStays(accepted, i + 1, c, policy);
        return WonBy(accepted[i]), overlap;
      }
      i := i + 1;
    }
    assert accepted[..i] == accepted;
  }

  lemma {:induction false} RivalStays(accepted: seq<Candidate>, n: nat, c: Candidate, policy: Policy)
    requires n <= |accepted| && FirstRival(accepted[..n], c, policy).WonBy?
    ensures FirstRival(accepted, c, policy) == FirstRival(accepted[..n], c, policy)
  {
    if n < |accepted| {
      var front := accepted[..|accepted| - 1];
      assert front[..n] == accepted[..n];
      RivalStays(front, n, c, policy);
    } else {
      assert accepted[..n] == accepted;
    }
  }

  /** Walks the pool from the largest saving down and keeps what does not conflict with anything kept before. */
  method Resolve(ble: seq<Candidate>, api: seq<Candidate>, policy: Policy) returns (d: Decision)
    ensures d == Outcome(SortedPool(ble, api), policy)
  {
    var accepted: seq<Candidate>, rejected: seq<Candidate>, conflicts: seq<Verdict> := [], [], [];
    var pool := Sorting.Sort(NormalizeAll(ble + api), Better);
    for i := 0 to |pool|
      invariant Decision(accepted, rejected, conflicts) == Greedy(pool[..i], policy)
    {
      var candidate := pool[i];
      assert pool[..i + 1][..i] == pool[..i];
      if policy.requireValidation && !candidate.validated {
        rejected, conflicts := rejected + [candidate], conflicts + [Verdict(Nobody, candidate, [ValidationFailed])];
      } else if candidate.saved <= 0 {
        rejected, conflicts := rejected + [candidate], conflicts + [Verdict(Nobody, candidate, [NonPositiveSaving])];
      } else {
        var rival, reasons := FindRival(accepted, candidate, policy);
        if rival == Nobody {
          accepted := accepted + [candidate];
        } else {
          rejected, conflicts := rejected + [candidate], conflicts + [Verdict(rival, candidate, reasons)];
        }
      }
    }
    assert pool[..|pool|] == pool;
    d := Decision(Sorting.Sort(accepted, SourceLess), Sorting.Sort(rejected, SourceLess), conflicts);
  }

  // ----- what a decision guarantees

  lemma {:induction false} RivalExists(accepted: seq<Candidate>, c: Candidate, policy: Policy)
    ensures var r := FirstRival(accepted, c, policy);
            if r == Nobody then forall a :: a in accepted ==> !Conflict(a, c, policy) else r.candidate in accepted && Conflict(r.candidate, c, policy)
  {
    if accepted != [] {
      var front, last := accepted[..|accepted| - 1], accepted[|accepted| - 1];
      assert accepted == front + [last];
      RivalExists(front, c, policy);
      RivalNext(front, last, c, policy, Conflict(last, c, policy));
    }
  }

  lemma RivalNext(front: seq<Candidate>, last: Candidate, c: Candidate, policy: Policy, conflicts: bool)
    requires conflicts == Conflict(last, c, policy)
    ensures FirstRival(front + [last], c, policy) == if FirstRival(front, c, policy).WonBy? then FirstRival(front, c, policy) else if conflicts then WonBy(last) else Nobody
  {
    assert (front + [last])[..|front|] == front;
  }

  /** A candidate ends up in exactly one of the two lists. */
  lemma ConsiderShape(d: Decision, c: Candidate, policy: Policy)
    ensures var e := Consider(d, c, policy);
            (e.accepted == d.accepted + [c] && e.rejected == d.rejected && Worthy(c, policy) && FirstRival(d.accepted, c, policy) == Nobody)
            || (e.accepted == d.accepted && e.rejected == d.rejected + [c] && (Worthy(c, policy) ==> FirstRival(d.accepted, c, policy) != Nobody))
  {
  }

  ghost predicate Holds(d: Decision, candidates: multiset<Candidate>) {
    multiset(d.accepted) + multiset(d.rejected) == candidates
  }

  lemma ConsiderAddsOne(d: Decision, e: Decision, candidates: multiset<Candidate>, c: Candidate, policy: Policy)
    requires Holds(d, candidates) && e == Consider(d, c, policy)
    ensures Holds(e, candidates + multiset{c})
  {
    ConsiderShape(d, c, policy);
  }

  lemma {:induction false} GreedyPartitions(pool: seq<Candidate>, policy: Policy)
    ensures Holds(Greedy(pool, policy), multiset(pool))
  {
    if pool != [] {
      var front, c := pool[..|pool| - 1], pool[|pool| - 1];
      assert pool == front + [c];
      GreedyPartitions(front, policy);
      GreedyNext(front, c, policy);
      ConsiderAddsOne(Greedy(front, policy), Greedy(pool, policy), multiset(front), c, policy);
    }
  }

  /** Nothing is lost or invented: accepted and rejected together are the normalized candidates. */
  lemma NothingLost(ble: seq<Candidate>, api: seq<Candidate>, policy: Policy)
    ensures var d := Outcome(SortedPool(ble, api), policy);
            multiset(d.accepted) + multiset(d.rejected) == multiset(NormalizeAll(ble + api))
  {
    var pool := SortedPool(ble, api);
    var g := Greedy(pool, policy);
    GreedyPartitions(pool, policy);
    Sorting.SortPermutes(NormalizeAll(ble + api), Better);
    Sorting.SortPermutes(g.accepted, SourceLess);
    Sorting.SortPermutes(g.rejected, SourceLess);
  }

  ghost predicate PairwiseFree(s: seq<Candidate>, policy: Policy) {
    forall i, j :: 0 <= i < j < |s| ==> !Conflict(s[i], s[j], policy)
  }

  lemma {:induction false} GreedyIsFree(pool: seq<Candidate>, policy: Policy)
    ensures PairwiseFree(Greedy(pool, policy).accepted, policy)
    ensures forall a :: a in Greedy(pool, policy).accepted ==> Worthy(a, policy)
  {
    if pool != [] {
      var d := Greedy(pool[..|pool| - 1], policy);
      GreedyIsFree(pool[..|pool| - 1], policy);
      RivalExists(d.accepted, pool[|pool| - 1], policy);
    }
  }

  ghost predicate AllWorthy(s: seq<Candidate>, policy: Policy) {
    forall c :: c in s ==> Worthy(c, policy)
  }

  lemma AllWorthyNext(front: seq<Candidate>, c: Candidate, policy: Policy)
    ensures AllWorthy(front + [c], policy) <==> AllWorthy(front, policy) && Worthy(c, policy)
  {
  }

  lemma FreeNext(front: seq<Candidate>, c: Candidate, policy: Policy)
    ensures PairwiseFree(front + [c], policy) <==> PairwiseFree(front, policy) && forall a :: a in front ==> !Conflict(a, c, policy)
  {
    var s := front + [c];
    if PairwiseFree(s, policy) {
      forall i, j | 0 <= i < j < |front| ensures !Conflict(front[i], front[j], policy) { assert !Conflict(s[i], s[j], policy); }
      forall i | 0 <= i < |front| ensures !Conflict(front[i], c, policy) { assert !Conflict(s[i], s[|front|], policy); }
    }
  }

  lemma ConsiderKeeps(d: Decision, c: Candidate, policy: Policy)
    requires d.conflicts == []
    ensures var e := Consider(d, c, policy);
      (e.conflicts == [] <==> Worthy(c, policy) && forall a :: a in d.accepted ==> !Conflict(a, c, policy))
      && (e.conflicts == [] ==> e.accepted == d.accepted + [c])
  {
    RivalExists(d.accepted, c, policy);
  }

  lemma GreedyNext(front: seq<Candidate>, c: Candidate, policy: Policy)
    ensures Greedy(front + [c], policy) == Consider(Greedy(front, policy), c, policy)
  {
    assert (front + [c])[..|front|] == front;
  }

  lemma ConflictsStay(d: Decision, c: Candidate, policy: Policy)
    ensures d.conflicts != [] ==> Consider(d, c, policy).conflicts != []
  {
  }

  ghost predicate NothingToResolve(pool: seq<Candidate>, policy: Policy) {
    AllWorthy(pool, policy) && PairwiseFree(pool, policy)
  }

  lemma NothingToResolveNext(front: seq<Candidate>, c: Candidate, policy: Policy)
    ensures NothingToResolve(front + [c], policy)
            <==> NothingToResolve(front, policy) && Worthy(c, policy) && forall a :: a in front ==> !Conflict(a, c, policy)
  {
    AllWorthyNext(front, c, policy);
    FreeNext(front, c, policy);
  }

  /** The greedy pass records nothing exactly when all candidates are worthy and none stands against another; then it
      accepts them all. */
  lemma {:induction false} GreedyKeepsAll(pool: seq<Candidate>, policy: Policy)
    ensures Greedy(pool, policy).conflicts == [] <==> NothingToResolve(pool, policy)
    ensures Greedy(pool, policy).conflicts == [] ==> Greedy(pool, policy).accepted == pool
  {
    if pool != [] {
      var front, c := pool[..|pool| - 1], pool[|pool| - 1];
      assert pool == front + [c];
      GreedyKeepsAll(front, policy);
      GreedyNext(front, c, policy);
      NothingToResolveNext(front, c, policy);
      KeepsOrNot(Greedy(front, policy), c, policy);
    }
  }

  lemma KeepsOrNot(d: Decision, c: Candidate, policy: Policy)
    ensures var e := Consider(d, c, policy);
      (e.conflicts == [] <==> d.conflicts == [] && Worthy(c, policy) && forall a :: a in d.accepted ==> !Conflict(a, c, policy))
      && (e.conflicts == [] ==> e.accepted == d.accepted + [c])
  {
    if d.conflicts == [] { ConsiderKeeps(d, c, policy); } else { ConflictsStay(d, c, policy); }
  }

  lemma FreePermutes(s: seq<Candidate>, policy: Policy)
    ensures NothingToResolve(Sorting.Sort(s, Better), policy) <==> NothingToResolve(s, policy)
  {
    var apart := (x: Candidate, y: Candidate) => !Conflict(x, y, policy);
    forall x, y ensures apart(x, y) == apart(y, x) { ConflictSymmetric(x, y, policy); }
    assert PairwiseFree(s, policy) == Sorting.Pairwise(s, apart);
    assert PairwiseFree(Sorting.Sort(s, Better), policy) == Sorting.Pairwise(Sorting.Sort(s, Better), apart);
    if PairwiseFree(s, policy) { Sorting.SortKeepsPairwise(s, Better, apart); } else if PairwiseFree(Sorting.Sort(s, Better), policy) { Sorting.SortReflectsPairwise(s, Better, apart); }
    Sorting.SortPermutes(s, Better);
    SameMembers(Sorting.Sort(s, Better), s);
  }

  /** `c` was turned down for a reason: it is not worthy, or an accepted candidate saving no less stands against it. */
  ghost predicate Excused(c: Candidate, accepted: seq<Candidate>, policy: Policy) {
    !Worthy(c, policy) || exists a :: a in accepted && Conflict(a, c, policy) && PreferredTo(a, c)
  }

  /** `a` saves more, or as much and comes first: API corridors before BLE ones, then by name. */
  ghost predicate PreferredTo(a: Candidate, c: Candidate) {
    && a.saved >= c.saved
    && (a.saved == c.saved ==> (c.source == Api ==> a.source == Api) && (a.source == c.source ==> !Text.Less(c.id, a.id)))
  }

  lemma {:induction false} AcceptedFromPool(pool: seq<Candidate>, policy: Policy)
    ensures forall a :: a in Greedy(pool, policy).accepted ==> a in pool
  {
    if pool != [] {
      var front, c := pool[..|pool| - 1], pool[|pool| - 1];
      AcceptedFromPool(front, policy);
      ConsiderShape(Greedy(front, policy), c, policy);
      assert pool == front + [c];
    }
  }

  lemma ComesFirst(pool: seq<Candidate>, a: Candidate)
    requires pool != [] && Sorting.Sorted(pool, Better) && a in pool[..|pool| - 1]
    ensures PreferredTo(a, pool[|pool| - 1])
  {
    var k :| 0 <= k < |pool| - 1 && pool[k] == a;
    assert !Better(pool[|pool| - 1], pool[k]);
  }

  lemma {:induction false} GreedyIsMaximal(pool: seq<Candidate>, policy: Policy)
    requires Sorting.Sorted(pool, Better)
    ensures forall c :: c in Greedy(pool, policy).rejected ==> Excused(c, Greedy(pool, policy).accepted, policy)
  {
    if pool != [] {
      var front, c := pool[..|pool| - 1], pool[|pool| - 1];
      GreedyIsMaximal(front, policy);
      var d := Greedy(front, policy);
      ConsiderShape(d, c, policy);
      StaysExcused(d, Consider(d, c, policy), policy);
      RivalExists(d.accepted, c, policy);
      AcceptedFromPool(front, policy);
      var rival := FirstRival(d.accepted, c, policy);
      if rival != Nobody { ComesFirst(pool, rival.candidate); }
    }
  }

  lemma StaysExcused(d: Decision, e: Decision, policy: Policy)
    requires d.accepted <= e.accepted && forall c :: c in d.rejected ==> Excused(c, d.accepted, policy)
    ensures forall c :: c in d.rejected ==> Excused(c, e.accepted, policy)
  {
    forall c | c in d.rejected ensures Excused(c, e.accepted, policy) {
      if Worthy(c, policy) {
        var a :| a in d.accepted && Conflict(a, c, policy) && PreferredTo(a, c);
        assert a in e.accepted;
      }
    }
  }

  lemma BetterIsWeakOrder()
    ensures Sorting.WeakOrder(Better) && Sorting.WeakOrder(SourceLess)
  {
    forall x, y | SourceLess(x, y) ensures !SourceLess(y, x) { Text.LessTotal(x.id, y.id); }
    forall x, y, z | !SourceLess(x, y) && !SourceLess(y, z) ensures !SourceLess(x, z) {
      Text.LessTotal(x.id, y.id);
      Text.LessTotal(y.id, z.id);
      Text.LessTotal(x.id, z.id);
      if Text.Less(z.id, y.id) && Text.Less(y.id, x.id) { Text.LessTransitive(z.id, y.id, x.id); }
    }
  }

  lemma SameMembers<T>(a: seq<T>, b: seq<T>)
    requires multiset(a) == multiset(b)
    ensures forall x :: x in a <==> x in b
  {
    assert forall x :: x in a <==> x in multiset(a);
    assert forall x :: x in b <==> x in multiset(b);
  }

  lemma OutcomeMembers(pool: seq<Candidate>, policy: Policy)
    ensures forall a :: a in Outcome(pool, policy).accepted <==> a in Greedy(pool, policy).accepted
    ensures forall a :: a in Outcome(pool, policy).rejected <==> a in Greedy(pool, policy).rejected
  {
    var g, d := Greedy(pool, policy), Outcome(pool, policy);
    Sorting.SortPermutes(g.accepted, SourceLess);
    Sorting.SortPermutes(g.rejected, SourceLess);
    SameMembers(g.accepted, d.accepted);
    SameMembers(g.rejected, d.rejected);
  }

  /** The accepted candidates are worthy and pairwise free of conflicts. */
  lemma DecisionIsFree(ble: seq<Candidate>, api: seq<Candidate>, policy: Policy)
    ensures var d := Outcome(SortedPool(ble, api), policy);
            PairwiseFree(d.accepted, policy) && forall a :: a in d.accepted ==> Worthy(a, policy)
  {
    var pool := SortedPool(ble, api);
    var g, free := Greedy(pool, policy), (a: Candidate, b: Candidate) => !Conflict(a, b, policy);
    GreedyIsFree(pool, policy);
    forall a, b | free(a, b) ensures free(b, a) { ConflictSymmetric(a, b, policy); }
    assert Sorting.Pairwise(g.accepted, free);
    Sorting.SortKeepsPairwise(g.accepted, SourceLess, free);
  }

  /** Two accepted candidates have no batch and no action in common that the policy wants apart, and share no guarded
      resource nearby. */
  lemma AcceptedApart(ble: seq<Candidate>, api: seq<Candidate>, policy: Policy, i: nat, j: nat)
    requires var d := Outcome(SortedPool(ble, api), policy); i < j < |d.accepted|
    ensures var d := Outcome(SortedPool(ble, api), policy);
            var a, b := d.accepted[i], d.accepted[j];
            && (policy.forbidBatchOverlap ==> forall x :: x in a.batches ==> x !in b.batches)
            && (policy.forbidActionOverlap ==> forall x :: x in a.actions ==> x !in b.actions)
            && !ShareNearby(a, b, policy)
  {
    var d := Outcome(SortedPool(ble, api), policy);
    DecisionIsFree(ble, api, policy);
    ConflictExactly(d.accepted[i], d.accepted[j], policy);
  }

  /** No rejected candidate could be added: it is not worthy or loses to an accepted one that saves at least as much. */
  lemma DecisionIsMaximal(ble: seq<Candidate>, api: seq<Candidate>, policy: Policy)
    ensures var d := Outcome(SortedPool(ble, api), policy);
            forall c :: c in d.rejected ==> Excused(c, d.accepted, policy)
  {
    var pool := SortedPool(ble, api);
    BetterIsWeakOrder();
    Sorting.SortSorts(NormalizeAll(ble + api), Better);
    GreedyIsMaximal(pool, policy);
    OutcomeMembers(pool, policy);
    forall c | c in Outcome(pool, policy).rejected ensures Excused(c, Outcome(pool, policy).accepted, policy) {
      assert Excused(c, Greedy(pool, policy).accepted, policy);
    }
  }

  /** Every rejection is recorded with its reason, and the record names an accepted winner that conflicts or none. */
  ghost predicate Justified(v: Verdict, accepted: seq<Candidate>, policy: Policy) {
    if v.winner == Nobody then !Worthy(v.loser, policy)
    else v.winner.candidate in accepted && v.reasons == ConflictReasons(v.winner.candidate, v.loser, policy) != []
  }

  lemma {:induction false} RejectionsRecorded(pool: seq<Candidate>, policy: Policy)
    ensures var g := Greedy(pool, policy);
            |g.conflicts| == |g.rejected| && forall k :: 0 <= k < |g.rejected| ==> g.conflicts[k].loser == g.rejected[k] && Justified(g.conflicts[k], g.accepted, policy)
  {
    if pool != [] {
      var d, c := Greedy(pool[..|pool| - 1], policy), pool[|pool| - 1];
      RejectionsRecorded(pool[..|pool| - 1], policy);
      RivalExists(d.accepted, c, policy);
      var e := Consider(d, c, policy);
      forall k | 0 <= k < |d.conflicts| ensures Justified(e.conflicts[k], e.accepted, policy) {
        assert e.conflicts[k] == d.conflicts[k] && Justified(d.conflicts[k], d.accepted, policy);
      }
    }
  }

  ghost predicate DistinctKeys(s: seq<Candidate>) {
    forall i, j :: 0 <= i < j < |s| ==> s[i].source != s[j].source || s[i].id != s[j].id
  }

  lemma KeysSeparate(s: seq<Candidate>, a: Candidate, b: Candidate)
    requires DistinctKeys(s) && a in s && b in s && !Better(a, b) && !Better(b, a)
    ensures a == b
  {
    Text.LessTotal(a.id, b.id);
    var i :| 0 <= i < |s| && s[i] == a;
    var j :| 0 <= j < |s| && s[j] == b;
    assert a.source == b.source && a.id == b.id;
    assert i == j;
  }

  /** With distinct keys the decision does not depend on the order in which candidates are handed in. */
  lemma OrderIrrelevant(ble1: seq<Candidate>, api1: seq<Candidate>, ble2: seq<Candidate>, api2: seq<Candidate>, policy: Policy)
    requires multiset(ble1 + api1) == multiset(ble2 + api2) && DistinctKeys(ble1 + api1)
    ensures Outcome(SortedPool(ble1, api1), policy) == Outcome(SortedPool(ble2, api2), policy)
  {
    var s, t := NormalizeAll(ble1 + api1), NormalizeAll(ble2 + api2);
    NormalizePermutes(ble1 + api1, ble2 + api2);
    BetterIsWeakOrder();
    Sorting.SortSorts(s, Better);
    Sorting.SortSorts(t, Better);
    Sorting.SortPermutes(s, Better);
    Sorting.SortPermutes(t, Better);
    SameMembers(Sorting.Sort(s, Better), s);
    var sorted := Sorting.Sort(s, Better);
    forall i, j | 0 <= i < |sorted| && 0 <= j < |sorted| && !Better(sorted[i], sorted[j]) && !Better(sorted[j], sorted[i]) ensures sorted[i] == sorted[j] {
      KeysSeparate(s, sorted[i], sorted[j]);
    }
    Sorting.SortedUnique(Sorting.Sort(s, Better), Sorting.Sort(t, Better), Better);
  }

  lemma NormalizeConcat(s: seq<Candidate>, t: seq<Candidate>)
    ensures NormalizeAll(s + t) == NormalizeAll(s) + NormalizeAll(t)
  {
  }

  lemma NormalizeSplit(t: seq<Candidate>, k: nat)
    requires k < |t|
    ensures multiset(NormalizeAll(t)) == multiset(NormalizeAll(t[..k] + t[k + 1..])) + multiset{Normalize(t[k])}
  {
    NormalizeConcat(t[..k], t[k + 1..]);
    NormalizeConcat(t[..k], [t[k]]);
    NormalizeConcat(t[..k] + [t[k]], t[k + 1..]);
    assert t == t[..k] + [t[k]] + t[k + 1..];
    assert NormalizeAll([t[k]]) == [Normalize(t[k])];
  }

  lemma {:induction false} NormalizePermutes(s: seq<Candidate>, t: seq<Candidate>)
    requires multiset(s) == multiset(t)
    ensures multiset(NormalizeAll(s)) == multiset(NormalizeAll(t))
  {
    assert |s| == |multiset(s)| == |multiset(t)| == |t|;
    if s != [] {
      var n := |s| - 1;
      Sorting.WithoutOne(s, n);
      assert s[..n] + s[n + 1..] == s[..n];
      var k :| 0 <= k < |t| && t[k] == s[n];
      Sorting.WithoutOne(t, k);
      NormalizePermutes(s[..n], t[..k] + t[k + 1..]);
      NormalizeSplit(s, n);
      NormalizeSplit(t, k);
    }
  }
}
