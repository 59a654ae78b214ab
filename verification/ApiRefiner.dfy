/** Refinement of one API corridor: which expansions pass the validator, and the time they save
    (optimizer/api_micro_refinement.py `_refine_corridor`). */
module ApiRefiner {
  import opened Numbers
  import opened ApiCorridor
  import opened ApiValidator
  import opened ApiTheorems
  import opened Sequences
  import opened Timelines
  import Sorting

  // ----- completion order

  ghost predicate NoKey(table: seq<(string, int)>, id: string) {
    forall k :: 0 <= k < |table| ==> table[k].0 != id
  }

  lemma {:induction false} EndOfAppend(table: seq<(string, int)>, id: string, end: int)
    requires NoKey(table, id)
    ensures EndOf(table, id) == 0 && EndOf(table + [(id, end)], id) == end
  {
    if table != [] {
      EndOfAppend(table[1..], id, end);
      assert (table + [(id, end)])[1..] == table[1..] + [(id, end)];
    }
  }

  lemma {:induction false} RecordAgain(table: seq<(string, int)>, id: string, old_: int, end: int)
    requires NoKey(table, id)
    ensures Record(table + [(id, old_)], id, end) == table + [(id, end)]
  {
    if table != [] {
      RecordAgain(table[1..], id, old_, end);
      assert (table + [(id, old_)])[1..] == table[1..] + [(id, old_)];
      assert [table[0]] + (table[1..] + [(id, end)]) == table + [(id, end)];
    }
  }

  lemma CompletionNext(a: seq<Event>, e: Event)
    ensures Completion(a + [e]) == Record(Completion(a), e.owner, Max(EndOf(Completion(a), e.owner), e.endMs))
  {
    assert (a + [e])[..|a|] == a;
  }

  /** A block of one owner adds one entry: its latest end. */
  lemma {:induction false} CompletionBlock(a: seq<Event>, block: seq<Event>, id: string)
    requires block != [] && OwnedBy(block, id) && NoKey(Completion(a), id)
    ensures Completion(a + block) == Completion(a) + [(id, Max(0, MaxEnd(block)))]
  {
    var front, last := block[..|block| - 1], block[|block| - 1];
    assert last in block && a + block == (a + front) + [last];
    CompletionNext(a + front, last);
    EndOfAppend(Completion(a), id, 0);
    if front == [] {
      assert a + front == a;
      RecordNew(Completion(a), id, Max(0, last.endMs));
    } else {
      CompletionBlock(a, front, id);
      var m := Max(0, MaxEnd(front));
      EndOfAppend(Completion(a), id, m);
      RecordAgain(Completion(a), id, m, Max(m, last.endMs));
    }
  }

  lemma {:induction false} CompletionFlat(blocks: seq<seq<Event>>, ids: seq<string>)
    requires Owned(blocks, ids) && forall i :: 0 <= i < |blocks| ==> blocks[i] != []
    ensures var table := Completion(Flat(blocks));
            |table| == |blocks| && forall i :: 0 <= i < |table| ==> table[i] == (ids[i], Max(0, MaxEnd(blocks[i])))
  {
    if blocks != [] {
      var k := |blocks| - 1;
      CompletionFlat(blocks[..k], ids[..k]);
      assert OwnedBy(blocks[k], ids[k]);
      CompletionBlock(Flat(blocks[..k]), blocks[k], ids[k]);
    }
  }

  /** Moved phases lie in the window of the step before, the others between the two state writes. */
  lemma EventWithin(c: Corridor, i: nat, k: nat)
    requires Sound(c) && i < |c.steps| && k < |c.durations[i]| && (i > 0 ==> SpanOk(c, i))
    ensures var span, a, start, d := SpanAt(c, i), AnchorAt(c, i), StartAt(c, i, k), c.durations[i][k];
            if span.lo <= k < span.hi then i > 0 && a.requestStart <= start && start + d <= a.responseEnd
            else a.writeEnd <= start && start + d <= W(c, i + 1)
  {
    var d, span := c.durations[i], SpanAt(c, i);
    if span.lo <= k < span.hi {
      SpanShape(c, i);
      MovedLate(c, i);
      StepGrows(c, i, span.lo, k);
      StepGrows(c, i, k + 1, span.hi);
    } else {
      NothingSentEarly(c, i, k);
    }
  }

  lemma EventEndsBy(c: Corridor, i: nat, k: nat)
    requires Sound(c) && i < |c.steps| && k < |c.durations[i]| && (i > 0 ==> SpanOk(c, i))
    ensures StartAt(c, i, k) + c.durations[i][k] <= W(c, i + 1)
  {
    EventWithin(c, i, k);
    WritesAdvance(c, i);
    if i > 0 { Window(c, i - 1); }
  }

  lemma StepPeak(c: Corridor, i: nat)
    requires Sound(c) && i < |c.steps| && (i > 0 ==> SpanOk(c, i))
    ensures MaxEnd(StepEvents(c, i)) == W(c, i + 1)
  {
    var e, n := StepEvents(c, i), |c.durations[i]|;
    forall x | x in e ensures x.endMs <= W(c, i + 1) {
      var k :| 0 <= k < |e| && e[k] == x;
      EventEndsBy(c, i, k);
    }
    AnchorIs(c, i + 1);
    assert e[n - 1] in e && e[n - 1].endMs == W(c, i + 1);
    MaxEndIs(e, W(c, i + 1));
  }

  lemma CompletionTable(c: Corridor)
    requires Sound(c) && SpansOk(c)
    ensures var table := Completion(Timeline(c, |c.steps|));
            |table| == |c.steps| && forall i :: 0 <= i < |table| ==> table[i] == (c.steps[i].id, W(c, i + 1))
  {
    var n, ids := |c.steps|, IdsOf(c.steps);
    TimelineIsFlat(c, n);
    BlocksOwned(c);
    CompletionFlat(Blocks(c, n), ids);
    forall i | 0 <= i < n ensures Max(0, MaxEnd(Blocks(c, n)[i])) == W(c, i + 1) {
      StepPeak(c, i);
      WritesIncrease(c, 0, i + 1);
    }
  }

  /** The table lists the steps in order, each ending later than the one before. */
  ghost predicate StepByStep(table: seq<(string, int)>, steps: seq<Step>) {
    && |table| == |steps| && (forall i :: 0 <= i < |table| ==> table[i].0 == steps[i].id)
    && (forall i :: 0 <= i < |table| - 1 ==> table[i].1 < table[i + 1].1)
  }

  lemma InOrderOfEnd(table: seq<(string, int)>, steps: seq<Step>)
    requires StepByStep(table, steps)
    ensures ByCompletion(table) == IdsOf(steps)
  {
    Sorting.SortKeeps(table, EarlierEnd);
  }

  lemma EndsAscend(c: Corridor, table: seq<(string, int)>)
    requires Sound(c) && |table| == |c.steps| && forall i :: 0 <= i < |table| ==> table[i] == (c.steps[i].id, W(c, i + 1))
    ensures StepByStep(table, c.steps)
  {
    forall i | 0 <= i < |table| - 1 ensures table[i].1 < table[i + 1].1 {
      WritesAdvance(c, i + 1);
    }
  }

  lemma CompletionHolds(c: Corridor)
    requires Sound(c) && SpansOk(c)
    ensures CompletesInOrder(c.steps, Timeline(c, |c.steps|))
  {
    var table := Completion(Timeline(c, |c.steps|));
    CompletionTable(c);
    EndsAscend(c, table);
    InOrderOfEnd(table, c.steps);
  }

  // ----- how many steps are active

  lemma HomeOf(c: Corridor, i: nat, k: nat, t: int) returns (home: nat)
    requires Sound(c) && i < |c.steps| && k < |c.durations[i]| && (i > 0 ==> SpanOk(c, i))
    requires StartAt(c, i, k) <= t < StartAt(c, i, k) + c.durations[i][k]
    ensures home <= i && W(c, home) <= t < W(c, home + 1) && (home == i || (home + 1 == i && Nonempty(SpanAt(c, i))))
  {
    EventWithin(c, i, k);
    home := i;
    if SpanAt(c, i).lo <= k < SpanAt(c, i).hi {
      Window(c, i - 1);
      home := i - 1;
    }
  }

  /** An active step is at home between its two state writes, or moved into the step before. */
  lemma ActiveHome(c: Corridor, t: int, id: string) returns (i: nat, home: nat)
    requires Sound(c) && SpansOk(c) && id in Active(Timeline(c, |c.steps|), t)
    ensures home <= i < |c.steps| && c.steps[i].id == id && W(c, home) <= t < W(c, home + 1)
    ensures home == i || (home + 1 == i && Nonempty(SpanAt(c, i)))
  {
    var e :| e in Timeline(c, |c.steps|) && e.startMs <= t < e.endMs && e.owner == id;
    var k;
    i, k := TimelineMember(c, |c.steps|, e);
    home := HomeOf(c, i, k, t);
  }

  lemma HomeUnique(c: Corridor, t: int, j: nat, k: nat)
    requires Sound(c) && j < |c.steps| && k < |c.steps| && W(c, j) <= t < W(c, j + 1) && W(c, k) <= t < W(c, k + 1)
    ensures j == k
  {
    if j < k { WritesIncrease(c, j + 1, k); }
    if k < j { WritesIncrease(c, k + 1, j); }
  }

  lemma ActiveNear(c: Corridor, t: int, home: nat, id: string)
    requires Sound(c) && SpansOk(c) && home < |c.steps| && W(c, home) <= t < W(c, home + 1) && id in Active(Timeline(c, |c.steps|), t)
    ensures id == c.steps[home].id || (SomethingMoves(c) && home + 1 < |c.steps| && id == c.steps[home + 1].id)
  {
    var k, other := ActiveHome(c, t, id);
    HomeUnique(c, t, home, other);
  }

  /** Never more than one step at a time unless something is moved, and never more than two. */
  lemma ActiveAtMost(c: Corridor, t: int)
    requires Sound(c) && SpansOk(c)
    ensures |Active(Timeline(c, |c.steps|), t)| <= Depth(c)
  {
    var active := Active(Timeline(c, |c.steps|), t);
    if active != {} {
      var one :| one in active;
      var i, home := ActiveHome(c, t, one);
      forall id | id in active ensures id == c.steps[home].id || (SomethingMoves(c) && home + 1 < |c.steps| && id == c.steps[home + 1].id) {
        ActiveNear(c, t, home, id);
      }
      if SomethingMoves(c) && home + 1 < |c.steps| {
        SubsetSize(active, {c.steps[home].id, c.steps[home + 1].id});
      } else {
        SubsetSize(active, {c.steps[home].id});
      }
    }
  }

  lemma IsActive(c: Corridor, i: nat, k: nat, t: int)
    requires Shaped(c) && i < |c.steps| && k < |c.durations[i]| && StartAt(c, i, k) <= t < StartAt(c, i, k) + c.durations[i][k]
    ensures c.steps[i].id in Active(Timeline(c, |c.steps|), t)
  {
    MemberOfTimeline(c, |c.steps|, i, k);
    var e := EventAt(c, i, k);
    assert e in Timeline(c, |c.steps|) && e.startMs <= t < e.endMs && e.owner == c.steps[i].id;
  }

  lemma IsPoint(c: Corridor, i: nat, k: nat)
    requires Shaped(c) && i < |c.steps| && k < |c.durations[i]|
    ensures StartAt(c, i, k) in Points(Timeline(c, |c.steps|))
  {
    MemberOfTimeline(c, |c.steps|, i, k);
    var e := EventAt(c, i, k);
    assert e in Timeline(c, |c.steps|) && e.startMs == StartAt(c, i, k);
  }

  lemma SenderActive(c: Corridor, i: nat, t: int)
    requires Sound(c) && 0 < i < |c.steps| && AnchorAt(c, i).requestStart <= t < AnchorAt(c, i).responseEnd
    ensures c.steps[i - 1].id in Active(Timeline(c, |c.steps|), t)
  {
    var r := RequestIndex(KindOf(c));
    Window(c, i - 1);
    AnchorIs(c, i);
    if t < StartAt(c, i - 1, r) + c.durations[i - 1][r] { IsActive(c, i - 1, r, t); } else { IsActive(c, i - 1, r + 1, t); }
  }

  lemma FirstMovedStart(c: Corridor, i: nat)
    requires Sound(c) && 0 < i < |c.steps| && SpanOk(c, i) && Nonempty(SpanAt(c, i))
    ensures AnchorAt(c, i).requestStart <= StartAt(c, i, 0) < AnchorAt(c, i).responseEnd
  {
    MovedLate(c, i);
  }

  /** A moved step is active together with the one before it. */
  lemma BothActive(c: Corridor, i: nat) returns (t: int)
    requires Sound(c) && SpansOk(c) && 0 < i < |c.steps| && Nonempty(SpanAt(c, i))
    ensures t in Points(Timeline(c, |c.steps|)) && |Active(Timeline(c, |c.steps|), t)| >= 2
  {
    t := StartAt(c, i, 0);
    assert SpanOk(c, i);
    IsPoint(c, i, 0);
    FirstActive(c, i, t);
    FirstMovedStart(c, i);
    SenderActive(c, i, t);
    assert IdsOf(c.steps)[i - 1] != IdsOf(c.steps)[i];
    SubsetSize({c.steps[i - 1].id, c.steps[i].id}, Active(Timeline(c, |c.steps|), t));
  }

  lemma FirstActive(c: Corridor, i: nat, t: int)
    requires Sound(c) && i < |c.steps| && t == StartAt(c, i, 0)
    ensures c.steps[i].id in Active(Timeline(c, |c.steps|), t)
  {
    assert c.durations[i][0] > 0;
    IsActive(c, i, 0, t);
  }

  lemma DepthReached(c: Corridor) returns (t: int)
    requires Sound(c) && SpansOk(c) && c.steps != []
    ensures t in Points(Timeline(c, |c.steps|)) && |Active(Timeline(c, |c.steps|), t)| >= Depth(c)
  {
    if i :| 0 < i < |c.steps| && Nonempty(SpanAt(c, i)) {
      t := BothActive(c, i);
    } else {
      t := StartAt(c, 0, 0);
      IsPoint(c, 0, 0);
      FirstActive(c, 0, t);
      SubsetSize({c.steps[0].id}, Active(Timeline(c, |c.steps|), t));
    }
  }

  lemma LookaheadExactly(c: Corridor, limit: int)
    requires Sound(c) && SpansOk(c)
    ensures LookaheadOk(Timeline(c, |c.steps|), limit) <==> Depth(c) <= limit
  {
    forall t {:trigger Active(Timeline(c, |c.steps|), t)} ensures |Active(Timeline(c, |c.steps|), t)| <= Depth(c) {
      ActiveAtMost(c, t);
    }
    if c.steps != [] {
      var t := DepthReached(c);
    }
  }

  // ----- the theorem

  /** With everything fitting, only budgets and look-ahead decide. */
  lemma FittingExactly(c: Corridor, v: Validation)
    requires Sound(c) && SpansOk(c) && Reports(c.steps, Timeline(c, |c.steps|), c.policy, v)
    ensures v.Passed() <==> Acceptable(c)
  {
    var events := Timeline(c, |c.steps|);
    CompletionHolds(c);
    LookaheadExactly(c, c.policy.maxLookahead + 1);
    AllStepsHold(StepTable(c.steps, events, c.policy));
    AllPairsHold(PairTable(c.steps, events, c.policy));
    forall i | 0 <= i < |c.steps| ensures StepTable(c.steps, events, c.policy)[i] == STEP_TRUE <==> BudgetFits(c, i) {
      StepExactly(c, i);
    }
    forall i | 0 <= i < |c.steps| - 1 ensures PairTable(c.steps, events, c.policy)[i] == ALL_TRUE {
      assert SpanOk(c, i + 1);
      PairExactly(c, i + 1);
    }
  }

  /** A span that does not fit is always noticed. */
  lemma MisfitNoticed(c: Corridor, v: Validation, i: nat)
    requires Sound(c) && 0 < i < |c.steps| && !SpanOk(c, i) && Reports(c.steps, Timeline(c, |c.steps|), c.policy, v)
    ensures !v.Passed()
  {
    var events := Timeline(c, |c.steps|);
    AllStepsHold(StepTable(c.steps, events, c.policy));
    AllPairsHold(PairTable(c.steps, events, c.policy));
    if SpanAt(c, i).lo != 0 {
      LatePrefixFails(c, i);
      assert StepTable(c.steps, events, c.policy)[i] != STEP_TRUE;
    } else {
      PairExactly(c, i);
      assert PairTable(c.steps, events, c.policy)[i - 1] != ALL_TRUE;
    }
  }

  /** An expansion passes the validator exactly when every admitted overlap starts with the first phase, fits into the
      send and receive window and bypasses no backoff, the parse and aggregate budgets hold, and the look-ahead
      allows as many steps at a time as there are. */
  lemma ExpansionValidatesExactly(c: Corridor, v: Validation)
    requires Sound(c) && Reports(c.steps, Timeline(c, |c.steps|), c.policy, v)
    ensures v.Passed() <==> Acceptable(c)
  {
    if i :| 0 < i < |c.steps| && !SpanOk(c, i) {
      MisfitNoticed(c, v, i);
    } else {
      FittingExactly(c, v);
    }
  }

  // ----- makespan

  ghost function MovedSum(c: Corridor, n: nat): int
    requires Shaped(c) && n <= |c.steps|
  {
    if n == 0 then 0 else MovedSum(c, n - 1) + MovedAt(c, n - 1)
  }

  ghost function LatencySum(steps: seq<Step>): int {
    if steps == [] then 0 else LatencySum(steps[..|steps| - 1]) + steps[|steps| - 1].latency
  }

  lemma {:induction false} WriteEndFormula(c: Corridor, n: nat)
    requires Shaped(c) && n <= |c.steps|
    ensures W(c, n) == SerialEnd(c, n) - MovedSum(c, n)
  {
    if n > 0 {
      WriteEndFormula(c, n - 1);
      WriteEndNext(c, n - 1);
    }
  }

  lemma {:induction false} SerialEndIsLatency(c: Corridor, n: nat)
    requires Shaped(c) && AddsUp(c) && n <= |c.steps|
    ensures SerialEnd(c, n) == LatencySum(c.steps[..n])
  {
    if n > 0 {
      SerialEndIsLatency(c, n - 1);
      assert c.steps[..n][..n - 1] == c.steps[..n - 1];
    }
  }

  /** The refined makespan is the sum of the latencies minus the durations moved. */
  lemma MakespanFormula(c: Corridor)
    requires Sound(c) && SpansOk(c) && AddsUp(c)
    ensures MaxEnd(Timeline(c, |c.steps|)) == LatencySum(c.steps) - MovedSum(c, |c.steps|) >= 0
  {
    var n := |c.steps|;
    WriteEndFormula(c, n);
    SerialEndIsLatency(c, n);
    TakeAll(c.steps);
    WritesIncrease(c, 0, n);
    if n > 0 { LastWriteIsMakespan(c); }
  }

  lemma EndsByLastWrite(c: Corridor, e: Event)
    requires Sound(c) && SpansOk(c) && e in Timeline(c, |c.steps|)
    ensures e.endMs <= W(c, |c.steps|)
  {
    var i, k := TimelineMember(c, |c.steps|, e);
    EventEndsBy(c, i, k);
    WritesIncrease(c, i + 1, |c.steps|);
  }

  lemma LastWriteIsMakespan(c: Corridor)
    requires Sound(c) && SpansOk(c) && c.steps != []
    ensures MaxEnd(Timeline(c, |c.steps|)) == W(c, |c.steps|)
  {
    var n, events := |c.steps|, Timeline(c, |c.steps|);
    forall e | e in events ensures e.endMs <= W(c, n) { EndsByLastWrite(c, e); }
    AnchorIs(c, n);
    var last := |c.durations[n - 1]| - 1;
    MemberOfTimeline(c, n, n - 1, last);
    assert EventAt(c, n - 1, last).endMs == W(c, n);
    MaxEndIs(events, W(c, n));
  }

  lemma MovedTakesTime(c: Corridor, i: nat)
    requires Sound(c) && i < |c.steps|
    ensures MovedAt(c, i) >= 0 && (Nonempty(SpanAt(c, i)) ==> MovedAt(c, i) > 0)
  {
    if Nonempty(SpanAt(c, i)) { SpanShape(c, i); MovedLate(c, i); }
  }

  ghost predicate SomeMoved(c: Corridor, n: nat)
    requires Shaped(c) && n <= |c.steps|
  {
    exists i :: 0 <= i < n && Nonempty(SpanAt(c, i))
  }

  /** What is moved takes time: there is a gain as soon as some overlap is admitted. */
  lemma {:induction false} MovedGains(c: Corridor, n: nat)
    requires Sound(c) && n <= |c.steps|
    ensures MovedSum(c, n) >= 0 && (SomeMoved(c, n) ==> MovedSum(c, n) > 0)
  {
    if n > 0 {
      MovedGains(c, n - 1);
      MovedTakesTime(c, n - 1);
      assert SomeMoved(c, n) ==> SomeMoved(c, n - 1) || Nonempty(SpanAt(c, n - 1));
    }
  }

  /** What the validator says of an expansion, and what the expansion is worth when it is accepted. */
  ghost predicate Judged(c: Corridor, v: Validation)
    requires Shaped(c)
  {
    && Reports(c.steps, Timeline(c, |c.steps|), c.policy, v)
    && (Distinct(IdsOf(c.steps)) && Roomy(c) ==> v.Passed() == Acceptable(c))
    && (Distinct(IdsOf(c.steps)) && Roomy(c) && Acceptable(c) ==>
          MaxEnd(Timeline(c, |c.steps|)) == LatencySum(c.steps) - MovedSum(c, |c.steps|) && MovedSum(c, |c.steps|) >= 0)
  }

  lemma JudgedBy(c: Corridor, v: Validation)
    requires Shaped(c) && Timed(c) && Reports(c.steps, Timeline(c, |c.steps|), c.policy, v)
    ensures Judged(c, v)
  {
    if Distinct(IdsOf(c.steps)) && Roomy(c) {
      RoomyIsPositive(c);
      ExpansionValidatesExactly(c, v);
      if Acceptable(c) {
        MakespanFormula(c);
        MovedGains(c, |c.steps|);
      }
    }
  }

  /** The saving of a corridor whose latency is the sum of its steps': what was moved, if the expansion is acceptable. */
  ghost predicate Saves(c: Corridor, originalLatency: int, saved: int)
    requires Shaped(c)
  {
    Distinct(IdsOf(c.steps)) && Roomy(c) && originalLatency == LatencySum(c.steps) ==> saved == if Acceptable(c) then MovedSum(c, |c.steps|) else 0
  }

  lemma SavedExactly(c: Corridor, v: Validation, originalLatency: int, makespan: int, saved: int)
    requires Shaped(c) && Judged(c, v) && makespan == MaxEnd(Timeline(c, |c.steps|))
    requires saved == if v.Passed() then Max(0, originalLatency - makespan) else 0
    ensures Saves(c, originalLatency, saved)
  {
  }

  datatype Refinement = Refinement(serialEvents: seq<Event>, refinedEvents: seq<Event>, refinedLatency: int, latencySaved: int, validation: Validation)

  method RefineCorridor(steps: seq<Step>, policy: Policy, originalLatency: int) returns (r: Refinement, c: Corridor)
    requires forall i :: 0 <= i < |steps| ==> steps[i].kind == steps[0].kind && steps[i].protocol == steps[0].protocol
    ensures c.steps == steps && c.policy == policy && Shaped(c) && Timed(c)
    ensures r.serialEvents == SerialTimeline(c, |steps|) && r.refinedEvents == Timeline(c, |steps|) && r.refinedLatency == MaxEnd(r.refinedEvents)
    ensures Judged(c, r.validation)
    ensures r.latencySaved == if r.validation.Passed() then Max(0, originalLatency - r.refinedLatency) else 0
    ensures Saves(c, originalLatency, r.latencySaved)
  {
    c := PhaseTable(steps, policy);
    var serial := ExpandSerial(c);
    var refined := ExpandRefined(c);
    var validation := Validate(steps, refined, policy);
    JudgedBy(c, validation);
    var refinedLatency := MaxEnd(refined);
    var saved := if validation.Passed() then Max(0, originalLatency - refinedLatency) else 0;
    r := Refinement(serial, refined, refinedLatency, saved, validation);
    SavedExactly(c, validation, originalLatency, refinedLatency, saved);
  }
}
