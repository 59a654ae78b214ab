/** Which BLE expansions the validator accepts when connecting may overlap too (optimizer/ble_micro_refinement.py
    `_expand_conservative_overlap`, `validate_refined_corridor`). */
module BleConnectOverlap {
  import opened Numbers
  import opened BlePhases
  import opened BleCorridor
  import opened BleValidator
  import opened BleTheorems
  import opened Timelines
  import opened Sequences
  import Sorting

  // ----- what the phase model guarantees for every estimated latency

  /** All phases take time, and every transfer takes longer than any settling. */
  ghost predicate Brisk(c: Corridor)
    requires KnownIds(c)
  {
    forall i :: 0 <= i < |c.ids| ==>
      var d := DurationsAt(c, i);
      0 < d.adv <= c.policy.advTimeout && 0 < d.connect <= c.policy.connectTimeout && 0 < d.settle <= 144 && d.xfer >= 200
  }

  lemma PercentBounds(total: int, percent: int)
    ensures total * percent - 50 <= 100 * Percent(total, percent) <= total * percent + 50
  {
  }

  lemma SplitBounds(total: int, profile: Profile, advTimeout: int, connectTimeout: int)
    requires 450 <= total <= 1200 && advTimeout >= 1 && connectTimeout >= 1
    ensures var d := PhaseDurations(total, profile, advTimeout, connectTimeout);
      0 < d.adv <= advTimeout && 0 < d.connect <= connectTimeout && 0 < d.settle <= 144 && d.xfer >= 200
  {
    PercentBounds(total, 8); PercentBounds(total, 10); PercentBounds(total, 12);
    PercentBounds(total, 18); PercentBounds(total, 24); PercentBounds(total, 26);
  }

  lemma TimedIsBrisk(c: Corridor)
    requires KnownIds(c) && Timed(c) && c.policy.advTimeout >= 1 && c.policy.connectTimeout >= 1
    ensures Brisk(c)
  {
    forall i | 0 <= i < |c.ids|
      ensures var d := DurationsAt(c, i);
        0 < d.adv <= c.policy.advTimeout && 0 < d.connect <= c.policy.connectTimeout && 0 < d.settle <= 144 && d.xfer >= 200
    {
      var a := ActionAt(c, i);
      assert DurationsAt(c, i) == DurationsOf(a, c.policy);
      SplitBounds(LatencyMs(a.kind), ProfileOf(a), c.policy.advTimeout, c.policy.connectTimeout);
    }
  }

  // ----- the shape of a slot, whatever overlaps

  /** The phases of one slot with its durations. */
  ghost predicate Shaped(s: Slot, d: Durations) {
    && s.advEnd == s.advStart + d.adv <= s.connectStart && s.connectEnd == s.connectStart + d.connect <= s.xferStart
    && s.xferEnd == s.xferStart + d.xfer && s.settleEnd == s.xferEnd + d.settle
  }

  lemma PlaceShapes(d: Durations, advStart: int, connectFloor: int, xferFloor: int)
    ensures var s := Place(d, advStart, connectFloor, xferFloor);
      Shaped(s, d) && s.advStart == advStart && s.connectStart == Max(s.advEnd, connectFloor) && s.xferStart == Max(s.connectEnd, xferFloor)
  {
  }

  lemma SlotShaped(c: Corridor, i: nat)
    requires KnownIds(c) && i < |c.ids|
    ensures Shaped(SlotAt(c, i), DurationsAt(c, i))
  {
  }

  ghost predicate BriskDurations(d: Durations, policy: Policy) {
    0 < d.adv <= policy.advTimeout && 0 < d.connect <= policy.connectTimeout && 0 < d.settle <= 144 && d.xfer >= 200
  }

  /** How a slot follows the one before it. */
  ghost predicate Follows(p: Slot, s: Slot, left: Action, right: Action, policy: Policy) {
    && p.xferEnd <= s.xferStart && p.settleEnd < s.xferEnd
    && (if !AdvAdmitted(left, right, policy) then s.advStart == p.settleEnd
        else if AnchorAdmitted(left, right, policy) then s.advStart == p.connectStart else s.advStart == p.xferStart)
    && s.connectStart == Max(s.advEnd, if ConnectAdmitted(left, right, policy) then p.xferStart else p.settleEnd)
    && s.xferStart == Max(s.connectEnd, p.xferEnd)
  }

  lemma SlotFollows(c: Corridor, i: nat)
    requires KnownIds(c) && Brisk(c) && 0 < i < |c.ids|
    ensures Follows(SlotAt(c, i - 1), SlotAt(c, i), ActionAt(c, i - 1), ActionAt(c, i), c.policy)
  {
    SlotShaped(c, i - 1);
    SlotShaped(c, i);
    assert DurationsAt(c, i - 1).settle <= 144 && DurationsAt(c, i).xfer >= 200;
  }

  ghost predicate StepAt(c: Corridor, slots: seq<Slot>, i: nat)
    requires KnownIds(c) && i < |slots| == |c.ids|
  {
    && Shaped(slots[i], DurationsAt(c, i)) && BriskDurations(DurationsAt(c, i), c.policy)
    && (i > 0 ==> Follows(slots[i - 1], slots[i], ActionAt(c, i - 1), ActionAt(c, i), c.policy))
  }

  /** All slots of a corridor, each following the one before. */
  ghost predicate Chain(c: Corridor, slots: seq<Slot>) {
    KnownIds(c) && |slots| == |c.ids| && forall i {:trigger StepAt(c, slots, i)} :: 0 <= i < |slots| ==> StepAt(c, slots, i)
  }

  lemma SlotsChain(c: Corridor, slots: seq<Slot>)
    requires KnownIds(c) && Brisk(c) && AreSlots(slots, c) && |slots| == |c.ids|
    ensures Chain(c, slots)
  {
    forall i | 0 <= i < |slots| ensures StepAt(c, slots, i) {
      SlotShaped(c, i);
      if i > 0 { SlotFollows(c, i); }
    }
  }

  /** What is known of slot `i` behind its predecessor. */
  lemma Step(c: Corridor, slots: seq<Slot>, i: nat)
    requires Chain(c, slots) && i < |slots|
    ensures Shaped(slots[i], DurationsAt(c, i)) && BriskDurations(DurationsAt(c, i), c.policy)
    ensures i > 0 ==> Follows(slots[i - 1], slots[i], ActionAt(c, i - 1), ActionAt(c, i), c.policy)
  {
    assert StepAt(c, slots, i);
  }

  lemma {:induction false} ChainAscends(c: Corridor, slots: seq<Slot>, i: nat, j: nat)
    requires Chain(c, slots) && i < j < |slots|
    ensures slots[i].xferEnd <= slots[j].xferStart && slots[i].settleEnd < slots[j].xferEnd
  {
    Step(c, slots, j);
    Step(c, slots, j - 1);
    if i < j - 1 { ChainAscends(c, slots, i, j - 1); }
  }

  lemma ChainInSequence(c: Corridor, slots: seq<Slot>)
    requires Chain(c, slots)
    ensures InSequence(slots)
  {
    forall i | 0 <= i < |slots| ensures slots[i].xferStart < slots[i].xferEnd < slots[i].settleEnd {
      Step(c, slots, i);
    }
    forall i | 0 <= i < |slots| - 1 ensures slots[i].xferEnd <= slots[i + 1].xferStart && slots[i].settleEnd < slots[i + 1].settleEnd {
      ChainAscends(c, slots, i, i + 1);
    }
  }

  // ----- the checks that always hold

  lemma ShapedPasses(id: string, s: Slot, d: Durations, policy: Policy)
    requires Shaped(s, d) && BriskDurations(d, policy)
    ensures PhasesValid(ByStart(SlotEvents(id, s))) && WithinTimeouts(ByStart(SlotEvents(id, s)), policy)
  {
    Sorting.SortKeeps(SlotEvents(id, s), (a: Event, b: Event) => a.startMs < b.startMs);
    assert ByStart(SlotEvents(id, s)) == SlotEvents(id, s);
  }

  lemma PhasesHold(c: Corridor, i: nat)
    requires KnownIds(c) && Distinct(c.ids) && Brisk(c) && i < |c.ids|
    ensures var phases := ByStart(Of(Timeline(c, |c.ids|), c.ids[i])); PhasesValid(phases) && WithinTimeouts(phases, c.policy)
  {
    OfIsSlot(c, i);
    SlotShaped(c, i);
    ShapedPasses(c.ids[i], SlotAt(c, i), DurationsAt(c, i), c.policy);
  }

  lemma FollowersPass(v: PairView, p: Slot, s: Slot, left: Action, right: Action, policy: Policy)
    requires Follows(p, s, left, right, policy) && p.connectStart <= p.xferStart < p.settleEnd && v.Complete()
    requires v.leftConnect.event.startMs == p.connectStart && v.leftXfer.event.startMs == p.xferStart && v.leftSettle.event.endMs == p.settleEnd
    requires v.rightAdv.event.startMs == s.advStart && v.rightConnect.event.startMs == s.connectStart
    ensures TypePairOk(v, left, right, policy) && ScannerPairOk(v, left, right, policy) && ConnectPairOk(v, left, right, policy)
  {
  }

  lemma PairHolds(ids: seq<string>, slots: seq<Slot>, i: nat, left: Action, right: Action, policy: Policy)
    requires |ids| == |slots| && Distinct(ids) && i + 1 < |ids| && Follows(slots[i], slots[i + 1], left, right, policy)
    requires slots[i].connectStart <= slots[i].xferStart < slots[i].settleEnd
    ensures var v := View(Flat(BlocksOf(ids, slots)), ids[i], ids[i + 1]);
      TypePairOk(v, left, right, policy) && ScannerPairOk(v, left, right, policy) && ConnectPairOk(v, left, right, policy)
  {
    ViewIsSlots(ids, slots, i);
    FollowersPass(View(Flat(BlocksOf(ids, slots)), ids[i], ids[i + 1]), slots[i], slots[i + 1], left, right, policy);
  }

  lemma PairsHold(c: Corridor, slots: seq<Slot>, i: nat)
    requires Chain(c, slots) && Distinct(c.ids) && i + 1 < |c.ids|
    ensures var events := Flat(BlocksOf(c.ids, slots)); TypeAt(c, events, i) && ScannerAt(c, events, i) && ConnectAt(c, events, i)
  {
    Step(c, slots, i);
    Step(c, slots, i + 1);
    PairHolds(c.ids, slots, i, ActionAt(c, i), ActionAt(c, i + 1), c.policy);
  }

  // ----- how many actions are active

  /** A phase of the slot runs at time `t`. */
  ghost predicate Busy(s: Slot, t: int) {
    s.advStart <= t < s.advEnd || s.connectStart <= t < s.connectEnd || s.xferStart <= t < s.settleEnd
  }

  lemma {:induction false} InTimeline(c: Corridor, n: nat, i: nat, e: Event)
    requires KnownIds(c) && i < n <= |c.ids| && e in SlotEvents(c.ids[i], SlotAt(c, i))
    ensures e in Timeline(c, n)
  {
    if i < n - 1 { InTimeline(c, n - 1, i, e); }
  }

  lemma ActiveIsBusy(c: Corridor, slots: seq<Slot>, t: int, id: string) returns (i: nat)
    requires Chain(c, slots) && AreSlots(slots, c) && id in Active(Timeline(c, |c.ids|), t)
    ensures i < |c.ids| && c.ids[i] == id && Busy(slots[i], t)
  {
    var e :| e in Timeline(c, |c.ids|) && e.startMs <= t < e.endMs && e.owner == id;
    i := TimelineMember(c, |c.ids|, e);
    Step(c, slots, i);
  }

  lemma BusyEvent(id: string, s: Slot, d: Durations, t: int) returns (e: Event)
    requires Shaped(s, d) && Busy(s, t)
    ensures e in SlotEvents(id, s) && e.owner == id && e.startMs <= t < e.endMs
  {
    var events := SlotEvents(id, s);
    if s.advStart <= t < s.advEnd { e := events[0]; }
    else if s.connectStart <= t < s.connectEnd { e := events[1]; }
    else if t < s.xferEnd { e := events[2]; }
    else { e := events[3]; }
  }

  lemma BusyIsActive(c: Corridor, slots: seq<Slot>, t: int, i: nat)
    requires Chain(c, slots) && AreSlots(slots, c) && i < |slots| && Busy(slots[i], t)
    ensures c.ids[i] in Active(Timeline(c, |c.ids|), t)
  {
    Step(c, slots, i);
    var e := BusyEvent(c.ids[i], slots[i], DurationsAt(c, i), t);
    InTimeline(c, |c.ids|, i, e);
  }

  /** Some action begins before the one `k` places in front of it has settled. */
  ghost predicate BeginsEarly(slots: seq<Slot>, k: nat) {
    exists i: nat :: EarlyAt(slots, i, k)
  }

  ghost predicate EarlyAt(slots: seq<Slot>, i: nat, k: nat) {
    i + k < |slots| && slots[i + k].advStart < slots[i].settleEnd
  }

  lemma BusyWithin(c: Corridor, slots: seq<Slot>, i: nat, t: int)
    requires Chain(c, slots) && i < |slots| && Busy(slots[i], t)
    ensures slots[i].advStart <= t < slots[i].settleEnd
  {
    Step(c, slots, i);
  }

  lemma EndsAscend(c: Corridor, slots: seq<Slot>, i: nat, j: nat)
    requires Chain(c, slots) && i <= j < |slots|
    ensures slots[i].settleEnd <= slots[j].settleEnd
  {
    if i < j {
      ChainAscends(c, slots, i, j);
      Step(c, slots, j);
    }
  }

  lemma BeginsLater(slots: seq<Slot>, i: nat, k: nat)
    requires !BeginsEarly(slots, k) && i + k < |slots|
    ensures slots[i + k].advStart >= slots[i].settleEnd
  {
    assert !EarlyAt(slots, i, k);
  }

  /** Two actions active together lie less than `k` places apart, if none begins so early. */
  lemma BusyNear(c: Corridor, slots: seq<Slot>, i: nat, j: nat, t: int, k: nat)
    requires Chain(c, slots) && !BeginsEarly(slots, k) && i <= j < |slots| && Busy(slots[i], t) && Busy(slots[j], t)
    ensures j < i + k
  {
    BusyWithin(c, slots, i, t);
    BusyWithin(c, slots, j, t);
    if j >= i + k {
      EndsAscend(c, slots, i, j - k);
      BeginsLater(slots, j - k, k);
    }
  }

  lemma {:induction false} FirstBusy(slots: seq<Slot>, t: int, n: nat) returns (i: nat)
    requires n <= |slots|
    ensures i <= n && (forall j :: 0 <= j < i ==> !Busy(slots[j], t)) && (i < n ==> Busy(slots[i], t))
  {
    if n == 0 {
      i := 0;
    } else {
      i := FirstBusy(slots, t, n - 1);
      if i == n - 1 && !Busy(slots[i], t) { i := n; }
    }
  }

  lemma AtMostActive(c: Corridor, slots: seq<Slot>, t: int, k: nat)
    requires Chain(c, slots) && AreSlots(slots, c) && Distinct(c.ids) && !BeginsEarly(slots, k)
    ensures |Active(Timeline(c, |c.ids|), t)| <= k
  {
    var active, n := Active(Timeline(c, |c.ids|), t), |slots|;
    var i := FirstBusy(slots, t, n);
    var near := c.ids[i..Min(i + k, n)];
    forall id | id in active ensures id in Elements(near) {
      var j := ActiveIsBusy(c, slots, t, id);
      BusyNear(c, slots, i, j, t, k);
      assert near[j - i] == id;
    }
    DistinctSize(near);
    SubsetSize(active, Elements(near));
  }

  // ----- as many as that are active

  /** An action that begins before the one in front of it has settled begins while that one connects or transfers. */
  lemma BeginsDuring(c: Corridor, slots: seq<Slot>, i: nat)
    requires Chain(c, slots) && 0 < i < |slots| && slots[i].advStart < slots[i - 1].settleEnd
    ensures Busy(slots[i - 1], slots[i].advStart) && Busy(slots[i], slots[i].advStart) && slots[i - 1].connectStart <= slots[i].advStart <= slots[i - 1].xferStart
  {
    Step(c, slots, i - 1);
    Step(c, slots, i);
  }

  /** And one that begins before the one two places in front has settled begins while that one transfers or settles. */
  lemma BeginsDuringTwo(c: Corridor, slots: seq<Slot>, i: nat)
    requires Chain(c, slots) && 1 < i < |slots| && slots[i].advStart < slots[i - 2].settleEnd
    ensures slots[i].advStart < slots[i - 1].settleEnd && Busy(slots[i - 2], slots[i].advStart) && slots[i - 1].connectStart < slots[i - 2].settleEnd
    ensures slots[i - 2].xferStart <= slots[i].advStart && (slots[i].advStart == slots[i - 1].connectStart || slots[i - 2].xferEnd <= slots[i].advStart)
  {
    Step(c, slots, i - 2);
    Step(c, slots, i - 1);
    Step(c, slots, i);
  }

  /** And one that begins before the one three places in front has settled, while that one settles. */
  lemma BeginsDuringThree(c: Corridor, slots: seq<Slot>, i: nat)
    requires Chain(c, slots) && 2 < i < |slots| && slots[i].advStart < slots[i - 3].settleEnd
    ensures slots[i].advStart < slots[i - 2].settleEnd && Busy(slots[i - 3], slots[i].advStart)
  {
    Step(c, slots, i - 3);
    Step(c, slots, i - 2);
    Step(c, slots, i - 1);
    BeginsAfter(c, slots, i);
  }

  lemma BeginsAfter(c: Corridor, slots: seq<Slot>, i: nat)
    requires Chain(c, slots) && 2 < i < |slots|
    ensures slots[i].advStart >= slots[i - 2].xferStart >= slots[i - 3].xferEnd
  {
    Step(c, slots, i - 2);
    Step(c, slots, i - 1);
    Step(c, slots, i);
  }

  /** No action begins before the one four places in front has settled. */
  lemma NeverFourAhead(c: Corridor, slots: seq<Slot>)
    requires Chain(c, slots)
    ensures !BeginsEarly(slots, 4)
  {
    forall i: nat | i + 4 < |slots| ensures !EarlyAt(slots, i, 4) {
      BeginsAfter(c, slots, i + 4);
      Step(c, slots, i + 2);
      ChainAscends(c, slots, i, i + 1);
    }
  }

  lemma FewerAhead(c: Corridor, slots: seq<Slot>, k: nat)
    requires Chain(c, slots) && BeginsEarly(slots, k + 1)
    ensures BeginsEarly(slots, k)
  {
    var i: nat :| EarlyAt(slots, i, k + 1);
    EndsAscend(c, slots, i, i + 1);
    assert EarlyAt(slots, i + 1, k);
  }

  lemma {:induction false} AtMostThreeAhead(c: Corridor, slots: seq<Slot>, k: nat)
    requires Chain(c, slots) && BeginsEarly(slots, k)
    ensures k <= 3
  {
    NeverFourAhead(c, slots);
    if k > 4 { FewerAhead(c, slots, k - 1); AtMostThreeAhead(c, slots, k - 1); }
  }

  /** When such an action begins, all those up to it are active. */
  lemma AllBusy(c: Corridor, slots: seq<Slot>, i: nat, k: nat, j: nat)
    requires Chain(c, slots) && EarlyAt(slots, i, k) && k <= 3 && i <= j <= i + k
    ensures Busy(slots[j], slots[i + k].advStart)
  {
    var m := i + k;
    Step(c, slots, m);
    if k == 3 { BeginsDuringThree(c, slots, m); }
    if k >= 2 { BeginsDuringTwo(c, slots, m); }
    if k >= 1 { BeginsDuring(c, slots, m); }
  }

  lemma BeginningIsPoint(c: Corridor, slots: seq<Slot>, m: nat)
    requires Chain(c, slots) && AreSlots(slots, c) && m < |slots|
    ensures slots[m].advStart in Points(Timeline(c, |c.ids|))
  {
    var e := SlotEvents(c.ids[m], slots[m])[0];
    assert e in SlotEvents(c.ids[m], SlotAt(c, m));
    InTimeline(c, |c.ids|, m, e);
  }

  lemma OneActive(c: Corridor, slots: seq<Slot>, i: nat, k: nat, j: nat)
    requires Chain(c, slots) && AreSlots(slots, c) && EarlyAt(slots, i, k) && k <= 3 && i <= j <= i + k
    ensures c.ids[j] in Active(Timeline(c, |c.ids|), slots[i + k].advStart)
  {
    AllBusy(c, slots, i, k, j);
    BusyIsActive(c, slots, slots[i + k].advStart, j);
  }

  lemma WindowSize(ids: seq<string>, i: nat, k: nat, active: set<string>)
    requires Distinct(ids) && i + k < |ids| && forall j :: i <= j <= i + k ==> ids[j] in active
    ensures |active| > k
  {
    var window := ids[i..i + k + 1];
    DistinctSize(window);
    SubsetSize(Elements(window), active);
  }

  lemma ManyActive(c: Corridor, slots: seq<Slot>, i: nat, k: nat)
    requires Chain(c, slots) && AreSlots(slots, c) && Distinct(c.ids) && EarlyAt(slots, i, k) && k <= 3
    ensures |Active(Timeline(c, |c.ids|), slots[i + k].advStart)| > k && slots[i + k].advStart in Points(Timeline(c, |c.ids|))
  {
    BeginningIsPoint(c, slots, i + k);
    var active := Active(Timeline(c, |c.ids|), slots[i + k].advStart);
    forall j | i <= j <= i + k ensures c.ids[j] in active { OneActive(c, slots, i, k, j); }
    WindowSize(c.ids, i, k, active);
  }

  /** The look-ahead check accepts exactly when no action begins before the one that many places in front has settled. */
  lemma LookaheadExactly(c: Corridor, slots: seq<Slot>, limit: nat)
    requires Chain(c, slots) && AreSlots(slots, c) && Distinct(c.ids)
    ensures LookaheadOk(Timeline(c, |c.ids|), limit) <==> !BeginsEarly(slots, limit)
  {
    if BeginsEarly(slots, limit) {
      AtMostThreeAhead(c, slots, limit);
      var i: nat :| EarlyAt(slots, i, limit);
      ManyActive(c, slots, i, limit);
    } else {
      forall t | t in Points(Timeline(c, |c.ids|)) { AtMostActive(c, slots, t, limit); }
    }
  }

  // ----- the theorem

  /** No action begins before the one `limit` places in front of it has settled. */
  ghost predicate WaitsForSettling(c: Corridor, limit: int)
    requires KnownIds(c)
  {
    limit >= 0 && forall i: nat {:trigger SlotAt(c, i)} :: i + limit < |c.ids| ==> SlotAt(c, i + limit).advStart >= SlotAt(c, i).settleEnd
  }

  lemma WaitsExactly(c: Corridor, slots: seq<Slot>, limit: nat)
    requires AreSlots(slots, c) && |slots| == |c.ids|
    ensures WaitsForSettling(c, limit) <==> !BeginsEarly(slots, limit)
  {
    if WaitsForSettling(c, limit) {
      forall i: nat | i + limit < |slots| ensures !EarlyAt(slots, i, limit) { assert SlotAt(c, i).settleEnd == slots[i].settleEnd; }
    } else {
      var i: nat :| i + limit < |c.ids| && SlotAt(c, i + limit).advStart < SlotAt(c, i).settleEnd;
      assert EarlyAt(slots, i, limit);
    }
  }

  lemma StepsHold(c: Corridor, v: Validation)
    requires KnownIds(c) && Distinct(c.ids) && Brisk(c) && Reports(c, Timeline(c, |c.ids|), v)
    ensures v.phaseOrderValid && v.rollbackOk
  {
    forall i | 0 <= i < |c.ids| { PhasesHold(c, i); }
  }

  lemma SequencesHold(c: Corridor, slots: seq<Slot>, v: Validation)
    requires Chain(c, slots) && Distinct(c.ids) && Reports(c, Flat(BlocksOf(c.ids, slots)), v)
    ensures v.xferSerialized && v.completionOrderPreserved
  {
    ChainInSequence(c, slots);
    XfersPass(c.ids, slots);
    CompletionPasses(c.ids, slots);
  }

  lemma NeighboursHold(c: Corridor, slots: seq<Slot>, v: Validation)
    requires Chain(c, slots) && Distinct(c.ids) && Reports(c, Flat(BlocksOf(c.ids, slots)), v)
    ensures v.scannerOk && v.connectableOk && v.slotOk && v.typeOk
  {
    forall i | 0 <= i < |c.ids| - 1 { PairsHold(c, slots, i); }
  }

  /** With positive timeouts and whatever overlaps, the validator accepts an expansion exactly when no action begins before the
      one that the look-ahead would let it overlap last has settled. */
  lemma ExpansionValidatesExactly(c: Corridor, v: Validation)
    requires KnownIds(c) && Distinct(c.ids) && Timed(c) && c.policy.advTimeout >= 1 && c.policy.connectTimeout >= 1
    requires Reports(c, Timeline(c, |c.ids|), v)
    ensures v.Passed() <==> WaitsForSettling(c, c.policy.maxLookahead + 1)
  {
    var slots := SlotsOf(c);
    var limit := c.policy.maxLookahead + 1;
    TimedIsBrisk(c);
    SlotsChain(c, slots);
    StepsHold(c, v);
    SequencesHold(c, slots, v);
    NeighboursHold(c, slots, v);
    if limit >= 0 {
      LookaheadExactly(c, slots, limit);
      WaitsExactly(c, slots, limit);
    }
  }

  lemma FourAlwaysWait(c: Corridor, limit: nat)
    requires KnownIds(c) && Timed(c) && c.policy.advTimeout >= 1 && c.policy.connectTimeout >= 1 && limit >= 4
    ensures WaitsForSettling(c, limit)
  {
    TimedIsBrisk(c);
    var slots := SlotsOf(c);
    SlotsChain(c, slots);
    WaitsExactly(c, slots, limit);
    if BeginsEarly(slots, limit) { AtMostThreeAhead(c, slots, limit); }
  }

  /** A look-ahead of three always suffices: at most four actions are ever active. */
  lemma ThreeAheadSuffice(c: Corridor, v: Validation)
    requires KnownIds(c) && Distinct(c.ids) && Timed(c) && c.policy.advTimeout >= 1 && c.policy.connectTimeout >= 1
    requires Reports(c, Timeline(c, |c.ids|), v) && c.policy.maxLookahead >= 3
    ensures v.Passed()
  {
    ExpansionValidatesExactly(c, v);
    var limit := c.policy.maxLookahead + 1;
    FourAlwaysWait(c, limit);
  }

  // ----- in terms of durations

  /** Without anchors, an action begins before the one two places in front of it has settled exactly when all three overlaps are
      admitted and the middle one's preparations take less time than the first one's transfer and settling. */
  lemma TwoAheadExactly(c: Corridor, i: nat)
    requires KnownIds(c) && Brisk(c) && i + 2 < |c.ids|
    requires !AnchorAdmitted(ActionAt(c, i), ActionAt(c, i + 1), c.policy) && !AnchorAdmitted(ActionAt(c, i + 1), ActionAt(c, i + 2), c.policy)
    ensures var first, middle := DurationsAt(c, i), DurationsAt(c, i + 1);
      SlotAt(c, i + 2).advStart < SlotAt(c, i).settleEnd
      <==> AdvAdmitted(ActionAt(c, i), ActionAt(c, i + 1), c.policy) && ConnectAdmitted(ActionAt(c, i), ActionAt(c, i + 1), c.policy)
           && AdvAdmitted(ActionAt(c, i + 1), ActionAt(c, i + 2), c.policy) && middle.adv + middle.connect < first.xfer + first.settle
  {
    SlotShaped(c, i);
    SlotShaped(c, i + 1);
    SlotFollows(c, i + 1);
    SlotFollows(c, i + 2);
    assert 0 < DurationsAt(c, i).settle && 0 < DurationsAt(c, i + 1).connect && 0 < DurationsAt(c, i + 1).adv && 0 < DurationsAt(c, i + 1).settle;
  }

  // ----- three switches

  ghost function Switch(id: string): Action {
    Action(TurnOn, false, "scanner", id, "", false, false, false)
  }

  /** Both overlaps are allowed, and the slot guard leaves room for them. */
  ghost predicate AllowsBoth(policy: Policy) {
    && policy.allowAdvOverlap && (policy.requireSharedScanner ==> policy.sharedScannerAvailable)
    && policy.allowConnectOverlap && (policy.requireConnectableController ==> policy.connectableControllerAvailable)
    && (policy.enforceSlotGuard ==> policy.xferSlotCost + policy.connectSlotCost <= policy.slotLimit)
  }

  /** Three switches, each a device of its own. */
  ghost predicate ThreeSwitches(c: Corridor) {
    && |c.ids| == 3 && KnownIds(c) && Distinct(c.ids) && Timed(c) && c.policy.advTimeout >= 1 && c.policy.connectTimeout >= 1
    && AllowsBoth(c.policy) && ActionAt(c, 0) == Switch(c.ids[0]) && ActionAt(c, 1) == Switch(c.ids[1]) && ActionAt(c, 2) == Switch(c.ids[2])
  }

  lemma SwitchesAdmitted(a: string, b: string, policy: Policy)
    requires a != b && AllowsBoth(policy)
    ensures AdvAdmitted(Switch(a), Switch(b), policy) && ConnectAdmitted(Switch(a), Switch(b), policy) && !AnchorAdmitted(Switch(a), Switch(b), policy)
  {
  }

  lemma SwitchDurations(id: string, policy: Policy)
    requires policy.advTimeout >= 1 && policy.connectTimeout >= 1
    ensures var d := DurationsOf(Switch(id), policy); d.adv + d.connect <= 255 && d.xfer + d.settle >= 595
  {
    PercentBounds(850, 12); PercentBounds(850, 18); PercentBounds(850, 10);
  }

  lemma SwitchesBeginEarly(c: Corridor)
    requires ThreeSwitches(c)
    ensures SlotAt(c, 2).advStart < SlotAt(c, 0).settleEnd
  {
    TimedIsBrisk(c);
    SwitchesAdmitted(c.ids[0], c.ids[1], c.policy);
    SwitchesAdmitted(c.ids[1], c.ids[2], c.policy);
    assert DurationsAt(c, 0) == DurationsOf(Switch(c.ids[0]), c.policy) && DurationsAt(c, 1) == DurationsOf(Switch(c.ids[1]), c.policy);
    SwitchDurations(c.ids[0], c.policy);
    SwitchDurations(c.ids[1], c.policy);
    TwoAheadExactly(c, 0);
  }

  /** With a look-ahead of one, as by default, the expander overlaps them too far for the validator. */
  lemma SwitchesFail(c: Corridor, v: Validation)
    requires ThreeSwitches(c) && c.policy.maxLookahead == 1 && Reports(c, Timeline(c, |c.ids|), v)
    ensures !v.Passed()
  {
    SwitchesBeginEarly(c);
    assert !WaitsForSettling(c, 2);
    ExpansionValidatesExactly(c, v);
  }
}
