/** Refinement of one BLE corridor and the exact time it saves
    (optimizer/ble_micro_refinement.py `_refine_corridor`). */
module BleRefiner {
  import opened BlePhases
  import opened Numbers
  import opened BleCorridor
  import opened BleValidator
  import opened BleTheorems
  import opened Timelines
  import opened Sequences

  /** Sum of the estimated latencies of the first `n` actions. */
  ghost function LatencySum(c: Corridor, n: nat): int
    requires KnownIds(c) && n <= |c.ids|
  {
    if n == 0 then 0 else LatencySum(c, n - 1) + LatencyMs(ActionAt(c, n - 1).kind)
  }

  /** Action `i` may advertise while the action before it is still busy. */
  predicate PairAdmitted(c: Corridor, i: nat)
    requires KnownIds(c) && 0 < i < |c.ids|
  {
    AdvAdmitted(ActionAt(c, i - 1), ActionAt(c, i), c.policy)
  }

  ghost function AdmittedPairs(c: Corridor, n: nat): nat
    requires KnownIds(c) && n <= |c.ids|
  {
    if n <= 1 then 0 else AdmittedPairs(c, n - 1) + (if PairAdmitted(c, n - 1) then 1 else 0)
  }

  /** Advertisement time of the admitted pairs among the first `n` actions. */
  function OverlappedAdv(c: Corridor, n: nat): int
    requires KnownIds(c) && n <= |c.ids|
  {
    if n <= 1 then 0 else OverlappedAdv(c, n - 1) + (if PairAdmitted(c, n - 1) then DurationsAt(c, n - 1).adv else 0)
  }

  lemma {:induction false} MaxEndSlot(a: seq<Event>, id: string, s: Slot)
    requires s.advEnd <= s.settleEnd && s.connectEnd <= s.settleEnd && s.xferEnd <= s.settleEnd
    requires a == [] || MaxEnd(a) <= s.settleEnd
    ensures MaxEnd(a + SlotEvents(id, s)) == s.settleEnd
  {
    var e := SlotEvents(id, s);
    MaxEndStep(a, e[0]);
    MaxEndStep(a + [e[0]], e[1]);
    MaxEndStep(a + [e[0]] + [e[1]], e[2]);
    MaxEndStep(a + [e[0]] + [e[1]] + [e[2]], e[3]);
    assert a + [e[0]] + [e[1]] + [e[2]] + [e[3]] == a + e;
  }

  /** The corridor ends when its last action settles. */
  lemma {:induction false} MakespanIsLastSettle(c: Corridor, n: nat)
    requires Sound(c) && 0 < n <= |c.ids|
    ensures MaxEnd(Timeline(c, n)) == SlotAt(c, n - 1).settleEnd
  {
    SlotShape(c, n - 1);
    var d := DurationsAt(c, n - 1);
    assert 0 <= d.adv && 0 <= d.connect && d.xfer >= XFER_MIN && d.settle >= 1;
    if n > 1 {
      MakespanIsLastSettle(c, n - 1);
      SlotAfter(c, n - 1);
    }
    MaxEndSlot(Timeline(c, n - 1), c.ids[n - 1], SlotAt(c, n - 1));
  }

  /** Each admitted pair saves exactly its advertisement phase. */
  lemma {:induction false} SettleFormula(c: Corridor, n: nat)
    requires Sound(c) && AddsUp(c) && c.policy.advTimeout <= XFER_MIN + SETTLE_MIN && 0 < n <= |c.ids|
    ensures SlotAt(c, n - 1).settleEnd == LatencySum(c, n) - OverlappedAdv(c, n)
  {
    var i := n - 1;
    SlotShape(c, i);
    assert DurationsAt(c, i).Total() == LatencyMs(ActionAt(c, i).kind);
    if i > 0 {
      SettleFormula(c, i);
      SlotShape(c, i - 1);
      SlotAfter(c, i);
      var d, e := DurationsAt(c, i - 1), DurationsAt(c, i);
      assert d.xfer >= XFER_MIN && d.settle >= SETTLE_MIN && d.connect >= 0;
      assert 0 <= e.adv <= c.policy.advTimeout;
    }
  }

  /** The refined makespan is the serial one minus the admitted advertisement time. */
  lemma MakespanFormula(c: Corridor)
    requires Sound(c) && AddsUp(c) && c.policy.advTimeout <= 150
    ensures MaxEnd(Timeline(c, |c.ids|)) == LatencySum(c, |c.ids|) - OverlappedAdv(c, |c.ids|)
  {
    if c.ids != [] {
      MakespanIsLastSettle(c, |c.ids|);
      SettleFormula(c, |c.ids|);
    }
  }

  lemma {:induction false} SerialEndIsLatency(c: Corridor, n: nat)
    requires KnownIds(c) && AddsUp(c) && n <= |c.ids|
    ensures SerialEnd(c, n) == LatencySum(c, n)
  {
    if n > 0 {
      SerialEndIsLatency(c, n - 1);
      assert DurationsAt(c, n - 1).Total() == LatencyMs(ActionAt(c, n - 1).kind);
    }
  }

  lemma SerialSlotEnds(c: Corridor, i: nat)
    requires KnownIds(c) && Bounded(c) && AddsUp(c) && i < |c.ids| && SerialEnd(c, i) == LatencySum(c, i)
    ensures var s := SerialSlot(c, i);
      LatencySum(c, i) <= s.advEnd <= s.connectEnd <= s.xferEnd <= s.settleEnd == LatencySum(c, i + 1)
  {
    var d := DurationsAt(c, i);
    assert d.Total() == LatencyMs(ActionAt(c, i).kind);
    assert 0 <= d.adv && 0 <= d.connect && d.xfer >= XFER_MIN && d.settle >= 1;
  }

  /** The serial timeline takes exactly the sum of the estimated latencies. */
  lemma {:induction false} SerialMakespan(c: Corridor, n: nat)
    requires KnownIds(c) && Bounded(c) && AddsUp(c) && n <= |c.ids|
    ensures MaxEnd(SerialTimeline(c, n)) == LatencySum(c, n) >= 0
  {
    if n > 0 {
      SerialMakespan(c, n - 1);
      SerialEndIsLatency(c, n - 1);
      SerialSlotEnds(c, n - 1);
      MaxEndSlot(SerialTimeline(c, n - 1), c.ids[n - 1], SerialSlot(c, n - 1));
    }
  }

  /** Between 30 and 120 ms a pair when the timeout lies between 30 and 120 ms. */
  lemma {:induction false} SavingBounds(c: Corridor, n: nat)
    requires KnownIds(c) && Timed(c) && 30 <= c.policy.advTimeout <= 120 && n <= |c.ids|
    ensures 30 * AdmittedPairs(c, n) <= OverlappedAdv(c, n) <= 120 * AdmittedPairs(c, n)
  {
    if n > 1 {
      SavingBounds(c, n - 1);
      var a := ActionAt(c, n - 1);
      assert DurationsAt(c, n - 1) == DurationsOf(a, c.policy);
      AdvAtLeastMinimum(LatencyMs(a.kind), ProfileOf(a), c.policy.advTimeout, c.policy.connectTimeout);
    }
  }

  lemma {:induction false} SavingNonNegative(c: Corridor, n: nat)
    requires KnownIds(c) && Bounded(c) && n <= |c.ids|
    ensures OverlappedAdv(c, n) >= 0
  {
    if n > 1 {
      SavingNonNegative(c, n - 1);
      assert DurationsAt(c, n - 1).adv >= 0;
    }
  }

  /** The policies the default configuration belongs to: connecting never overlaps, some look-ahead. */
  ghost predicate Conservative(policy: Policy) {
    !policy.allowConnectOverlap && policy.maxLookahead >= 1 && policy.advTimeout >= 0 && policy.connectTimeout >= 0
  }

  /** A conservative refinement of a corridor whose latency is the sum of its actions' saves the overlapped time. */
  lemma SavingIsOverlap(c: Corridor, originalLatency: int)
    requires Sound(c) && AddsUp(c) && c.policy.advTimeout <= 150
    ensures originalLatency == LatencySum(c, |c.ids|)
      ==> originalLatency - MaxEnd(Timeline(c, |c.ids|)) == OverlappedAdv(c, |c.ids|) >= 0
  {
    MakespanFormula(c);
    SavingNonNegative(c, |c.ids|);
  }

  lemma ConservativeSaves(c: Corridor, v: Validation, originalLatency: int, refined: seq<Event>, refinedLatency: int)
    requires KnownIds(c) && Timed(c) && refined == Timeline(c, |c.ids|) && refinedLatency == MaxEnd(refined) && Reports(c, refined, v)
    ensures Distinct(c.ids) && Conservative(c.policy) ==> v.Passed()
    ensures Distinct(c.ids) && Conservative(c.policy) && c.policy.advTimeout <= 150 && originalLatency == LatencySum(c, |c.ids|)
      ==> originalLatency - refinedLatency == OverlappedAdv(c, |c.ids|) >= 0
  {
    if Distinct(c.ids) && Conservative(c.policy) {
      TimedIsBounded(c);
      ExpansionValidates(c, v);
      if c.policy.advTimeout <= 150 { SavingIsOverlap(c, originalLatency); }
    }
  }

  datatype Refinement = Refinement(
    serialEvents: seq<Event>, refinedEvents: seq<Event>, refinedLatency: int, latencySaved: int, validation: Validation)

  method RefineCorridor(ids: seq<string>, actions: map<string, Action>, policy: Policy, originalLatency: int)
    returns (r: Refinement, c: Corridor)
    requires forall i :: 0 <= i < |ids| ==> ids[i] in actions
    ensures c.ids == ids && c.actions == actions && c.policy == policy && KnownIds(c) && Timed(c)
    ensures r.serialEvents == SerialTimeline(c, |ids|) && r.refinedEvents == Timeline(c, |ids|)
    ensures Reports(c, r.refinedEvents, r.validation)
    ensures r.refinedLatency == MaxEnd(r.refinedEvents)
    ensures r.latencySaved == if r.validation.Passed() then Max(0, originalLatency - r.refinedLatency) else 0
    ensures Distinct(ids) && Conservative(policy) ==> r.validation.Passed()
    ensures Distinct(ids) && Conservative(policy) && policy.advTimeout <= 150 && originalLatency == LatencySum(c, |ids|)
            ==> r.latencySaved == OverlappedAdv(c, |ids|) && r.refinedLatency == originalLatency - r.latencySaved
  {
    c := PhaseTable(ids, actions, policy);
    var serial := ExpandSerial(c);
    var refined := ExpandOverlap(c);
    var validation := Validate(c, refined);
    var refinedLatency := MaxEnd(refined);
    ConservativeSaves(c, validation, originalLatency, refined, refinedLatency);
    var saved := if validation.Passed() then Max(0, originalLatency - refinedLatency) else 0;
    r := Refinement(serial, refined, refinedLatency, saved, validation);
  }
}
