/** Independent re-check of a refined BLE timeline (optimizer/ble_micro_refinement.py `validate_refined_corridor`,
    `_completion_order`). */
module BleValidator {
  import opened BleCorridor
  import opened Timelines

  const PHASES := [PrepareAdv, PrepareConnect, Xfer, Settling]

  predicate NamesAre(events: seq<Event>) {
    |events| == 4 && forall k :: 0 <= k < 4 ==> events[k].phase == PHASES[k]
  }

  ghost predicate PhasesValid(events: seq<Event>) {
    NamesAre(events) && Serialized(events)
  }

  ghost predicate WithinTimeouts(events: seq<Event>, policy: Policy) {
    NamesAre(events) ==>
      events[0].endMs - events[0].startMs <= policy.advTimeout && events[1].endMs - events[1].startMs <= policy.connectTimeout
  }

  /** When each action settles, in order of first mention. */
  function Completion(events: seq<Event>): seq<(string, int)> {
    if events == [] then []
    else
      var table, e := Completion(events[..|events| - 1]), events[|events| - 1];
      if e.phase == Settling then Record(table, e.owner, e.endMs) else table
  }

  function CompletionOrder(events: seq<Event>): seq<string> {
    ByCompletion(Completion(events))
  }

  /** The five events a pair check looks at; it is skipped when one is missing. */
  datatype PairView = PairView(leftConnect: Found, leftXfer: Found, leftSettle: Found, rightAdv: Found, rightConnect: Found) {
    predicate Complete() {
      leftConnect.Hit? && leftXfer.Hit? && leftSettle.Hit? && rightAdv.Hit? && rightConnect.Hit?
    }
  }

  function View(events: seq<Event>, left: string, right: string): PairView {
    PairView(Last(events, left, PrepareConnect), Last(events, left, Xfer), Last(events, left, Settling),
             Last(events, right, PrepareAdv), Last(events, right, PrepareConnect))
  }

  /** An advertisement that starts before the left action settled was admitted, and its anchor too. */
  ghost predicate TypePairOk(v: PairView, left: Action, right: Action, policy: Policy) {
    v.Complete() && v.rightAdv.event.startMs < v.leftSettle.event.endMs ==>
      AdvAdmitted(left, right, policy) &&
      (v.rightAdv.event.startMs < v.leftXfer.event.startMs ==> AnchorAdmitted(left, right, policy))
  }

  ghost predicate ScannerPairOk(v: PairView, left: Action, right: Action, policy: Policy) {
    TypePairOk(v, left, right, policy) &&
    (v.Complete() && v.rightAdv.event.startMs < v.leftSettle.event.endMs && v.rightAdv.event.startMs < v.leftXfer.event.startMs ==>
       v.leftConnect.event.startMs <= v.rightAdv.event.startMs)
  }

  ghost predicate ConnectPairOk(v: PairView, left: Action, right: Action, policy: Policy) {
    v.Complete() && v.rightConnect.event.startMs < v.leftSettle.event.endMs ==> ConnectAdmitted(left, right, policy)
  }

  ghost predicate TypeAt(c: Corridor, events: seq<Event>, i: nat)
    requires KnownIds(c) && i + 1 < |c.ids|
  {
    TypePairOk(View(events, c.ids[i], c.ids[i + 1]), ActionAt(c, i), ActionAt(c, i + 1), c.policy)
  }

  ghost predicate ScannerAt(c: Corridor, events: seq<Event>, i: nat)
    requires KnownIds(c) && i + 1 < |c.ids|
  {
    ScannerPairOk(View(events, c.ids[i], c.ids[i + 1]), ActionAt(c, i), ActionAt(c, i + 1), c.policy)
  }

  ghost predicate ConnectAt(c: Corridor, events: seq<Event>, i: nat)
    requires KnownIds(c) && i + 1 < |c.ids|
  {
    ConnectPairOk(View(events, c.ids[i], c.ids[i + 1]), ActionAt(c, i), ActionAt(c, i + 1), c.policy)
  }

  datatype Validation = Validation(
    completionOrderPreserved: bool, phaseOrderValid: bool, xferSerialized: bool, lookaheadDepthOk: bool,
    scannerOk: bool, connectableOk: bool, slotOk: bool, typeOk: bool, rollbackOk: bool)
  {
    predicate Passed() {
      phaseOrderValid && xferSerialized && completionOrderPreserved && lookaheadDepthOk && scannerOk && connectableOk && slotOk && typeOk && rollbackOk
    }
  }

  /** What each flag of a validation result means. */
  ghost predicate Reports(c: Corridor, events: seq<Event>, v: Validation)
    requires KnownIds(c)
  {
    && (v.phaseOrderValid <==> forall i :: 0 <= i < |c.ids| ==> PhasesValid(ByStart(Of(events, c.ids[i]))))
    && (v.rollbackOk <==> forall i :: 0 <= i < |c.ids| ==> WithinTimeouts(ByStart(Of(events, c.ids[i])), c.policy))
    && (v.xferSerialized <==> Serialized(ByStart(OfPhase(events, Xfer))))
    && (v.completionOrderPreserved <==> CompletionOrder(events) == c.ids)
    && (v.lookaheadDepthOk <==> LookaheadOk(events, c.policy.maxLookahead + 1))
    && v.typeOk == TypesOk(c, events, |c.ids|)
    && v.scannerOk == ScannersOk(c, events, |c.ids|)
    && v.connectableOk == ConnectsOk(c, events, |c.ids|)
    && (v.slotOk <==> v.connectableOk)
  }

  method CheckPhases(c: Corridor, events: seq<Event>) returns (phaseOrderValid: bool, rollbackOk: bool)
    requires KnownIds(c)
    ensures phaseOrderValid <==> forall i :: 0 <= i < |c.ids| ==> PhasesValid(ByStart(Of(events, c.ids[i])))
    ensures rollbackOk <==> forall i :: 0 <= i < |c.ids| ==> WithinTimeouts(ByStart(Of(events, c.ids[i])), c.policy)
  {
    phaseOrderValid, rollbackOk := true, true;
    for i := 0 to |c.ids|
      invariant phaseOrderValid <==> forall k :: 0 <= k < i ==> PhasesValid(ByStart(Of(events, c.ids[k])))
      invariant rollbackOk <==> forall k :: 0 <= k < i ==> WithinTimeouts(ByStart(Of(events, c.ids[k])), c.policy)
    {
      var phases := ByStart(Of(events, c.ids[i]));
      if !NamesAre(phases) {
        phaseOrderValid := false;
      } else {
        var inverted := FindInversion(phases);
        if inverted { phaseOrderValid := false; }
        if phases[0].endMs - phases[0].startMs > c.policy.advTimeout { rollbackOk := false; }
        if phases[1].endMs - phases[1].startMs > c.policy.connectTimeout { rollbackOk := false; }
      }
    }
  }

  ghost predicate TypesOk(c: Corridor, events: seq<Event>, n: nat)
    requires KnownIds(c) && n <= |c.ids|
  {
    forall i :: 0 <= i < n - 1 ==> TypeAt(c, events, i)
  }

  ghost predicate ScannersOk(c: Corridor, events: seq<Event>, n: nat)
    requires KnownIds(c) && n <= |c.ids|
  {
    forall i :: 0 <= i < n - 1 ==> ScannerAt(c, events, i)
  }

  ghost predicate ConnectsOk(c: Corridor, events: seq<Event>, n: nat)
    requires KnownIds(c) && n <= |c.ids|
  {
    forall i :: 0 <= i < n - 1 ==> ConnectAt(c, events, i)
  }

  lemma PairsNext(c: Corridor, events: seq<Event>, n: nat)
    requires KnownIds(c) && 0 < n < |c.ids|
    ensures TypesOk(c, events, n + 1) <==> TypesOk(c, events, n) && TypeAt(c, events, n - 1)
    ensures ScannersOk(c, events, n + 1) <==> ScannersOk(c, events, n) && ScannerAt(c, events, n - 1)
    ensures ConnectsOk(c, events, n + 1) <==> ConnectsOk(c, events, n) && ConnectAt(c, events, n - 1)
  {
  }

  /** The flags of the first `n` actions. */
  ghost predicate PairFlags(c: Corridor, events: seq<Event>, n: nat, typeOk: bool, scannerOk: bool, connectOk: bool)
    requires KnownIds(c) && n <= |c.ids|
  {
    typeOk == TypesOk(c, events, n) && scannerOk == ScannersOk(c, events, n) && connectOk == ConnectsOk(c, events, n)
  }

  method CheckPairs(c: Corridor, events: seq<Event>) returns (typeOk: bool, scannerOk: bool, connectableOk: bool, slotOk: bool)
    requires KnownIds(c)
    ensures typeOk == TypesOk(c, events, |c.ids|) && scannerOk == ScannersOk(c, events, |c.ids|)
    ensures connectableOk == slotOk == ConnectsOk(c, events, |c.ids|)
  {
    typeOk, scannerOk, connectableOk, slotOk := true, true, true, true;
    if c.ids == [] { return; }
    for i := 1 to |c.ids|
      invariant PairFlags(c, events, i, typeOk, scannerOk, connectableOk) && slotOk == connectableOk
    {
      var t, s, n := CheckPairAt(c, events, i, typeOk, scannerOk, connectableOk);
      typeOk, scannerOk := typeOk && t, scannerOk && s;
      connectableOk, slotOk := connectableOk && n, slotOk && n;
    }
  }

  method CheckPairAt(c: Corridor, events: seq<Event>, i: nat, ghost types: bool, ghost scanners: bool, ghost connects: bool)
    returns (typeOk: bool, scannerOk: bool, connectableOk: bool)
    requires KnownIds(c) && 0 < i < |c.ids| && PairFlags(c, events, i, types, scanners, connects)
    ensures PairFlags(c, events, i + 1, types && typeOk, scanners && scannerOk, connects && connectableOk)
  {
    typeOk, scannerOk, connectableOk :=
      CheckPair(View(events, c.ids[i - 1], c.ids[i]), ActionAt(c, i - 1), ActionAt(c, i), c.policy);
    PairsNext(c, events, i);
  }

  method CheckPair(v: PairView, left: Action, right: Action, policy: Policy) returns (typeOk: bool, scannerOk: bool, connectableOk: bool)
    ensures typeOk == TypePairOk(v, left, right, policy)
    ensures scannerOk == ScannerPairOk(v, left, right, policy)
    ensures connectableOk == ConnectPairOk(v, left, right, policy)
  {
    typeOk, scannerOk, connectableOk := true, true, true;
    if !v.Complete() { return; }
    var advOverlaps := v.rightAdv.event.startMs < v.leftSettle.event.endMs;
    var connectOverlaps := v.rightConnect.event.startMs < v.leftSettle.event.endMs;
    if advOverlaps {
      if !AdvAdmitted(left, right, policy) {
        scannerOk, typeOk := false, false;
      } else if v.rightAdv.event.startMs < v.leftXfer.event.startMs {
        if !AnchorAdmitted(left, right, policy) { scannerOk, typeOk := false, false; }
        if v.rightAdv.event.startMs < v.leftConnect.event.startMs { scannerOk := false; }
      }
    }
    if connectOverlaps && !ConnectAdmitted(left, right, policy) { connectableOk := false; }
  }

  method Validate(c: Corridor, events: seq<Event>) returns (v: Validation)
    requires KnownIds(c)
    ensures Reports(c, events, v)
  {
    var phaseOrderValid, rollbackOk := CheckPhases(c, events);
    var overlap := FindInversion(ByStart(OfPhase(events, Xfer)));
    var completionOk := CompletionOrder(events) == c.ids;
    var lookaheadOk := CheckLookahead(events, c.policy.maxLookahead + 1);
    var typeOk, scannerOk, connectableOk, slotOk := CheckPairs(c, events);
    v := Validation(completionOk, phaseOrderValid, !overlap, lookaheadOk, scannerOk, connectableOk, slotOk, typeOk, rollbackOk);
  }
}
