/** Look-ahead expansion of a BLE corridor (optimizer/ble_micro_refinement.py `_expand_serial_corridor`,
    `_expand_conservative_overlap` and the admission predicates). */
module BleCorridor {
  import opened BlePhases
  import opened Numbers
  import opened Timelines
  import opened Sequences

  datatype Kind = SetCoverPosition | RefreshCover | ReadSensor | ReadStatus | Connect | Subscribe | SetPercentage | TurnOn | TurnOff | OtherKind

  /** What the refiner reads off an action. `connectSafe` and `subscribeSafe` say that the scanner source or a
      declared capability allows anchoring during connect, respectively overlapping a subscription. */
  datatype Action = Action(
    kind: Kind, subscribeLike: bool, source: string, device: string, session: string,
    requiresConnectable: bool, connectSafe: bool, subscribeSafe: bool)

  datatype Policy = Policy(
    allowAdvOverlap: bool, allowConnectOverlap: bool, advTimeout: int, connectTimeout: int, maxLookahead: int,
    requireSharedScanner: bool, sharedScannerAvailable: bool,
    requireSourceResolution: bool, allowUnknownSource: bool,
    requireConnectableController: bool, connectableControllerAvailable: bool,
    allowSubscribeOverlap: bool, allowSameDevice: bool, allowSameSession: bool, prepareSideEffectFree: bool,
    enforceSlotGuard: bool, slotLimit: int, xferSlotCost: int, connectSlotCost: int)

  /** Estimated duration of a BLE action. */
  function LatencyMs(kind: Kind): int {
    match kind
    case SetCoverPosition => 950
    case RefreshCover => 850
    case ReadSensor => 750
    case ReadStatus => 650
    case Connect => 1200
    case Subscribe => 450
    case SetPercentage => 850
    case TurnOn => 850
    case TurnOff => 800
    case OtherKind => 800
  }

  function ProfileOf(a: Action): Profile {
    if a.subscribeLike then SubscribeProfile else if a.kind == Connect then ConnectProfile else PlainProfile
  }

  ghost function DurationsOf(a: Action, policy: Policy): Durations {
    PhaseDurations(LatencyMs(a.kind), ProfileOf(a), policy.advTimeout, policy.connectTimeout)
  }

  // ----- admission

  predicate ConservativeSubscribeOverlap(current: Action, next: Action, policy: Policy) {
    && next.subscribeLike && next.subscribeSafe && current.kind == Connect
    && current.source != "" && current.source == next.source
    && current.device != "" && next.device != "" && current.device != next.device
    && !(current.session != "" && current.session == next.session)
    && (policy.requireConnectableController ==> policy.connectableControllerAvailable)
  }

  predicate AdvAdmitted(current: Action, next: Action, policy: Policy) {
    && policy.allowAdvOverlap
    && (policy.requireSharedScanner ==> policy.sharedScannerAvailable)
    && (policy.requireSourceResolution && (current.source == "" || next.source == "") ==> policy.allowUnknownSource)
    && (policy.requireConnectableController && next.requiresConnectable ==> policy.connectableControllerAvailable)
    && (next.subscribeLike ==> policy.allowSubscribeOverlap || ConservativeSubscribeOverlap(current, next, policy))
    && (current.device != "" && current.device == next.device ==> policy.allowSameDevice)
    && (current.session != "" && current.session == next.session ==> policy.allowSameSession)
    && (policy.prepareSideEffectFree && next.subscribeLike ==> ConservativeSubscribeOverlap(current, next, policy))
  }

  predicate AnchorAdmitted(current: Action, next: Action, policy: Policy) {
    && AdvAdmitted(current, next, policy)
    && current.kind != Connect && !current.subscribeLike
    && next.connectSafe
  }

  predicate ConnectAdmitted(current: Action, next: Action, policy: Policy) {
    && policy.allowConnectOverlap
    && (policy.requireConnectableController ==> policy.connectableControllerAvailable)
    && (policy.enforceSlotGuard ==> policy.xferSlotCost + policy.connectSlotCost <= policy.slotLimit)
    && !(current.device != "" && current.device == next.device)
  }

  /** What can be said against overlapping the preparations of an action. */
  datatype Objection = OverlapDisabled | SharedScannerUnavailable | SourceUnresolved | ControllerUnavailable | SubscribeLikeNext
    | SameDevice | SameSession | NotFreeOfSideEffects | SlotConflict

  ghost predicate AgainstAdvertising(o: Objection, current: Action, next: Action, policy: Policy) {
    match o
    case OverlapDisabled => !policy.allowAdvOverlap
    case SharedScannerUnavailable => policy.requireSharedScanner && !policy.sharedScannerAvailable
    case SourceUnresolved => policy.requireSourceResolution && (current.source == "" || next.source == "") && !policy.allowUnknownSource
    case ControllerUnavailable => policy.requireConnectableController && next.requiresConnectable && !policy.connectableControllerAvailable
    case SubscribeLikeNext => next.subscribeLike && !policy.allowSubscribeOverlap && !ConservativeSubscribeOverlap(current, next, policy)
    case SameDevice => current.device != "" && current.device == next.device && !policy.allowSameDevice
    case SameSession => current.session != "" && current.session == next.session && !policy.allowSameSession
    case NotFreeOfSideEffects => policy.prepareSideEffectFree && next.subscribeLike && !ConservativeSubscribeOverlap(current, next, policy)
    case SlotConflict => false
  }

  ghost predicate AgainstConnecting(o: Objection, current: Action, next: Action, policy: Policy) {
    match o
    case OverlapDisabled => !policy.allowConnectOverlap
    case ControllerUnavailable => policy.requireConnectableController && !policy.connectableControllerAvailable
    case SlotConflict => policy.enforceSlotGuard && policy.xferSlotCost + policy.connectSlotCost > policy.slotLimit
    case SameDevice => current.device != "" && current.device == next.device
    case _ => false
  }

  /** Overlaps are admitted exactly when nothing is said against them; an anchored advertisement also needs a left action that
      neither connects nor subscribes, and a right one declared safe for it. */
  lemma AdmittedExactly(current: Action, next: Action, policy: Policy)
    ensures AdvAdmitted(current, next, policy) <==> forall o :: !AgainstAdvertising(o, current, next, policy)
    ensures ConnectAdmitted(current, next, policy) <==> forall o :: !AgainstConnecting(o, current, next, policy)
    ensures AnchorAdmitted(current, next, policy) <==>
              AdvAdmitted(current, next, policy) && !(current.kind == Connect || current.subscribeLike) && next.connectSafe
  {
    assert AdvAdmitted(current, next, policy) <==>
      && !AgainstAdvertising(OverlapDisabled, current, next, policy) && !AgainstAdvertising(SharedScannerUnavailable, current, next, policy)
      && !AgainstAdvertising(SourceUnresolved, current, next, policy) && !AgainstAdvertising(ControllerUnavailable, current, next, policy)
      && !AgainstAdvertising(SubscribeLikeNext, current, next, policy) && !AgainstAdvertising(SameDevice, current, next, policy)
      && !AgainstAdvertising(SameSession, current, next, policy) && !AgainstAdvertising(NotFreeOfSideEffects, current, next, policy);
    assert ConnectAdmitted(current, next, policy) <==>
      && !AgainstConnecting(OverlapDisabled, current, next, policy) && !AgainstConnecting(ControllerUnavailable, current, next, policy)
      && !AgainstConnecting(SlotConflict, current, next, policy) && !AgainstConnecting(SameDevice, current, next, policy);
  }

  // ----- timelines

  /** The four intervals of one action; settling starts when the transfer ends. */
  datatype Slot = Slot(advStart: int, advEnd: int, connectStart: int, connectEnd: int, xferStart: int, xferEnd: int, settleEnd: int)

  ghost function SlotEvents(id: string, s: Slot): seq<Event> {
    [Event(id, PrepareAdv, s.advStart, s.advEnd), Event(id, PrepareConnect, s.connectStart, s.connectEnd),
     Event(id, Xfer, s.xferStart, s.xferEnd), Event(id, Settling, s.xferEnd, s.settleEnd)]
  }

  /** A corridor: action ids in order, their descriptions and phase durations, the policy. */
  datatype Corridor = Corridor(ids: seq<string>, actions: map<string, Action>, durations: map<string, Durations>, policy: Policy)

  ghost predicate KnownIds(c: Corridor) {
    forall i :: 0 <= i < |c.ids| ==> c.ids[i] in c.actions && c.ids[i] in c.durations
  }

  /** The durations are those of the phase model. */
  ghost predicate Timed(c: Corridor) {
    && (forall id :: id in c.durations ==> id in c.actions)
    && (forall id {:trigger DurationsOf(c.actions[id], c.policy)} :: id in c.durations ==> c.durations[id] == DurationsOf(c.actions[id], c.policy))
  }

  method PhaseTable(ids: seq<string>, actions: map<string, Action>, policy: Policy) returns (c: Corridor)
    requires forall i :: 0 <= i < |ids| ==> ids[i] in actions
    ensures c.ids == ids && c.actions == actions && c.policy == policy
    ensures KnownIds(c) && Timed(c)
  {
    var durations: map<string, Durations> := map[];
    for i := 0 to |ids|
      invariant forall k :: 0 <= k < i ==> ids[k] in durations
      invariant forall id :: id in durations ==> id in actions && durations[id] == DurationsOf(actions[id], policy)
    {
      var action := actions[ids[i]];
      var d := ComputePhaseDurations(LatencyMs(action.kind), ProfileOf(action), policy.advTimeout, policy.connectTimeout);
      durations := durations[ids[i] := d];
    }
    c := Corridor(ids, actions, durations, policy);
  }

  function ActionAt(c: Corridor, i: nat): Action
    requires KnownIds(c) && i < |c.ids|
  {
    c.actions[c.ids[i]]
  }

  function DurationsAt(c: Corridor, i: nat): Durations
    requires KnownIds(c) && i < |c.ids|
  {
    c.durations[c.ids[i]]
  }

  /** The slot of an action given when its preparations may start and when the previous transfer ended. */
  ghost function Place(d: Durations, advStart: int, connectFloor: int, xferFloor: int): Slot {
    var advEnd := advStart + d.adv;
    var connectStart := Max(advEnd, connectFloor);
    var connectEnd := connectStart + d.connect;
    var xferStart := Max(connectEnd, xferFloor);
    var xferEnd := xferStart + d.xfer;
    Slot(advStart, advEnd, connectStart, connectEnd, xferStart, xferEnd, xferEnd + d.settle)
  }

  ghost function AdvFloor(current: Action, next: Action, policy: Policy, previous: Slot): int {
    if !AdvAdmitted(current, next, policy) then previous.settleEnd
    else if AnchorAdmitted(current, next, policy) then previous.connectStart
    else previous.xferStart
  }

  ghost function ConnectFloor(current: Action, next: Action, policy: Policy, previous: Slot): int {
    if ConnectAdmitted(current, next, policy) then previous.xferStart else previous.settleEnd
  }

  ghost function SlotAt(c: Corridor, i: nat): Slot
    requires KnownIds(c) && i < |c.ids|
  {
    if i == 0 then Place(DurationsAt(c, 0), 0, DurationsAt(c, 0).adv, 0)
    else
      var previous, current, next := SlotAt(c, i - 1), ActionAt(c, i - 1), ActionAt(c, i);
      Place(DurationsAt(c, i), AdvFloor(current, next, c.policy, previous), ConnectFloor(current, next, c.policy, previous), previous.xferEnd)
  }

  /** Events of the first `n` actions. */
  ghost function Timeline(c: Corridor, n: nat): seq<Event>
    requires KnownIds(c) && n <= |c.ids|
  {
    if n == 0 then [] else Timeline(c, n - 1) + SlotEvents(c.ids[n - 1], SlotAt(c, n - 1))
  }

  lemma SlotFrom(c: Corridor, i: nat, advStart: int, connectStart: int, xferFloor: int)
    requires KnownIds(c) && i < |c.ids|
    requires i == 0 ==> advStart == 0 && connectStart == DurationsAt(c, 0).adv && xferFloor == 0
    requires i > 0 ==>
      var previous, current, next := SlotAt(c, i - 1), ActionAt(c, i - 1), ActionAt(c, i);
      advStart == AdvFloor(current, next, c.policy, previous) && xferFloor == previous.xferEnd
      && connectStart == Max(advStart + DurationsAt(c, i).adv, ConnectFloor(current, next, c.policy, previous))
    ensures var d := DurationsAt(c, i);
      var connectEnd := connectStart + d.connect;
      var xferStart := Max(connectEnd, xferFloor);
      SlotAt(c, i) == Slot(advStart, advStart + d.adv, connectStart, connectEnd, xferStart, xferStart + d.xfer, xferStart + d.xfer + d.settle)
  {
  }

  /** The look-ahead expander with its cursor variables. */
  method ExpandOverlap(c: Corridor) returns (events: seq<Event>)
    requires KnownIds(c)
    ensures events == Timeline(c, |c.ids|)
  {
    events := [];
    if c.ids == [] { return; }
    var previousXferStart, previousXferEnd, previousSettleEnd, previousConnectStart := 0, 0, 0, 0;
    for idx := 0 to |c.ids|
      invariant events == Timeline(c, idx)
      invariant idx == 0 ==> previousXferEnd == 0
      invariant idx > 0 ==> var s := SlotAt(c, idx - 1);
        previousXferStart == s.xferStart && previousXferEnd == s.xferEnd && previousSettleEnd == s.settleEnd && previousConnectStart == s.connectStart
    {
      var id := c.ids[idx];
      var action, d := c.actions[id], c.durations[id];
      var advStart, connectStart;
      if idx == 0 {
        advStart := 0;
      } else {
        var previous := c.actions[c.ids[idx - 1]];
        if AdvAdmitted(previous, action, c.policy) {
          advStart := if AnchorAdmitted(previous, action, c.policy) then previousConnectStart else previousXferStart;
        } else {
          advStart := previousSettleEnd;
        }
      }
      var advEnd := advStart + d.adv;
      if idx == 0 {
        connectStart := advEnd;
      } else {
        var previous := c.actions[c.ids[idx - 1]];
        connectStart := if ConnectAdmitted(previous, action, c.policy) then Max(advEnd, previousXferStart) else Max(advEnd, previousSettleEnd);
      }
      var connectEnd := connectStart + d.connect;
      var xferStart := Max(connectEnd, previousXferEnd);
      var xferEnd := xferStart + d.xfer;
      var settleEnd := xferEnd + d.settle;
      events := events + [Event(id, PrepareAdv, advStart, advEnd), Event(id, PrepareConnect, connectStart, connectEnd),
                          Event(id, Xfer, xferStart, xferEnd), Event(id, Settling, xferEnd, settleEnd)];
      SlotFrom(c, idx, advStart, connectStart, previousXferEnd);
      assert SlotAt(c, idx) == Slot(advStart, advEnd, connectStart, connectEnd, xferStart, xferEnd, settleEnd);
      previousXferStart, previousXferEnd, previousSettleEnd, previousConnectStart := xferStart, xferEnd, settleEnd, connectStart;
    }
  }

  /** Sum of the durations of the first `n` actions. */
  ghost function SerialEnd(c: Corridor, n: nat): int
    requires KnownIds(c) && n <= |c.ids|
  {
    if n == 0 then 0 else SerialEnd(c, n - 1) + DurationsAt(c, n - 1).Total()
  }

  /** The phases of action `i` one after the other, behind those of all earlier actions. */
  ghost function SerialSlot(c: Corridor, i: nat): Slot
    requires KnownIds(c) && i < |c.ids|
  {
    var d, at := DurationsAt(c, i), SerialEnd(c, i);
    Slot(at, at + d.adv, at + d.adv, at + d.adv + d.connect, at + d.adv + d.connect, at + d.adv + d.connect + d.xfer, at + d.Total())
  }

  ghost function SerialTimeline(c: Corridor, n: nat): seq<Event>
    requires KnownIds(c) && n <= |c.ids|
  {
    if n == 0 then [] else SerialTimeline(c, n - 1) + SlotEvents(c.ids[n - 1], SerialSlot(c, n - 1))
  }

  /** The serial expander: one cursor, four events an action. */
  method ExpandSerial(c: Corridor) returns (events: seq<Event>)
    requires KnownIds(c)
    ensures events == SerialTimeline(c, |c.ids|)
  {
    events := [];
    var cursor := 0;
    for idx := 0 to |c.ids|
      invariant events == SerialTimeline(c, idx) && cursor == SerialEnd(c, idx)
    {
      var id := c.ids[idx];
      var d := c.durations[id];
      var connectStart := cursor + d.adv;
      var xferStart := connectStart + d.connect;
      var settleStart := xferStart + d.xfer;
      events := events + [Event(id, PrepareAdv, cursor, connectStart), Event(id, PrepareConnect, connectStart, xferStart),
                          Event(id, Xfer, xferStart, settleStart), Event(id, Settling, settleStart, settleStart + d.settle)];
      cursor := settleStart + d.settle;
    }
  }
}
