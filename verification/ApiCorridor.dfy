/** Pre-request overlap in a corridor of API batch steps (optimizer/api_micro_refinement.py
    `_serial_events_for_steps`, `_expand_refined_steps` and the admission predicates). */
module ApiCorridor {
  import opened Numbers
  import opened ApiPhases
  import opened Sequences
  import opened Timelines

  datatype ApiProtocol = CloudProtocol | LocalProtocol

  /** A batch as the refiner sees it; a key is empty when the batch's actions do not share one. */
  datatype Step = Step(id: string, protocol: ApiProtocol, kind: Kind, latency: int,
    hostKey: string, bucketKey: string, sessionKey: string, endpointKey: string, backoff: bool)

  datatype Policy = Policy(
    allowLocalOverlap: bool, allowCloudOverlap: bool, allowAuthBudgetOverlap: bool, maxLookahead: int, backoffWait: int,
    requireSharedSession: bool, requireSessionKey: bool, requireHostKey: bool, requireEndpointKey: bool, requireBucketKey: bool,
    disallowBackoffBypass: bool, disallowEntityOverlap: bool, availabilityFirst: bool, parseMax: int, aggregateMax: int)

  predicate LocalAdmitted(left: Step, right: Step, policy: Policy) {
    && policy.allowLocalOverlap
    && left.protocol == right.protocol == LocalProtocol
    && left.kind == right.kind == LocalHttp
    && !(policy.requireSharedSession && policy.requireSessionKey && (left.sessionKey == "" || right.sessionKey == ""))
    && !(policy.requireEndpointKey && (left.endpointKey == "" || right.endpointKey == ""))
  }

  predicate CloudAdmitted(left: Step, right: Step, policy: Policy) {
    && policy.allowCloudOverlap
    && left.protocol == right.protocol == CloudProtocol
    && left.kind == right.kind == Cloud
    && !(policy.requireHostKey && (left.hostKey == "" || right.hostKey == ""))
    && !(policy.requireBucketKey && (left.bucketKey == "" || right.bucketKey == ""))
    && !(left.backoff && policy.disallowBackoffBypass && left.hostKey != "" && left.hostKey == right.hostKey)
  }

  /** What can be said against moving the preparations of a step. */
  datatype Objection = OverlapDisabled | ProtocolMismatch | KindUnsupported | KeyUnresolved | SecondKeyUnresolved | BackoffBarrier

  ghost predicate AgainstLocal(o: Objection, left: Step, right: Step, policy: Policy) {
    match o
    case OverlapDisabled => !policy.allowLocalOverlap
    case ProtocolMismatch => left.protocol != LocalProtocol || right.protocol != LocalProtocol
    case KindUnsupported => left.kind != LocalHttp || right.kind != LocalHttp
    case KeyUnresolved => policy.requireSharedSession && policy.requireSessionKey && (left.sessionKey == "" || right.sessionKey == "")
    case SecondKeyUnresolved => policy.requireEndpointKey && (left.endpointKey == "" || right.endpointKey == "")
    case BackoffBarrier => false
  }

  ghost predicate AgainstCloud(o: Objection, left: Step, right: Step, policy: Policy) {
    match o
    case OverlapDisabled => !policy.allowCloudOverlap
    case ProtocolMismatch => left.protocol != CloudProtocol || right.protocol != CloudProtocol
    case KindUnsupported => left.kind != Cloud || right.kind != Cloud
    case KeyUnresolved => policy.requireHostKey && (left.hostKey == "" || right.hostKey == "")
    case SecondKeyUnresolved => policy.requireBucketKey && (left.bucketKey == "" || right.bucketKey == "")
    case BackoffBarrier => left.backoff && policy.disallowBackoffBypass && left.hostKey != "" && left.hostKey == right.hostKey
  }

  /** Overlaps are admitted exactly when nothing is said against them. */
  lemma AdmittedExactly(left: Step, right: Step, policy: Policy)
    ensures LocalAdmitted(left, right, policy) <==> forall o :: !AgainstLocal(o, left, right, policy)
    ensures CloudAdmitted(left, right, policy) <==> forall o :: !AgainstCloud(o, left, right, policy)
  {
    assert LocalAdmitted(left, right, policy) <==>
      && !AgainstLocal(OverlapDisabled, left, right, policy) && !AgainstLocal(ProtocolMismatch, left, right, policy) && !AgainstLocal(KindUnsupported, left, right, policy)
      && !AgainstLocal(KeyUnresolved, left, right, policy) && !AgainstLocal(SecondKeyUnresolved, left, right, policy);
    assert CloudAdmitted(left, right, policy) <==>
      && !AgainstCloud(OverlapDisabled, left, right, policy) && !AgainstCloud(ProtocolMismatch, left, right, policy) && !AgainstCloud(KindUnsupported, left, right, policy)
      && !AgainstCloud(KeyUnresolved, left, right, policy) && !AgainstCloud(SecondKeyUnresolved, left, right, policy) && !AgainstCloud(BackoffBarrier, left, right, policy);
  }

  /** A corridor of steps with the durations of their phases, in phase order. */
  datatype Corridor = Corridor(steps: seq<Step>, durations: seq<seq<int>>, policy: Policy)

  /** Selected corridors hold steps of one protocol and one kind. */
  ghost predicate Shaped(c: Corridor) {
    && |c.durations| == |c.steps|
    && (forall i :: 0 <= i < |c.steps| ==> |c.durations[i]| == |PhasesOf(c.steps[i].kind)|)
    && (forall i :: 0 <= i < |c.steps| ==> c.steps[i].kind == c.steps[0].kind && c.steps[i].protocol == c.steps[0].protocol)
  }

  function WaitOf(step: Step, policy: Policy): int {
    if step.backoff then policy.backoffWait else 0
  }

  ghost predicate Timed(c: Corridor) {
    |c.durations| == |c.steps| && forall i {:trigger StepDurations(c.steps[i].kind, c.steps[i].latency, WaitOf(c.steps[i], c.policy))} ::
      0 <= i < |c.steps| ==> c.durations[i] == StepDurations(c.steps[i].kind, c.steps[i].latency, WaitOf(c.steps[i], c.policy))
  }

  // ----- where the phases of a step lie

  /** The phases from `lo` up to `hi` are moved into the previous step. */
  datatype Span = Span(lo: nat, hi: nat)

  const NO_SPAN := Span(0, 0)

  function OverlapSpan(left: Step, right: Step, policy: Policy): Span {
    match right.kind
    case LocalHttp => if LocalAdmitted(left, right, policy) then Span(0, 2) else NO_SPAN
    case Cloud => if !CloudAdmitted(left, right, policy) then NO_SPAN else if policy.allowAuthBudgetOverlap then Span(0, 3) else Span(2, 3)
    case Mqtt => NO_SPAN
  }

  function RequestIndex(kind: Kind): nat {
    match kind case Cloud => 4 case LocalHttp => 2 case Mqtt => 0
  }

  /** When the previous step sends its request, has its response and has written its state. */
  datatype Anchor = Anchor(requestStart: int, responseEnd: int, writeEnd: int)

  ghost function Moved(d: seq<int>, span: Span): int
    requires span.lo <= span.hi <= |d|
  {
    Total(d, span.hi) - Total(d, span.lo)
  }

  ghost function OverlapStart(d: seq<int>, span: Span, a: Anchor): int
    requires span.lo <= span.hi <= |d|
  {
    Max(a.requestStart, a.responseEnd - Moved(d, span))
  }

  /** Moved phases follow one another from the overlap start, the others from the previous state write. */
  ghost function PhaseStart(d: seq<int>, span: Span, a: Anchor, k: nat): int
    requires span.lo <= span.hi <= |d| && k < |d|
  {
    if k < span.lo then a.writeEnd + Total(d, k)
    else if k < span.hi then OverlapStart(d, span, a) + Total(d, k) - Total(d, span.lo)
    else a.writeEnd + Total(d, k) - Moved(d, span)
  }

  ghost function KindOf(c: Corridor): Kind
    requires c.steps != []
  {
    c.steps[0].kind
  }

  function SpanAt(c: Corridor, i: nat): (span: Span)
    requires Shaped(c) && i < |c.steps|
    ensures span.lo <= span.hi <= RequestIndex(KindOf(c)) && span.hi < |c.durations[i]|
  {
    if i == 0 then NO_SPAN else OverlapSpan(c.steps[i - 1], c.steps[i], c.policy)
  }

  ghost function AnchorAt(c: Corridor, i: nat): Anchor
    requires Shaped(c) && i <= |c.steps|
    decreases i, 0
  {
    if i == 0 then Anchor(0, 0, 0)
    else
      var d, r := c.durations[i - 1], RequestIndex(KindOf(c));
      Anchor(StartAt(c, i - 1, r), StartAt(c, i - 1, r + 1) + d[r + 1], StartAt(c, i - 1, |d| - 1) + d[|d| - 1])
  }

  ghost function StartAt(c: Corridor, i: nat, k: nat): int
    requires Shaped(c) && i < |c.steps| && k < |c.durations[i]|
    decreases i, 1
  {
    PhaseStart(c.durations[i], SpanAt(c, i), AnchorAt(c, i), k)
  }

  ghost function EventAt(c: Corridor, i: nat, k: nat): Event
    requires Shaped(c) && i < |c.steps| && k < |c.durations[i]|
  {
    Event(c.steps[i].id, PhasesOf(c.steps[i].kind)[k], StartAt(c, i, k), StartAt(c, i, k) + c.durations[i][k])
  }

  ghost function StepEvents(c: Corridor, i: nat): (events: seq<Event>)
    requires Shaped(c) && i < |c.steps|
    ensures |events| == |c.durations[i]| && forall k :: 0 <= k < |events| ==> events[k] == EventAt(c, i, k)
  {
    seq(|c.durations[i]|, k requires 0 <= k < |c.durations[i]| => EventAt(c, i, k))
  }

  /** Events of the first `n` steps. */
  ghost function Timeline(c: Corridor, n: nat): seq<Event>
    requires Shaped(c) && n <= |c.steps|
  {
    if n == 0 then [] else Timeline(c, n - 1) + StepEvents(c, n - 1)
  }

  // ----- the expander

  /** The events placed so far, by phase. */
  type Placed = map<Phase, Event>

  ghost predicate HoldsStep(m: Placed, c: Corridor, i: nat)
    requires Shaped(c) && i < |c.steps|
  {
    forall k :: 0 <= k < |c.durations[i]| ==> PhasesOf(c.steps[i].kind)[k] in m && m[PhasesOf(c.steps[i].kind)[k]] == EventAt(c, i, k)
  }

  lemma PhasesDistinct(kind: Kind)
    ensures Distinct(PhasesOf(kind))
  {
  }

  method PlaceMoved(c: Corridor, i: nat, overlapStart: int) returns (m: Placed)
    requires Shaped(c) && i < |c.steps| && overlapStart == OverlapStart(c.durations[i], SpanAt(c, i), AnchorAt(c, i))
    ensures var phases, span := PhasesOf(c.steps[i].kind), SpanAt(c, i);
            forall k :: 0 <= k < |phases| ==> (phases[k] in m <==> span.lo <= k < span.hi)
    ensures var phases, span := PhasesOf(c.steps[i].kind), SpanAt(c, i);
            forall k :: span.lo <= k < span.hi ==> phases[k] in m && m[phases[k]] == EventAt(c, i, k)
  {
    var phases, span, d := PhasesOf(c.steps[i].kind), SpanAt(c, i), c.durations[i];
    PhasesDistinct(c.steps[i].kind);
    m := map[];
    var cursor := overlapStart;
    for k := span.lo to span.hi
      invariant cursor == overlapStart + Total(d, k) - Total(d, span.lo)
      invariant forall j :: 0 <= j < |phases| ==> (phases[j] in m <==> span.lo <= j < k)
      invariant forall j :: span.lo <= j < k ==> m[phases[j]] == EventAt(c, i, j)
    {
      m := m[phases[k] := Event(c.steps[i].id, phases[k], cursor, cursor + d[k])];
      cursor := cursor + d[k];
    }
  }

  method PlaceRest(c: Corridor, i: nat, moved: Placed, writeEnd: int) returns (m: Placed)
    requires Shaped(c) && i < |c.steps| && writeEnd == AnchorAt(c, i).writeEnd
    requires var phases, span := PhasesOf(c.steps[i].kind), SpanAt(c, i);
             forall k :: 0 <= k < |phases| ==> (phases[k] in moved <==> span.lo <= k < span.hi)
    requires var phases, span := PhasesOf(c.steps[i].kind), SpanAt(c, i);
             forall k :: span.lo <= k < span.hi ==> phases[k] in moved && moved[phases[k]] == EventAt(c, i, k)
    ensures HoldsStep(m, c, i)
  {
    var phases, d := PhasesOf(c.steps[i].kind), c.durations[i];
    ghost var span := SpanAt(c, i);
    PhasesDistinct(c.steps[i].kind);
    m := moved;
    var cursor := writeEnd;
    for k := 0 to |phases|
      invariant cursor == writeEnd + Total(d, k) - (if k <= span.lo then 0 else if k < span.hi then Total(d, k) - Total(d, span.lo) else Moved(d, span))
      invariant forall j :: 0 <= j < |phases| ==> (phases[j] in m <==> j < k || span.lo <= j < span.hi)
      invariant forall j :: 0 <= j < |phases| && (j < k || span.lo <= j < span.hi) ==> m[phases[j]] == EventAt(c, i, j)
    {
      if phases[k] !in m {
        m := m[phases[k] := Event(c.steps[i].id, phases[k], cursor, cursor + d[k])];
        cursor := cursor + d[k];
      }
    }
  }

  /** The placed events in phase order. */
  method InPhaseOrder(c: Corridor, i: nat, m: Placed) returns (events: seq<Event>)
    requires Shaped(c) && i < |c.steps| && HoldsStep(m, c, i)
    ensures events == StepEvents(c, i)
  {
    var phases := PhasesOf(c.steps[i].kind);
    events := [];
    for k := 0 to |phases|
      invariant |events| == k && forall j :: 0 <= j < k ==> events[j] == EventAt(c, i, j)
    {
      events := events + [m[phases[k]]];
    }
  }

  /** When the moved phases of step `i` may start, read off the events of the step before. */
  method MovedStart(c: Corridor, i: nat, previous: Placed) returns (start: int)
    requires Shaped(c) && 0 < i < |c.steps| && HoldsStep(previous, c, i - 1)
    ensures start == OverlapStart(c.durations[i], SpanAt(c, i), AnchorAt(c, i))
  {
    var phases, span, d := PhasesOf(c.steps[i - 1].kind), SpanAt(c, i), c.durations[i];
    var r := RequestIndex(c.steps[i - 1].kind);
    var overlapTotal := 0;
    for k := span.lo to span.hi
      invariant overlapTotal == Total(d, k) - Total(d, span.lo)
    {
      overlapTotal := overlapTotal + d[k];
    }
    var leftRequest, leftResponse := previous[phases[r]], previous[phases[r + 1]];
    start := Max(leftRequest.startMs, leftResponse.endMs - overlapTotal);
  }

  method WriteEnd(c: Corridor, i: nat, previous: Placed) returns (end: int)
    requires Shaped(c) && 0 < i < |c.steps| && HoldsStep(previous, c, i - 1)
    ensures end == AnchorAt(c, i).writeEnd
  {
    ghost var phases := PhasesOf(c.steps[i - 1].kind);
    assert phases[|phases| - 1] == HaStateWrite && previous[phases[|phases| - 1]] == EventAt(c, i - 1, |phases| - 1);
    end := previous[HaStateWrite].endMs;
  }

  method ExpandRefined(c: Corridor) returns (events: seq<Event>)
    requires Shaped(c)
    ensures events == Timeline(c, |c.steps|)
  {
    events := [];
    var previous: Placed := map[];
    for i := 0 to |c.steps|
      invariant events == Timeline(c, i)
      invariant i > 0 ==> HoldsStep(previous, c, i - 1)
    {
      var start, writeEnd := 0, 0;
      if i > 0 {
        start := MovedStart(c, i, previous);
        writeEnd := WriteEnd(c, i, previous);
      }
      var moved := PlaceMoved(c, i, start);
      previous := PlaceRest(c, i, moved, writeEnd);
      var placed := InPhaseOrder(c, i, previous);
      events := events + placed;
    }
  }

  // ----- the serial expander

  ghost function SerialEnd(c: Corridor, n: nat): int
    requires Shaped(c) && n <= |c.steps|
  {
    if n == 0 then 0 else SerialEnd(c, n - 1) + Total(c.durations[n - 1], |c.durations[n - 1]|)
  }

  ghost function SerialStep(c: Corridor, i: nat): (events: seq<Event>)
    requires Shaped(c) && i < |c.steps|
    ensures |events| == |c.durations[i]|
  {
    var d, phases, start := c.durations[i], PhasesOf(c.steps[i].kind), SerialEnd(c, i);
    seq(|d|, k requires 0 <= k < |d| => Event(c.steps[i].id, phases[k], start + Total(d, k), start + Total(d, k) + d[k]))
  }

  ghost function SerialTimeline(c: Corridor, n: nat): seq<Event>
    requires Shaped(c) && n <= |c.steps|
  {
    if n == 0 then [] else SerialTimeline(c, n - 1) + SerialStep(c, n - 1)
  }

  method ExpandSerial(c: Corridor) returns (events: seq<Event>)
    requires Shaped(c)
    ensures events == SerialTimeline(c, |c.steps|)
  {
    events := [];
    var cursor := 0;
    for i := 0 to |c.steps|
      invariant events == SerialTimeline(c, i) && cursor == SerialEnd(c, i)
    {
      var phases, d := PhasesOf(c.steps[i].kind), c.durations[i];
      var placed: seq<Event> := [];
      for k := 0 to |phases|
        invariant cursor == SerialEnd(c, i) + Total(d, k)
        invariant placed == SerialStep(c, i)[..k]
      {
        placed := placed + [Event(c.steps[i].id, phases[k], cursor, cursor + d[k])];
        cursor := cursor + d[k];
      }
      events := events + placed;
    }
  }

  method PhaseTable(steps: seq<Step>, policy: Policy) returns (c: Corridor)
    requires forall i :: 0 <= i < |steps| ==> steps[i].kind == steps[0].kind && steps[i].protocol == steps[0].protocol
    ensures c.steps == steps && c.policy == policy && Shaped(c) && Timed(c)
  {
    var durations: seq<seq<int>> := [];
    for i := 0 to |steps|
      invariant |durations| == i
      invariant forall k {:trigger durations[k]} :: 0 <= k < i ==> durations[k] == StepDurations(steps[k].kind, steps[k].latency, WaitOf(steps[k], policy))
    {
      var d := Allocate(steps[i].latency, SpecsOf(steps[i].kind, WaitOf(steps[i], policy)));
      durations := durations + [d];
    }
    c := Corridor(steps, durations, policy);
  }
}
