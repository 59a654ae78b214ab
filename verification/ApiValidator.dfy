/** Independent re-check of a refined API timeline (optimizer/api_micro_refinement.py `validate_refined_corridor`,
    `_completion_order`). */
module ApiValidator {
  import opened Numbers
  import opened ApiPhases
  import opened ApiCorridor
  import opened Timelines

  // ----- one step

  predicate NamesAre(events: seq<Event>, kind: Kind) {
    |events| == |PhasesOf(kind)| && forall k :: 0 <= k < |events| ==> events[k].phase == PhasesOf(kind)[k]
  }

  ghost predicate SequenceOk(events: seq<Event>, kind: Kind) {
    NamesAre(events, kind) && Serialized(events)
  }

  function ParseIndex(kind: Kind): nat {
    match kind case Cloud => 7 case LocalHttp => 4 case Mqtt => 1
  }

  /** The phase after which the new value is available. */
  function AvailableIndex(kind: Kind): nat {
    match kind case Cloud => 9 case LocalHttp => 5 case Mqtt => 1
  }

  /** The phases behind these positions. */
  lemma CheckedPhases(kind: Kind)
    ensures var phases := PhasesOf(kind);
            match kind
            case Cloud => phases[ParseIndex(kind)..ParseIndex(kind) + 2] == [ApiParseNormalize, ApiAggregate] && phases[AvailableIndex(kind)] == CloudBatchGroupCommit
            case LocalHttp => phases[ParseIndex(kind)..ParseIndex(kind) + 2] == [LocalParse, LocalCacheUpdate] && phases[AvailableIndex(kind)] == LocalCacheUpdate
            case Mqtt => phases[ParseIndex(kind)] == phases[AvailableIndex(kind)] == MqttCacheParse
    ensures PhasesOf(kind)[|PhasesOf(kind)| - 1] == HaStateWrite
  {
  }

  function Length(e: Event): int {
    e.endMs - e.startMs
  }

  /** Parsing and aggregating stay within what the event loop tolerates; looked at only when the phases are the expected ones. */
  ghost predicate BudgetsOk(events: seq<Event>, kind: Kind, policy: Policy) {
    NamesAre(events, kind) ==>
      Length(events[ParseIndex(kind)]) <= policy.parseMax && (kind != Mqtt ==> Length(events[ParseIndex(kind) + 1]) <= policy.aggregateMax)
  }

  ghost predicate AvailabilityOk(events: seq<Event>, kind: Kind, policy: Policy) {
    NamesAre(events, kind) && policy.availabilityFirst ==> events[AvailableIndex(kind)].endMs <= events[|events| - 1].startMs
  }

  function Own(events: seq<Event>, step: Step): seq<Event> {
    ByStart(Of(events, step.id))
  }

  // ----- completion order

  function EndOf(table: seq<(string, int)>, id: string): int {
    if table == [] then 0 else if table[0].0 == id then table[0].1 else EndOf(table[1..], id)
  }

  /** The latest end of each step, in order of first mention. */
  function Completion(events: seq<Event>): seq<(string, int)> {
    if events == [] then []
    else
      var table, e := Completion(events[..|events| - 1]), events[|events| - 1];
      Record(table, e.owner, Max(EndOf(table, e.owner), e.endMs))
  }

  function IdsOf(steps: seq<Step>): (ids: seq<string>)
    ensures |ids| == |steps| && forall i :: 0 <= i < |steps| ==> ids[i] == steps[i].id
  {
    seq(|steps|, i requires 0 <= i < |steps| => steps[i].id)
  }

  predicate CompletesInOrder(steps: seq<Step>, events: seq<Event>) {
    ByCompletion(Completion(events)) == IdsOf(steps)
  }

  // ----- neighbouring steps

  /** The events a pair check looks at. `first` is the earliest movable phase, `second` and `third` the further ones. */
  datatype PairView = PairView(first: Found, second: Found, third: Found,
    leftRequest: Found, leftResponse: Found, leftBackoff: Found, leftWrite: Found, rightRequest: Found)
  {
    predicate Complete() {
      first.Hit? && leftRequest.Hit? && leftResponse.Hit? && leftWrite.Hit?
    }

    predicate Overlaps()
      requires Complete()
    {
      first.event.startMs < leftWrite.event.endMs
    }
  }

  predicate Admitted(left: Step, right: Step, policy: Policy) {
    if right.kind == LocalHttp then LocalAdmitted(left, right, policy) else CloudAdmitted(left, right, policy)
  }

  function View(events: seq<Event>, left: Step, right: Step): PairView {
    if right.kind == LocalHttp then
      PairView(Last(events, right.id, LocalEndpointResolve), Last(events, right.id, LocalSessionReady), Missing,
               Last(events, left.id, LocalRequestSend), Last(events, left.id, LocalResponseRecv), Missing,
               Last(events, left.id, HaStateWrite), Last(events, right.id, LocalRequestSend))
    else
      PairView(Last(events, right.id, CloudAuthCheck), Last(events, right.id, CloudRateBudgetCheck), Last(events, right.id, ApiPrepare),
               Last(events, left.id, CloudRequestSend), Last(events, left.id, ApiResponseRecv), Last(events, left.id, CloudBackoffWait),
               Last(events, left.id, HaStateWrite), Last(events, right.id, CloudRequestSend))
  }

  predicate SameCheckedKind(left: Step, right: Step) {
    left.kind == right.kind && left.kind != Mqtt
  }

  ghost predicate AdmissionOk(v: PairView, left: Step, right: Step, policy: Policy) {
    v.Complete() && v.Overlaps() ==> Admitted(left, right, policy)
  }

  ghost predicate EndsBy(f: Found, end: int) {
    f.Hit? ==> f.event.endMs <= end
  }

  ghost predicate SentAfterWrite(v: PairView)
    requires v.Complete()
  {
    v.rightRequest.Hit? ==> v.rightRequest.event.startMs >= v.leftWrite.event.endMs
  }

  /** Moved phases lie within the send and receive window, and the request waits for the state write. */
  ghost predicate RequestOk(v: PairView) {
    v.Complete() ==>
      && (v.Overlaps() ==> v.first.event.startMs >= v.leftRequest.event.startMs
                           && EndsBy(v.second, v.leftResponse.event.endMs) && EndsBy(v.third, v.leftResponse.event.endMs))
      && SentAfterWrite(v)
  }

  ghost predicate ParallelOk(v: PairView, policy: Policy) {
    v.Complete() && policy.disallowEntityOverlap ==> SentAfterWrite(v)
  }

  ghost predicate BackoffOk(v: PairView, policy: Policy) {
    v.Complete() && v.Overlaps() && v.leftBackoff.Hit? && Length(v.leftBackoff.event) > 0 && policy.disallowBackoffBypass ==>
      v.first.event.startMs >= v.leftBackoff.event.endMs
  }

  datatype PairFlags = PairFlags(session: bool, coordinator: bool, request: bool, parallel: bool, backoff: bool)

  /** What the pair of neighbours contributes to each flag. */
  ghost function PairFlagsOf(v: PairView, left: Step, right: Step, policy: Policy): PairFlags {
    if !SameCheckedKind(left, right) then PairFlags(true, true, true, true, true)
    else
      var admission := AdmissionOk(v, left, right, policy);
      PairFlags(right.kind == LocalHttp ==> admission, right.kind == Cloud ==> admission, RequestOk(v), ParallelOk(v, policy), BackoffOk(v, policy))
  }

  method CheckPair(v: PairView, left: Step, right: Step, policy: Policy) returns (flags: PairFlags)
    requires v.leftBackoff.Hit? ==> right.kind != LocalHttp
    ensures flags == PairFlagsOf(v, left, right, policy)
  {
    var session, coordinator, request, parallel, backoff := true, true, true, true, true;
    if SameCheckedKind(left, right) && v.Complete() {
      if v.first.event.startMs < v.leftWrite.event.endMs {
        if !Admitted(left, right, policy) {
          if right.kind == LocalHttp { session := false; } else { coordinator := false; }
        }
        if v.first.event.startMs < v.leftRequest.event.startMs { request := false; }
        if v.second.Hit? && v.second.event.endMs > v.leftResponse.event.endMs { request := false; }
        if v.third.Hit? && v.third.event.endMs > v.leftResponse.event.endMs { request := false; }
        if v.leftBackoff.Hit? && v.leftBackoff.event.endMs > v.leftBackoff.event.startMs && policy.disallowBackoffBypass
           && v.first.event.startMs < v.leftBackoff.event.endMs {
          backoff := false;
        }
      }
      if v.rightRequest.Hit? && v.rightRequest.event.startMs < v.leftWrite.event.endMs { request := false; }
      if policy.disallowEntityOverlap && v.rightRequest.Hit? && v.rightRequest.event.startMs < v.leftWrite.event.endMs { parallel := false; }
    }
    flags := PairFlags(session, coordinator, request, parallel, backoff);
  }

  ghost function FlagsAt(steps: seq<Step>, events: seq<Event>, policy: Policy, i: nat): PairFlags
    requires i + 1 < |steps|
  {
    PairFlagsOf(View(events, steps[i], steps[i + 1]), steps[i], steps[i + 1], policy)
  }

  // ----- the result

  datatype Validation = Validation(
    completionOk: bool, phaseOrderOk: bool, requestOk: bool, lookaheadOk: bool, coordinatorOk: bool, parallelOk: bool,
    sessionOk: bool, backoffOk: bool, writebackOk: bool, eventLoopOk: bool, cadenceOk: bool, availabilityOk: bool)
  {
    predicate Passed() {
      && completionOk && phaseOrderOk && requestOk && lookaheadOk && coordinatorOk && parallelOk
      && sessionOk && backoffOk && writebackOk && eventLoopOk && cadenceOk && availabilityOk
    }
  }

  function And(f: PairFlags, g: PairFlags): PairFlags {
    PairFlags(f.session && g.session, f.coordinator && g.coordinator, f.request && g.request, f.parallel && g.parallel, f.backoff && g.backoff)
  }

  const ALL_TRUE := PairFlags(true, true, true, true, true)

  ghost function Conjoin(flags: seq<PairFlags>): PairFlags {
    if flags == [] then ALL_TRUE else And(Conjoin(flags[..|flags| - 1]), flags[|flags| - 1])
  }

  lemma {:induction false} AllPairsHold(flags: seq<PairFlags>)
    ensures Conjoin(flags) == ALL_TRUE <==> forall i :: 0 <= i < |flags| ==> flags[i] == ALL_TRUE
  {
    if flags != [] { AllPairsHold(flags[..|flags| - 1]); }
  }

  ghost function PairTable(steps: seq<Step>, events: seq<Event>, policy: Policy): (table: seq<PairFlags>)
    ensures |table| == PairCount(steps) && forall i :: 0 <= i < |table| ==> table[i] == FlagsAt(steps, events, policy, i)
  {
    seq(PairCount(steps), i requires 0 <= i < PairCount(steps) => FlagsAt(steps, events, policy, i))
  }

  /** What one step contributes. */
  datatype StepFlags = StepFlags(order: bool, budgets: bool, availability: bool)

  ghost function StepFlagsOf(own: seq<Event>, kind: Kind, policy: Policy): StepFlags {
    StepFlags(SequenceOk(own, kind), BudgetsOk(own, kind, policy), AvailabilityOk(own, kind, policy))
  }

  const STEP_TRUE := StepFlags(true, true, true)

  ghost function ConjoinSteps(flags: seq<StepFlags>): StepFlags {
    if flags == [] then STEP_TRUE
    else
      var f, g := ConjoinSteps(flags[..|flags| - 1]), flags[|flags| - 1];
      StepFlags(f.order && g.order, f.budgets && g.budgets, f.availability && g.availability)
  }

  lemma {:induction false} AllStepsHold(flags: seq<StepFlags>)
    ensures ConjoinSteps(flags) == STEP_TRUE <==> forall i :: 0 <= i < |flags| ==> flags[i] == STEP_TRUE
  {
    if flags != [] { AllStepsHold(flags[..|flags| - 1]); }
  }

  ghost function StepTable(steps: seq<Step>, events: seq<Event>, policy: Policy): (table: seq<StepFlags>)
    ensures |table| == |steps| && forall i :: 0 <= i < |table| ==> table[i] == StepFlagsOf(Own(events, steps[i]), steps[i].kind, policy)
  {
    seq(|steps|, i requires 0 <= i < |steps| => StepFlagsOf(Own(events, steps[i]), steps[i].kind, policy))
  }

  function PairCount(steps: seq<Step>): nat {
    if steps == [] then 0 else |steps| - 1
  }

  /** What each flag of a validation result means. */
  ghost predicate Reports(steps: seq<Step>, events: seq<Event>, policy: Policy, v: Validation) {
    && StepFlags(v.phaseOrderOk, v.eventLoopOk, v.availabilityOk) == ConjoinSteps(StepTable(steps, events, policy))
    && v.completionOk == CompletesInOrder(steps, events)
    && v.lookaheadOk == LookaheadOk(events, policy.maxLookahead + 1)
    && PairFlags(v.sessionOk, v.coordinatorOk, v.requestOk, v.parallelOk, v.backoffOk) == Conjoin(PairTable(steps, events, policy))
    && v.writebackOk && v.cadenceOk
  }

  method CheckStep(own: seq<Event>, kind: Kind, policy: Policy) returns (flags: StepFlags)
    ensures flags == StepFlagsOf(own, kind, policy)
  {
    var orderOk, budgetsOk, availabilityOk := true, true, true;
    if !NamesAre(own, kind) {
      orderOk := false;
    } else {
      var inverted := FindInversion(own);
      if inverted { orderOk := false; }
      if Length(own[ParseIndex(kind)]) > policy.parseMax { budgetsOk := false; }
      if kind != Mqtt && Length(own[ParseIndex(kind) + 1]) > policy.aggregateMax { budgetsOk := false; }
      if policy.availabilityFirst && own[AvailableIndex(kind)].endMs > own[|own| - 1].startMs { availabilityOk := false; }
    }
    flags := StepFlags(orderOk, budgetsOk, availabilityOk);
  }

  method CheckSteps(steps: seq<Step>, events: seq<Event>, policy: Policy) returns (flags: StepFlags)
    ensures flags == ConjoinSteps(StepTable(steps, events, policy))
  {
    ghost var table := StepTable(steps, events, policy);
    flags := STEP_TRUE;
    for i := 0 to |steps|
      invariant flags == ConjoinSteps(table[..i])
    {
      var f := CheckStep(Own(events, steps[i]), steps[i].kind, policy);
      assert table[..i + 1][..i] == table[..i];
      flags := StepFlags(flags.order && f.order, flags.budgets && f.budgets, flags.availability && f.availability);
    }
    assert table[..|steps|] == table;
  }

  method CheckPairs(steps: seq<Step>, events: seq<Event>, policy: Policy) returns (flags: PairFlags)
    ensures flags == Conjoin(PairTable(steps, events, policy))
  {
    ghost var table := PairTable(steps, events, policy);
    flags := ALL_TRUE;
    for i := 0 to PairCount(steps)
      invariant flags == Conjoin(table[..i])
    {
      var f := CheckPair(View(events, steps[i], steps[i + 1]), steps[i], steps[i + 1], policy);
      assert table[..i + 1][..i] == table[..i];
      flags := And(flags, f);
    }
    assert table[..PairCount(steps)] == table;
  }

  method Validate(steps: seq<Step>, events: seq<Event>, policy: Policy) returns (v: Validation)
    ensures Reports(steps, events, policy, v)
  {
    var s := CheckSteps(steps, events, policy);
    var completionOk := CompletesInOrder(steps, events);
    var lookaheadOk := CheckLookahead(events, policy.maxLookahead + 1);
    var f := CheckPairs(steps, events, policy);
    v := Validation(completionOk, s.order, f.request, lookaheadOk, f.coordinator, f.parallel, f.session, f.backoff, true, s.budgets, true, s.availability);
  }
}
