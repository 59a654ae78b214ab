/** A corridor that the API validator accepts and the re-check of the combined validator rejects
    (optimizer/api_micro_refinement.py `validate_refined_corridor`, optimizer/combined_micro_refinement.py
    `validate_combined_candidates`). */
module RecheckGap {
  import opened Numbers
  import opened Sequences
  import opened ApiPhases
  import opened ApiCorridor
  import opened ApiValidator
  import opened ApiTheorems
  import opened ApiRefiner
  import opened ApiMisfit
  import opened CombinedSweep
  import opened OwnerRecheck

  /** A pair that shares no session is not overlapped, so the corridor fails the re-check wherever it is put. */
  lemma UnadmittedFails(events: seq<SimEvent>, c: Corridor, shift: int, i: nat)
    requires Sound(c) && Shows(events, c, shift) && 0 < i < |c.steps| && KindOf(c) != Mqtt
    requires !Admitted(c.steps[i - 1], c.steps[i], c.policy)
    ensures !OwnersHold(events, IdsOf(c.steps))
  {
    RecheckExactly(events, c, shift);
    assert !WhollyMoved(c, i);
  }

  /** The step after one that backs off on the same host is never admitted. */
  lemma BackoffFails(events: seq<SimEvent>, c: Corridor, shift: int, i: nat)
    requires Sound(c) && Shows(events, c, shift) && 0 < i < |c.steps| && KindOf(c) == Cloud && c.policy.disallowBackoffBypass
    requires c.steps[i - 1].backoff && c.steps[i - 1].hostKey != "" && c.steps[i - 1].hostKey == c.steps[i].hostKey
    ensures !OwnersHold(events, IdsOf(c.steps))
  {
    UnadmittedFails(events, c, shift, i);
  }

  // ----- three reads of local devices, the last one without a session

  function LocalStep(id: string, session: string): Step {
    Step(id, LocalProtocol, LocalHttp, 100, "", "", session, "", false)
  }

  const THREE_READS := [LocalStep("a", "s"), LocalStep("b", "s"), LocalStep("c", "")]

  lemma LocalWeights()
    ensures WeightTotal(SpecsOf(LocalHttp, 0)) == 56
  {
    var s := SpecsOf(LocalHttp, 0);
    TakeAll(s);
    WeightTotalNext(s, 0, 0); WeightTotalNext(s, 1, 8); WeightTotalNext(s, 2, 14); WeightTotalNext(s, 3, 28);
    WeightTotalNext(s, 4, 40); WeightTotalNext(s, 5, 48); WeightTotalNext(s, 6, 53);
  }

  lemma LocalDuration(k: nat)
    requires k < 6
    ensures var s := SpecsOf(LocalHttp, 0)[k]; StepDurations(LocalHttp, 100, 0)[k] == s.minimum + Max(0, RoundHalfEven(12 * s.weight, 56))
  {
    FloorIsMinTotal(LocalHttp, 0);
    LocalWeights();
    SharesAt(100, SpecsOf(LocalHttp, 0), 6, k);
  }

  lemma LocalDurations()
    ensures var d := StepDurations(LocalHttp, 100, 0); d[0] == 14 && d[1] == 11 && d[2] == 21 && d[3] == 21 && d[4] == 14 && d[5] == 11
  {
    LocalDuration(0); LocalDuration(1); LocalDuration(2); LocalDuration(3); LocalDuration(4); LocalDuration(5);
  }

  ghost predicate IsThreeReads(c: Corridor) {
    c.steps == THREE_READS && c.policy == DEFAULT && Shaped(c) && Timed(c)
  }

  lemma ReadDurations(c: Corridor, i: nat)
    requires IsThreeReads(c) && i < 3
    ensures c.durations[i] == StepDurations(LocalHttp, 100, 0)
  {
    assert StepDurations(c.steps[i].kind, c.steps[i].latency, WaitOf(c.steps[i], c.policy)) == StepDurations(LocalHttp, 100, 0);
  }

  lemma ReadsAreRoomy(c: Corridor)
    requires IsThreeReads(c)
    ensures Roomy(c) && Distinct(IdsOf(c.steps))
  {
    assert IdsOf(c.steps)[0] == "a" && IdsOf(c.steps)[1] == "b" && IdsOf(c.steps)[2] == "c";
  }

  /** The second read is moved, the third is not. */
  lemma ReadSpans(c: Corridor)
    requires IsThreeReads(c)
    ensures SpanAt(c, 0) == NO_SPAN && SpanAt(c, 1) == Span(0, 2) && SpanAt(c, 2) == NO_SPAN
  {
  }

  /** It is moved by 25 ms. */
  lemma ReadsMoved(c: Corridor)
    requires IsThreeReads(c)
    ensures MovedAt(c, 1) == 25 && MovedSum(c, 3) == 25
  {
    ReadSpans(c);
    ReadDurations(c, 1);
    LocalDurations();
    var d := c.durations[1];
    assert Total(d, 2) == Total(d, 1) + d[1] && Total(d, 1) == d[0];
    assert MovedAt(c, 0) == 0 && MovedAt(c, 2) == 0;
    assert MovedSum(c, 1) == 0 && MovedSum(c, 2) == 25;
  }

  /** The window of the first read takes 42 ms. */
  lemma ReadsFit(c: Corridor)
    requires IsThreeReads(c)
    ensures SpansOk(c)
  {
    ReadSpans(c);
    ReadsMoved(c);
    ReadDurations(c, 0);
    LocalDurations();
    assert SpanOk(c, 1) && SpanOk(c, 2);
  }

  lemma ReadBudget(c: Corridor, i: nat)
    requires IsThreeReads(c) && i < 3
    ensures BudgetFits(c, i)
  {
    ReadDurations(c, i);
    LocalDurations();
  }

  lemma ReadsAreAcceptable(c: Corridor)
    requires IsThreeReads(c)
    ensures Acceptable(c)
  {
    ReadsFit(c);
    ReadBudget(c, 0); ReadBudget(c, 1); ReadBudget(c, 2);
  }

  /** Under the default policy the corridor is accepted and saves 25 ms, and no plan that holds it passes the re-check. */
  lemma AcceptedThenRejected(c: Corridor, v: Validation, events: seq<SimEvent>, shift: int)
    requires IsThreeReads(c) && Reports(c.steps, Timeline(c, |c.steps|), c.policy, v) && Shows(events, c, shift)
    ensures v.Passed() && MovedSum(c, |c.steps|) == 25 && !OwnersHold(events, IdsOf(c.steps))
  {
    ReadsAreRoomy(c);
    RoomyIsPositive(c);
    ReadsAreAcceptable(c);
    ReadsMoved(c);
    ExpansionValidatesExactly(c, v);
    UnadmittedFails(events, c, shift, 2);
  }
}
