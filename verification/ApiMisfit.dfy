/** A corridor at the estimated latencies whose preparation does not fit into the window it is moved to
    (optimizer/api_micro_refinement.py `_expand_refined_steps`, `validate_refined_corridor`). */
module ApiMisfit {
  import opened Numbers
  import opened Sequences
  import opened ApiPhases
  import opened ApiCorridor
  import opened ApiValidator
  import opened ApiTheorems
  import opened ApiRefiner

  lemma WeightTotalNext(specs: seq<Spec>, n: nat, sum: int)
    requires n < |specs| && WeightTotal(specs[..n]) == sum && specs[n].weight >= 0
    ensures WeightTotal(specs[..n + 1]) == sum + specs[n].weight
  {
    assert specs[..n + 1][..n] == specs[..n];
  }

  lemma CloudWeights(wait: int)
    ensures WeightTotal(SpecsOf(Cloud, wait)) == 76
  {
    var s := SpecsOf(Cloud, wait);
    TakeAll(s);
    WeightTotalNext(s, 0, 0); WeightTotalNext(s, 1, 5); WeightTotalNext(s, 2, 9); WeightTotalNext(s, 3, 17);
    WeightTotalNext(s, 4, 21); WeightTotalNext(s, 5, 39); WeightTotalNext(s, 6, 55); WeightTotalNext(s, 7, 55);
    WeightTotalNext(s, 8, 63); WeightTotalNext(s, 9, 69); WeightTotalNext(s, 10, 73);
  }

  /** A cloud phase other than the last gets its minimum and its part of what the minima leave. */
  lemma CloudDuration(latency: int, wait: int, k: nat)
    requires wait >= 0 && latency > 126 + wait && k < 10
    ensures var s := SpecsOf(Cloud, wait)[k];
      StepDurations(Cloud, latency, wait)[k] == s.minimum + Max(0, RoundHalfEven((latency - 126 - wait) * s.weight, 76))
  {
    var specs := SpecsOf(Cloud, wait);
    FloorIsMinTotal(Cloud, wait);
    CloudWeights(wait);
    SharesAt(latency, specs, 10, k);
  }

  /** The default policy. */
  const DEFAULT := Policy(true, true, true, 1, 220, true, true, true, false, false, true, true, true, 220, 180)

  function CloudStep(id: string, latency: int): Step {
    Step(id, CloudProtocol, Cloud, latency, "host", "", "", "", false)
  }

  /** One cloud read, and one batch of three cloud runtime actions. */
  const MISFIT := [CloudStep("a", 350), CloudStep("b", 690)]

  lemma WindowOfFirst()
    ensures StepDurations(Cloud, 350, 0)[4] == 77 && StepDurations(Cloud, 350, 0)[5] == 71
  {
    CloudDuration(350, 0, 4);
    CloudDuration(350, 0, 5);
  }

  lemma PreparationOfSecond()
    ensures var d := StepDurations(Cloud, 690, 0); d[0] == 47 && d[1] == 38 && d[2] == 73
  {
    CloudDuration(690, 0, 0);
    CloudDuration(690, 0, 1);
    CloudDuration(690, 0, 2);
  }

  ghost predicate IsMisfit(c: Corridor) {
    c.steps == MISFIT && c.policy == DEFAULT && Shaped(c) && Timed(c)
  }

  lemma MisfitIsRoomy(c: Corridor)
    requires IsMisfit(c)
    ensures Roomy(c) && Distinct(IdsOf(c.steps)) && CloudAdmitted(c.steps[0], c.steps[1], c.policy)
  {
    assert IdsOf(c.steps)[0] == "a" && IdsOf(c.steps)[1] == "b";
  }

  lemma MisfitDurations(c: Corridor)
    requires IsMisfit(c)
    ensures c.durations[0] == StepDurations(Cloud, 350, 0) && c.durations[1] == StepDurations(Cloud, 690, 0)
  {
    assert StepDurations(c.steps[0].kind, c.steps[0].latency, WaitOf(c.steps[0], c.policy)) == StepDurations(Cloud, 350, 0);
    assert StepDurations(c.steps[1].kind, c.steps[1].latency, WaitOf(c.steps[1], c.policy)) == StepDurations(Cloud, 690, 0);
  }

  lemma FirstThree(d: seq<int>)
    requires |d| >= 3
    ensures Total(d, 0) == 0 && Total(d, 3) == d[0] + d[1] + d[2]
  {
    assert Total(d, 2) == d[0] + d[1] by { assert Total(d, 1) == d[0]; }
  }

  /** The overlap of the second step is admitted and takes 158 ms, the window of the first step is 148 ms. */
  lemma MisfitDoesNotFit(c: Corridor)
    requires IsMisfit(c)
    ensures SpanAt(c, 1) == Span(0, 3) && MovedAt(c, 1) == 158 && c.durations[0][4] + c.durations[0][5] == 148
    ensures !SpanOk(c, 1)
  {
    MisfitDurations(c);
    WindowOfFirst();
    PreparationOfSecond();
    FirstThree(c.durations[1]);
  }

  /** Under the default policy the validator rejects what the expander builds. */
  lemma PreparationTooLong(c: Corridor, v: Validation)
    requires IsMisfit(c) && Reports(c.steps, Timeline(c, |c.steps|), c.policy, v)
    ensures Roomy(c) && Distinct(IdsOf(c.steps)) && MovedAt(c, 1) > c.durations[0][4] + c.durations[0][5]
    ensures !v.Passed()
  {
    MisfitIsRoomy(c);
    MisfitDoesNotFit(c);
    RoomyIsPositive(c);
    ExpansionValidatesExactly(c, v);
  }
}
