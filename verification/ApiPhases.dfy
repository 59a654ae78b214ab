/** Phase durations of an API batch step (optimizer/api_micro_refinement.py `_allocate_phase_durations`,
    `_phase_durations`). */
module ApiPhases {
  import opened Numbers
  import opened Sequences
  import opened Timelines

  datatype Spec = Spec(phase: Phase, minimum: int, weight: int)

  function MinTotal(specs: seq<Spec>): int {
    if specs == [] then 0 else MinTotal(specs[..|specs| - 1]) + specs[|specs| - 1].minimum
  }

  /** Sum of the positive weights. */
  function WeightTotal(specs: seq<Spec>): int {
    if specs == [] then 0 else WeightTotal(specs[..|specs| - 1]) + Max(0, specs[|specs| - 1].weight)
  }

  /** What a phase other than the last one gets: its minimum scaled down when the total is tight, otherwise its
      minimum and a weighted part of what remains. */
  function Share(total: int, specs: seq<Spec>, k: nat): int
    requires k < |specs| && total > 0
  {
    var minTotal, weightTotal := MinTotal(specs), WeightTotal(specs);
    if minTotal >= total then Max(0, RoundHalfEven(specs[k].minimum * total, minTotal))
    else specs[k].minimum + (if weightTotal <= 0 then 0 else Max(0, RoundHalfEven((total - minTotal) * specs[k].weight, weightTotal)))
  }

  ghost function Shares(total: int, specs: seq<Spec>, n: nat): (shares: seq<int>)
    requires n <= |specs| && total > 0
    ensures |shares| == n
  {
    if n == 0 then [] else Shares(total, specs, n - 1) + [Share(total, specs, n - 1)]
  }

  /** The last phase gets whatever the others left. */
  ghost function Allocation(total: int, specs: seq<Spec>): (durations: seq<int>)
    requires specs != []
    ensures |durations| == |specs|
  {
    if total <= 0 then seq(|specs|, k => 0)
    else
      var front := Shares(total, specs, |specs| - 1);
      front + [total - Total(front, |front|)]
  }

  method SumOf(s: seq<int>) returns (sum: int)
    ensures sum == Total(s, |s|)
  {
    sum := 0;
    for i := 0 to |s|
      invariant sum == Total(s, i)
    {
      sum := sum + s[i];
    }
  }

  lemma TotalAppend(s: seq<int>, x: int)
    ensures Total(s + [x], |s|) == Total(s, |s|) && Total(s + [x], |s| + 1) == Total(s, |s|) + x
  {
    TotalTake(s + [x], |s|, |s|);
    assert (s + [x])[..|s|] == s;
  }

  /** Moves the drift between what was handed out and the total onto the last phase. */
  method CloseDrift(total: int, durations: seq<int>) returns (closed: seq<int>)
    requires durations != []
    ensures closed == durations[..|durations| - 1] + [total - Total(durations, |durations| - 1)]
  {
    var sum := SumOf(durations);
    closed := durations;
    var drift := total - sum;
    if drift != 0 {
      closed := closed[|closed| - 1 := closed[|closed| - 1] + drift];
    }
  }

  method ScaledDown(total: int, specs: seq<Spec>, minTotal: int) returns (durations: seq<int>)
    requires specs != [] && total > 0 && minTotal == MinTotal(specs) >= total
    ensures |durations| == |specs| && durations[..|specs| - 1] == Shares(total, specs, |specs| - 1)
  {
    durations := [];
    var scaledTotal := 0;
    for index := 0 to |specs|
      invariant |durations| == index
      invariant index < |specs| ==> durations == Shares(total, specs, index)
      invariant index == |specs| ==> durations[..index - 1] == Shares(total, specs, index - 1)
    {
      var duration;
      if index == |specs| - 1 {
        duration := Max(0, total - scaledTotal);
      } else {
        duration := Max(0, RoundHalfEven(specs[index].minimum * total, minTotal));
        scaledTotal := scaledTotal + duration;
      }
      assert (durations + [duration])[..index] == durations;
      durations := durations + [duration];
    }
  }

  method SpreadOut(total: int, specs: seq<Spec>, minTotal: int) returns (durations: seq<int>)
    requires specs != [] && total > 0 && minTotal == MinTotal(specs) < total
    ensures |durations| == |specs| && durations[..|specs| - 1] == Shares(total, specs, |specs| - 1)
  {
    durations := [];
    var remaining, weightTotal, handedOut := total - minTotal, WeightTotal(specs), 0;
    for index := 0 to |specs|
      invariant |durations| == index
      invariant index < |specs| ==> durations == Shares(total, specs, index)
      invariant index == |specs| ==> durations[..index - 1] == Shares(total, specs, index - 1)
    {
      var extra;
      if index == |specs| - 1 {
        extra := remaining - handedOut;
      } else {
        extra := if weightTotal <= 0 then 0 else RoundHalfEven(remaining * specs[index].weight, weightTotal);
        handedOut := handedOut + extra;
      }
      assert (durations + [specs[index].minimum + Max(0, extra)])[..index] == durations;
      durations := durations + [specs[index].minimum + Max(0, extra)];
    }
  }

  /** The allocation with its running totals and the final correction. */
  method Allocate(total: int, specs: seq<Spec>) returns (durations: seq<int>)
    requires specs != []
    ensures durations == Allocation(total, specs)
  {
    if total <= 0 { return seq(|specs|, k => 0); }
    var minTotal := MinTotal(specs);
    var open;
    if minTotal >= total {
      open := ScaledDown(total, specs, minTotal);
    } else {
      open := SpreadOut(total, specs, minTotal);
    }
    TotalTake(open, |open| - 1, |open| - 1);
    durations := CloseDrift(total, open);
  }

  /** A positive total is handed out exactly. */
  lemma AllocationAddsUp(total: int, specs: seq<Spec>)
    requires specs != [] && total > 0
    ensures Total(Allocation(total, specs), |specs|) == total
  {
    var front := Shares(total, specs, |specs| - 1);
    TotalAppend(front, total - Total(front, |front|));
  }

  ghost predicate NonNegativeWeights(specs: seq<Spec>) {
    forall k :: 0 <= k < |specs| ==> specs[k].weight >= 0
  }

  ghost predicate NonNegativeMinima(specs: seq<Spec>) {
    forall k :: 0 <= k < |specs| ==> specs[k].minimum >= 0
  }

  lemma {:induction false} WeightsGrow(specs: seq<Spec>, n: nat)
    requires n <= |specs|
    ensures 0 <= WeightTotal(specs[..n]) <= WeightTotal(specs)
    decreases |specs|
  {
    if n == |specs| {
      TakeAll(specs);
      if n > 0 { WeightsGrow(specs[..n - 1], n - 1); }
    } else {
      WeightsGrow(specs[..|specs| - 1], n);
      assert specs[..|specs| - 1][..n] == specs[..n];
    }
  }

  lemma {:induction false} MinimaGrow(specs: seq<Spec>, n: nat)
    requires n <= |specs| && NonNegativeMinima(specs)
    ensures 0 <= MinTotal(specs[..n]) <= MinTotal(specs)
    decreases |specs|
  {
    if n == |specs| {
      TakeAll(specs);
      if n > 0 { MinimaGrow(specs[..n - 1], n - 1); }
    } else {
      MinimaGrow(specs[..|specs| - 1], n);
      assert specs[..|specs| - 1][..n] == specs[..n];
    }
  }

  lemma MulAtLeast(whole: int, x: int)
    requires whole > 0
    ensures x > 0 ==> whole * x >= whole
    ensures x < 0 ==> whole * x <= -whole
  {
  }

  lemma RoundedPart(amount: int, part: int, whole: int)
    requires amount >= 0 && part >= 0 && whole > 0
    ensures RoundHalfEven(amount * part, whole) >= 0
    ensures 2 * (whole * RoundHalfEven(amount * part, whole)) <= 2 * (amount * part) + whole
  {
    var n := amount * part;
    assert n >= 0;
    var r := RoundHalfEven(n, whole);
    MulAtLeast(whole, r);
  }

  /** One more share, as a contribution to the running bound. */
  lemma BoundStep(whole: int, amount: int, sum: int, parts: int, n: int, share: int, part: int)
    requires 2 * (whole * sum) <= 2 * (amount * parts) + n * whole
    requires 2 * (whole * share) <= 2 * (amount * part) + whole
    ensures 2 * (whole * (sum + share)) <= 2 * (amount * (parts + part)) + (n + 1) * whole
  {
    assert whole * (sum + share) == whole * sum + whole * share;
    assert amount * (parts + part) == amount * parts + amount * part;
    assert (n + 1) * whole == n * whole + whole;
  }

  lemma BoundEnd(whole: int, amount: int, sum: int, parts: int, n: int)
    requires whole > 0 && amount >= 0 && 0 <= parts <= whole && 2 * (whole * sum) <= 2 * (amount * parts) + n * whole
    ensures 2 * sum <= 2 * amount + n
  {
    assert amount * parts <= amount * whole;
    assert whole * (2 * sum) <= whole * (2 * amount + n);
    MulAtLeast(whole, 2 * sum - (2 * amount + n));
  }

  lemma {:induction false} SpreadSum(total: int, specs: seq<Spec>, n: nat)
    requires NonNegativeWeights(specs) && 0 < total && MinTotal(specs) < total && WeightTotal(specs) > 0 && n <= |specs|
    ensures var whole, amount := WeightTotal(specs), total - MinTotal(specs);
            2 * (whole * (Total(Shares(total, specs, n), n) - MinTotal(specs[..n]))) <= 2 * (amount * WeightTotal(specs[..n])) + n * whole
  {
    if n > 0 {
      var whole, amount, k := WeightTotal(specs), total - MinTotal(specs), n - 1;
      SpreadSum(total, specs, k);
      var front := Shares(total, specs, k);
      TotalAppend(front, Share(total, specs, k));
      assert specs[..n][..k] == specs[..k];
      var extra := RoundHalfEven(amount * specs[k].weight, whole);
      RoundedPart(amount, specs[k].weight, whole);
      assert Share(total, specs, k) == specs[k].minimum + extra;
      BoundStep(whole, amount, Total(front, k) - MinTotal(specs[..k]), WeightTotal(specs[..k]), k, extra, specs[k].weight);
    }
  }

  lemma {:induction false} FlatSum(total: int, specs: seq<Spec>, n: nat)
    requires 0 < total && MinTotal(specs) < total && WeightTotal(specs) <= 0 && n <= |specs|
    ensures Total(Shares(total, specs, n), n) == MinTotal(specs[..n])
  {
    if n > 0 {
      FlatSum(total, specs, n - 1);
      TotalAppend(Shares(total, specs, n - 1), Share(total, specs, n - 1));
      assert specs[..n][..n - 1] == specs[..n - 1];
    }
  }

  lemma {:induction false} SharesAt(total: int, specs: seq<Spec>, n: nat, k: nat)
    requires total > 0 && k < n <= |specs|
    ensures Shares(total, specs, n)[k] == Share(total, specs, k)
  {
    if k < n - 1 { SharesAt(total, specs, n - 1, k); }
  }

  lemma FrontSum(total: int, specs: seq<Spec>)
    requires specs != [] && NonNegativeWeights(specs) && total > MinTotal(specs) && total > 0
    ensures var n := |specs| - 1; 2 * Total(Shares(total, specs, n), n) <= 2 * (total - specs[n].minimum) + n
  {
    var n := |specs| - 1;
    if WeightTotal(specs) <= 0 {
      FlatSum(total, specs, n);
    } else {
      SpreadSum(total, specs, n);
      WeightsGrow(specs, n);
      BoundEnd(WeightTotal(specs), total - MinTotal(specs), Total(Shares(total, specs, n), n) - MinTotal(specs[..n]), WeightTotal(specs[..n]), n);
    }
  }

  lemma ShareKeepsMinimum(total: int, specs: seq<Spec>, k: nat)
    requires k < |specs| && total > MinTotal(specs) && total > 0
    ensures Share(total, specs, k) >= specs[k].minimum
  {
  }

  /** Above the minima, every phase but the last keeps its minimum and the last loses at most half a millisecond for each other phase. */
  lemma MinimaKept(total: int, specs: seq<Spec>)
    requires specs != [] && NonNegativeWeights(specs) && total > MinTotal(specs) && total > 0
    ensures forall k :: 0 <= k < |specs| - 1 ==> Allocation(total, specs)[k] >= specs[k].minimum
    ensures 2 * (Allocation(total, specs)[|specs| - 1] - specs[|specs| - 1].minimum) >= -(|specs| - 1)
  {
    var n := |specs| - 1;
    forall k | 0 <= k < n ensures Allocation(total, specs)[k] >= specs[k].minimum {
      SharesAt(total, specs, n, k);
      ShareKeepsMinimum(total, specs, k);
    }
    FrontSum(total, specs);
  }

  lemma ScaledShare(total: int, specs: seq<Spec>, k: nat)
    requires 0 < total <= MinTotal(specs) && k < |specs| && specs[k].minimum >= 0
    ensures 2 * (MinTotal(specs) * Share(total, specs, k)) <= 2 * (total * specs[k].minimum) + MinTotal(specs)
  {
    RoundedPart(total, specs[k].minimum, MinTotal(specs));
    assert specs[k].minimum * total == total * specs[k].minimum;
  }

  lemma {:induction false} ScaledSum(total: int, specs: seq<Spec>, n: nat)
    requires NonNegativeMinima(specs) && 0 < total <= MinTotal(specs) && n <= |specs|
    ensures 2 * (MinTotal(specs) * Total(Shares(total, specs, n), n)) <= 2 * (total * MinTotal(specs[..n])) + n * MinTotal(specs)
  {
    if n > 0 {
      var whole, k := MinTotal(specs), n - 1;
      ScaledSum(total, specs, k);
      var front := Shares(total, specs, k);
      TotalAppend(front, Share(total, specs, k));
      assert specs[..n][..k] == specs[..k];
      ScaledShare(total, specs, k);
      BoundStep(whole, total, Total(front, k), MinTotal(specs[..k]), k, Share(total, specs, k), specs[k].minimum);
    }
  }

  /** When the total is tight, only the last phase can become negative, and by no more than half a millisecond for each other phase. */
  lemma TightTotals(total: int, specs: seq<Spec>)
    requires specs != [] && NonNegativeMinima(specs) && 0 < total <= MinTotal(specs)
    ensures forall k :: 0 <= k < |specs| - 1 ==> Allocation(total, specs)[k] >= 0
    ensures 2 * Allocation(total, specs)[|specs| - 1] >= -(|specs| - 1)
  {
    var n := |specs| - 1;
    forall k | 0 <= k < n ensures Allocation(total, specs)[k] >= 0 {
      SharesAt(total, specs, n, k);
    }
    ScaledSum(total, specs, n);
    MinimaGrow(specs, n);
    BoundEnd(MinTotal(specs), total, Total(Shares(total, specs, n), n), MinTotal(specs[..n]), n);
  }

  // ----- the three kinds of step

  datatype Kind = Cloud | LocalHttp | Mqtt

  const CLOUD_PHASES := [CloudAuthCheck, CloudRateBudgetCheck, ApiPrepare, ApiSessionReady, CloudRequestSend, ApiResponseRecv,
    CloudBackoffWait, ApiParseNormalize, ApiAggregate, CloudBatchGroupCommit, HaStateWrite]

  const LOCAL_PHASES := [LocalEndpointResolve, LocalSessionReady, LocalRequestSend, LocalResponseRecv, LocalParse, LocalCacheUpdate, HaStateWrite]

  const MQTT_PHASES := [MqttLastMsgRead, MqttCacheParse, HaStateWrite]

  function PhasesOf(kind: Kind): seq<Phase> {
    match kind
    case Cloud => CLOUD_PHASES
    case LocalHttp => LOCAL_PHASES
    case Mqtt => MQTT_PHASES
  }

  function SpecsOf(kind: Kind, backoffWait: int): seq<Spec> {
    match kind
    case Cloud => [Spec(CloudAuthCheck, 10, 5), Spec(CloudRateBudgetCheck, 8, 4), Spec(ApiPrepare, 14, 8), Spec(ApiSessionReady, 8, 4),
      Spec(CloudRequestSend, 24, 18), Spec(ApiResponseRecv, 24, 16), Spec(CloudBackoffWait, backoffWait, 0), Spec(ApiParseNormalize, 12, 8),
      Spec(ApiAggregate, 10, 6), Spec(CloudBatchGroupCommit, 8, 4), Spec(HaStateWrite, 8, 3)]
    case Mqtt => [Spec(MqttLastMsgRead, 20, 12), Spec(MqttCacheParse, 12, 6), Spec(HaStateWrite, 8, 2)]
    case LocalHttp => [Spec(LocalEndpointResolve, 12, 8), Spec(LocalSessionReady, 10, 6), Spec(LocalRequestSend, 18, 14),
      Spec(LocalResponseRecv, 18, 12), Spec(LocalParse, 12, 8), Spec(LocalCacheUpdate, 10, 5), Spec(HaStateWrite, 8, 3)]
  }

  /** Sum of the minima: 126 ms and the backoff wait, 88 ms, 40 ms. */
  ghost function Floor(kind: Kind, backoffWait: int): int {
    match kind
    case Cloud => 126 + backoffWait
    case LocalHttp => 88
    case Mqtt => 40
  }

  ghost function BackoffIndex(kind: Kind): nat {
    if kind == Cloud then 6 else |PhasesOf(kind)|
  }

  lemma SpecsShape(kind: Kind, backoffWait: int)
    ensures var specs := SpecsOf(kind, backoffWait);
            |specs| == |PhasesOf(kind)| && forall k :: 0 <= k < |specs| ==> specs[k].phase == PhasesOf(kind)[k]
    ensures NonNegativeWeights(SpecsOf(kind, backoffWait))
    ensures forall k :: 0 <= k < |PhasesOf(kind)| && k != BackoffIndex(kind) ==> SpecsOf(kind, backoffWait)[k].minimum >= 8
    ensures kind == Cloud ==> SpecsOf(kind, backoffWait)[6] == Spec(CloudBackoffWait, backoffWait, 0)
  {
  }

  lemma MinTotalNext(specs: seq<Spec>, n: nat, sum: int)
    requires n < |specs| && MinTotal(specs[..n]) == sum
    ensures MinTotal(specs[..n + 1]) == sum + specs[n].minimum
  {
    assert specs[..n + 1][..n] == specs[..n];
  }

  lemma FloorIsMinTotal(kind: Kind, backoffWait: int)
    ensures MinTotal(SpecsOf(kind, backoffWait)) == Floor(kind, backoffWait)
  {
    var s := SpecsOf(kind, backoffWait);
    TakeAll(s);
    match kind
    case Cloud =>
      MinTotalNext(s, 0, 0); MinTotalNext(s, 1, 10); MinTotalNext(s, 2, 18); MinTotalNext(s, 3, 32);
      MinTotalNext(s, 4, 40); MinTotalNext(s, 5, 64); MinTotalNext(s, 6, 88); MinTotalNext(s, 7, 88 + backoffWait);
      MinTotalNext(s, 8, 100 + backoffWait); MinTotalNext(s, 9, 110 + backoffWait); MinTotalNext(s, 10, 118 + backoffWait);
    case LocalHttp =>
      MinTotalNext(s, 0, 0); MinTotalNext(s, 1, 12); MinTotalNext(s, 2, 22); MinTotalNext(s, 3, 40);
      MinTotalNext(s, 4, 58); MinTotalNext(s, 5, 70); MinTotalNext(s, 6, 80);
    case Mqtt =>
      MinTotalNext(s, 0, 0); MinTotalNext(s, 1, 20); MinTotalNext(s, 2, 32);
  }

  ghost function StepDurations(kind: Kind, latency: int, backoffWait: int): (d: seq<int>)
    ensures |d| == |PhasesOf(kind)|
  {
    Allocation(latency, SpecsOf(kind, backoffWait))
  }

  /** Above the sum of the minima the durations add up to the latency, every phase takes time, and the backoff phase takes exactly its wait. */
  lemma DurationsPositive(kind: Kind, latency: int, backoffWait: int)
    requires backoffWait >= 0 && latency > Floor(kind, backoffWait)
    ensures var d := StepDurations(kind, latency, backoffWait);
            Total(d, |d|) == latency && (forall k :: 0 <= k < |d| && k != BackoffIndex(kind) ==> d[k] > 0)
    ensures kind == Cloud ==> StepDurations(kind, latency, backoffWait)[6] == backoffWait
  {
    var specs := SpecsOf(kind, backoffWait);
    SpecsShape(kind, backoffWait);
    FloorIsMinTotal(kind, backoffWait);
    AllocationAddsUp(latency, specs);
    MinimaKept(latency, specs);
    if kind == Cloud { SharesAt(latency, specs, 10, 6); BackoffShare(latency, backoffWait); }
  }

  /** A phase of weight 0 gets no more than its minimum. */
  lemma BackoffShare(latency: int, backoffWait: int)
    requires backoffWait >= 0 && latency > Floor(Cloud, backoffWait)
    ensures Share(latency, SpecsOf(Cloud, backoffWait), 6) == backoffWait
  {
    FloorIsMinTotal(Cloud, backoffWait);
    var specs := SpecsOf(Cloud, backoffWait);
    var whole := WeightTotal(specs);
    if whole > 0 {
      RoundedPart(latency - MinTotal(specs), 0, whole);
      var r := RoundHalfEven(0, whole);
      MulAtLeast(whole, r);
    }
  }

  lemma TotalOfTen(s: seq<int>)
    requires |s| == 10
    ensures Total(s, 10) == s[0] + s[1] + s[2] + s[3] + s[4] + s[5] + s[6] + s[7] + s[8] + s[9]
  {
    assert Total(s, 1) == s[0];
    assert Total(s, 4) == s[0] + s[1] + s[2] + s[3] by { assert Total(s, 3) == s[0] + s[1] + s[2] by { assert Total(s, 2) == s[0] + s[1]; } }
    assert Total(s, 7) == Total(s, 4) + s[4] + s[5] + s[6] by { assert Total(s, 6) == Total(s, 5) + s[5]; }
    assert Total(s, 9) == Total(s, 8) + s[8] && Total(s, 8) == Total(s, 7) + s[7];
  }
}
