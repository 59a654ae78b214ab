/** The API expander against the API validator: exactly which expansions pass, and how long they take. */
module ApiTheorems {
  import opened ApiPhases
  import opened ApiCorridor
  import opened ApiValidator
  import opened Sequences
  import opened Timelines
  import Sorting

  /** Every phase takes time, except that the backoff phase takes exactly its wait. */
  ghost predicate Positive(c: Corridor)
    requires Shaped(c)
  {
    && (forall i, k :: 0 <= i < |c.steps| && 0 <= k < |c.durations[i]| && k != BackoffIndex(KindOf(c)) ==> c.durations[i][k] > 0)
    && (forall i, k :: 0 <= i < |c.steps| && 0 <= k < |c.durations[i]| && k == BackoffIndex(KindOf(c)) ==>
          c.durations[i][k] == WaitOf(c.steps[i], c.policy) >= 0)
  }

  /** The latencies exceed the sum of the minima, as all estimated latencies do. */
  ghost predicate Roomy(c: Corridor) {
    forall i :: 0 <= i < |c.steps| ==>
      WaitOf(c.steps[i], c.policy) >= 0 && c.steps[i].latency > Floor(c.steps[i].kind, WaitOf(c.steps[i], c.policy))
  }

  ghost predicate AddsUp(c: Corridor)
    requires Shaped(c)
  {
    forall i :: 0 <= i < |c.steps| ==> Total(c.durations[i], |c.durations[i]|) == c.steps[i].latency
  }

  lemma RoomyIsPositive(c: Corridor)
    requires Shaped(c) && Timed(c) && Roomy(c)
    ensures Positive(c) && AddsUp(c)
  {
    forall i | 0 <= i < |c.steps|
      ensures Total(c.durations[i], |c.durations[i]|) == c.steps[i].latency
      ensures forall k :: 0 <= k < |c.durations[i]| && k != BackoffIndex(KindOf(c)) ==> c.durations[i][k] > 0
      ensures KindOf(c) == Cloud ==> c.durations[i][6] == WaitOf(c.steps[i], c.policy) >= 0
    {
      DurationsPositive(c.steps[i].kind, c.steps[i].latency, WaitOf(c.steps[i], c.policy));
    }
  }

  ghost predicate Sound(c: Corridor) {
    Shaped(c) && Distinct(IdsOf(c.steps)) && Positive(c)
  }

  // ----- where steps begin and end

  /** When the step before `i` has written its state. */
  ghost function W(c: Corridor, i: nat): int
    requires Shaped(c) && i <= |c.steps|
  {
    AnchorAt(c, i).writeEnd
  }

  ghost function MovedAt(c: Corridor, i: nat): int
    requires Shaped(c) && i < |c.steps|
  {
    Moved(c.durations[i], SpanAt(c, i))
  }

  lemma {:induction false} Grows(d: seq<int>, m: nat, n: nat, hole: nat)
    requires m <= n <= |d| && forall k :: 0 <= k < |d| ==> d[k] >= 0 && (k != hole ==> d[k] > 0)
    ensures Total(d, m) <= Total(d, n)
    ensures m < n && !(m == hole && n == m + 1) ==> Total(d, m) < Total(d, n)
  {
    if m < n {
      Grows(d, m, n - 1, hole);
      if n - 1 == hole && m < hole { Grows(d, m, n - 1, hole); }
    }
  }

  lemma StepGrows(c: Corridor, i: nat, m: nat, n: nat)
    requires Sound(c) && i < |c.steps| && m <= n <= |c.durations[i]|
    ensures Total(c.durations[i], m) <= Total(c.durations[i], n)
    ensures m < n && !(m == BackoffIndex(KindOf(c)) && n == m + 1) ==> Total(c.durations[i], m) < Total(c.durations[i], n)
  {
    Grows(c.durations[i], m, n, BackoffIndex(KindOf(c)));
  }

  lemma Indices(kind: Kind)
    ensures RequestIndex(kind) + 1 < |PhasesOf(kind)| - 1 || kind == Mqtt
    ensures kind != Mqtt ==> BackoffIndex(kind) == RequestIndex(kind) + 2 || BackoffIndex(kind) == |PhasesOf(kind)|
    ensures |PhasesOf(kind)| - 1 != BackoffIndex(kind) && RequestIndex(kind) + 1 < |PhasesOf(kind)|
    ensures AvailableIndex(kind) == |PhasesOf(kind)| - 2 && ParseIndex(kind) < |PhasesOf(kind)|
    ensures kind == Cloud ==> BackoffIndex(kind) == 6 && RequestIndex(kind) == 4
  {
  }

  /** A step takes its durations less what was moved. */
  lemma WriteEndNext(c: Corridor, i: nat)
    requires Shaped(c) && i < |c.steps|
    ensures W(c, i + 1) == W(c, i) + Total(c.durations[i], |c.durations[i]|) - MovedAt(c, i)
  {
    var d := c.durations[i];
    assert Total(d, |d|) == Total(d, |d| - 1) + d[|d| - 1];
    assert W(c, i + 1) == StartAt(c, i, |d| - 1) + d[|d| - 1];
  }

  lemma WritesAdvance(c: Corridor, i: nat)
    requires Sound(c) && i < |c.steps|
    ensures W(c, i) < W(c, i + 1)
  {
    var d, span := c.durations[i], SpanAt(c, i);
    WriteEndNext(c, i);
    Indices(KindOf(c));
    StepGrows(c, i, span.hi, |d| - 1);
    StepGrows(c, i, |d| - 1, |d|);
    StepGrows(c, i, 0, span.lo);
  }

  lemma {:induction false} WritesIncrease(c: Corridor, i: nat, j: nat)
    requires Sound(c) && i <= j <= |c.steps|
    ensures W(c, i) <= W(c, j) && (i < j ==> W(c, i) < W(c, j))
  {
    if i < j {
      WritesIncrease(c, i, j - 1);
      WritesAdvance(c, j - 1);
    }
  }

  lemma UnmovedLies(d: seq<int>, span: Span, a: Anchor, k: nat, hole: nat)
    requires span.lo <= span.hi <= |d| && k < |d| && !(span.lo <= k < span.hi)
    requires forall j :: 0 <= j < |d| ==> d[j] >= 0 && (j != hole ==> d[j] > 0)
    ensures a.writeEnd <= PhaseStart(d, span, a, k) && PhaseStart(d, span, a, k) + d[k] <= a.writeEnd + Total(d, |d|) - Moved(d, span)
  {
    Grows(d, 0, span.lo, hole);
    Grows(d, span.lo, span.hi, hole);
    Grows(d, span.hi, |d|, hole);
    Grows(d, k + 1, |d|, hole);
    Grows(d, 0, k, hole);
    if k >= span.hi { Grows(d, span.hi, k, hole); } else { Grows(d, k + 1, span.lo, hole); }
  }

  /** No phase that was not moved starts before the previous state write has ended; requests never move. */
  lemma NothingSentEarly(c: Corridor, i: nat, k: nat)
    requires Sound(c) && i < |c.steps| && k < |c.durations[i]| && !(SpanAt(c, i).lo <= k < SpanAt(c, i).hi)
    ensures StartAt(c, i, k) >= W(c, i)
    ensures StartAt(c, i, k) + c.durations[i][k] <= W(c, i + 1)
  {
    WriteEndNext(c, i);
    UnmovedLies(c.durations[i], SpanAt(c, i), AnchorAt(c, i), k, BackoffIndex(KindOf(c)));
  }

  /** The request of every step waits for the state write of the step before. */
  lemma RequestAfterWrite(c: Corridor, i: nat)
    requires Sound(c) && i < |c.steps|
    ensures StartAt(c, i, RequestIndex(KindOf(c))) >= W(c, i)
  {
    Indices(KindOf(c));
    NothingSentEarly(c, i, RequestIndex(KindOf(c)));
  }

  lemma AnchorIs(c: Corridor, i: nat)
    requires Shaped(c) && 0 < i <= |c.steps|
    ensures var a, d, r := AnchorAt(c, i), c.durations[i - 1], RequestIndex(KindOf(c));
      r + 1 < |d| && a == Anchor(StartAt(c, i - 1, r), StartAt(c, i - 1, r + 1) + d[r + 1], StartAt(c, i - 1, |d| - 1) + d[|d| - 1])
  {
    Indices(KindOf(c));
  }

  ghost predicate PositiveStep(d: seq<int>, kind: Kind) {
    |d| == |PhasesOf(kind)| && forall k :: 0 <= k < |d| ==> d[k] >= 0 && (k != BackoffIndex(kind) ==> d[k] > 0)
  }

  /** A step sends at `send`, receives at `receive`, right after sending and not before `floor`, and writes from `write` on. */
  ghost predicate Windowed(d: seq<int>, kind: Kind, floor: int, send: int, receive: int, write: int) {
    var r := RequestIndex(kind);
    && r + 1 < |d| && d[r] > 0 && d[r + 1] > 0 && floor <= send && receive == send + d[r]
    && receive + d[r + 1] <= write + d[|d| - 1] && (kind != Mqtt ==> receive + d[r + 1] < write + d[|d| - 1])
  }

  lemma StepWindow(d: seq<int>, span: Span, a: Anchor, kind: Kind)
    requires PositiveStep(d, kind) && span.lo <= span.hi <= RequestIndex(kind)
    ensures var r := RequestIndex(kind);
      r + 1 < |d| && Windowed(d, kind, a.writeEnd, PhaseStart(d, span, a, r), PhaseStart(d, span, a, r + 1), PhaseStart(d, span, a, |d| - 1))
  {
    var r, hole := RequestIndex(kind), BackoffIndex(kind);
    Indices(kind);
    Grows(d, span.hi, r, hole);
    Grows(d, 0, span.lo, hole);
    Grows(d, r + 2, |d|, hole);
    assert Total(d, |d|) == Total(d, |d| - 1) + d[|d| - 1];
    if kind != Mqtt { Grows(d, r + 2, |d| - 1, hole); }
  }

  lemma StartsInWindow(c: Corridor, i: nat)
    requires Sound(c) && i < |c.steps|
    ensures var d, r := c.durations[i], RequestIndex(KindOf(c));
      r + 1 < |d| && Windowed(d, KindOf(c), W(c, i), StartAt(c, i, r), StartAt(c, i, r + 1), StartAt(c, i, |d| - 1))
  {
    assert PositiveStep(c.durations[i], KindOf(c));
    StepWindow(c.durations[i], SpanAt(c, i), AnchorAt(c, i), KindOf(c));
  }

  lemma AnchorInWindow(c: Corridor, i: nat, a: Anchor)
    requires Sound(c) && i < |c.steps| && a == AnchorAt(c, i + 1)
    ensures var d, r := c.durations[i], RequestIndex(KindOf(c));
      r + 1 < |d| && Windowed(d, KindOf(c), W(c, i), a.requestStart, a.responseEnd - d[r + 1], a.writeEnd - d[|d| - 1])
  {
    StartsInWindow(c, i);
    AnchorIs(c, i + 1);
  }

  /** The send and receive window of a step lies before its state write. */
  lemma Window(c: Corridor, i: nat)
    requires Sound(c) && i < |c.steps|
    ensures var a, d, r := AnchorAt(c, i + 1), c.durations[i], RequestIndex(KindOf(c));
            r + 1 < |d| && W(c, i) <= a.requestStart && a.responseEnd == a.requestStart + d[r] + d[r + 1] <= a.writeEnd
            && a.requestStart < a.requestStart + d[r] < a.responseEnd && (KindOf(c) != Mqtt ==> a.responseEnd < a.writeEnd)
  {
    AnchorInWindow(c, i, AnchorAt(c, i + 1));
  }

  // ----- the conditions a caller can check

  ghost predicate Nonempty(span: Span) {
    span.lo < span.hi
  }

  /** The moved phases fit into the send and receive window of the step before. */
  ghost predicate Fits(c: Corridor, i: nat)
    requires Shaped(c) && 0 < i < |c.steps|
  {
    var d, r := c.durations[i - 1], RequestIndex(KindOf(c));
    Indices(KindOf(c)); MovedAt(c, i) <= d[r] + d[r + 1]
  }

  /** The step before `i` has a backoff wait that must not be bypassed. */
  ghost predicate BackoffBlocks(c: Corridor, i: nat)
    requires Shaped(c) && 0 < i < |c.steps|
  {
    KindOf(c) == Cloud && c.policy.disallowBackoffBypass && WaitOf(c.steps[i - 1], c.policy) > 0
  }

  /** An admitted overlap moves the phases from the first one on, fits, and bypasses no backoff. */
  ghost predicate SpanOk(c: Corridor, i: nat)
    requires Shaped(c) && 0 < i < |c.steps|
  {
    Nonempty(SpanAt(c, i)) ==> SpanAt(c, i).lo == 0 && Fits(c, i) && !BackoffBlocks(c, i)
  }

  ghost predicate SpansOk(c: Corridor)
    requires Shaped(c)
  {
    forall i :: 0 < i < |c.steps| ==> SpanOk(c, i)
  }

  ghost predicate BudgetFits(c: Corridor, i: nat)
    requires Shaped(c) && i < |c.steps|
  {
    var d, p := c.durations[i], ParseIndex(KindOf(c));
    Indices(KindOf(c));
    d[p] <= c.policy.parseMax && (KindOf(c) != Mqtt ==> d[p + 1] <= c.policy.aggregateMax)
  }

  ghost predicate SomethingMoves(c: Corridor)
    requires Shaped(c)
  {
    exists i :: 0 < i < |c.steps| && Nonempty(SpanAt(c, i))
  }

  /** One step at a time, two as soon as something is moved. */
  ghost function Depth(c: Corridor): nat
    requires Shaped(c)
  {
    if SomethingMoves(c) then 2 else if c.steps != [] then 1 else 0
  }

  ghost predicate Acceptable(c: Corridor)
    requires Shaped(c)
  {
    SpansOk(c) && (forall i :: 0 <= i < |c.steps| ==> BudgetFits(c, i)) && Depth(c) <= c.policy.maxLookahead + 1
  }

  // ----- moved phases

  lemma SpanShape(c: Corridor, i: nat)
    requires Shaped(c) && i < |c.steps| && Nonempty(SpanAt(c, i))
    ensures i > 0 && KindOf(c) != Mqtt && SpanAt(c, i).hi <= BackoffIndex(KindOf(c)) && Admitted(c.steps[i - 1], c.steps[i], c.policy)
    ensures KindOf(c) == LocalHttp ==> SpanAt(c, i) == Span(0, 2)
    ensures KindOf(c) == Cloud ==> SpanAt(c, i) == if c.policy.allowAuthBudgetOverlap then Span(0, 3) else Span(2, 3)
  {
  }

  lemma MovedLate(c: Corridor, i: nat)
    requires Sound(c) && 0 < i < |c.steps| && Nonempty(SpanAt(c, i))
    ensures var a, start := AnchorAt(c, i), OverlapStart(c.durations[i], SpanAt(c, i), AnchorAt(c, i));
            MovedAt(c, i) > 0 && a.requestStart <= start < a.responseEnd < a.writeEnd
            && (Fits(c, i) <==> start + MovedAt(c, i) <= a.responseEnd)
  {
    Window(c, i - 1);
    SpanShape(c, i);
    var span := SpanAt(c, i);
    StepGrows(c, i, span.lo, span.hi);
  }

  /** A fitting step keeps its phases in order. */
  lemma StepSerialized(c: Corridor, i: nat)
    requires Sound(c) && i < |c.steps| && (i > 0 ==> SpanOk(c, i))
    ensures Serialized(StepEvents(c, i))
  {
    var d, span := c.durations[i], SpanAt(c, i);
    if Nonempty(span) { MovedLate(c, i); }
    forall k | 0 <= k < |d| - 1 ensures StartAt(c, i, k) + d[k] <= StartAt(c, i, k + 1) {}
  }

  // ----- looking events up

  ghost function Blocks(c: Corridor, n: nat): (blocks: seq<seq<Event>>)
    requires Shaped(c) && n <= |c.steps|
    ensures |blocks| == n && forall i :: 0 <= i < n ==> blocks[i] == StepEvents(c, i)
  {
    seq(n, i requires 0 <= i < n => StepEvents(c, i))
  }

  lemma {:induction false} TimelineIsFlat(c: Corridor, n: nat)
    requires Shaped(c) && n <= |c.steps|
    ensures Timeline(c, n) == Flat(Blocks(c, n))
  {
    if n > 0 {
      TimelineIsFlat(c, n - 1);
      assert Blocks(c, n)[..n - 1] == Blocks(c, n - 1);
    }
  }

  lemma BlocksOwned(c: Corridor)
    requires Shaped(c) && Distinct(IdsOf(c.steps))
    ensures Owned(Blocks(c, |c.steps|), IdsOf(c.steps))
  {
    forall i | 0 <= i < |c.steps| ensures OwnedBy(StepEvents(c, i), c.steps[i].id) {}
  }

  /** The events of one step are exactly those placed for it. */
  lemma OfIsStep(c: Corridor, i: nat)
    requires Shaped(c) && Distinct(IdsOf(c.steps)) && i < |c.steps|
    ensures Of(Timeline(c, |c.steps|), c.steps[i].id) == StepEvents(c, i)
  {
    TimelineIsFlat(c, |c.steps|);
    BlocksOwned(c);
    OfBlock(Blocks(c, |c.steps|), IdsOf(c.steps), i);
  }

  lemma LastInStep(c: Corridor, i: nat, k: nat)
    requires Shaped(c) && i < |c.steps| && k < |c.durations[i]|
    ensures Last(StepEvents(c, i), c.steps[i].id, PhasesOf(KindOf(c))[k]) == Hit(EventAt(c, i, k))
  {
    PhasesDistinct(KindOf(c));
    LastUnique(StepEvents(c, i), k);
  }

  lemma LastIsEvent(c: Corridor, i: nat, k: nat)
    requires Shaped(c) && Distinct(IdsOf(c.steps)) && i < |c.steps| && k < |c.durations[i]|
    ensures Last(Timeline(c, |c.steps|), c.steps[i].id, PhasesOf(KindOf(c))[k]) == Hit(EventAt(c, i, k))
  {
    TimelineIsFlat(c, |c.steps|);
    BlocksOwned(c);
    LastInStep(c, i, k);
    LastOfBlock(Blocks(c, |c.steps|), IdsOf(c.steps), i, PhasesOf(KindOf(c))[k]);
  }

  lemma {:induction false} TimelineMember(c: Corridor, n: nat, e: Event) returns (i: nat, k: nat)
    requires Shaped(c) && n <= |c.steps| && e in Timeline(c, n)
    ensures i < n && k < |c.durations[i]| && e == EventAt(c, i, k)
  {
    if e in StepEvents(c, n - 1) {
      i := n - 1;
      k :| 0 <= k < |StepEvents(c, i)| && StepEvents(c, i)[k] == e;
    } else {
      i, k := TimelineMember(c, n - 1, e);
    }
  }

  lemma {:induction false} MemberOfTimeline(c: Corridor, n: nat, i: nat, k: nat)
    requires Shaped(c) && i < n <= |c.steps| && k < |c.durations[i]|
    ensures EventAt(c, i, k) in Timeline(c, n)
  {
    if i == n - 1 {
      assert StepEvents(c, i)[k] in StepEvents(c, i);
    } else {
      MemberOfTimeline(c, n - 1, i, k);
    }
  }

  // ----- the pair checks, exactly

  ghost predicate Starts(events: seq<Event>, owner: string, phase: Phase, start: int) {
    var f := Last(events, owner, phase);
    f.Hit? && f.event.startMs == start
  }

  ghost predicate Ends(events: seq<Event>, owner: string, phase: Phase, end: int) {
    var f := Last(events, owner, phase);
    f.Hit? && f.event.endMs == end
  }

  lemma Find(c: Corridor, i: nat, k: nat)
    requires Shaped(c) && Distinct(IdsOf(c.steps)) && i < |c.steps| && k < |c.durations[i]|
    ensures Starts(Timeline(c, |c.steps|), c.steps[i].id, PhasesOf(KindOf(c))[k], StartAt(c, i, k))
    ensures Ends(Timeline(c, |c.steps|), c.steps[i].id, PhasesOf(KindOf(c))[k], StartAt(c, i, k) + c.durations[i][k])
  {
    LastIsEvent(c, i, k);
  }

  lemma FindStart(c: Corridor, i: nat, k: nat)
    requires Shaped(c) && Distinct(IdsOf(c.steps)) && i < |c.steps| && k < |c.durations[i]|
    ensures Starts(Timeline(c, |c.steps|), c.steps[i].id, PhasesOf(KindOf(c))[k], StartAt(c, i, k))
  {
    Find(c, i, k);
  }

  lemma FindEnd(c: Corridor, i: nat, k: nat)
    requires Shaped(c) && Distinct(IdsOf(c.steps)) && i < |c.steps| && k < |c.durations[i]|
    ensures Ends(Timeline(c, |c.steps|), c.steps[i].id, PhasesOf(KindOf(c))[k], StartAt(c, i, k) + c.durations[i][k])
  {
    Find(c, i, k);
  }

  lemma LocalNames()
    ensures var p := PhasesOf(LocalHttp);
      |p| == 7 && p[0] == LocalEndpointResolve && p[1] == LocalSessionReady && p[2] == LocalRequestSend && p[3] == LocalResponseRecv
      && p[6] == HaStateWrite
  {
  }

  lemma CloudNames()
    ensures var p := PhasesOf(Cloud);
      |p| == 11 && p[0] == CloudAuthCheck && p[1] == CloudRateBudgetCheck && p[2] == ApiPrepare && p[4] == CloudRequestSend
      && p[5] == ApiResponseRecv && p[6] == CloudBackoffWait && p[10] == HaStateWrite
  {
  }

  /** The times a pair check looks at: the anchor of the right step, where its first phase starts, where its second and
      third phases end, when it sends its request, and how long the left step backs off. */
  datatype Times = Times(anchor: Anchor, firstStart: int, secondEnd: int, thirdEnd: int, requestStart: int, backoff: int)

  ghost predicate Sees(v: PairView, kind: Kind, t: Times) {
    && v.Complete() && v.second.Hit? && v.rightRequest.Hit?
    && v.leftRequest.event.startMs == t.anchor.requestStart && v.leftResponse.event.endMs == t.anchor.responseEnd
    && v.leftWrite.event.endMs == t.anchor.writeEnd && v.first.event.startMs == t.firstStart && v.second.event.endMs == t.secondEnd
    && v.rightRequest.event.startMs == t.requestStart
    && (kind == LocalHttp ==> v.third == Missing && v.leftBackoff == Missing)
    && (kind == Cloud ==> v.third.Hit? && v.third.event.endMs == t.thirdEnd)
    && (kind == Cloud ==> v.leftBackoff.Hit? && v.leftBackoff.event.startMs == t.anchor.responseEnd && Length(v.leftBackoff.event) == t.backoff)
  }

  ghost predicate PairFine(t: Times, left: Step, right: Step, policy: Policy) {
    && (t.firstStart < t.anchor.writeEnd ==> Admitted(left, right, policy) && EarlyFine(t, right.kind, policy))
    && t.requestStart >= t.anchor.writeEnd
  }

  ghost predicate EarlyFine(t: Times, kind: Kind, policy: Policy) {
    && t.firstStart >= t.anchor.requestStart && t.secondEnd <= t.anchor.responseEnd
    && (kind == Cloud ==> t.thirdEnd <= t.anchor.responseEnd)
    && (kind == Cloud && policy.disallowBackoffBypass && t.backoff > 0 ==> t.firstStart >= t.anchor.responseEnd + t.backoff)
  }

  lemma PairByTimes(v: PairView, t: Times, left: Step, right: Step, policy: Policy)
    requires SameCheckedKind(left, right) && Sees(v, right.kind, t)
    ensures PairFlagsOf(v, left, right, policy) == ALL_TRUE <==> PairFine(t, left, right, policy)
  {
  }

  ghost function TimesAt(c: Corridor, i: nat): Times
    requires Shaped(c) && 0 < i < |c.steps| && KindOf(c) != Mqtt
  {
    var d, r := c.durations[i], RequestIndex(KindOf(c));
    Times(AnchorAt(c, i), StartAt(c, i, 0), StartAt(c, i, 1) + d[1], StartAt(c, i, 2) + d[2], StartAt(c, i, r), WaitOf(c.steps[i - 1], c.policy))
  }

  lemma BackoffTimes(c: Corridor, i: nat)
    requires Sound(c) && 0 < i < |c.steps| && KindOf(c) == Cloud
    ensures StartAt(c, i - 1, 6) == AnchorAt(c, i).responseEnd && c.durations[i - 1][6] == WaitOf(c.steps[i - 1], c.policy)
  {
    AnchorIs(c, i);
    assert StartAt(c, i - 1, 6) == StartAt(c, i - 1, 5) + c.durations[i - 1][5];
  }

  ghost predicate LocalRight(events: seq<Event>, id: string, t: Times) {
    && Starts(events, id, LocalEndpointResolve, t.firstStart) && Ends(events, id, LocalSessionReady, t.secondEnd)
    && Starts(events, id, LocalRequestSend, t.requestStart)
  }

  ghost predicate LocalLeft(events: seq<Event>, id: string, a: Anchor) {
    && Starts(events, id, LocalRequestSend, a.requestStart) && Ends(events, id, LocalResponseRecv, a.responseEnd)
    && Ends(events, id, HaStateWrite, a.writeEnd)
  }

  ghost predicate CloudRight(events: seq<Event>, id: string, t: Times) {
    && Starts(events, id, CloudAuthCheck, t.firstStart) && Ends(events, id, CloudRateBudgetCheck, t.secondEnd)
    && Ends(events, id, ApiPrepare, t.thirdEnd) && Starts(events, id, CloudRequestSend, t.requestStart)
  }

  ghost predicate CloudLeft(events: seq<Event>, id: string, a: Anchor, backoff: int) {
    && Starts(events, id, CloudRequestSend, a.requestStart) && Ends(events, id, ApiResponseRecv, a.responseEnd)
    && Starts(events, id, CloudBackoffWait, a.responseEnd) && Ends(events, id, CloudBackoffWait, a.responseEnd + backoff)
    && Ends(events, id, HaStateWrite, a.writeEnd)
  }

  lemma LocalTimes(c: Corridor, i: nat)
    requires Shaped(c) && Distinct(IdsOf(c.steps)) && 0 < i < |c.steps| && KindOf(c) == LocalHttp
    ensures LocalRight(Timeline(c, |c.steps|), c.steps[i].id, TimesAt(c, i))
  {
    LocalNames();
    Find(c, i, 0); Find(c, i, 1); Find(c, i, 2);
  }

  lemma LocalAnchor(c: Corridor, i: nat)
    requires Shaped(c) && 0 < i < |c.steps| && KindOf(c) == LocalHttp
    ensures var d := c.durations[i - 1];
      |d| == 7 && AnchorAt(c, i) == Anchor(StartAt(c, i - 1, 2), StartAt(c, i - 1, 3) + d[3], StartAt(c, i - 1, 6) + d[6])
  {
    AnchorIs(c, i);
  }

  lemma CloudAnchor(c: Corridor, i: nat)
    requires Shaped(c) && 0 < i < |c.steps| && KindOf(c) == Cloud
    ensures var d := c.durations[i - 1];
      |d| == 11 && AnchorAt(c, i) == Anchor(StartAt(c, i - 1, 4), StartAt(c, i - 1, 5) + d[5], StartAt(c, i - 1, 10) + d[10])
  {
    AnchorIs(c, i);
  }

  lemma LocalLeftTimes(c: Corridor, i: nat)
    requires Shaped(c) && Distinct(IdsOf(c.steps)) && 0 < i < |c.steps| && KindOf(c) == LocalHttp
    ensures LocalLeft(Timeline(c, |c.steps|), c.steps[i - 1].id, AnchorAt(c, i))
  {
    LocalAnchor(c, i);
    LocalNames();
    FindStart(c, i - 1, 2); FindEnd(c, i - 1, 3); FindEnd(c, i - 1, 6);
  }

  lemma CloudTimes(c: Corridor, i: nat)
    requires Shaped(c) && Distinct(IdsOf(c.steps)) && 0 < i < |c.steps| && KindOf(c) == Cloud
    ensures CloudRight(Timeline(c, |c.steps|), c.steps[i].id, TimesAt(c, i))
  {
    CloudNames();
    FindStart(c, i, 0); FindEnd(c, i, 1); FindEnd(c, i, 2);
    FindStart(c, i, 4);
  }

  lemma CloudLeftTimes(c: Corridor, i: nat)
    requires Shaped(c) && Distinct(IdsOf(c.steps)) && 0 < i < |c.steps| && KindOf(c) == Cloud
    requires StartAt(c, i - 1, 6) == AnchorAt(c, i).responseEnd
    ensures CloudLeft(Timeline(c, |c.steps|), c.steps[i - 1].id, AnchorAt(c, i), c.durations[i - 1][6])
  {
    CloudAnchor(c, i);
    CloudNames();
    FindStart(c, i - 1, 4); FindEnd(c, i - 1, 5); FindEnd(c, i - 1, 10);
    Find(c, i - 1, 6);
  }

  lemma ViewByTimes(events: seq<Event>, left: Step, right: Step, t: Times)
    requires right.kind != Mqtt
    requires right.kind == LocalHttp ==> LocalRight(events, right.id, t) && LocalLeft(events, left.id, t.anchor)
    requires right.kind == Cloud ==> CloudRight(events, right.id, t) && CloudLeft(events, left.id, t.anchor, t.backoff)
    ensures Sees(View(events, left, right), right.kind, t)
  {
  }

  /** Phases moved from the first one on: the pair is fine exactly when they fit and bypass no backoff. */
  lemma MovedPair(c: Corridor, i: nat)
    requires Sound(c) && 0 < i < |c.steps| && KindOf(c) != Mqtt && Nonempty(SpanAt(c, i)) && SpanAt(c, i).lo == 0
    ensures PairFine(TimesAt(c, i), c.steps[i - 1], c.steps[i], c.policy) <==> Fits(c, i) && !BackoffBlocks(c, i)
  {
    var d, span, a := c.durations[i], SpanAt(c, i), AnchorAt(c, i);
    MovedLate(c, i);
    SpanShape(c, i);
    RequestAfterWrite(c, i);
    StepGrows(c, i, 2, span.hi);
    assert StartAt(c, i, 0) == OverlapStart(d, span, a);
    assert StartAt(c, i, 1) + d[1] == OverlapStart(d, span, a) + Total(d, 2);
    if KindOf(c) == Cloud { assert StartAt(c, i, 2) + d[2] == OverlapStart(d, span, a) + Total(d, 3); }
  }

  /** A step that does not begin early passes its pair check. */
  lemma UnmovedPair(c: Corridor, i: nat)
    requires Sound(c) && 0 < i < |c.steps| && KindOf(c) != Mqtt && !(Nonempty(SpanAt(c, i)) && SpanAt(c, i).lo == 0)
    ensures PairFine(TimesAt(c, i), c.steps[i - 1], c.steps[i], c.policy)
  {
    NothingSentEarly(c, i, 0);
    RequestAfterWrite(c, i);
  }

  lemma MqttNeverMoves(c: Corridor, i: nat)
    requires Shaped(c) && i < |c.steps| && KindOf(c) == Mqtt
    ensures !Nonempty(SpanAt(c, i))
  {
  }

  lemma PairExactly(c: Corridor, i: nat)
    requires Sound(c) && 0 < i < |c.steps|
    ensures FlagsAt(c.steps, Timeline(c, |c.steps|), c.policy, i - 1) == ALL_TRUE <==>
            (Nonempty(SpanAt(c, i)) && SpanAt(c, i).lo == 0 ==> Fits(c, i) && !BackoffBlocks(c, i))
  {
    if KindOf(c) == Mqtt {
      MqttNeverMoves(c, i);
    } else {
      if KindOf(c) == LocalHttp { LocalTimes(c, i); LocalLeftTimes(c, i); } else { CloudTimes(c, i); BackoffTimes(c, i); CloudLeftTimes(c, i); }
      ViewByTimes(Timeline(c, |c.steps|), c.steps[i - 1], c.steps[i], TimesAt(c, i));
      PairByTimes(View(Timeline(c, |c.steps|), c.steps[i - 1], c.steps[i]), TimesAt(c, i), c.steps[i - 1], c.steps[i], c.policy);
      if Nonempty(SpanAt(c, i)) && SpanAt(c, i).lo == 0 { MovedPair(c, i); } else { UnmovedPair(c, i); }
    }
  }

  // ----- the step checks

  /** A step in order is seen as it was placed. */
  lemma OwnIsStep(c: Corridor, i: nat)
    requires Sound(c) && i < |c.steps| && (i > 0 ==> SpanOk(c, i))
    ensures Own(Timeline(c, |c.steps|), c.steps[i]) == StepEvents(c, i)
  {
    OfIsStep(c, i);
    StepSerialized(c, i);
    var e := StepEvents(c, i);
    forall k | 0 <= k < |e| - 1 ensures !(e[k + 1].startMs < e[k].startMs) {
      assert c.durations[i][k] >= 0;
    }
    Sorting.SortKeeps(e, (a: Event, b: Event) => a.startMs < b.startMs);
  }

  lemma EventsExactly(e: seq<Event>, kind: Kind, d: seq<int>, policy: Policy)
    requires NamesAre(e, kind) && Serialized(e) && |d| == |e| && forall k :: 0 <= k < |e| ==> e[k].endMs == e[k].startMs + d[k]
    ensures StepFlagsOf(e, kind, policy) == STEP_TRUE <==>
            d[ParseIndex(kind)] <= policy.parseMax && (kind != Mqtt ==> d[ParseIndex(kind) + 1] <= policy.aggregateMax)
  {
    Indices(kind);
    assert e[|e| - 2].endMs <= e[|e| - 1].startMs;
    assert Length(e[ParseIndex(kind)]) == d[ParseIndex(kind)];
    if kind != Mqtt { assert Length(e[ParseIndex(kind) + 1]) == d[ParseIndex(kind) + 1]; }
  }

  lemma StepNames(c: Corridor, i: nat)
    requires Shaped(c) && i < |c.steps|
    ensures NamesAre(StepEvents(c, i), KindOf(c))
  {
  }

  lemma StepExactly(c: Corridor, i: nat)
    requires Sound(c) && i < |c.steps| && (i > 0 ==> SpanOk(c, i))
    ensures StepFlagsOf(Own(Timeline(c, |c.steps|), c.steps[i]), c.steps[i].kind, c.policy) == STEP_TRUE <==> BudgetFits(c, i)
  {
    OwnIsStep(c, i);
    StepSerialized(c, i);
    StepNames(c, i);
    EventsExactly(StepEvents(c, i), KindOf(c), c.durations[i], c.policy);
  }

  lemma EarlyPrepare(c: Corridor, i: nat)
    requires Sound(c) && 0 < i < |c.steps| && Nonempty(SpanAt(c, i)) && SpanAt(c, i).lo != 0
    ensures KindOf(c) == Cloud && StartAt(c, i, 2) < StartAt(c, i, 0)
  {
    SpanShape(c, i);
    MovedLate(c, i);
    NothingSentEarly(c, i, 0);
  }

  /** With the checks left behind, the early preparation comes before them and the phase order is wrong. */
  lemma LatePrefixFails(c: Corridor, i: nat)
    requires Sound(c) && 0 < i < |c.steps| && Nonempty(SpanAt(c, i)) && SpanAt(c, i).lo != 0
    ensures !NamesAre(Own(Timeline(c, |c.steps|), c.steps[i]), c.steps[i].kind)
  {
    EarlyPrepare(c, i);
    OfIsStep(c, i);
    PhasesDistinct(Cloud);
    StepNames(c, i);
    MisplacedPhase(StepEvents(c, i), Cloud);
  }

  /** Sorting cannot hide a third phase that starts before the first one. */
  lemma MisplacedPhase(e: seq<Event>, kind: Kind)
    requires |e| == |PhasesOf(kind)| && forall k :: 0 <= k < |e| ==> e[k].phase == PhasesOf(kind)[k]
    requires Distinct(PhasesOf(kind)) && e[2].startMs < e[0].startMs
    ensures !NamesAre(ByStart(e), kind)
  {
    var sorted, less := ByStart(e), (a: Event, b: Event) => a.startMs < b.startMs;
    Sorting.SortPermutes(e, less);
    Sorting.SortSorts(e, less);
    assert |multiset(sorted)| == |multiset(e)|;
    SortedMember(e, sorted, 0);
    SortedMember(e, sorted, 2);
    assert !less(sorted[2], sorted[0]);
    ByName(e, PhasesOf(kind), sorted[0], 0);
    ByName(e, PhasesOf(kind), sorted[2], 2);
  }

  lemma ByName(e: seq<Event>, phases: seq<Phase>, f: Event, k: nat)
    requires |e| == |phases| && (forall i :: 0 <= i < |e| ==> e[i].phase == phases[i]) && Distinct(phases)
    requires f in e && k < |e|
    ensures f.phase == phases[k] ==> f == e[k]
  {
    var i :| 0 <= i < |e| && e[i] == f;
    assert i == k || phases[i] != phases[k];
  }

  lemma SortedMember(e: seq<Event>, sorted: seq<Event>, k: nat)
    requires multiset(sorted) == multiset(e) && k < |sorted|
    ensures sorted[k] in e
  {
    assert sorted[k] in multiset(sorted);
  }
}
