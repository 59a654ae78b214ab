/** Where the expander of API corridors places the phases of a step, told by its events alone
    (optimizer/api_micro_refinement.py `_expand_refined_steps`). */
module ApiPlacement {
  import opened ApiPhases
  import opened ApiCorridor
  import opened ApiValidator
  import opened ApiTheorems
  import opened Numbers
  import opened Sequences
  import opened Timelines

  /** `e` are the events of a step behind `p`, in phase order; those from `lo` up to `hi` have been moved. They follow one
      another and end with the response of `p`, its event `r + 1`, if they take no longer than request and response;
      otherwise they start with the request. */
  ghost predicate MovedBehind(p: seq<Event>, e: seq<Event>, lo: nat, hi: nat, r: nat)
    requires lo < hi <= |e| && r + 1 < |p|
  {
    && (forall k :: lo < k < hi ==> e[k].startMs == e[k - 1].endMs)
    && (if e[hi - 1].endMs - e[lo].startMs <= p[r + 1].endMs - p[r].startMs then e[hi - 1].endMs == p[r + 1].endMs
        else e[lo].startMs == p[r].startMs)
  }

  /** The event before `k` among those that have not been moved. */
  function Before(lo: nat, hi: nat, k: nat): int {
    if k == hi then lo - 1 else k - 1
  }

  /** The other events follow one another from the state write of `p`, its last event, on. */
  ghost predicate RestBehind(p: seq<Event>, e: seq<Event>, lo: nat, hi: nat)
    requires lo <= hi <= |e| && p != []
  {
    forall k :: 0 <= k < |e| && !(lo <= k < hi) ==>
      e[k].startMs == if Before(lo, hi, k) < 0 then p[|p| - 1].endMs else e[Before(lo, hi, k)].endMs
  }

  ghost predicate Behind(p: seq<Event>, e: seq<Event>, lo: nat, hi: nat, r: nat) {
    && lo <= hi <= |e| && r + 1 < |p| && RestBehind(p, e, lo, hi) && (lo < hi ==> MovedBehind(p, e, lo, hi, r))
  }

  /** Of a local step an admitted overlap moves the first two phases, of a cloud step the third one, with both before it if
      the policy lets authentication and budget overlap; nothing else moves. */
  ghost predicate StepBehind(left: Step, right: Step, policy: Policy, p: seq<Event>, e: seq<Event>) {
    match right.kind
    case LocalHttp => Behind(p, e, 0, if LocalAdmitted(left, right, policy) then 2 else 0, 2)
    case Cloud =>
      var lo := if policy.allowAuthBudgetOverlap then 0 else 2;
      Behind(p, e, lo, if CloudAdmitted(left, right, policy) then 3 else lo, 4)
    case Mqtt => Behind(p, e, 0, 0, 0)
  }

  /** The events `e` have the durations `d` and start where the expander starts them. */
  ghost predicate Starting(d: seq<int>, span: Span, a: Anchor, e: seq<Event>)
    requires span.lo <= span.hi <= |d|
  {
    |d| == |e| && forall k :: 0 <= k < |d| ==> e[k].startMs == PhaseStart(d, span, a, k) && e[k].endMs == e[k].startMs + d[k]
  }

  lemma TotalNext(d: seq<int>, k: nat)
    requires 0 < k <= |d|
    ensures Total(d, k) == Total(d, k - 1) + d[k - 1]
  {
  }

  lemma PlacesRest(d: seq<int>, span: Span, a: Anchor, p: seq<Event>, e: seq<Event>)
    requires span.lo <= span.hi <= |d| && Starting(d, span, a, e) && p != [] && a.writeEnd == p[|p| - 1].endMs
    ensures RestBehind(p, e, span.lo, span.hi)
  {
    forall k | 0 <= k < |e| && !(span.lo <= k < span.hi)
      ensures e[k].startMs == if Before(span.lo, span.hi, k) < 0 then p[|p| - 1].endMs else e[Before(span.lo, span.hi, k)].endMs
    {
      if k > 0 { TotalNext(d, k); }
      if k == span.hi && span.lo > 0 { TotalNext(d, span.lo); }
    }
  }

  lemma PlacesMoved(d: seq<int>, span: Span, a: Anchor, p: seq<Event>, e: seq<Event>, r: nat)
    requires span.lo < span.hi <= |d| && Starting(d, span, a, e) && r + 1 < |p|
    requires a.requestStart == p[r].startMs && a.responseEnd == p[r + 1].endMs
    ensures MovedBehind(p, e, span.lo, span.hi, r)
  {
    forall k | span.lo < k < span.hi ensures e[k].startMs == e[k - 1].endMs { TotalNext(d, k); }
    TotalNext(d, span.hi);
  }

  lemma EmptySpans(p: seq<Event>, e: seq<Event>, lo: nat, r: nat)
    requires Behind(p, e, 0, 0, r) && lo <= |e|
    ensures Behind(p, e, lo, lo, r)
  {
  }

  lemma BySpan(left: Step, right: Step, policy: Policy, p: seq<Event>, e: seq<Event>)
    requires var span := OverlapSpan(left, right, policy); Behind(p, e, span.lo, span.hi, RequestIndex(right.kind))
    requires right.kind == Cloud ==> |e| >= 3
    ensures StepBehind(left, right, policy, p, e)
  {
    if right.kind == Cloud && !CloudAdmitted(left, right, policy) && !policy.allowAuthBudgetOverlap { EmptySpans(p, e, 2, 4); }
  }

  lemma BlockStarts(c: Corridor, i: nat)
    requires Shaped(c) && i < |c.steps|
    ensures Starting(c.durations[i], SpanAt(c, i), AnchorAt(c, i), StepEvents(c, i))
  {
    forall k | 0 <= k < |c.durations[i]| ensures StepEvents(c, i)[k].startMs == PhaseStart(c.durations[i], SpanAt(c, i), AnchorAt(c, i), k) {
      assert StepEvents(c, i)[k] == EventAt(c, i, k);
    }
  }

  lemma AnchorSeen(c: Corridor, i: nat)
    requires Shaped(c) && 0 < i < |c.steps|
    ensures var p, r := StepEvents(c, i - 1), RequestIndex(KindOf(c));
            r + 1 < |p| && AnchorAt(c, i) == Anchor(p[r].startMs, p[r + 1].endMs, p[|p| - 1].endMs)
  {
    AnchorIs(c, i);
  }

  lemma BlockPlacement(c: Corridor, i: nat)
    requires Shaped(c) && 0 < i < |c.steps|
    ensures StepBehind(c.steps[i - 1], c.steps[i], c.policy, StepEvents(c, i - 1), StepEvents(c, i))
  {
    var p, e, d, span, a := StepEvents(c, i - 1), StepEvents(c, i), c.durations[i], SpanAt(c, i), AnchorAt(c, i);
    AnchorSeen(c, i);
    BlockStarts(c, i);
    PlacesRest(d, span, a, p, e);
    if span.lo < span.hi { PlacesMoved(d, span, a, p, e, RequestIndex(KindOf(c))); }
    BySpan(c.steps[i - 1], c.steps[i], c.policy, p, e);
  }

  /** Step `i` lies behind the step before it as the source places it, and the first step starts at 0 and runs through. */
  lemma StepPlacement(c: Corridor, i: nat)
    requires Shaped(c) && Distinct(IdsOf(c.steps)) && i < |c.steps|
    ensures var all := Timeline(c, |c.steps|);
            if i > 0 then StepBehind(c.steps[i - 1], c.steps[i], c.policy, Of(all, c.steps[i - 1].id), Of(all, c.steps[i].id))
            else
              var e := Of(all, c.steps[0].id);
              e != [] && e[0].startMs == 0 && forall k :: 0 < k < |e| ==> e[k].startMs == e[k - 1].endMs
    ensures var e, phases := Of(Timeline(c, |c.steps|), c.steps[i].id), PhasesOf(c.steps[i].kind);
            |e| == |phases| && forall k :: 0 <= k < |e| ==> e[k].phase == phases[k] && e[k].endMs - e[k].startMs == c.durations[i][k]
  {
    OfIsStep(c, i);
    if i > 0 {
      OfIsStep(c, i - 1);
      BlockPlacement(c, i);
    }
  }
}
