/** Simulation of the plan with the accepted corridors spliced in (optimizer/combined_micro_refinement.py
    `_candidate_batch_range`, `_simulate_candidate_segment`, `validate_combined_candidates`). */
module CombinedSimulation {
  import opened Numbers
  import opened CombinedResolution
  import opened CombinedSweep
  import opened Sequences
  import Sorting
  import Timelines

  // ----- where a candidate lies in the plan

  function Indexes(plan: seq<string>, ids: seq<string>): (indexes: seq<int>)
    ensures forall i :: i in indexes ==> 0 <= i < |plan| && plan[i] in ids
    ensures |indexes| <= |ids|
  {
    if ids == [] then []
    else
      var front, i := Indexes(plan, ids[..|ids| - 1]), Position(plan, ids[|ids| - 1]);
      assert ids == ids[..|ids| - 1] + [ids[|ids| - 1]];
      if i >= 0 then front + [i] else front
  }

  /** First and last batch of a candidate; -1 for both when a batch is unknown. */
  datatype Range = Range(first: int, last: int, contiguous: bool, candidate: Candidate)

  function Interval(first: int, last: int): seq<int>
    decreases last - first
  {
    if first > last then [] else Interval(first, last - 1) + [last]
  }

  function RangeOf(plan: seq<string>, c: Candidate): (r: Range)
    requires c.batches != []
    ensures r.candidate == c && ((r.first == r.last == -1 && !r.contiguous) || (0 <= r.first <= r.last < |plan| && plan[r.first] in c.batches))
  {
    var indexes := Indexes(plan, c.batches);
    if |indexes| != |c.batches| then Range(-1, -1, false, c)
    else
      var first, last := Least(indexes), Greatest(indexes);
      Range(first, last, Sorting.Sort(indexes, (x: int, y: int) => x < y) == Interval(first, last), c)
  }

  lemma {:induction false} IntervalIs(first: int, last: int)
    requires first <= last + 1
    ensures |Interval(first, last)| == last - first + 1 && forall k :: 0 <= k < last - first + 1 ==> Interval(first, last)[k] == first + k
    decreases last - first
  {
    if first <= last { IntervalIs(first, last - 1); }
  }

  lemma IntervalCounts(first: int, last: int, p: int)
    requires first <= last + 1
    ensures multiset(Interval(first, last))[p] == if first <= p <= last then 1 else 0
  {
    var s := Interval(first, last);
    IntervalIs(first, last);
    DistinctCounts(s, p);
    assert first <= p <= last ==> s[p - first] == p;
  }

  /** Each place from `first` to `last` occurs once, and no other. */
  ghost predicate OnceEach(places: seq<int>, first: int, last: int) {
    forall p :: multiset(places)[p] == if first <= p <= last then 1 else 0
  }

  lemma OnceEachExactly(places: seq<int>, first: int, last: int, less: (int, int) -> bool)
    requires first <= last && forall x, y :: less(x, y) <==> x < y
    ensures Sorting.Sort(places, less) == Interval(first, last) <==> OnceEach(places, first, last)
  {
    var interval := Interval(first, last);
    Sorting.SortPermutes(places, less);
    forall p ensures multiset(interval)[p] == if first <= p <= last then 1 else 0 { IntervalCounts(first, last, p); }
    if OnceEach(places, first, last) {
      forall p ensures multiset(places)[p] == multiset(interval)[p] {}
      IntervalIs(first, last);
      SortsTo(places, interval, less);
    }
  }

  /** A candidate covers its range without gap exactly when all its batches are known and each place from the first to the
      last is that of one of them, once. */
  lemma ContiguousExactly(plan: seq<string>, c: Candidate)
    requires c.batches != []
    ensures var r, places := RangeOf(plan, c), Indexes(plan, c.batches);
            r.contiguous <==> |places| == |c.batches| && OnceEach(places, r.first, r.last)
  {
    var places := Indexes(plan, c.batches);
    if |places| == |c.batches| { OnceEachExactly(places, Least(places), Greatest(places), (x: int, y: int) => x < y); }
  }

  lemma SortsTo(s: seq<int>, t: seq<int>, less: (int, int) -> bool)
    requires multiset(s) == multiset(t) && (forall x, y :: less(x, y) <==> x < y)
    requires forall i, j :: 0 <= i < j < |t| ==> t[i] < t[j]
    ensures Sorting.Sort(s, less) == t
  {
    Sorting.SortPermutes(s, less);
    assert Sorting.WeakOrder(less);
    Sorting.SortSorts(s, less);
    var sorted := Sorting.Sort(s, less);
    assert Sorting.Sorted(t, less) && Sorting.Separates(sorted, less);
    Sorting.SortedUnique(sorted, t, less);
  }

  predicate RangeLess(a: Range, b: Range) {
    a.first < b.first || (a.first == b.first && (a.last < b.last || (a.last == b.last && SourceLess(a.candidate, b.candidate))))
  }

  function RangesOf(plan: seq<string>, accepted: seq<Candidate>): (ranges: seq<Range>)
    requires forall c :: c in accepted ==> c.batches != []
    ensures |ranges| == |accepted| && forall k :: 0 <= k < |ranges| ==> ranges[k] == RangeOf(plan, accepted[k])
  {
    seq(|accepted|, k requires 0 <= k < |accepted| => RangeOf(plan, accepted[k]))
  }

  function SortedRanges(plan: seq<string>, accepted: seq<Candidate>): seq<Range>
    requires forall c :: c in accepted ==> c.batches != []
  {
    Sorting.Sort(RangesOf(plan, accepted), RangeLess)
  }

  /** The candidate that starts at each position; the last one wins. */
  function ByStart(ranges: seq<Range>): map<int, Range> {
    if ranges == [] then map[] else ByStart(ranges[..|ranges| - 1])[ranges[|ranges| - 1].first := ranges[|ranges| - 1]]
  }

  predicate AllContiguous(ranges: seq<Range>) {
    forall r :: r in ranges ==> r.contiguous
  }

  ghost predicate DistinctStarts(ranges: seq<Range>) {
    forall i, j :: 0 <= i < j < |ranges| ==> ranges[i].first != ranges[j].first
  }

  // ----- one segment

  datatype End = NoEnd | EndAt(at: int)

  /** The recorded end of an owner: the latest of its settling events (BLE) or of all its events (API), at least 0. */
  function OwnerEnd(events: seq<Timelines.Event>, source: Source, owner: string): End {
    if events == [] then NoEnd
    else
      var earlier, e := OwnerEnd(events[..|events| - 1], source, owner), events[|events| - 1];
      if e.owner == owner && (source == Api || e.phase == Timelines.Settling) then EndAt(Max(if earlier == NoEnd then 0 else earlier.at, e.endMs))
      else earlier
  }

  /** The event tells when `owner` has ended. */
  ghost predicate TellsEnd(e: Timelines.Event, source: Source, owner: string) {
    e.owner == owner && (source == Ble ==> e.phase == Timelines.Settling)
  }

  /** An owner ends with the last event that tells so, never before 0, and has no end if none does. */
  lemma {:induction false} OwnerEndIsLast(events: seq<Timelines.Event>, source: Source, owner: string)
    ensures OwnerEnd(events, source, owner) == NoEnd <==> forall e :: e in events ==> !TellsEnd(e, source, owner)
    ensures var end := OwnerEnd(events, source, owner);
            end.EndAt? ==>
              && end.at >= 0 && (forall e :: e in events && TellsEnd(e, source, owner) ==> e.endMs <= end.at)
              && (end.at == 0 || exists e :: e in events && TellsEnd(e, source, owner) && e.endMs == end.at)
  {
    if events != [] {
      var front, last := events[..|events| - 1], events[|events| - 1];
      OwnerEndIsLast(front, source, owner);
      assert events == front + [last];
      var earlier := OwnerEnd(front, source, owner);
      if earlier.EndAt? && earlier.at != 0 {
        var e :| e in front && TellsEnd(e, source, owner) && e.endMs == earlier.at;
        assert e in events;
      }
      assert last in events;
    }
  }

  function EndOr(e: End, default_: int): int {
    if e == NoEnd then default_ else e.at
  }

  /** One owner for each batch, all owners end, in their order. */
  predicate SegmentSound(c: Candidate) {
    && |c.owners| == |c.batches|
    && (forall o :: o in c.owners ==> OwnerEnd(c.events, c.source, o) != NoEnd)
    && (forall k :: 0 <= k < |c.owners| - 1 ==> EndOr(OwnerEnd(c.events, c.source, c.owners[k]), -1) <= EndOr(OwnerEnd(c.events, c.source, c.owners[k + 1]), -1))
  }

  /** A segment is sound exactly when it has an owner for each batch, every owner has an event that tells its end, and no owner
      ends after a later one. */
  lemma SoundExactly(c: Candidate)
    ensures SegmentSound(c) <==>
              && |c.owners| == |c.batches|
              && (forall o :: o in c.owners ==> exists e :: e in c.events && TellsEnd(e, c.source, o))
              && (forall i, j :: 0 <= i < j < |c.owners| ==> EndsInTime(c, i, j))
  {
    forall o | o in c.owners ensures OwnerEnd(c.events, c.source, o) != NoEnd <==> exists e :: e in c.events && TellsEnd(e, c.source, o) {
      OwnerEndIsLast(c.events, c.source, o);
    }
    if SegmentSound(c) {
      forall i, j | 0 <= i < j < |c.owners| ensures EndsInTime(c, i, j) { LaterOwner(c, i, j); }
    }
    if forall i, j :: 0 <= i < j < |c.owners| ==> EndsInTime(c, i, j) {
      forall k | 0 <= k < |c.owners| - 1
        ensures EndOr(OwnerEnd(c.events, c.source, c.owners[k]), -1) <= EndOr(OwnerEnd(c.events, c.source, c.owners[k + 1]), -1)
      {
        assert EndsInTime(c, k, k + 1);
        OwnerEndIsLast(c.events, c.source, c.owners[k + 1]);
      }
    }
  }

  /** The owner at place `i` ends no later than the one at place `j`; without an end it counts as ending at -1. */
  ghost predicate EndsInTime(c: Candidate, i: nat, j: nat)
    requires i < |c.owners| && j < |c.owners|
  {
    var first, second := OwnerEnd(c.events, c.source, c.owners[i]), OwnerEnd(c.events, c.source, c.owners[j]);
    first == NoEnd || (second != NoEnd && first.at <= second.at)
  }

  lemma {:induction false} LaterOwner(c: Candidate, i: nat, j: nat)
    requires SegmentSound(c) && i <= j < |c.owners|
    ensures EndsInTime(c, i, j)
  {
    assert c.owners[j] in c.owners && c.owners[i] in c.owners;
    if i < j {
      LaterOwner(c, i, j - 1);
      var k := j - 1;
      assert c.owners[k] in c.owners;
      assert EndOr(OwnerEnd(c.events, c.source, c.owners[k]), -1) <= EndOr(OwnerEnd(c.events, c.source, c.owners[k + 1]), -1);
    }
  }

  function LocalEnd(c: Candidate): int {
    if |c.owners| != |c.batches| then 0 else Timelines.MaxEnd(c.events)
  }

  /** Ends of the first `n` batches, shifted. */
  function PutEnds(completion: map<string, int>, c: Candidate, shift: int, n: nat): map<string, int>
    requires n <= |c.owners| == |c.batches|
  {
    if n == 0 then completion
    else PutEnds(completion, c, shift, n - 1)[c.batches[n - 1] := shift + EndOr(OwnerEnd(c.events, c.source, c.owners[n - 1]), 0)]
  }

  /** Each batch of a segment completes when its owner ends, shifted by where the segment starts; other batches are left
      alone. */
  lemma {:induction false} EndsArePut(completion: map<string, int>, c: Candidate, shift: int, n: nat)
    requires n <= |c.owners| == |c.batches| && Distinct(c.batches)
    ensures var after := PutEnds(completion, c, shift, n);
            && (forall k :: 0 <= k < n ==> c.batches[k] in after && after[c.batches[k]] == shift + EndOr(OwnerEnd(c.events, c.source, c.owners[k]), 0))
            && (forall b :: b !in c.batches ==> (b in after <==> b in completion) && (b in after ==> after[b] == completion[b]))
  {
    if n > 0 { EndsArePut(completion, c, shift, n - 1); }
  }

  /** The last batch paired with that owner, empty when there is none. */
  function BatchOf(c: Candidate, owner: string, n: nat): string
    requires n <= |c.owners| == |c.batches|
  {
    if n == 0 then "" else if c.owners[n - 1] == owner then c.batches[n - 1] else BatchOf(c, owner, n - 1)
  }

  function Shifted(c: Candidate, e: Timelines.Event, shift: int): SimEvent
    requires |c.owners| == |c.batches|
  {
    var keys := if e.owner in c.keys then c.keys[e.owner] else Keys("", "", "", "");
    SimEvent(if c.source == Ble then BleSegment else ApiSegment, c.id, e.owner, if c.source == Ble then BatchOf(c, e.owner, |c.owners|) else e.owner,
             Micro(e.phase), shift + e.startMs, shift + e.endMs, keys.host, keys.bucket, keys.session, keys.endpoint)
  }

  function ShiftedAll(c: Candidate, shift: int): seq<SimEvent> {
    if |c.owners| != |c.batches| then []
    else seq(|c.events|, k requires 0 <= k < |c.events| => Shifted(c, c.events[k], shift))
  }

  // ----- the walk

  /** Plan, estimated latency of each batch, candidates by start, and whether segments must not get longer. */
  datatype Setting = Setting(plan: seq<string>, costs: seq<int>, byStart: map<int, Range>, segmentLocal: bool)

  /** A latency for each batch, and every candidate that starts in the plan lies in it. */
  ghost predicate Placed(s: Setting) {
    && |s.costs| == |s.plan|
    && (forall k :: k in s.byStart && k >= 0 ==> s.byStart[k].first == k <= s.byStart[k].last < |s.plan|)
  }

  /** And no two batches share a name, and none takes negative time. */
  ghost predicate WellSet(s: Setting) {
    Placed(s) && Distinct(s.plan) && forall k :: 0 <= k < |s.costs| ==> s.costs[k] >= 0
  }

  datatype State = State(cursor: int, saved: int, completion: map<string, int>, events: seq<SimEvent>,
    contiguousOk: bool, savingsOk: bool, projectionOk: bool, simulated: seq<Candidate>)

  const START := State(0, 0, map[], [], true, true, true, [])

  function Segment(s: Setting, first: nat, last: nat): seq<string>
    requires first <= last < |s.plan|
  {
    s.plan[first..last + 1]
  }

  function Original(s: Setting, first: nat, last: nat): int
    requires |s.costs| == |s.plan| && first <= last < |s.plan|
  {
    Total(s.costs, last + 1) - Total(s.costs, first)
  }

  /** A candidate replaces its batches by its own timeline. */
  function Splice(s: Setting, st: State, r: Range): State
    requires Placed(s) && 0 <= r.first <= r.last < |s.plan|
  {
    var c := r.candidate;
    var original, local := Original(s, r.first, r.last), LocalEnd(c);
    var saving := Max(0, original - local);
    State(st.cursor + local, st.saved + saving,
          if |c.owners| == |c.batches| then PutEnds(st.completion, c, st.cursor, |c.owners|) else st.completion,
          st.events + ShiftedAll(c, st.cursor),
          st.contiguousOk && Segment(s, r.first, r.last) == c.batches,
          st.savingsOk && (s.segmentLocal ==> local <= original) && saving == c.saved,
          st.projectionOk && SegmentSound(c), st.simulated + [c])
  }

  function CoarseEvent(batch: string, start: int, end: int): SimEvent {
    SimEvent(Coarse, "", batch, batch, CoarseBatch, start, end, "", "", "", "")
  }

  /** A batch without candidate runs as estimated. */
  function RunBatch(s: Setting, st: State, index: nat): State
    requires Placed(s) && index < |s.plan|
  {
    var end := st.cursor + s.costs[index];
    st.(cursor := end, completion := st.completion[s.plan[index] := end], events := st.events + [CoarseEvent(s.plan[index], st.cursor, end)])
  }

  ghost function NextIndex(s: Setting, index: nat): nat
    requires Placed(s) && index < |s.plan|
    ensures index < NextIndex(s, index) <= |s.plan|
  {
    if index in s.byStart then s.byStart[index].last + 1 else index + 1
  }

  function Advance(s: Setting, st: State, index: nat): State
    requires Placed(s) && index < |s.plan|
  {
    if index in s.byStart then Splice(s, st, s.byStart[index]) else RunBatch(s, st, index)
  }

  /** The state after the whole plan, from `index` on. */
  ghost function Walk(s: Setting, st: State, index: nat): State
    requires Placed(s) && index <= |s.plan|
    decreases |s.plan| - index
  {
    if index == |s.plan| then st else Walk(s, Advance(s, st, index), NextIndex(s, index))
  }

  // ----- the report

  function EndIn(completion: map<string, int>, batch: string): int {
    if batch in completion then completion[batch] else -1
  }

  /** Every batch has completed, none before its predecessor. */
  ghost predicate InOrder(plan: seq<string>, completion: map<string, int>) {
    && (forall i :: 0 <= i < |plan| ==> EndIn(completion, plan[i]) >= 0)
    && (forall i :: 0 <= i < |plan| - 1 ==> EndIn(completion, plan[i]) <= EndIn(completion, plan[i + 1]))
  }

  ghost predicate Claimed(accepted: seq<Candidate>, batch: string) {
    exists c :: c in accepted && batch in c.batches
  }

  /** The batch has completed, and no later than without refinement unless a candidate claims it. */
  ghost predicate Projected(s: Setting, accepted: seq<Candidate>, completion: map<string, int>, i: nat)
    requires i < |s.plan| && |s.costs| == |s.plan|
  {
    s.plan[i] in completion && (Claimed(accepted, s.plan[i]) || completion[s.plan[i]] <= Total(s.costs, Position(s.plan, s.plan[i]) + 1))
  }

  /** The look-up of an unclaimed batch that never completed. */
  ghost predicate LookupFails(s: Setting, accepted: seq<Candidate>, completion: map<string, int>, i: nat)
    requires i < |s.plan|
  {
    s.plan[i] !in completion && !Claimed(accepted, s.plan[i])
  }

  datatype Report = Raised | Report(contiguousOk: bool, savingsOk: bool, orderOk: bool, projectionOk: bool, total: int, saved: int, events: seq<SimEvent>,
    completion: map<string, int>)

  function SettingOf(plan: seq<string>, costs: seq<int>, accepted: seq<Candidate>, segmentLocal: bool): Setting
    requires |costs| == |plan| && forall c :: c in accepted ==> c.batches != []
  {
    Setting(plan, ByName(plan, costs), ByStart(SortedRanges(plan, accepted)), segmentLocal)
  }

  /** The latencies as they are looked up by name: among batches of one name the last counts. */
  function ByName(plan: seq<string>, costs: seq<int>): (r: seq<int>)
    requires |costs| == |plan|
    ensures |r| == |plan| && forall k :: 0 <= k < |r| ==> 0 <= Position(plan, plan[k]) < |plan| && r[k] == costs[Position(plan, plan[k])]
  {
    seq(|plan|, k requires 0 <= k < |plan| => costs[Position(plan, plan[k])])
  }

  /** Sum over the names among the first `n` batches. */
  ghost function TotalOnce(plan: seq<string>, costs: seq<int>, n: nat): int
    requires n <= |plan| == |costs|
  {
    if n == 0 then 0 else TotalOnce(plan, costs, n - 1) + if Position(plan, plan[n - 1]) == n - 1 then costs[n - 1] else 0
  }

  lemma {:induction false} PositionDistinct(plan: seq<string>, k: nat)
    requires Distinct(plan) && k < |plan|
    ensures Position(plan, plan[k]) == k
  {
    assert plan[Position(plan, plan[k])] == plan[k];
  }

  lemma ByNameDistinct(plan: seq<string>, costs: seq<int>)
    requires |costs| == |plan| && Distinct(plan)
    ensures ByName(plan, costs) == costs
  {
    forall k | 0 <= k < |plan| { PositionDistinct(plan, k); }
  }

  lemma {:induction false} TotalOnceDistinct(plan: seq<string>, costs: seq<int>, n: nat)
    requires n <= |plan| == |costs| && Distinct(plan)
    ensures TotalOnce(plan, costs, n) == Total(costs, n)
  {
    if n > 0 {
      TotalOnceDistinct(plan, costs, n - 1);
      PositionDistinct(plan, n - 1);
    }
  }

  /** What the report says, in terms of the walk over the whole plan. */
  ghost predicate Reports(s: Setting, accepted: seq<Candidate>, enforceProjection: bool, r: Report)
    requires Placed(s) && forall c :: c in accepted ==> c.batches != []
  {
    var f, ranges := Walk(s, START, 0), SortedRanges(s.plan, accepted);
    if enforceProjection && exists i :: 0 <= i < |s.plan| && LookupFails(s, accepted, f.completion, i) then r == Raised
    else
      && r.Report?
      && r.contiguousOk == (AllContiguous(ranges) && DistinctStarts(ranges) && f.contiguousOk)
      && r.savingsOk == (f.savingsOk && TotalOnce(s.plan, s.costs, |s.plan|) - f.cursor == f.saved)
      && r.orderOk == InOrder(s.plan, f.completion)
      && r.projectionOk == (f.projectionOk && (enforceProjection ==> AllProjected(s, accepted, f.completion, |s.plan|)))
      && r.total == f.cursor && r.saved == f.saved && r.events == f.events && r.completion == f.completion
  }

  ghost predicate AllProjected(s: Setting, accepted: seq<Candidate>, completion: map<string, int>, n: nat)
    requires n <= |s.plan| == |s.costs|
  {
    forall i :: 0 <= i < n ==> Projected(s, accepted, completion, i)
  }

  // ----- the validator's loops

  method SimulateSegment(c: Candidate, shift: int, completion: map<string, int>)
    returns (events: seq<SimEvent>, updated: map<string, int>, localEnd: int, sound: bool)
    ensures events == ShiftedAll(c, shift) && localEnd == LocalEnd(c) && sound == SegmentSound(c)
    ensures updated == if |c.owners| == |c.batches| then PutEnds(completion, c, shift, |c.owners|) else completion
  {
    if |c.owners| != |c.batches| { return [], completion, 0, false; }
    events := [];
    for k := 0 to |c.events|
      invariant events == ShiftedAll(c, shift)[..k]
    {
      events := events + [Shifted(c, c.events[k], shift)];
    }
    updated := completion;
    for k := 0 to |c.owners|
      invariant updated == PutEnds(completion, c, shift, k)
    {
      updated := updated[c.batches[k] := shift + EndOr(OwnerEnd(c.events, c.source, c.owners[k]), 0)];
    }
    localEnd := Timelines.MaxEnd(c.events);
    sound := SegmentSound(c);
  }

  /** Builds the table of starts from the sorted ranges and notices duplicates. */
  method IndexByStart(ranges: seq<Range>) returns (byStart: map<int, Range>, distinct: bool)
    ensures byStart == ByStart(ranges) && distinct == DistinctStarts(ranges)
  {
    byStart, distinct := map[], true;
    for k := 0 to |ranges|
      invariant byStart == ByStart(ranges[..k]) && distinct == DistinctStarts(ranges[..k])
    {
      var r := ranges[k];
      assert ranges[..k + 1][..k] == ranges[..k];
      StartsKnown(ranges[..k]);
      if r.first in byStart { distinct := false; }
      DistinctNext(ranges, k);
      byStart := byStart[r.first := r];
    }
    assert ranges[..|ranges|] == ranges;
  }

  lemma {:induction false} StartsKnown(ranges: seq<Range>)
    ensures forall f :: f in ByStart(ranges) <==> exists k :: 0 <= k < |ranges| && ranges[k].first == f
  {
    if ranges != [] {
      var front := ranges[..|ranges| - 1];
      StartsKnown(front);
      forall f | f in ByStart(front) ensures exists k :: 0 <= k < |ranges| && ranges[k].first == f {
        var k :| 0 <= k < |front| && front[k].first == f;
        assert ranges[k].first == f;
      }
      forall k | 0 <= k < |ranges| ensures ranges[k].first in ByStart(ranges) {
        if k < |front| { assert front[k] == ranges[k]; }
      }
      assert ranges[|ranges| - 1].first in ByStart(ranges);
    }
  }

  lemma DistinctNext(ranges: seq<Range>, k: nat)
    requires k < |ranges|
    ensures DistinctStarts(ranges[..k + 1]) <==> DistinctStarts(ranges[..k]) && forall j :: 0 <= j < k ==> ranges[..k][j].first != ranges[k].first
  {
    var next, front := ranges[..k + 1], ranges[..k];
    assert forall j :: 0 <= j < k ==> next[j] == front[j];
    assert next[k] == ranges[k];
  }

  /** One step of the walk, as the loop takes it. */
  method Step(s: Setting, index: nat, cursor: int, saved: int, completion: map<string, int>, events: seq<SimEvent>,
              contiguousOk: bool, savingsOk: bool, projectionOk: bool, ghost simulated: seq<Candidate>)
    returns (index2: nat, cursor2: int, saved2: int, completion2: map<string, int>, events2: seq<SimEvent>,
             contiguousOk2: bool, savingsOk2: bool, projectionOk2: bool, ghost simulated2: seq<Candidate>)
    requires Placed(s) && index < |s.plan|
    ensures index2 == NextIndex(s, index)
    ensures State(cursor2, saved2, completion2, events2, contiguousOk2, savingsOk2, projectionOk2, simulated2)
              == Advance(s, State(cursor, saved, completion, events, contiguousOk, savingsOk, projectionOk, simulated), index)
  {
    contiguousOk2, savingsOk2, projectionOk2 := contiguousOk, savingsOk, projectionOk;
    if index in s.byStart {
      var r := s.byStart[index];
      var c := r.candidate;
      if s.plan[index..r.last + 1] != c.batches { contiguousOk2 := false; }
      var originalSegment := Total(s.costs, r.last + 1) - Total(s.costs, index);
      var localEvents, updated, localEnd, sound := SimulateSegment(c, cursor, completion);
      if !sound { projectionOk2 := false; }
      if s.segmentLocal && localEnd > originalSegment { savingsOk2 := false; }
      var saving := Max(0, originalSegment - localEnd);
      if saving != c.saved { savingsOk2 := false; }
      saved2, events2, completion2, cursor2, index2 := saved + saving, events + localEvents, updated, cursor + localEnd, r.last + 1;
      simulated2 := simulated + [c];
    } else {
      var batch, duration := s.plan[index], s.costs[index];
      events2 := events + [CoarseEvent(batch, cursor, cursor + duration)];
      completion2 := completion[batch := cursor + duration];
      cursor2, saved2, index2, simulated2 := cursor + duration, saved, index + 1, simulated;
    }
  }

  method CheckOrder(plan: seq<string>, completion: map<string, int>) returns (ok: bool)
    ensures ok == InOrder(plan, completion)
  {
    ok := true;
    for i := 0 to |plan|
      invariant ok == InOrder(plan[..i], completion)
    {
      OrderNext(plan, i, completion);
      if EndIn(completion, plan[i]) < 0 { ok := false; }
      if i > 0 && EndIn(completion, plan[i - 1]) > EndIn(completion, plan[i]) { ok := false; }
    }
    assert plan[..|plan|] == plan;
  }

  lemma OrderNext(plan: seq<string>, i: nat, completion: map<string, int>)
    requires i < |plan|
    ensures InOrder(plan[..i + 1], completion) <==>
            InOrder(plan[..i], completion) && EndIn(completion, plan[i]) >= 0 && (i > 0 ==> EndIn(completion, plan[i - 1]) <= EndIn(completion, plan[i]))
  {
    var next, front := plan[..i + 1], plan[..i];
    assert forall j :: 0 <= j < i ==> next[j] == front[j] == plan[j];
    assert next[i] == plan[i];
  }

  method ClaimedIn(accepted: seq<Candidate>, batch: string) returns (found: bool)
    ensures found == Claimed(accepted, batch)
  {
    found := exists c :: c in accepted && batch in c.batches;
  }

  /** What the batches up to the last one of a name take without refinement. */
  method Baseline(costs: seq<int>, n: nat) returns (baseline: int)
    requires n <= |costs|
    ensures baseline == Total(costs, n)
  {
    baseline := 0;
    for k := 0 to n
      invariant baseline == Total(costs, k)
    {
      baseline := baseline + costs[k];
    }
  }

  /** Looks every unclaimed batch up; an absent one raises. */
  method CheckProjection(s: Setting, accepted: seq<Candidate>, completion: map<string, int>) returns (raised: bool, ok: bool)
    requires Placed(s)
    ensures raised == exists i :: 0 <= i < |s.plan| && LookupFails(s, accepted, completion, i)
    ensures !raised ==> ok == AllProjected(s, accepted, completion, |s.plan|)
  {
    raised, ok := false, true;
    for i := 0 to |s.plan|
      invariant forall j :: 0 <= j < i ==> !LookupFails(s, accepted, completion, j)
      invariant ok == AllProjected(s, accepted, completion, i)
    {
      var claimed := ClaimedIn(accepted, s.plan[i]);
      if s.plan[i] !in completion { ok := false; }
      if !claimed {
        if s.plan[i] !in completion {
          assert LookupFails(s, accepted, completion, i);
          return true, false;
        }
        var baseline := Baseline(s.costs, Position(s.plan, s.plan[i]) + 1);
        if completion[s.plan[i]] > baseline { ok := false; }
      }
      ProjectedNext(s, accepted, completion, i);
    }
  }

  lemma ProjectedNext(s: Setting, accepted: seq<Candidate>, completion: map<string, int>, i: nat)
    requires i < |s.plan| == |s.costs|
    ensures AllProjected(s, accepted, completion, i + 1) <==> AllProjected(s, accepted, completion, i) && Projected(s, accepted, completion, i)
  {
  }

  /** The sum over the table of latencies, which has one entry for each name. */
  method OriginalTotal(plan: seq<string>, costs: seq<int>) returns (total: int)
    requires |costs| == |plan|
    ensures total == TotalOnce(plan, costs, |plan|)
  {
    total := 0;
    for k := 0 to |plan|
      invariant total == TotalOnce(plan, costs, k)
    {
      if Position(plan, plan[k]) == k { total := total + costs[k]; }
    }
  }

  /** The first batch of a candidate is looked up; a candidate without batches raises. */
  method Validate(plan: seq<string>, costs: seq<int>, accepted: seq<Candidate>, segmentLocal: bool, enforceProjection: bool) returns (r: Report)
    requires |costs| == |plan|
    ensures (exists c :: c in accepted && c.batches == []) ==> r == Raised
    ensures (forall c :: c in accepted ==> c.batches != []) ==>
      Placed(SettingOf(plan, costs, accepted, segmentLocal)) && Reports(SettingOf(plan, costs, accepted, segmentLocal), accepted, enforceProjection, r)
  {
    if exists c :: c in accepted && c.batches == [] { return Raised; }
    var ranges := SortedRanges(plan, accepted);
    var byStart, distinct := IndexByStart(ranges);
    var s := Setting(plan, ByName(plan, costs), byStart, segmentLocal);
    RangesPlaced(plan, accepted);
    var original := OriginalTotal(plan, s.costs);
    var cursor, saved, completion, events, contiguousOk, savingsOk, projectionOk := Simulate(s);
    var orderOk := CheckOrder(plan, completion);
    if enforceProjection {
      var raised, projected := CheckProjection(s, accepted, completion);
      if raised { return Raised; }
      projectionOk := projectionOk && projected;
    }
    r := Report(AllContiguous(ranges) && distinct && contiguousOk, savingsOk && original - cursor == saved, orderOk, projectionOk,
                cursor, saved, events, completion);
  }

  /** The walk over the whole plan. */
  method Simulate(s: Setting)
    returns (cursor: int, saved: int, completion: map<string, int>, events: seq<SimEvent>, contiguousOk: bool, savingsOk: bool, projectionOk: bool)
    requires Placed(s)
    ensures exists simulated :: State(cursor, saved, completion, events, contiguousOk, savingsOk, projectionOk, simulated) == Walk(s, START, 0)
  {
    var index := 0;
    cursor, saved, completion, events := 0, 0, map[], [];
    contiguousOk, savingsOk, projectionOk := true, true, true;
    ghost var simulated: seq<Candidate> := [];
    while index < |s.plan|
      invariant 0 <= index <= |s.plan|
      invariant Walk(s, State(cursor, saved, completion, events, contiguousOk, savingsOk, projectionOk, simulated), index) == Walk(s, START, 0)
    {
      index, cursor, saved, completion, events, contiguousOk, savingsOk, projectionOk, simulated :=
        Step(s, index, cursor, saved, completion, events, contiguousOk, savingsOk, projectionOk, simulated);
    }
  }

  lemma {:induction false} ByStartValues(ranges: seq<Range>)
    ensures forall f :: f in ByStart(ranges) ==> ByStart(ranges)[f] in ranges && ByStart(ranges)[f].first == f
  {
    if ranges != [] {
      ByStartValues(ranges[..|ranges| - 1]);
      assert ranges == ranges[..|ranges| - 1] + [ranges[|ranges| - 1]];
    }
  }

  lemma RangesPlaced(plan: seq<string>, accepted: seq<Candidate>)
    requires forall c :: c in accepted ==> c.batches != []
    ensures var byStart := ByStart(SortedRanges(plan, accepted));
            forall k :: k in byStart && k >= 0 ==> byStart[k].first == k <= byStart[k].last < |plan|
  {
    var ranges := SortedRanges(plan, accepted);
    ByStartValues(ranges);
    Sorting.SortPermutes(RangesOf(plan, accepted), RangeLess);
    SameMembers(ranges, RangesOf(plan, accepted));
  }
}
