/** What it means that the combined validator accepts the spliced plan (optimizer/combined_micro_refinement.py
    `validate_combined_candidates`). */
module CombinedTheorems {
  import opened CombinedResolution
  import opened CombinedSimulation
  import opened Sequences
  import Sorting

  /** The refined candidates have no batch in common, as the resolution guarantees when batch overlap is forbidden. */
  ghost predicate DisjointBatches(accepted: seq<Candidate>) {
    forall i, j :: 0 <= i < j < |accepted| ==> !Meet(accepted[i].batches, accepted[j].batches)
  }

  lemma {:induction false} FlagsOnlyFall(s: Setting, st: State, index: nat)
    requires WellSet(s) && index <= |s.plan|
    ensures Walk(s, st, index).contiguousOk ==> st.contiguousOk
    ensures Walk(s, st, index).savingsOk ==> st.savingsOk
    decreases |s.plan| - index
  {
    if index < |s.plan| { FlagsOnlyFall(s, Advance(s, st, index), NextIndex(s, index)); }
  }

  /** How much time the walk has spent beyond what its savings account for. */
  ghost function Excess(s: Setting, st: State, index: nat): int
    requires |s.costs| == |s.plan| && index <= |s.plan|
  {
    st.cursor + st.saved - Total(s.costs, index)
  }

  lemma ExcessStep(s: Setting, st: State, index: nat)
    requires WellSet(s) && index < |s.plan|
    ensures Excess(s, Advance(s, st, index), NextIndex(s, index)) >= Excess(s, st, index)
  {
  }

  /** One turn of the walk that finds no fault with a candidate whose segment must not get longer takes exactly the time of
      the batches it passes less what the candidate claims to save. */
  lemma TurnAccounts(s: Setting, st: State, index: nat)
    requires WellSet(s) && index < |s.plan| && s.segmentLocal && Advance(s, st, index).savingsOk
    ensures var next, after := Advance(s, st, index), NextIndex(s, index);
      var saved := if index in s.byStart then s.byStart[index].candidate.saved else 0;
      && next.cursor - st.cursor == Total(s.costs, after) - Total(s.costs, index) - saved
      && next.saved - st.saved == saved >= 0 && Excess(s, next, after) == Excess(s, st, index)
  {
    if index in s.byStart {
      var r := s.byStart[index];
      assert Original(s, r.first, r.last) == Total(s.costs, r.last + 1) - Total(s.costs, index);
    } else {
      assert Total(s.costs, index + 1) == Total(s.costs, index) + s.costs[index];
    }
  }

  /** A segment that ran longer than estimated is never made up for. */
  lemma {:induction false} ExcessGrows(s: Setting, st: State, index: nat)
    requires WellSet(s) && index <= |s.plan|
    ensures Excess(s, Walk(s, st, index), |s.plan|) >= Excess(s, st, index)
    decreases |s.plan| - index
  {
    if index < |s.plan| {
      ExcessStep(s, st, index);
      ExcessGrows(s, Advance(s, st, index), NextIndex(s, index));
    }
  }

  ghost function SavedBy(candidates: seq<Candidate>): int {
    Sorting.SumBy(candidates, (c: Candidate) => c.saved)
  }

  lemma SavedByAppend(candidates: seq<Candidate>, c: Candidate)
    ensures SavedBy(candidates + [c]) == SavedBy(candidates) + c.saved
  {
    assert (candidates + [c])[..|candidates|] == candidates;
  }

  /** With consistent savings, what was saved is what the simulated candidates claim. */
  lemma {:induction false} SavedIsClaimed(s: Setting, st: State, index: nat)
    requires WellSet(s) && index <= |s.plan| && Walk(s, st, index).savingsOk && st.saved == SavedBy(st.simulated)
    ensures Walk(s, st, index).saved == SavedBy(Walk(s, st, index).simulated)
    decreases |s.plan| - index
  {
    if index < |s.plan| {
      var next := Advance(s, st, index);
      FlagsOnlyFall(s, next, NextIndex(s, index));
      if index in s.byStart { SavedByAppend(st.simulated, s.byStart[index].candidate); }
      SavedIsClaimed(s, next, NextIndex(s, index));
    }
  }

  ghost function CandidatesOf(ranges: seq<Range>): (cs: seq<Candidate>)
    ensures |cs| == |ranges| && forall k :: 0 <= k < |ranges| ==> cs[k] == ranges[k].candidate
  {
    seq(|ranges|, k requires 0 <= k < |ranges| => ranges[k].candidate)
  }

  /** The sorted ranges, all known and disjoint, from which the table of starts was built. */
  ghost predicate Laid(s: Setting, ranges: seq<Range>) {
    && WellSet(s)
    && (forall k :: 0 <= k < |ranges| ==> 0 <= ranges[k].first <= ranges[k].last < |s.plan| && s.plan[ranges[k].first] in ranges[k].candidate.batches)
    && (forall j, k :: 0 <= j < k < |ranges| ==> ranges[j].first < ranges[k].first && !Meet(ranges[j].candidate.batches, ranges[k].candidate.batches))
    && (forall k :: 0 <= k < |ranges| ==> ranges[k].first in s.byStart && s.byStart[ranges[k].first] == ranges[k])
    && (forall f :: f in s.byStart ==> exists k :: 0 <= k < |ranges| && ranges[k].first == f)
  }

  /** The first `m` ranges start before `index`, the others do not. */
  ghost predicate Passed(ranges: seq<Range>, m: nat, index: nat) {
    m <= |ranges| && (forall k :: 0 <= k < m ==> ranges[k].first < index) && (forall k :: m <= k < |ranges| ==> ranges[k].first >= index)
  }

  lemma FirstsAscend(s: Setting, ranges: seq<Range>, m: nat, k: nat)
    requires Laid(s, ranges) && m <= k < |ranges|
    ensures ranges[m].first <= ranges[k].first < |s.plan| && (m < k ==> ranges[m].first < ranges[k].first)
  {
  }

  lemma AllPassed(s: Setting, ranges: seq<Range>, m: nat)
    requires Laid(s, ranges) && Passed(ranges, m, |s.plan|)
    ensures m == |ranges|
  {
    if m < |ranges| { FirstsAscend(s, ranges, m, m); }
  }

  lemma PassedNext(s: Setting, ranges: seq<Range>, st: State, m: nat, index: nat)
    requires Laid(s, ranges) && Passed(ranges, m, index) && index < |s.plan| && Advance(s, st, index).contiguousOk
    ensures index in s.byStart ==> m < |ranges| && s.byStart[index] == ranges[m] && Passed(ranges, m + 1, NextIndex(s, index))
    ensures index !in s.byStart ==> Passed(ranges, m, NextIndex(s, index))
  {
    if index in s.byStart {
      StartIsNext(s, ranges, m, index);
      NextStartsLater(s, ranges, m);
      assert Passed(ranges, m + 1, ranges[m].last + 1);
    }
  }

  lemma StartIsNext(s: Setting, ranges: seq<Range>, m: nat, index: nat)
    requires Laid(s, ranges) && Passed(ranges, m, index) && index in s.byStart
    ensures m < |ranges| && ranges[m].first == index && s.byStart[index] == ranges[m]
  {
    var k :| 0 <= k < |ranges| && ranges[k].first == index;
    assert k >= m;
    FirstsAscend(s, ranges, m, k);
  }

  lemma MeetAt(a: seq<string>, b: seq<string>, x: string)
    ensures x in a && x in b ==> Meet(a, b)
  {
  }

  /** A matching segment contains no other start: that batch would belong to both candidates. */
  lemma NextStartsLater(s: Setting, ranges: seq<Range>, m: nat)
    requires Laid(s, ranges) && m < |ranges| && Segment(s, ranges[m].first, ranges[m].last) == ranges[m].candidate.batches
    ensures forall k :: m < k < |ranges| ==> ranges[k].first > ranges[m].last
  {
    forall k | m < k < |ranges| ensures ranges[k].first > ranges[m].last {
      SegmentHas(s, ranges[m], ranges[k].first);
      MeetAt(ranges[m].candidate.batches, ranges[k].candidate.batches, s.plan[ranges[k].first]);
    }
  }

  lemma CandidatesTail(ranges: seq<Range>, m: nat)
    requires m < |ranges|
    ensures CandidatesOf(ranges[m..]) == [ranges[m].candidate] + CandidatesOf(ranges[m + 1..])
  {
  }

  lemma WalkOnce(s: Setting, st: State, index: nat)
    requires WellSet(s) && index < |s.plan|
    ensures Walk(s, st, index) == Walk(s, Advance(s, st, index), NextIndex(s, index))
    ensures Advance(s, st, index).simulated == st.simulated + (if index in s.byStart then [s.byStart[index].candidate] else [])
  {
  }

  /** Every candidate is spliced in exactly once, in plan order. */
  lemma {:induction false} AllVisited(s: Setting, ranges: seq<Range>, st: State, m: nat, index: nat)
    requires Laid(s, ranges) && index <= |s.plan| && Passed(ranges, m, index) && Walk(s, st, index).contiguousOk
    ensures Walk(s, st, index).simulated == st.simulated + CandidatesOf(ranges[m..])
    decreases |s.plan| - index
  {
    if index < |s.plan| {
      var next, after := Advance(s, st, index), NextIndex(s, index);
      WalkOnce(s, st, index);
      FlagsOnlyFall(s, next, after);
      PassedNext(s, ranges, st, m, index);
      if index in s.byStart {
        CandidatesTail(ranges, m);
        AllVisited(s, ranges, next, m + 1, after);
      } else {
        AllVisited(s, ranges, next, m, after);
      }
    } else {
      AllPassed(s, ranges, m);
    }
  }

  // ----- from the accepted candidates to their ranges

  lemma RangeLessIsWeakOrder()
    ensures Sorting.WeakOrder(RangeLess)
  {
    BetterIsWeakOrder();
    forall x, y | RangeLess(x, y) ensures !RangeLess(y, x) {
      assert SourceLess(x.candidate, y.candidate) ==> !SourceLess(y.candidate, x.candidate);
    }
    forall x, y, z | !RangeLess(x, y) && !RangeLess(y, z) ensures !RangeLess(x, z) {
      assert !SourceLess(x.candidate, y.candidate) && !SourceLess(y.candidate, z.candidate) ==> !SourceLess(x.candidate, z.candidate);
    }
  }

  lemma {:induction false} StartsUnique(ranges: seq<Range>, k: nat)
    requires DistinctStarts(ranges) && k < |ranges|
    ensures ranges[k].first in ByStart(ranges) && ByStart(ranges)[ranges[k].first] == ranges[k]
  {
    if k < |ranges| - 1 {
      assert ranges[..|ranges| - 1][k] == ranges[k];
      StartsUnique(ranges[..|ranges| - 1], k);
    }
  }

  lemma RangesFromAccepted(plan: seq<string>, accepted: seq<Candidate>)
    requires forall c :: c in accepted ==> c.batches != []
    ensures forall r :: r in SortedRanges(plan, accepted) ==> exists i :: 0 <= i < |accepted| && r == RangeOf(plan, accepted[i])
  {
    var all := RangesOf(plan, accepted);
    Sorting.SortPermutes(all, RangeLess);
    SameMembers(SortedRanges(plan, accepted), all);
    forall r | r in SortedRanges(plan, accepted) ensures exists i :: 0 <= i < |accepted| && r == RangeOf(plan, accepted[i]) {
      var i :| 0 <= i < |all| && all[i] == r;
      assert r == RangeOf(plan, accepted[i]);
    }
  }

  lemma RangesApart(plan: seq<string>, accepted: seq<Candidate>, a: Range, b: Range)
    requires (forall c :: c in accepted ==> c.batches != []) && DisjointBatches(accepted)
    requires a in SortedRanges(plan, accepted) && b in SortedRanges(plan, accepted) && a.first != b.first
    ensures !Meet(a.candidate.batches, b.candidate.batches)
  {
    RangesFromAccepted(plan, accepted);
    var i :| 0 <= i < |accepted| && a == RangeOf(plan, accepted[i]);
    var j :| 0 <= j < |accepted| && b == RangeOf(plan, accepted[j]);
    assert i < j ==> !Meet(accepted[i].batches, accepted[j].batches);
    assert j < i ==> !Meet(accepted[j].batches, accepted[i].batches);
  }

  lemma StartsAscend(plan: seq<string>, accepted: seq<Candidate>, j: nat, k: nat)
    requires (forall c :: c in accepted ==> c.batches != []) && DistinctStarts(SortedRanges(plan, accepted))
    requires j < k < |SortedRanges(plan, accepted)|
    ensures SortedRanges(plan, accepted)[j].first < SortedRanges(plan, accepted)[k].first
  {
    RangeLessIsWeakOrder();
    Sorting.SortSorts(RangesOf(plan, accepted), RangeLess);
    var ranges := SortedRanges(plan, accepted);
    assert !RangeLess(ranges[k], ranges[j]);
  }

  lemma RangeKnown(plan: seq<string>, accepted: seq<Candidate>, r: Range)
    requires (forall c :: c in accepted ==> c.batches != []) && AllContiguous(SortedRanges(plan, accepted)) && r in SortedRanges(plan, accepted)
    ensures 0 <= r.first <= r.last < |plan| && plan[r.first] in r.candidate.batches && r.candidate in accepted
  {
    RangesFromAccepted(plan, accepted);
    var i :| 0 <= i < |accepted| && r == RangeOf(plan, accepted[i]);
    assert r.contiguous;
  }

  lemma LaidOut(plan: seq<string>, costs: seq<int>, accepted: seq<Candidate>, segmentLocal: bool)
    requires |costs| == |plan| && (forall c :: c in accepted ==> c.batches != []) && DisjointBatches(accepted)
    requires AllContiguous(SortedRanges(plan, accepted)) && DistinctStarts(SortedRanges(plan, accepted))
    requires WellSet(SettingOf(plan, costs, accepted, segmentLocal))
    ensures Laid(SettingOf(plan, costs, accepted, segmentLocal), SortedRanges(plan, accepted))
  {
    var ranges := SortedRanges(plan, accepted);
    forall k | 0 <= k < |ranges|
      ensures 0 <= ranges[k].first <= ranges[k].last < |plan| && plan[ranges[k].first] in ranges[k].candidate.batches
      ensures ranges[k].first in ByStart(ranges) && ByStart(ranges)[ranges[k].first] == ranges[k]
    {
      RangeKnown(plan, accepted, ranges[k]);
      StartsUnique(ranges, k);
    }
    forall j, k | 0 <= j < k < |ranges|
      ensures ranges[j].first < ranges[k].first && !Meet(ranges[j].candidate.batches, ranges[k].candidate.batches)
    {
      StartsAscend(plan, accepted, j, k);
      RangesApart(plan, accepted, ranges[j], ranges[k]);
    }
    StartsKnown(ranges);
  }

  lemma {:induction false} InsertCandidates(s: seq<Range>, x: Range)
    ensures multiset(CandidatesOf(Sorting.Insert(s, x, RangeLess))) == multiset(CandidatesOf(s)) + multiset{x.candidate}
  {
    if s == [] || !RangeLess(x, s[|s| - 1]) {
      assert CandidatesOf(s + [x]) == CandidatesOf(s) + [x.candidate];
    } else {
      var front, last := s[..|s| - 1], s[|s| - 1];
      InsertCandidates(front, x);
      assert CandidatesOf(s) == CandidatesOf(front) + [last.candidate];
      assert CandidatesOf(Sorting.Insert(front, x, RangeLess) + [last]) == CandidatesOf(Sorting.Insert(front, x, RangeLess)) + [last.candidate];
    }
  }

  lemma CandidatesAppend(s: seq<Range>, x: Range)
    ensures CandidatesOf(s + [x]) == CandidatesOf(s) + [x.candidate]
  {
  }

  lemma InsertedCandidates(sorted: seq<Range>, front: seq<Range>, last: Range)
    requires multiset(CandidatesOf(sorted)) == multiset(CandidatesOf(front))
    ensures multiset(CandidatesOf(Sorting.Insert(sorted, last, RangeLess))) == multiset(CandidatesOf(front + [last]))
  {
    InsertCandidates(sorted, last);
    CandidatesAppend(front, last);
  }

  lemma {:induction false} SortCandidates(s: seq<Range>)
    ensures multiset(CandidatesOf(Sorting.Sort(s, RangeLess))) == multiset(CandidatesOf(s))
  {
    if s != [] {
      var front, last := s[..|s| - 1], s[|s| - 1];
      SortCandidates(front);
      InsertedCandidates(Sorting.Sort(front, RangeLess), front, last);
      assert s == front + [last];
    }
  }

  // ----- batches nobody refines

  lemma {:induction false} PutElsewhere(completion: map<string, int>, c: Candidate, shift: int, n: nat, id: string)
    requires n <= |c.owners| == |c.batches| && id !in c.batches
    ensures id in PutEnds(completion, c, shift, n) <==> id in completion
    ensures id in completion ==> PutEnds(completion, c, shift, n)[id] == completion[id]
  {
    if n > 0 {
      PutElsewhere(completion, c, shift, n - 1, id);
      assert c.batches[n - 1] in c.batches;
    }
  }

  /** The walk from `index` on reaches batch `i` as a step of its own. */
  ghost predicate RunsAlone(s: Setting, index: nat, i: nat)
    requires WellSet(s) && index <= |s.plan|
    decreases |s.plan| - index
  {
    index < |s.plan| && ((index == i && i !in s.byStart) || RunsAlone(s, NextIndex(s, index), i))
  }

  lemma {:induction false} NoWayBack(s: Setting, index: nat, i: nat)
    requires WellSet(s) && index <= |s.plan| && RunsAlone(s, index, i)
    ensures index <= i < |s.plan|
    decreases |s.plan| - index
  {
    if !(index == i && i !in s.byStart) { NoWayBack(s, NextIndex(s, index), i); }
  }

  /** The candidates in the table are accepted ones, and none of them claims the batch. */
  ghost predicate Free(s: Setting, id: string) {
    forall f :: f in s.byStart ==> id !in s.byStart[f].candidate.batches
  }

  lemma FreeStep(s: Setting, st: State, index: nat, i: nat)
    requires WellSet(s) && index < |s.plan| && i < |s.plan| && Free(s, s.plan[i])
    ensures var next := Advance(s, st, index);
            s.plan[i] in next.completion <==> s.plan[i] in st.completion || (index == i && i !in s.byStart)
    ensures index != i && s.plan[i] in st.completion ==> Advance(s, st, index).completion[s.plan[i]] == st.completion[s.plan[i]]
    ensures index == i && i !in s.byStart ==> Advance(s, st, index).completion[s.plan[i]] == st.cursor + s.costs[i]
  {
    if index in s.byStart {
      var c := s.byStart[index].candidate;
      if |c.owners| == |c.batches| { PutElsewhere(st.completion, c, st.cursor, |c.owners|, s.plan[i]); }
    } else if index != i {
      assert s.plan[index] != s.plan[i];
    }
  }

  /** A batch that no candidate claims completes exactly when the walk reaches it as a step of its own. */
  lemma {:induction false} CompletesExactly(s: Setting, st: State, index: nat, i: nat)
    requires WellSet(s) && index <= |s.plan| && i < |s.plan| && Free(s, s.plan[i])
    ensures s.plan[i] in Walk(s, st, index).completion <==> s.plan[i] in st.completion || RunsAlone(s, index, i)
    decreases |s.plan| - index
  {
    if index < |s.plan| {
      FreeStep(s, st, index, i);
      WalkOnce(s, st, index);
      CompletesExactly(s, Advance(s, st, index), NextIndex(s, index), i);
    }
  }

  /** When every segment matches its candidate, the walk steps on every batch nobody claims. */
  lemma {:induction false} FreeBatchesRun(s: Setting, st: State, index: nat, i: nat)
    requires WellSet(s) && index <= i < |s.plan| && Free(s, s.plan[i]) && Walk(s, st, index).contiguousOk
    ensures RunsAlone(s, index, i)
    decreases |s.plan| - index
  {
    var next, after := Advance(s, st, index), NextIndex(s, index);
    WalkOnce(s, st, index);
    FlagsOnlyFall(s, next, after);
    if index in s.byStart {
      OutsideSegment(s, s.byStart[index], i);
      FreeBatchesRun(s, next, after, i);
    } else if index < i {
      FreeBatchesRun(s, next, after, i);
    }
  }

  lemma OutsideSegment(s: Setting, r: Range, i: nat)
    requires 0 <= r.first <= r.last < |s.plan| && i < |s.plan| && s.plan[i] !in r.candidate.batches && Segment(s, r.first, r.last) == r.candidate.batches
    ensures i < r.first || i > r.last
  {
    SegmentHas(s, r, i);
  }

  lemma SegmentHas(s: Setting, r: Range, i: nat)
    requires 0 <= r.first <= r.last < |s.plan|
    ensures r.first <= i <= r.last ==> s.plan[i] in Segment(s, r.first, r.last)
  {
    if r.first <= i <= r.last { assert Segment(s, r.first, r.last)[i - r.first] == s.plan[i]; }
  }

  /** Completions of batches behind the walk stay. */
  lemma {:induction false} Stays(s: Setting, st: State, index: nat, i: nat)
    requires WellSet(s) && i < index <= |s.plan| && Free(s, s.plan[i]) && s.plan[i] in st.completion
    ensures s.plan[i] in Walk(s, st, index).completion && Walk(s, st, index).completion[s.plan[i]] == st.completion[s.plan[i]]
    decreases |s.plan| - index
  {
    if index < |s.plan| {
      FreeStep(s, st, index, i);
      WalkOnce(s, st, index);
      Stays(s, Advance(s, st, index), NextIndex(s, index), i);
    }
  }

  /** When the savings account for the whole simulated time, no batch that runs alone ends later than estimated. */
  lemma {:induction false} OnTime(s: Setting, st: State, index: nat, i: nat)
    requires WellSet(s) && index <= |s.plan| && RunsAlone(s, index, i) && i < |s.plan| && Free(s, s.plan[i])
    requires st.saved >= 0 && Excess(s, Walk(s, st, index), |s.plan|) == 0
    ensures s.plan[i] in Walk(s, st, index).completion && Walk(s, st, index).completion[s.plan[i]] <= Total(s.costs, i + 1)
    decreases |s.plan| - index
  {
    var next, after := Advance(s, st, index), NextIndex(s, index);
    WalkOnce(s, st, index);
    FreeStep(s, st, index, i);
    if index == i && i !in s.byStart {
      ExcessGrows(s, st, index);
      Stays(s, next, after, i);
    } else {
      OnTime(s, next, after, i);
    }
  }

  // ----- the theorems

  lemma UnclaimedIsFree(plan: seq<string>, costs: seq<int>, accepted: seq<Candidate>, segmentLocal: bool, id: string)
    requires |costs| == |plan| && (forall c :: c in accepted ==> c.batches != []) && !Claimed(accepted, id)
    ensures Free(SettingOf(plan, costs, accepted, segmentLocal), id)
  {
    var ranges := SortedRanges(plan, accepted);
    ByStartValues(ranges);
    RangesFromAccepted(plan, accepted);
  }

  /** A candidate's range, from its first to its last batch, covers position `i`. */
  ghost predicate Swallowed(s: Setting, i: int) {
    exists f :: f in s.byStart && 0 <= f <= i <= s.byStart[f].last
  }

  /** No two ranges overlap. */
  ghost predicate Apart(s: Setting) {
    forall f, g :: f in s.byStart && g in s.byStart && 0 <= f < g ==> s.byStart[f].last < g
  }

  /** The walk passes a batch by only inside a range. */
  lemma {:induction false} PassedByIsSwallowed(s: Setting, index: nat, i: nat)
    requires WellSet(s) && index <= i < |s.plan| && !RunsAlone(s, index, i)
    ensures Swallowed(s, i)
    decreases |s.plan| - index
  {
    if index in s.byStart {
      if i > s.byStart[index].last { PassedByIsSwallowed(s, NextIndex(s, index), i); }
    } else if index < i {
      PassedByIsSwallowed(s, index + 1, i);
    }
  }

  /** When ranges do not overlap, the walk passes by every batch inside one. */
  lemma {:induction false} SwallowedIsPassedBy(s: Setting, index: nat, i: nat, f: int)
    requires WellSet(s) && Apart(s) && index <= f <= i < |s.plan| && f in s.byStart && i <= s.byStart[f].last
    ensures !RunsAlone(s, index, i)
    decreases |s.plan| - index
  {
    if index == f {
      if RunsAlone(s, NextIndex(s, index), i) { NoWayBack(s, NextIndex(s, index), i); }
    } else if index in s.byStart {
      assert s.byStart[index].last < f;
      SwallowedIsPassedBy(s, NextIndex(s, index), i, f);
    } else {
      SwallowedIsPassedBy(s, index + 1, i, f);
    }
  }

  /** A batch that no candidate claims lies in the range of one. */
  ghost predicate SwallowsUnclaimed(s: Setting, accepted: seq<Candidate>) {
    exists i :: 0 <= i < |s.plan| && !Claimed(accepted, s.plan[i]) && Swallowed(s, i)
  }

  /** Validation raises exactly when projection is enforced and the walk passes by a batch that no candidate claims. */
  lemma RaisesWhenPassedBy(plan: seq<string>, costs: seq<int>, accepted: seq<Candidate>, segmentLocal: bool, enforceProjection: bool, r: Report)
    requires |costs| == |plan| && (forall c :: c in accepted ==> c.batches != []) && WellSet(SettingOf(plan, costs, accepted, segmentLocal))
    requires Reports(SettingOf(plan, costs, accepted, segmentLocal), accepted, enforceProjection, r)
    ensures r == Raised <==> enforceProjection && exists i :: 0 <= i < |plan| && !Claimed(accepted, plan[i]) && !RunsAlone(SettingOf(plan, costs, accepted, segmentLocal), 0, i)
  {
    var s := SettingOf(plan, costs, accepted, segmentLocal);
    var f := Walk(s, START, 0);
    forall i | 0 <= i < |plan| ensures LookupFails(s, accepted, f.completion, i) <==> !Claimed(accepted, plan[i]) && !RunsAlone(s, 0, i) {
      if !Claimed(accepted, plan[i]) {
        UnclaimedIsFree(plan, costs, accepted, segmentLocal, plan[i]);
        CompletesExactly(s, START, 0, i);
      }
    }
  }

  /** Validation raises only when projection is enforced and a range swallows a batch that no candidate claims, and always
      then when the ranges do not overlap. */
  lemma RaisesExactly(plan: seq<string>, costs: seq<int>, accepted: seq<Candidate>, segmentLocal: bool, enforceProjection: bool, r: Report)
    requires |costs| == |plan| && (forall c :: c in accepted ==> c.batches != []) && WellSet(SettingOf(plan, costs, accepted, segmentLocal))
    requires Reports(SettingOf(plan, costs, accepted, segmentLocal), accepted, enforceProjection, r)
    ensures r == Raised ==> enforceProjection && SwallowsUnclaimed(SettingOf(plan, costs, accepted, segmentLocal), accepted)
    ensures Apart(SettingOf(plan, costs, accepted, segmentLocal)) ==>
      (r == Raised <==> enforceProjection && SwallowsUnclaimed(SettingOf(plan, costs, accepted, segmentLocal), accepted))
  {
    var s := SettingOf(plan, costs, accepted, segmentLocal);
    RaisesWhenPassedBy(plan, costs, accepted, segmentLocal, enforceProjection, r);
    if r == Raised {
      var i :| 0 <= i < |plan| && !Claimed(accepted, plan[i]) && !RunsAlone(s, 0, i);
      PassedByIsSwallowed(s, 0, i);
    }
    if Apart(s) && SwallowsUnclaimed(s, accepted) {
      var i :| 0 <= i < |plan| && !Claimed(accepted, plan[i]) && Swallowed(s, i);
      var f :| f in s.byStart && 0 <= f <= i <= s.byStart[f].last;
      SwallowedIsPassedBy(s, 0, i, f);
    }
  }

  const THREE: seq<string> := ["a", "b", "c"]

  lemma GapStarts(c: Candidate)
    requires c.batches == ["a", "c"]
    ensures ByStart(SortedRanges(THREE, [c])) == map[0 := RangeOf(THREE, c)]
  {
    GapRange(c);
    var range := RangeOf(THREE, c);
    assert RangesOf(THREE, [c]) == [range];
    Sorting.SortKeeps([range], RangeLess);
    assert [range][..0] == [];
  }

  ghost predicate GapSetting(s: Setting, c: Candidate) {
    && c.batches == ["a", "c"] && s.plan == THREE && |s.costs| == 3 && s.costs[0] >= 0 && s.costs[1] >= 0 && s.costs[2] >= 0
    && s.byStart == map[0 := RangeOf(THREE, c)]
  }

  lemma GapIsWellSet(s: Setting, c: Candidate)
    requires GapSetting(s, c)
    ensures WellSet(s) && Apart(s) && SwallowsUnclaimed(s, [c])
  {
    GapRange(c);
    assert THREE[0] == "a" && THREE[1] == "b" && THREE[2] == "c";
    assert 0 in s.byStart && 0 <= 0 <= 1 <= s.byStart[0].last;
    assert Swallowed(s, 1) && !Claimed([c], s.plan[1]);
  }

  /** A plan of three batches and one candidate for the first and the last: with projection enforced, validation raises. */
  lemma GapRaises(c: Candidate, costs: seq<int>, segmentLocal: bool, r: Report)
    requires c.batches == ["a", "c"] && |costs| == 3 && costs[0] >= 0 && costs[1] >= 0 && costs[2] >= 0
    requires WellSet(SettingOf(THREE, costs, [c], segmentLocal)) ==> Reports(SettingOf(THREE, costs, [c], segmentLocal), [c], true, r)
    ensures r == Raised
  {
    GapStarts(c);
    GapIsWellSet(SettingOf(THREE, costs, [c], segmentLocal), c);
    RaisesExactly(THREE, costs, [c], segmentLocal, true, r);
  }

  lemma GapRange(c: Candidate)
    requires c.batches == ["a", "c"]
    ensures RangeOf(THREE, c).first == 0 && RangeOf(THREE, c).last == 2
  {
    var plan, ids := THREE, c.batches;
    assert ids[..1] == ["a"] && ids[..1][..0] == [];
    assert plan[..2] == ["a", "b"] && plan[..2][..1] == ["a"];
    assert Indexes(plan, ["a"]) == [0];
    assert Indexes(plan, ids) == [0, 2];
  }

  /** With the coverage accepted, every candidate is spliced in exactly once. */
  lemma SplicedOnce(plan: seq<string>, costs: seq<int>, accepted: seq<Candidate>, segmentLocal: bool, enforceProjection: bool, r: Report)
    requires |costs| == |plan| && (forall c :: c in accepted ==> c.batches != []) && DisjointBatches(accepted) && WellSet(SettingOf(plan, costs, accepted, segmentLocal))
    requires Reports(SettingOf(plan, costs, accepted, segmentLocal), accepted, enforceProjection, r) && r.Report? && r.contiguousOk
    ensures multiset(Walk(SettingOf(plan, costs, accepted, segmentLocal), START, 0).simulated) == multiset(accepted)
  {
    var s, ranges := SettingOf(plan, costs, accepted, segmentLocal), SortedRanges(plan, accepted);
    LaidOut(plan, costs, accepted, segmentLocal);
    AllVisited(s, ranges, START, 0, 0);
    assert ranges[0..] == ranges;
    SortCandidates(RangesOf(plan, accepted));
    assert CandidatesOf(RangesOf(plan, accepted)) == accepted;
  }

  /** With coverage and savings accepted, the simulated total is the original total less all claimed savings. */
  lemma TotalFormula(plan: seq<string>, costs: seq<int>, accepted: seq<Candidate>, segmentLocal: bool, enforceProjection: bool, r: Report)
    requires |costs| == |plan| && (forall c :: c in accepted ==> c.batches != []) && DisjointBatches(accepted) && WellSet(SettingOf(plan, costs, accepted, segmentLocal))
    requires Reports(SettingOf(plan, costs, accepted, segmentLocal), accepted, enforceProjection, r) && r.Report? && r.contiguousOk && r.savingsOk
    ensures r.total == Total(costs, |plan|) - SavedBy(accepted)
  {
    var s := SettingOf(plan, costs, accepted, segmentLocal);
    ByNameDistinct(plan, costs);
    TotalOnceDistinct(plan, costs, |plan|);
    SplicedOnce(plan, costs, accepted, segmentLocal, enforceProjection, r);
    SavedIsClaimed(s, START, 0);
    Sorting.SumByPermutes(Walk(s, START, 0).simulated, accepted, (c: Candidate) => c.saved);
  }

  lemma FreeOnTime(s: Setting, i: nat)
    requires WellSet(s) && i < |s.plan| && Free(s, s.plan[i]) && Walk(s, START, 0).contiguousOk && Walk(s, START, 0).savingsOk
    requires Total(s.costs, |s.plan|) - Walk(s, START, 0).cursor == Walk(s, START, 0).saved
    ensures s.plan[i] in Walk(s, START, 0).completion && Walk(s, START, 0).completion[s.plan[i]] <= Total(s.costs, i + 1)
  {
    FreeBatchesRun(s, START, 0, i);
    OnTime(s, START, 0, i);
  }

  /** With coverage and savings accepted, validation does not raise and no batch outside the candidates ends later than
      without refinement. */
  lemma UnrefinedOnTime(plan: seq<string>, costs: seq<int>, accepted: seq<Candidate>, segmentLocal: bool, enforceProjection: bool, r: Report, i: nat)
    requires |costs| == |plan| && (forall c :: c in accepted ==> c.batches != []) && WellSet(SettingOf(plan, costs, accepted, segmentLocal))
    requires Reports(SettingOf(plan, costs, accepted, segmentLocal), accepted, enforceProjection, r) && r.Report? && r.contiguousOk && r.savingsOk
    requires i < |plan| && !Claimed(accepted, plan[i])
    ensures plan[i] in r.completion && r.completion[plan[i]] <= Total(costs, i + 1)
  {
    ByNameDistinct(plan, costs);
    TotalOnceDistinct(plan, costs, |plan|);
    UnclaimedIsFree(plan, costs, accepted, segmentLocal, plan[i]);
    FreeOnTime(SettingOf(plan, costs, accepted, segmentLocal), i);
  }

  /** Resolution with batch overlap forbidden yields candidates the theorems apply to. */
  lemma ResolvedAreDisjoint(ble: seq<Candidate>, api: seq<Candidate>, policy: Policy)
    requires policy.forbidBatchOverlap
    ensures DisjointBatches(Outcome(SortedPool(ble, api), policy).accepted)
  {
    var accepted := Outcome(SortedPool(ble, api), policy).accepted;
    DecisionIsFree(ble, api, policy);
    forall i, j | 0 <= i < j < |accepted| ensures !Meet(accepted[i].batches, accepted[j].batches) {
      assert !Conflict(accepted[i], accepted[j], policy);
    }
  }
}
