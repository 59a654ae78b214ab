/** The whole result of the combined validator (optimizer/combined_micro_refinement.py `validate_combined_candidates`),
    and what it takes to pass. */
module CombinedReport {
  import opened Sequences
  import opened CombinedResolution
  import opened CombinedSweep
  import opened CombinedSimulation
  import opened CombinedTheorems
  import A = ApiCorridor
  import T = ApiTheorems
  import V = ApiValidator
  import Recheck = OwnerRecheck
  import opened Timelines
  import Sorting

  datatype Flags = Flags(componentsOk: bool, conflictFree: bool, contiguousOk: bool, savingsOk: bool, orderOk: bool, projectionOk: bool,
    bleOk: bool, apiOk: bool, eventLoopOk: bool)
  {
    predicate Passed() {
      componentsOk && conflictFree && contiguousOk && savingsOk && orderOk && projectionOk && bleOk && apiOk && eventLoopOk
    }
  }

  datatype CaseOptions = CaseOptions(segmentLocal: bool, enforceProjection: bool, slotGuard: bool, limits: Limits)

  ghost predicate NoBypass(events: seq<SimEvent>) {
    forall e, b :: e in events && b in events ==> !Bypasses(e, b)
  }

  /** The steps of every accepted API corridor respect their predecessors. */
  ghost predicate StepsHold(events: seq<SimEvent>, accepted: seq<Candidate>) {
    forall k :: 0 <= k < |accepted| && accepted[k].source == Api ==> Recheck.OwnersHold(events, accepted[k].owners)
  }

  ghost predicate AllValidated(accepted: seq<Candidate>) {
    forall c :: c in accepted ==> c.validated
  }

  /** What each flag says. */
  ghost predicate Describes(f: Flags, d: Decision, base: Report, o: CaseOptions) {
    && base.Report? && f.componentsOk == AllValidated(d.accepted) && f.conflictFree == (d.conflicts == [])
    && f.contiguousOk == base.contiguousOk && f.savingsOk == base.savingsOk && f.orderOk == base.orderOk && f.projectionOk == base.projectionOk
    && f.bleOk == BleWithin(base.events, o.limits, o.slotGuard)
    && f.apiOk == (RequestsWithin(base.events, o.limits) && NoBypass(base.events) && StepsHold(base.events, d.accepted))
    && f.eventLoopOk == Within(Filter(base.events, Parses), e => "", o.limits.parse)
  }

  method CheckSteps(events: seq<SimEvent>, accepted: seq<Candidate>) returns (ok: bool)
    ensures ok == StepsHold(events, accepted)
  {
    var table := Recheck.GroupByOwner(events);
    ok := true;
    for k := 0 to |accepted|
      invariant ok == StepsHold(events, accepted[..k])
    {
      StepsNext(events, accepted, k);
      if accepted[k].source == Api {
        var owners := Recheck.CheckOwners(events, table, accepted[k].owners);
        if !owners { ok := false; }
      }
    }
    TakeAll(accepted);
  }

  lemma StepsNext(events: seq<SimEvent>, accepted: seq<Candidate>, k: nat)
    requires k < |accepted|
    ensures StepsHold(events, accepted[..k + 1])
            == (StepsHold(events, accepted[..k]) && (accepted[k].source == Api ==> Recheck.OwnersHold(events, accepted[k].owners)))
  {
    var next, front := accepted[..k + 1], accepted[..k];
    assert forall j :: 0 <= j < k ==> next[j] == front[j];
    assert next[k] == accepted[k];
  }

  method CheckLimits(events: seq<SimEvent>, d: Decision, o: CaseOptions) returns (bleOk: bool, apiOk: bool, eventLoopOk: bool)
    ensures bleOk == BleWithin(events, o.limits, o.slotGuard)
    ensures apiOk == (RequestsWithin(events, o.limits) && NoBypass(events) && StepsHold(events, d.accepted))
    ensures eventLoopOk == Within(Filter(events, Parses), e => "", o.limits.parse)
  {
    bleOk := CheckBle(events, o.limits, o.slotGuard);
    apiOk := CheckRequests(events, o.limits);
    eventLoopOk := CheckParsing(events, o.limits);
    var backoffs := CheckBackoff(events);
    var steps := CheckSteps(events, d.accepted);
    apiOk := apiOk && backoffs && steps;
  }

  datatype CaseReport = CaseRaised | CaseReport(flags: Flags, base: Report)

  /** The setting in which a decision is simulated. */
  ghost function CaseSetting(plan: seq<string>, costs: seq<int>, d: Decision, o: CaseOptions): Setting
    requires |costs| == |plan| && forall c :: c in d.accepted ==> c.batches != []
  {
    SettingOf(plan, costs, d.accepted, o.segmentLocal)
  }

  ghost predicate AllHaveBatches(candidates: seq<Candidate>) {
    forall c :: c in candidates ==> c.batches != []
  }

  ghost predicate Validated(plan: seq<string>, costs: seq<int>, d: Decision, o: CaseOptions, r: CaseReport)
    requires |costs| == |plan|
  {
    if !AllHaveBatches(d.accepted) then r == CaseRaised
    else
      && Placed(CaseSetting(plan, costs, d, o))
      && (if r == CaseRaised then Reports(CaseSetting(plan, costs, d, o), d.accepted, o.enforceProjection, Raised)
          else Reports(CaseSetting(plan, costs, d, o), d.accepted, o.enforceProjection, r.base) && Describes(r.flags, d, r.base, o))
  }

  method FlagsOf(base: Report, d: Decision, o: CaseOptions) returns (f: Flags)
    requires base.Report?
    ensures Describes(f, d, base, o)
  {
    var componentsOk := forall c :: c in d.accepted ==> c.validated;
    var bleOk, apiOk, eventLoopOk := CheckLimits(base.events, d, o);
    f := Flags(componentsOk, d.conflicts == [], base.contiguousOk, base.savingsOk, base.orderOk, base.projectionOk, bleOk, apiOk, eventLoopOk);
  }

  method ValidateCase(plan: seq<string>, costs: seq<int>, d: Decision, o: CaseOptions) returns (r: CaseReport)
    requires |costs| == |plan|
    ensures Validated(plan, costs, d, o, r)
  {
    var base := Validate(plan, costs, d.accepted, o.segmentLocal, o.enforceProjection);
    if base == Raised { return CaseRaised; }
    var flags := FlagsOf(base, d, o);
    r := CaseReport(flags, base);
  }

  // ----- what it takes to pass

  /** Every rejection is a recorded conflict. */
  lemma RejectionsAreConflicts(ble: seq<Candidate>, api: seq<Candidate>, policy: Policy)
    ensures var d := Outcome(SortedPool(ble, api), policy); d.conflicts == [] <==> d.rejected == []
  {
    var pool := SortedPool(ble, api);
    var g := Greedy(pool, policy);
    RejectionsRecorded(pool, policy);
    Sorting.SortPermutes(g.rejected, SourceLess);
    assert |multiset(g.rejected)| == |g.rejected| && |multiset(Sorting.Sort(g.rejected, SourceLess))| == |Sorting.Sort(g.rejected, SourceLess)|;
  }

  /** The decision of a resolution counts as free of conflicts exactly when every candidate given is worthy and no two of
      them stand against each other: then there was nothing to resolve. */
  lemma ConflictFreeExactly(ble: seq<Candidate>, api: seq<Candidate>, policy: Policy)
    ensures Outcome(SortedPool(ble, api), policy).conflicts == [] <==> NothingToResolve(NormalizeAll(ble + api), policy)
  {
    GreedyKeepsAll(SortedPool(ble, api), policy);
    FreePermutes(NormalizeAll(ble + api), policy);
  }

  /** One more corridor that saves nothing, and the case cannot pass. */
  lemma IdleCorridorFails(plan: seq<string>, costs: seq<int>, ble: seq<Candidate>, api: seq<Candidate>, policy: Policy, o: CaseOptions, r: CaseReport, k: nat)
    requires |costs| == |plan| && k < |ble + api| && (ble + api)[k].saved <= 0 && r.CaseReport?
    requires Validated(plan, costs, Outcome(SortedPool(ble, api), policy), o, r)
    ensures !r.flags.conflictFree && !r.flags.Passed()
  {
    ConflictFreeExactly(ble, api, policy);
    assert NormalizeAll(ble + api)[k] in NormalizeAll(ble + api) && !Worthy(NormalizeAll(ble + api)[k], policy);
  }

  lemma GreedyOnIdle(c: Candidate, policy: Policy)
    requires c.validated && c.saved == 0
    ensures Greedy([c], policy) == Decision([], [c], [Verdict(Nobody, c, [NonPositiveSaving])])
  {
    assert [] + [c] == [c];
    GreedyNext([], c, policy);
  }

  lemma PoolOfOne(c: Candidate)
    requires c.saved == 0
    ensures SortedPool([c], []) == [c]
  {
    assert [c] + [] == [c] && NormalizeAll([c]) == [c];
    Sorting.SortKeeps([c], Better);
  }

  /** Alone such a corridor is rejected; nothing is accepted and nothing changes, and yet the case fails. */
  lemma IdleExample(c: Candidate, policy: Policy)
    requires c.validated && c.saved == 0
    ensures Outcome(SortedPool([c], []), policy) == Decision([], [c], [Verdict(Nobody, c, [NonPositiveSaving])])
  {
    PoolOfOne(c);
    GreedyOnIdle(c, policy);
    Sorting.SortKeeps([c], SourceLess);
  }

  /** A resolved case that passes has kept every candidate, and saves exactly what all of them claim. */
  lemma PassedKeepsAll(plan: seq<string>, costs: seq<int>, ble: seq<Candidate>, api: seq<Candidate>, policy: Policy, o: CaseOptions, r: CaseReport)
    requires |costs| == |plan| && Distinct(plan) && forall k :: 0 <= k < |costs| ==> costs[k] >= 0
    requires policy.forbidBatchOverlap && r.CaseReport? && r.flags.Passed()
    requires Validated(plan, costs, Outcome(SortedPool(ble, api), policy), o, r)
    ensures multiset(Outcome(SortedPool(ble, api), policy).accepted) == multiset(NormalizeAll(ble + api))
    ensures r.base.total == Total(costs, |plan|) - SavedBy(NormalizeAll(ble + api))
  {
    var d := Outcome(SortedPool(ble, api), policy);
    RejectionsAreConflicts(ble, api, policy);
    NothingLost(ble, api, policy);
    assert multiset(d.rejected) == multiset{};
    ResolvedAreDisjoint(ble, api, policy);
    TotalFormula(plan, costs, d.accepted, o.segmentLocal, o.enforceProjection, r.base);
    Sorting.SumByPermutes(d.accepted, NormalizeAll(ble + api), (c: Candidate) => c.saved);
  }

  // ----- API corridors in the simulated plan

  /** The event belongs to an owner of the candidate. */
  ghost predicate Mine(e: SimEvent, c: Candidate) {
    e.source == ApiSegment && e.owner in c.owners
  }

  /** Steps are named after their batches, and only they own events. */
  ghost predicate NamesItsBatches(c: Candidate) {
    c.source == Api ==> c.owners == c.batches && forall e :: e in c.events ==> e.owner in c.owners
  }

  /** Nothing the other candidate puts into the plan belongs to `c`. */
  lemma ForeignEvents(other: Candidate, c: Candidate, shift: int)
    requires NamesItsBatches(other) && NamesItsBatches(c) && c.source == Api && !Meet(other.batches, c.batches)
    ensures forall e :: e in ShiftedAll(other, shift) ==> !Mine(e, c)
  {
    forall e | e in ShiftedAll(other, shift) ensures !Mine(e, c) {
      var k :| 0 <= k < |ShiftedAll(other, shift)| && ShiftedAll(other, shift)[k] == e;
      assert other.events[k] in other.events;
      if other.source == Api { MeetAt(other.batches, c.batches, e.owner); }
    }
  }

  /** The events of `c` among `after` are those among `before`. */
  ghost predicate KeepsMine(before: seq<SimEvent>, after: seq<SimEvent>, c: Candidate) {
    forall e :: Mine(e, c) ==> (e in after <==> e in before)
  }

  ghost predicate AllName(ranges: seq<Range>) {
    forall k :: 0 <= k < |ranges| ==> NamesItsBatches(ranges[k].candidate)
  }

  /** A step of the walk that does not splice candidate `p` in adds nothing of its events. */
  lemma OtherStep(s: Setting, ranges: seq<Range>, p: nat, st: State, m: nat, index: nat)
    requires Laid(s, ranges) && AllName(ranges) && p < |ranges| && ranges[p].candidate.source == Api
    requires Passed(ranges, m, index) && index < |s.plan| && (index in s.byStart ==> m != p)
    ensures KeepsMine(st.events, Advance(s, st, index).events, ranges[p].candidate)
  {
    var c := ranges[p].candidate;
    if index in s.byStart {
      StartIsNext(s, ranges, m, index);
      BatchesApart(s, ranges, m, p);
      ForeignEvents(ranges[m].candidate, c, st.cursor);
    }
  }

  lemma BatchesApart(s: Setting, ranges: seq<Range>, j: nat, k: nat)
    requires Laid(s, ranges) && j < |ranges| && k < |ranges| && j != k
    ensures !Meet(ranges[j].candidate.batches, ranges[k].candidate.batches)
  {
    assert j < k ==> !Meet(ranges[j].candidate.batches, ranges[k].candidate.batches);
    assert k < j ==> !Meet(ranges[k].candidate.batches, ranges[j].candidate.batches);
  }

  /** Once candidate `p` has been passed its events stay as they are. */
  lemma {:induction false} PassedStays(s: Setting, ranges: seq<Range>, p: nat, st: State, m: nat, index: nat)
    requires Laid(s, ranges) && AllName(ranges) && p < m <= |ranges| && ranges[p].candidate.source == Api
    requires index <= |s.plan| && Passed(ranges, m, index) && Walk(s, st, index).contiguousOk
    ensures KeepsMine(st.events, Walk(s, st, index).events, ranges[p].candidate)
    decreases |s.plan| - index
  {
    if index < |s.plan| {
      var next, after := Advance(s, st, index), NextIndex(s, index);
      WalkOnce(s, st, index);
      FlagsOnlyFall(s, next, after);
      PassedNext(s, ranges, st, m, index);
      OtherStep(s, ranges, p, st, m, index);
      PassedStays(s, ranges, p, next, if index in s.byStart then m + 1 else m, after);
    }
  }

  /** The events of `c` among these are its own, shifted. */
  ghost predicate HoldsShifted(events: seq<SimEvent>, c: Candidate, shift: int) {
    forall e :: Mine(e, c) ==> (e in events <==> e in ShiftedAll(c, shift))
  }

  /** Candidate `p` leaves exactly its own events, shifted to where the walk reaches it. */
  lemma {:induction false} PlacedOnce(s: Setting, ranges: seq<Range>, p: nat, st: State, m: nat, index: nat) returns (shift: int)
    requires Laid(s, ranges) && AllName(ranges) && m <= p < |ranges| && ranges[p].candidate.source == Api
    requires index <= |s.plan| && Passed(ranges, m, index) && Walk(s, st, index).contiguousOk
    requires forall e :: e in st.events ==> !Mine(e, ranges[p].candidate)
    ensures HoldsShifted(Walk(s, st, index).events, ranges[p].candidate, shift)
    decreases |s.plan| - index
  {
    if index == |s.plan| {
      AllPassed(s, ranges, m);
      assert false;
    } else {
      var next, after, c := Advance(s, st, index), NextIndex(s, index), ranges[p].candidate;
      WalkOnce(s, st, index);
      FlagsOnlyFall(s, next, after);
      PassedNext(s, ranges, st, m, index);
      if index in s.byStart && m == p {
        shift := st.cursor;
        PassedStays(s, ranges, p, next, m + 1, after);
      } else {
        OtherStep(s, ranges, p, st, m, index);
        shift := PlacedOnce(s, ranges, p, next, if index in s.byStart then m + 1 else m, after);
      }
    }
  }

  /** The candidate carries the expansion of the corridor. */
  ghost predicate Carries(c: Candidate, corridor: A.Corridor) {
    && T.Sound(corridor) && c.source == Api && |c.owners| == |c.batches|
    && c.owners == V.IdsOf(corridor.steps) && c.events == A.Timeline(corridor, |corridor.steps|)
  }

  lemma ShiftedMember(c: Candidate, shift: int, k: nat)
    requires |c.owners| == |c.batches| && k < |c.events|
    ensures Shifted(c, c.events[k], shift) in ShiftedAll(c, shift)
  {
    assert ShiftedAll(c, shift)[k] == Shifted(c, c.events[k], shift);
  }

  lemma MineInOrder(events: seq<SimEvent>, owner: string)
    ensures forall e :: e in Recheck.InOrder(events, owner) <==> e in events && Recheck.OwnedBy(e, owner)
  {
    var own := Recheck.OfOwner(events, owner);
    Sorting.SortPermutes(own, Recheck.Earlier);
    SameMembers(Recheck.InOrder(events, owner), own);
  }

  lemma ShiftedFrom(c: Candidate, shift: int, e: SimEvent) returns (k: nat)
    requires |c.owners| == |c.batches| && e in ShiftedAll(c, shift)
    ensures k < |c.events| && e == Shifted(c, c.events[k], shift)
  {
    k :| 0 <= k < |ShiftedAll(c, shift)| && ShiftedAll(c, shift)[k] == e;
  }

  lemma SameStep(corridor: A.Corridor, i: nat, j: nat)
    requires T.Sound(corridor) && i < |corridor.steps| && j < |corridor.steps| && corridor.steps[i].id == corridor.steps[j].id
    ensures i == j
  {
    assert V.IdsOf(corridor.steps)[i] == V.IdsOf(corridor.steps)[j];
  }

  lemma ShiftedIsPhase(c: Candidate, corridor: A.Corridor, shift: int, i: nat, k: nat, x: Event)
    requires |c.owners| == |c.batches| && T.Sound(corridor) && i < |corridor.steps| && k < |corridor.durations[i]| && x == A.EventAt(corridor, i, k)
    ensures Recheck.IsPhase(Shifted(c, x, shift), corridor, i, k, shift)
  {
  }

  /** An event of the step is one of its phases. */
  lemma OwnIsPhase(events: seq<SimEvent>, c: Candidate, corridor: A.Corridor, shift: int, i: nat, e: SimEvent) returns (k: nat)
    requires Carries(c, corridor) && HoldsShifted(events, c, shift) && i < |corridor.steps|
    requires e in events && Recheck.OwnedBy(e, corridor.steps[i].id)
    ensures Recheck.IsPhase(e, corridor, i, k, shift)
  {
    assert c.owners[i] == e.owner && Mine(e, c);
    var n := ShiftedFrom(c, shift, e);
    var j;
    j, k := T.TimelineMember(corridor, |corridor.steps|, c.events[n]);
    SameStep(corridor, i, j);
    ShiftedIsPhase(c, corridor, shift, j, k, c.events[n]);
  }

  /** Every phase of the step is among the events. */
  lemma PhaseIsOwn(events: seq<SimEvent>, c: Candidate, corridor: A.Corridor, shift: int, i: nat, k: nat) returns (e: SimEvent)
    requires Carries(c, corridor) && HoldsShifted(events, c, shift) && i < |corridor.steps| && k < |corridor.durations[i]|
    ensures e in events && Recheck.OwnedBy(e, corridor.steps[i].id) && Recheck.IsPhase(e, corridor, i, k, shift)
  {
    T.MemberOfTimeline(corridor, |corridor.steps|, i, k);
    var n :| 0 <= n < |c.events| && c.events[n] == A.EventAt(corridor, i, k);
    e := Shifted(c, c.events[n], shift);
    ShiftedMember(c, shift, n);
    ShiftedIsPhase(c, corridor, shift, i, k, c.events[n]);
    assert c.owners[i] == e.owner && Mine(e, c);
  }

  lemma CandidateShows(events: seq<SimEvent>, c: Candidate, corridor: A.Corridor, shift: int)
    requires Carries(c, corridor) && HoldsShifted(events, c, shift)
    ensures Recheck.Shows(events, corridor, shift)
  {
    forall i: nat | i < |corridor.steps| ensures Recheck.ShowsStep(Recheck.InOrder(events, corridor.steps[i].id), corridor, i, shift) {
      var own := Recheck.InOrder(events, corridor.steps[i].id);
      MineInOrder(events, corridor.steps[i].id);
      forall e | e in own ensures exists k: nat :: Recheck.IsPhase(e, corridor, i, k, shift) {
        var k := OwnIsPhase(events, c, corridor, shift, i, e);
      }
      forall k: nat | k < |corridor.durations[i]| ensures Recheck.ShowsPhase(own, corridor, i, k, shift) {
        var e := PhaseIsOwn(events, c, corridor, shift, i, k);
      }
    }
  }

  lemma RangeOfCandidate(plan: seq<string>, accepted: seq<Candidate>, c: Candidate) returns (p: nat)
    requires (forall x :: x in accepted ==> x.batches != []) && c in accepted
    ensures p < |SortedRanges(plan, accepted)| && SortedRanges(plan, accepted)[p].candidate == c
  {
    var all := RangesOf(plan, accepted);
    var i :| 0 <= i < |accepted| && accepted[i] == c;
    Sorting.SortPermutes(all, RangeLess);
    SameMembers(SortedRanges(plan, accepted), all);
    assert all[i] in SortedRanges(plan, accepted);
    p :| 0 <= p < |SortedRanges(plan, accepted)| && SortedRanges(plan, accepted)[p] == all[i];
  }

  lemma RangesName(plan: seq<string>, accepted: seq<Candidate>)
    requires forall x :: x in accepted ==> x.batches != [] && NamesItsBatches(x)
    ensures AllName(SortedRanges(plan, accepted))
  {
    var ranges := SortedRanges(plan, accepted);
    RangesFromAccepted(plan, accepted);
    forall k | 0 <= k < |ranges| ensures NamesItsBatches(ranges[k].candidate) {
      assert ranges[k] in ranges;
      var i :| 0 <= i < |accepted| && ranges[k] == RangeOf(plan, accepted[i]);
    }
  }

  /** The coverage of a simulation was accepted. */
  ghost predicate Covered(plan: seq<string>, costs: seq<int>, accepted: seq<Candidate>, segmentLocal: bool, enforceProjection: bool, r: Report) {
    && |costs| == |plan| && (forall x :: x in accepted ==> x.batches != [] && NamesItsBatches(x)) && DisjointBatches(accepted)
    && WellSet(SettingOf(plan, costs, accepted, segmentLocal))
    && Reports(SettingOf(plan, costs, accepted, segmentLocal), accepted, enforceProjection, r) && r.Report? && r.contiguousOk
  }

  /** Every accepted API candidate then has exactly its own events in the simulated plan, all shifted by the same time. */
  lemma PlacedInPlan(plan: seq<string>, costs: seq<int>, accepted: seq<Candidate>, segmentLocal: bool, enforceProjection: bool, r: Report, c: Candidate)
    returns (shift: int)
    requires Covered(plan, costs, accepted, segmentLocal, enforceProjection, r) && c in accepted && c.source == Api
    ensures HoldsShifted(r.events, c, shift)
  {
    var s, ranges := SettingOf(plan, costs, accepted, segmentLocal), SortedRanges(plan, accepted);
    LaidOut(plan, costs, accepted, segmentLocal);
    RangesName(plan, accepted);
    var p := RangeOfCandidate(plan, accepted, c);
    shift := PlacedOnce(s, ranges, p, START, 0, 0);
  }

  /** An accepted API corridor passes the re-check of the simulated plan exactly when it only subscribes, or overlaps every
      step with the one before and all preparations fit. */
  lemma StepsHoldExactly(plan: seq<string>, costs: seq<int>, accepted: seq<Candidate>, segmentLocal: bool, enforceProjection: bool, r: Report,
                         c: Candidate, corridor: A.Corridor)
    requires Covered(plan, costs, accepted, segmentLocal, enforceProjection, r) && c in accepted && Carries(c, corridor)
    ensures Recheck.OwnersHold(r.events, c.owners) <==> Recheck.PassesRecheck(corridor)
  {
    var shift := PlacedInPlan(plan, costs, accepted, segmentLocal, enforceProjection, r, c);
    CandidateShows(r.events, c, corridor, shift);
    Recheck.RecheckExactly(r.events, corridor, shift);
  }
}
