/** The re-check of neighbouring API steps on the simulated plan (optimizer/combined_micro_refinement.py
    `validate_combined_candidates`), and which expansions pass it. */
module OwnerRecheck {
  import opened Options
  import opened Sequences
  import opened Timelines
  import opened ApiPhases
  import opened ApiCorridor
  import opened ApiValidator
  import opened ApiTheorems
  import opened CombinedSweep
  import Sorting

  predicate IsWrite(e: SimEvent) {
    e.phase == Micro(HaStateWrite)
  }

  predicate IsRequest(e: SimEvent) {
    e.phase == Micro(CloudRequestSend) || e.phase == Micro(LocalRequestSend) || e.phase == Micro(MqttLastMsgRead)
  }

  predicate IsResponse(e: SimEvent) {
    e.phase == Micro(ApiResponseRecv) || e.phase == Micro(LocalResponseRecv)
  }

  predicate IsPreparation(e: SimEvent) {
    || e.phase == Micro(CloudAuthCheck) || e.phase == Micro(CloudRateBudgetCheck) || e.phase == Micro(ApiPrepare)
    || e.phase == Micro(LocalEndpointResolve) || e.phase == Micro(LocalSessionReady)
  }

  ghost predicate OwnedBy(e: SimEvent, owner: string) {
    e.source == ApiSegment && e.owner == owner
  }

  /** The code goes on to compare phase names; only starts and ends are read afterwards. */
  predicate Earlier(a: SimEvent, b: SimEvent) {
    a.startMs < b.startMs || (a.startMs == b.startMs && a.endMs < b.endMs)
  }

  ghost function OfOwner(events: seq<SimEvent>, owner: string): seq<SimEvent> {
    Filter(events, (e: SimEvent) => OwnedBy(e, owner))
  }

  /** The API events of an owner, the earliest first. */
  ghost function InOrder(events: seq<SimEvent>, owner: string): seq<SimEvent> {
    Sorting.Sort(OfOwner(events, owner), Earlier)
  }

  function First(s: seq<SimEvent>, keep: SimEvent -> bool): (first: Option<SimEvent>)
    ensures first.Some? ==> first.value in s && keep(first.value)
    ensures first == None ==> forall e :: e in s ==> !keep(e)
  {
    if s == [] then None
    else
      var earlier, last := First(s[..|s| - 1], keep), s[|s| - 1];
      assert s == s[..|s| - 1] + [last];
      if earlier.Some? then earlier else if keep(last) then Some(last) else None
  }

  /** The request waits for the state write before; every preparation lies in the send and receive window before. */
  ghost predicate PairHolds(left: seq<SimEvent>, right: seq<SimEvent>) {
    var write, request, response, next := First(left, IsWrite), First(left, IsRequest), First(left, IsResponse), First(right, IsRequest);
    && (write.Some? && next.Some? ==> next.value.startMs >= write.value.endMs)
    && (request.Some? && response.Some? ==>
          forall e :: e in right && IsPreparation(e) ==> request.value.startMs <= e.startMs && e.endMs <= response.value.endMs)
  }

  ghost predicate NeighboursHold(events: seq<SimEvent>, owners: seq<string>, k: nat)
    requires k + 1 < |owners|
  {
    PairHolds(InOrder(events, owners[k]), InOrder(events, owners[k + 1]))
  }

  ghost predicate OwnersHoldTo(events: seq<SimEvent>, owners: seq<string>, n: nat)
    requires n == 0 || n < |owners|
  {
    forall k :: 0 <= k < n ==> NeighboursHold(events, owners, k)
  }

  /** Every two neighbours hold. */
  ghost predicate OwnersHold(events: seq<SimEvent>, owners: seq<string>) {
    OwnersHoldTo(events, owners, Neighbours(owners))
  }

  function Neighbours(owners: seq<string>): nat {
    if owners == [] then 0 else |owners| - 1
  }

  lemma OwnersNext(events: seq<SimEvent>, owners: seq<string>, n: nat)
    requires n + 1 < |owners|
    ensures OwnersHoldTo(events, owners, n + 1) == (OwnersHoldTo(events, owners, n) && NeighboursHold(events, owners, n))
  {
  }

  // ----- the check

  /** The sorted events of every owner, as a table. */
  ghost predicate IsTable(table: map<string, seq<SimEvent>>, events: seq<SimEvent>) {
    forall o: string {:trigger OfOwner(events, o)} :: Entry(table, o) == OfOwner(events, o)
  }

  function Entry(table: map<string, seq<SimEvent>>, owner: string): seq<SimEvent> {
    if owner in table then table[owner] else []
  }

  method GroupByOwner(events: seq<SimEvent>) returns (table: map<string, seq<SimEvent>>)
    ensures IsTable(table, events)
  {
    table := map[];
    for i := 0 to |events|
      invariant IsTable(table, events[..i])
    {
      var e, before := events[i], table;
      if e.source == ApiSegment { table := table[e.owner := Entry(table, e.owner) + [e]]; }
      assert events[..i + 1][..i] == events[..i];
      forall o: string ensures Entry(table, o) == OfOwner(events[..i + 1], o) {
        assert Entry(before, o) == OfOwner(events[..i], o);
      }
    }
    TakeAll(events);
  }

  method CheckPreparations(right: seq<SimEvent>, request: SimEvent, response: SimEvent) returns (ok: bool)
    ensures ok <==> forall e :: e in right && IsPreparation(e) ==> request.startMs <= e.startMs && e.endMs <= response.endMs
  {
    ok := true;
    for i := 0 to |right|
      invariant ok <==> forall k :: 0 <= k < i && IsPreparation(right[k]) ==> request.startMs <= right[k].startMs && right[k].endMs <= response.endMs
    {
      if IsPreparation(right[i]) {
        if right[i].startMs < request.startMs { ok := false; }
        if right[i].endMs > response.endMs { ok := false; }
      }
    }
  }

  method CheckOwnerPair(left: seq<SimEvent>, right: seq<SimEvent>) returns (ok: bool)
    ensures ok == PairHolds(left, right)
  {
    var write, request, response, next := First(left, IsWrite), First(left, IsRequest), First(left, IsResponse), First(right, IsRequest);
    ok := true;
    if write.Some? && next.Some? && next.value.startMs < write.value.endMs { ok := false; }
    if request.Some? && response.Some? {
      var prepared := CheckPreparations(right, request.value, response.value);
      if !prepared { ok := false; }
    }
  }

  method CheckNeighbours(events: seq<SimEvent>, table: map<string, seq<SimEvent>>, owners: seq<string>, k: nat) returns (ok: bool)
    requires IsTable(table, events) && k + 1 < |owners|
    ensures ok == NeighboursHold(events, owners, k)
  {
    var left, right := owners[k], owners[k + 1];
    assert Entry(table, left) == OfOwner(events, left) && Entry(table, right) == OfOwner(events, right);
    ok := CheckOwnerPair(Sorting.Sort(Entry(table, left), Earlier), Sorting.Sort(Entry(table, right), Earlier));
  }

  method CheckOwners(events: seq<SimEvent>, table: map<string, seq<SimEvent>>, owners: seq<string>) returns (ok: bool)
    requires IsTable(table, events)
    ensures ok == OwnersHold(events, owners)
  {
    ok := true;
    for k := 0 to Neighbours(owners)
      invariant ok == OwnersHoldTo(events, owners, k)
    {
      var pair := CheckNeighbours(events, table, owners, k);
      OwnersNext(events, owners, k);
      if !pair { ok := false; }
    }
  }

  // ----- an expansion in the simulated plan

  /** `e` is phase `k` of step `i` of the expansion, `shift` later. */
  ghost predicate IsPhase(e: SimEvent, c: Corridor, i: nat, k: nat, shift: int)
    requires Shaped(c) && i < |c.steps|
  {
    k < |c.durations[i]| && e.phase == Micro(PhasesOf(KindOf(c))[k]) && e.startMs == shift + StartAt(c, i, k) && e.endMs == e.startMs + c.durations[i][k]
  }

  /** The events are exactly the phases of step `i`. */
  ghost predicate ShowsStep(own: seq<SimEvent>, c: Corridor, i: nat, shift: int)
    requires Shaped(c) && i < |c.steps|
  {
    && (forall e :: e in own ==> exists k: nat :: IsPhase(e, c, i, k, shift))
    && (forall k: nat {:trigger ShowsPhase(own, c, i, k, shift)} :: k < |c.durations[i]| ==> ShowsPhase(own, c, i, k, shift))
  }

  ghost predicate ShowsPhase(own: seq<SimEvent>, c: Corridor, i: nat, k: nat, shift: int)
    requires Shaped(c) && i < |c.steps|
  {
    exists e :: e in own && IsPhase(e, c, i, k, shift)
  }

  /** The simulated plan holds the expansion, shifted, and no other API events of its steps. */
  ghost predicate Shows(events: seq<SimEvent>, c: Corridor, shift: int)
    requires Shaped(c)
  {
    forall i: nat :: i < |c.steps| ==> ShowsStep(InOrder(events, c.steps[i].id), c, i, shift)
  }

  ghost function Preparations(kind: Kind): nat {
    match kind case Cloud => 3 case LocalHttp => 2 case Mqtt => 0
  }

  lemma PhaseClasses(e: SimEvent, kind: Kind, k: nat)
    requires k < |PhasesOf(kind)| && e.phase == Micro(PhasesOf(kind)[k])
    ensures IsRequest(e) <==> k == RequestIndex(kind)
    ensures IsResponse(e) <==> kind != Mqtt && k == RequestIndex(kind) + 1
    ensures IsWrite(e) <==> k == |PhasesOf(kind)| - 1
    ensures IsPreparation(e) <==> k < Preparations(kind)
  {
  }

  /** The class holds phase `k` of the kind and no other. */
  ghost predicate Picks(keep: SimEvent -> bool, kind: Kind, k: nat) {
    k < |PhasesOf(kind)| && forall e: SimEvent, j: nat :: j < |PhasesOf(kind)| && e.phase == Micro(PhasesOf(kind)[j]) ==> (keep(e) <==> j == k)
  }

  lemma FirstPicked(own: seq<SimEvent>, c: Corridor, i: nat, shift: int, keep: SimEvent -> bool, k: nat)
    requires Shaped(c) && i < |c.steps| && ShowsStep(own, c, i, shift) && Picks(keep, KindOf(c), k)
    ensures First(own, keep).Some? && IsPhase(First(own, keep).value, c, i, k, shift)
  {
    var first := First(own, keep);
    assert ShowsPhase(own, c, i, k, shift);
    var e :| e in own && IsPhase(e, c, i, k, shift);
    var j: nat :| IsPhase(first.value, c, i, j, shift);
  }

  lemma ClassesPick(kind: Kind)
    ensures Picks(IsRequest, kind, RequestIndex(kind)) && Picks(IsWrite, kind, |PhasesOf(kind)| - 1)
    ensures kind != Mqtt ==> Picks(IsResponse, kind, RequestIndex(kind) + 1)
  {
    Indices(kind);
    forall e: SimEvent, j: nat | j < |PhasesOf(kind)| && e.phase == Micro(PhasesOf(kind)[j])
      ensures IsRequest(e) <==> j == RequestIndex(kind)
      ensures IsResponse(e) <==> kind != Mqtt && j == RequestIndex(kind) + 1
      ensures IsWrite(e) <==> j == |PhasesOf(kind)| - 1
    {
      PhaseClasses(e, kind, j);
    }
  }

  lemma NoResponse(own: seq<SimEvent>, c: Corridor, i: nat, shift: int)
    requires Shaped(c) && i < |c.steps| && ShowsStep(own, c, i, shift) && KindOf(c) == Mqtt
    ensures First(own, IsResponse) == None
  {
    forall e | e in own ensures !IsResponse(e) {
      var k: nat :| IsPhase(e, c, i, k, shift);
      PhaseClasses(e, Mqtt, k);
    }
  }

  /** The times a check reads off two neighbours; no response for subscriptions. */
  ghost predicate Reads(left: seq<SimEvent>, right: seq<SimEvent>, a: Anchor, answered: bool, next: int) {
    && First(left, IsWrite).Some? && First(left, IsWrite).value.endMs == a.writeEnd
    && First(left, IsRequest).Some? && First(left, IsRequest).value.startMs == a.requestStart
    && First(left, IsResponse).Some? == answered && (answered ==> First(left, IsResponse).value.endMs == a.responseEnd)
    && First(right, IsRequest).Some? && First(right, IsRequest).value.startMs == next
  }

  ghost predicate PreparedWithin(right: seq<SimEvent>, start: int, end: int) {
    forall e :: e in right && IsPreparation(e) ==> start <= e.startMs && e.endMs <= end
  }

  lemma HoldsByTimes(left: seq<SimEvent>, right: seq<SimEvent>, a: Anchor, answered: bool, next: int)
    requires Reads(left, right, a, answered, next)
    ensures PairHolds(left, right) <==> next >= a.writeEnd && (answered ==> PreparedWithin(right, a.requestStart, a.responseEnd))
  {
  }

  ghost function Later(a: Anchor, shift: int): Anchor {
    Anchor(shift + a.requestStart, shift + a.responseEnd, shift + a.writeEnd)
  }

  lemma WriteRead(left: seq<SimEvent>, c: Corridor, i: nat, shift: int)
    requires Shaped(c) && 0 < i < |c.steps| && ShowsStep(left, c, i - 1, shift)
    ensures First(left, IsWrite).Some? && First(left, IsWrite).value.endMs == shift + AnchorAt(c, i).writeEnd
  {
    ClassesPick(KindOf(c));
    AnchorIs(c, i);
    FirstPicked(left, c, i - 1, shift, IsWrite, |PhasesOf(KindOf(c))| - 1);
  }

  lemma RequestRead(own: seq<SimEvent>, c: Corridor, i: nat, shift: int)
    requires Shaped(c) && i < |c.steps| && ShowsStep(own, c, i, shift)
    ensures First(own, IsRequest).Some? && First(own, IsRequest).value.startMs == shift + StartAt(c, i, RequestIndex(KindOf(c)))
  {
    ClassesPick(KindOf(c));
    FirstPicked(own, c, i, shift, IsRequest, RequestIndex(KindOf(c)));
  }

  lemma ResponseRead(left: seq<SimEvent>, c: Corridor, i: nat, shift: int)
    requires Shaped(c) && 0 < i < |c.steps| && ShowsStep(left, c, i - 1, shift) && KindOf(c) != Mqtt
    ensures First(left, IsResponse).Some? && First(left, IsResponse).value.endMs == shift + AnchorAt(c, i).responseEnd
  {
    ClassesPick(KindOf(c));
    AnchorIs(c, i);
    FirstPicked(left, c, i - 1, shift, IsResponse, RequestIndex(KindOf(c)) + 1);
  }

  lemma StepsRead(left: seq<SimEvent>, right: seq<SimEvent>, c: Corridor, i: nat, shift: int)
    requires Shaped(c) && 0 < i < |c.steps| && ShowsStep(left, c, i - 1, shift) && ShowsStep(right, c, i, shift)
    ensures Reads(left, right, Later(AnchorAt(c, i), shift), KindOf(c) != Mqtt, shift + StartAt(c, i, RequestIndex(KindOf(c))))
  {
    AnchorIs(c, i);
    WriteRead(left, c, i, shift);
    RequestRead(left, c, i - 1, shift);
    RequestRead(right, c, i, shift);
    if KindOf(c) == Mqtt { NoResponse(left, c, i - 1, shift); } else { ResponseRead(left, c, i, shift); }
  }

  /** All preparations of step `i` lie in the send and receive window of the step before. */
  ghost predicate Prepared(c: Corridor, i: nat)
    requires Shaped(c) && 0 < i < |c.steps|
  {
    var a := AnchorAt(c, i);
    forall k: nat :: k < Preparations(KindOf(c)) ==> a.requestStart <= StartAt(c, i, k) && StartAt(c, i, k) + c.durations[i][k] <= a.responseEnd
  }

  /** All preparations of the step are moved, and they fit. */
  ghost predicate WhollyMoved(c: Corridor, i: nat)
    requires Shaped(c) && 0 < i < |c.steps|
  {
    Nonempty(SpanAt(c, i)) && SpanAt(c, i).lo == 0 && Fits(c, i)
  }

  lemma PreparedWhenMoved(c: Corridor, i: nat)
    requires Sound(c) && 0 < i < |c.steps| && Nonempty(SpanAt(c, i)) && SpanAt(c, i).lo == 0
    ensures Prepared(c, i) <==> Fits(c, i)
  {
    var d, span, n := c.durations[i], SpanAt(c, i), Preparations(KindOf(c));
    SpanShape(c, i);
    MovedLate(c, i);
    assert span.hi == n && MovedAt(c, i) == Total(d, n);
    forall k: nat | k < n ensures StartAt(c, i, k) == OverlapStart(d, span, AnchorAt(c, i)) + Total(d, k) && 0 <= Total(d, k) && Total(d, k) + d[k] <= Total(d, n) {
      StepGrows(c, i, 0, k);
      StepGrows(c, i, k + 1, n);
    }
    assert Total(d, n) == Total(d, n - 1) + d[n - 1];
  }

  lemma UnpreparedWhenLeft(c: Corridor, i: nat)
    requires Sound(c) && 0 < i < |c.steps| && KindOf(c) != Mqtt && !(Nonempty(SpanAt(c, i)) && SpanAt(c, i).lo == 0)
    ensures !Prepared(c, i)
  {
    NothingSentEarly(c, i, 0);
    Window(c, i - 1);
  }

  lemma RequestsWait(left: seq<SimEvent>, right: seq<SimEvent>, a: Anchor, shift: int, answered: bool, next: int, prepared: bool)
    requires Reads(left, right, Later(a, shift), answered, shift + next) && next >= a.writeEnd
    requires PreparedWithin(right, shift + a.requestStart, shift + a.responseEnd) <==> prepared
    ensures PairHolds(left, right) <==> !answered || prepared
  {
    HoldsByTimes(left, right, Later(a, shift), answered, shift + next);
  }

  lemma PairByTimes(left: seq<SimEvent>, right: seq<SimEvent>, c: Corridor, i: nat, shift: int)
    requires Shaped(c) && 0 < i < |c.steps| && StartAt(c, i, RequestIndex(KindOf(c))) >= AnchorAt(c, i).writeEnd
    requires Reads(left, right, Later(AnchorAt(c, i), shift), KindOf(c) != Mqtt, shift + StartAt(c, i, RequestIndex(KindOf(c))))
    requires PreparedWithin(right, shift + AnchorAt(c, i).requestStart, shift + AnchorAt(c, i).responseEnd) == Prepared(c, i)
    ensures PairHolds(left, right) == (KindOf(c) == Mqtt || Prepared(c, i))
  {
    RequestsWait(left, right, AnchorAt(c, i), shift, KindOf(c) != Mqtt, StartAt(c, i, RequestIndex(KindOf(c))), Prepared(c, i));
  }

  lemma PairExactly(left: seq<SimEvent>, right: seq<SimEvent>, c: Corridor, i: nat, shift: int)
    requires Sound(c) && 0 < i < |c.steps| && ShowsStep(left, c, i - 1, shift) && ShowsStep(right, c, i, shift)
    ensures PairHolds(left, right) == (KindOf(c) == Mqtt || Prepared(c, i))
  {
    StepsRead(left, right, c, i, shift);
    RequestAfterWrite(c, i);
    PreparationsShown(right, c, i, shift);
    PairByTimes(left, right, c, i, shift);
  }

  /** A bound on all preparations that are shown is one on those of the step. */
  lemma PreparationsShown(right: seq<SimEvent>, c: Corridor, i: nat, shift: int)
    requires Shaped(c) && 0 < i < |c.steps| && ShowsStep(right, c, i, shift)
    ensures PreparedWithin(right, shift + AnchorAt(c, i).requestStart, shift + AnchorAt(c, i).responseEnd) <==> Prepared(c, i)
  {
    var a, kind := AnchorAt(c, i), KindOf(c);
    if Prepared(c, i) {
      forall e | e in right && IsPreparation(e) ensures shift + a.requestStart <= e.startMs && e.endMs <= shift + a.responseEnd {
        var k: nat :| IsPhase(e, c, i, k, shift);
        PhaseClasses(e, kind, k);
      }
    } else {
      var k: nat :| k < Preparations(kind) && !(a.requestStart <= StartAt(c, i, k) && StartAt(c, i, k) + c.durations[i][k] <= a.responseEnd);
      assert ShowsPhase(right, c, i, k, shift);
      var e :| e in right && IsPhase(e, c, i, k, shift);
      PhaseClasses(e, kind, k);
    }
  }

  /** An expansion passes the re-check exactly when it only subscribes, or every step after the first has all its
      preparations moved into the window of the step before. */
  ghost predicate PassesRecheck(c: Corridor)
    requires Shaped(c)
  {
    c.steps == [] || KindOf(c) == Mqtt || forall i :: 0 < i < |c.steps| ==> WhollyMoved(c, i)
  }

  lemma NeighboursExactly(events: seq<SimEvent>, c: Corridor, shift: int, k: nat)
    requires Sound(c) && Shows(events, c, shift) && k + 1 < |c.steps|
    ensures NeighboursHold(events, IdsOf(c.steps), k) == (KindOf(c) == Mqtt || WhollyMoved(c, k + 1))
  {
    var i := k + 1;
    PairExactly(InOrder(events, c.steps[k].id), InOrder(events, c.steps[i].id), c, i, shift);
    if Nonempty(SpanAt(c, i)) && SpanAt(c, i).lo == 0 { PreparedWhenMoved(c, i); } else if KindOf(c) != Mqtt { UnpreparedWhenLeft(c, i); }
  }

  lemma RecheckExactly(events: seq<SimEvent>, c: Corridor, shift: int)
    requires Sound(c) && Shows(events, c, shift)
    ensures OwnersHold(events, IdsOf(c.steps)) <==> PassesRecheck(c)
  {
    var ids := IdsOf(c.steps);
    forall k | 0 <= k < |ids| - 1 { NeighboursExactly(events, c, shift, k); }
    if OwnersHold(events, ids) {
      forall i | 0 < i < |c.steps| ensures KindOf(c) == Mqtt || WhollyMoved(c, i) { assert NeighboursHold(events, ids, i - 1); }
    } else {
      var k :| 0 <= k < |ids| - 1 && !NeighboursHold(events, ids, k);
      assert !WhollyMoved(c, k + 1);
    }
  }
}
