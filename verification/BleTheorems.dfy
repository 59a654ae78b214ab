/** The BLE expander against the BLE validator: every expansion passes, and its makespan is known exactly. */
module BleTheorems {
  import opened BlePhases
  import opened Numbers
  import opened BleCorridor
  import opened BleValidator
  import opened Timelines
  import opened Sequences
  import Sorting

  /** Durations as the phase model delivers them under non-negative timeouts. */
  ghost predicate Bounded(c: Corridor)
    requires KnownIds(c)
  {
    forall i :: 0 <= i < |c.ids| ==>
      var d := DurationsAt(c, i);
      0 <= d.adv <= c.policy.advTimeout && 0 <= d.connect <= c.policy.connectTimeout && d.xfer >= XFER_MIN && d.settle >= 1
  }

  /** The durations of each action add up to its estimated latency and leave settle its minimum. */
  ghost predicate AddsUp(c: Corridor)
    requires KnownIds(c)
  {
    forall i :: 0 <= i < |c.ids| ==>
      var d := DurationsAt(c, i);
      d.Total() == LatencyMs(ActionAt(c, i).kind) && d.settle >= SETTLE_MIN
  }

  lemma TimedIsBounded(c: Corridor)
    requires KnownIds(c) && Timed(c) && c.policy.advTimeout >= 0 && c.policy.connectTimeout >= 0
    ensures Bounded(c) && AddsUp(c)
  {
    forall i | 0 <= i < |c.ids|
      ensures var d := DurationsAt(c, i);
        0 <= d.adv <= c.policy.advTimeout && 0 <= d.connect <= c.policy.connectTimeout && d.xfer >= XFER_MIN && d.settle >= 1
        && d.Total() == LatencyMs(ActionAt(c, i).kind) && d.settle >= SETTLE_MIN
    {
      var a := ActionAt(c, i);
      assert DurationsAt(c, i) == DurationsOf(a, c.policy) && LatencyMs(a.kind) >= 220;
      DurationBounds(LatencyMs(a.kind), ProfileOf(a), c.policy.advTimeout, c.policy.connectTimeout);
      DurationsAddUp(LatencyMs(a.kind), ProfileOf(a), c.policy.advTimeout, c.policy.connectTimeout);
    }
  }

  /** Every action transfers for some time and settles, whatever the timeouts. */
  ghost predicate Transfers(c: Corridor)
    requires KnownIds(c)
  {
    forall i :: 0 <= i < |c.ids| ==> DurationsAt(c, i).xfer >= XFER_MIN && DurationsAt(c, i).settle >= 1
  }

  lemma TimedTransfers(c: Corridor)
    requires KnownIds(c) && Timed(c)
    ensures Transfers(c)
  {
    forall i | 0 <= i < |c.ids| ensures DurationsAt(c, i).xfer >= XFER_MIN && DurationsAt(c, i).settle >= 1 {
      var a := ActionAt(c, i);
      assert DurationsAt(c, i) == DurationsOf(a, c.policy);
      TransferAlways(LatencyMs(a.kind), ProfileOf(a), c.policy.advTimeout, c.policy.connectTimeout);
    }
  }

  /** Shares that come out even are not rounded. */
  lemma PercentExactly(total: int, percent: int, part: int)
    requires total * percent == part * 100
    ensures Percent(total, percent) == part
  {
  }

  /** Targets within the timeouts that leave the transfer its minimum are the durations. */
  lemma PlainExactly(total: int, adv: int, connect: int, settle: int)
    requires total * 12 == adv * 100 && total * 18 == connect * 100 && total * 10 == settle * 100
    requires 30 <= adv <= 120 && 40 <= connect <= 180 && 30 <= settle && total - adv - connect - settle >= 120
    ensures PhaseDurations(total, PlainProfile, 120, 180) == Durations(adv, connect, total - adv - connect - settle, settle)
  {
    PercentExactly(total, 12, adv);
    PercentExactly(total, 18, connect);
    PercentExactly(total, 10, settle);
  }

  lemma OtherProfiles()
    ensures PhaseDurations(1200, ConnectProfile, 120, 180) == Durations(120, 180, 780, 120)
    ensures PhaseDurations(450, SubscribeProfile, 120, 180) == Durations(36, 108, 252, 54)
  {
    PercentExactly(1200, 10, 120);
    PercentExactly(1200, 26, 312);
    PercentExactly(450, 8, 36);
    PercentExactly(450, 24, 108);
    PercentExactly(450, 12, 54);
  }

  /** The phases of every kind of action under the default timeouts of 120 and 180 ms. */
  lemma DurationTable(a: Action, policy: Policy)
    requires policy.advTimeout == 120 && policy.connectTimeout == 180 && (a.subscribeLike <==> a.kind == Subscribe)
    ensures DurationsOf(a, policy) ==
              match a.kind
              case SetCoverPosition => Durations(114, 171, 570, 95)
              case ReadSensor => Durations(90, 135, 450, 75)
              case ReadStatus => Durations(78, 117, 390, 65)
              case Connect => Durations(120, 180, 780, 120)
              case Subscribe => Durations(36, 108, 252, 54)
              case RefreshCover | SetPercentage | TurnOn => Durations(102, 153, 510, 85)
              case TurnOff | OtherKind => Durations(96, 144, 480, 80)
  {
    match a.kind
    case SetCoverPosition => PlainExactly(950, 114, 171, 95);
    case ReadSensor => PlainExactly(750, 90, 135, 75);
    case ReadStatus => PlainExactly(650, 78, 117, 65);
    case Connect | Subscribe => OtherProfiles();
    case RefreshCover | SetPercentage | TurnOn => PlainExactly(850, 102, 153, 85);
    case TurnOff | OtherKind => PlainExactly(800, 96, 144, 80);
  }

  ghost predicate Sound(c: Corridor) {
    KnownIds(c) && Distinct(c.ids) && Bounded(c) && !c.policy.allowConnectOverlap && c.policy.maxLookahead >= 1
  }

  // ----- the shape of a slot

  /** Phases follow one another, the transfer directly after connecting. */
  lemma SlotShape(c: Corridor, i: nat)
    requires Sound(c) && i < |c.ids|
    ensures var s, d := SlotAt(c, i), DurationsAt(c, i);
            s.advEnd == s.advStart + d.adv && s.advEnd <= s.connectStart && s.connectEnd == s.connectStart + d.connect
            && s.connectEnd == s.xferStart && s.xferEnd == s.xferStart + d.xfer && s.settleEnd == s.xferEnd + d.settle
    ensures i == 0 ==> SlotAt(c, i).advStart == 0 && SlotAt(c, i).connectStart == DurationsAt(c, i).adv
  {
    assert 0 <= DurationsAt(c, i).adv && 0 <= DurationsAt(c, i).connect;
    if i > 0 { SlotShape(c, i - 1); assert DurationsAt(c, i - 1).settle >= 1; }
  }

  /** Connecting waits for the previous action to settle; advertising never starts before its connect phase. */
  lemma SlotAfter(c: Corridor, i: nat)
    requires Sound(c) && 0 < i < |c.ids|
    ensures var p, s := SlotAt(c, i - 1), SlotAt(c, i);
            s.connectStart >= p.settleEnd && s.advStart >= p.connectStart
            && (s.advStart < p.settleEnd ==> AdvAdmitted(ActionAt(c, i - 1), ActionAt(c, i), c.policy))
            && (s.advStart < p.xferStart ==> AnchorAdmitted(ActionAt(c, i - 1), ActionAt(c, i), c.policy))
  {
    SlotShape(c, i - 1);
    assert DurationsAt(c, i - 1).connect >= 0 && DurationsAt(c, i - 1).xfer >= XFER_MIN && DurationsAt(c, i - 1).settle >= 1;
  }

  /** A later action connects only after an earlier one has settled. */
  lemma {:induction false} SettledBeforeConnect(c: Corridor, i: nat, j: nat)
    requires Sound(c) && i < j < |c.ids|
    ensures SlotAt(c, i).settleEnd <= SlotAt(c, j).connectStart
  {
    SlotAfter(c, j);
    if i < j - 1 {
      SettledBeforeConnect(c, i, j - 1);
      SlotShape(c, j - 1);
      assert DurationsAt(c, j - 1).connect >= 0 && DurationsAt(c, j - 1).xfer >= XFER_MIN && DurationsAt(c, j - 1).settle >= 1;
    }
  }

  // ----- looking events up in a timeline

  /** The slots laid out as events, one block an action. */
  ghost function BlocksOf(ids: seq<string>, slots: seq<Slot>): (blocks: seq<seq<Event>>)
    requires |ids| == |slots|
    ensures |blocks| == |ids| && forall i :: 0 <= i < |ids| ==> blocks[i] == SlotEvents(ids[i], slots[i])
  {
    seq(|ids|, i requires 0 <= i < |ids| => SlotEvents(ids[i], slots[i]))
  }

  lemma BlocksOwned(ids: seq<string>, slots: seq<Slot>)
    requires |ids| == |slots| && Distinct(ids)
    ensures Owned(BlocksOf(ids, slots), ids)
  {
    forall i | 0 <= i < |ids| ensures OwnedBy(BlocksOf(ids, slots)[i], ids[i]) {}
  }

  ghost predicate AreSlots(slots: seq<Slot>, c: Corridor) {
    KnownIds(c) && |slots| <= |c.ids| && forall i :: 0 <= i < |slots| ==> slots[i] == SlotAt(c, i)
  }

  lemma BlocksNext(ids: seq<string>, slots: seq<Slot>)
    requires |ids| == |slots| > 0
    ensures var n := |ids| - 1; Flat(BlocksOf(ids, slots)) == Flat(BlocksOf(ids[..n], slots[..n])) + SlotEvents(ids[n], slots[n])
  {
    assert BlocksOf(ids, slots)[..|ids| - 1] == BlocksOf(ids[..|ids| - 1], slots[..|ids| - 1]);
  }

  lemma {:induction false} TimelineIsFlat(c: Corridor, slots: seq<Slot>)
    requires AreSlots(slots, c)
    ensures Timeline(c, |slots|) == Flat(BlocksOf(c.ids[..|slots|], slots))
  {
    if slots != [] {
      var n := |slots| - 1;
      TimelineIsFlat(c, slots[..n]);
      BlocksNext(c.ids[..n + 1], slots);
      assert c.ids[..n + 1][..n] == c.ids[..n];
      TimelineNext(c, n, slots[n]);
    }
  }

  lemma TimelineNext(c: Corridor, n: nat, s: Slot)
    requires KnownIds(c) && n < |c.ids| && s == SlotAt(c, n)
    ensures Timeline(c, n + 1) == Timeline(c, n) + SlotEvents(c.ids[n], s)
  {
  }

  /** The slots of a corridor. */
  lemma SlotsOf(c: Corridor) returns (slots: seq<Slot>)
    requires KnownIds(c)
    ensures |slots| == |c.ids| && AreSlots(slots, c) && Timeline(c, |c.ids|) == Flat(BlocksOf(c.ids, slots))
  {
    slots := seq(|c.ids|, i requires 0 <= i < |c.ids| => SlotAt(c, i));
    TimelineIsFlat(c, slots);
    TakeAll(c.ids);
  }

  /** The events of one action are exactly its slot. */
  lemma OfIsSlot(c: Corridor, i: nat)
    requires KnownIds(c) && Distinct(c.ids) && i < |c.ids|
    ensures Of(Timeline(c, |c.ids|), c.ids[i]) == SlotEvents(c.ids[i], SlotAt(c, i))
  {
    var slots := SlotsOf(c);
    BlocksOwned(c.ids, slots);
    OfBlock(BlocksOf(c.ids, slots), c.ids, i);
  }

  /** The four events of an action, in phase order and of the given lengths. */
  ghost predicate FourPhases(e: seq<Event>, d: Durations) {
    && |e| == 4 && e[0].phase == PrepareAdv && e[1].phase == PrepareConnect && e[2].phase == Xfer && e[3].phase == Settling
    && e[0].endMs - e[0].startMs == d.adv && e[1].endMs - e[1].startMs == d.connect
    && e[2].endMs - e[2].startMs == d.xfer && e[3].endMs - e[3].startMs == d.settle
    && e[3].startMs == e[2].endMs
  }

  /** `e` are the events of `next` behind those of `current`: advertising starts with the other connecting if it is anchored
      there, with its transfer if it is only admitted, and else when the other has settled; connecting comes after that and
      waits for the other's settling unless it is admitted, then only for its transfer to start; transfers never meet. */
  ghost predicate ActionBehind(current: Action, next: Action, policy: Policy, p: seq<Event>, e: seq<Event>)
    requires |p| == |e| == 4
  {
    && e[0].startMs == (if AdvAdmitted(current, next, policy) then if AnchorAdmitted(current, next, policy) then p[1].startMs else p[2].startMs else p[3].endMs)
    && e[1].startMs == Max(e[0].endMs, if ConnectAdmitted(current, next, policy) then p[2].startMs else p[3].endMs)
    && e[2].startMs == Max(e[1].endMs, p[2].endMs)
  }

  /** Where the expander places an action, told by the events alone; the first action starts at 0. */
  lemma ActionPlacement(c: Corridor, i: nat)
    requires KnownIds(c) && Distinct(c.ids) && i < |c.ids|
    ensures FourPhases(Of(Timeline(c, |c.ids|), c.ids[i]), DurationsAt(c, i))
    ensures var all := Timeline(c, |c.ids|);
            if i > 0 then
              |Of(all, c.ids[i - 1])| == 4 && ActionBehind(ActionAt(c, i - 1), ActionAt(c, i), c.policy, Of(all, c.ids[i - 1]), Of(all, c.ids[i]))
            else
              var e := Of(all, c.ids[0]);
              e[0].startMs == 0 && e[1].startMs == e[0].endMs && e[2].startMs == Max(e[1].endMs, 0)
  {
    OfIsSlot(c, i);
    if i > 0 { OfIsSlot(c, i - 1); }
  }

  ghost predicate IsBle(phase: Phase) {
    phase == PrepareAdv || phase == PrepareConnect || phase == Xfer || phase == Settling
  }

  ghost function EventOf(id: string, s: Slot, phase: Phase): Event
    requires IsBle(phase)
  {
    if phase == PrepareAdv then Event(id, PrepareAdv, s.advStart, s.advEnd)
    else if phase == PrepareConnect then Event(id, PrepareConnect, s.connectStart, s.connectEnd)
    else if phase == Xfer then Event(id, Xfer, s.xferStart, s.xferEnd)
    else Event(id, Settling, s.xferEnd, s.settleEnd)
  }

  lemma LastInSlot(id: string, s: Slot, phase: Phase)
    requires IsBle(phase)
    ensures Last(SlotEvents(id, s), id, phase) == Hit(EventOf(id, s, phase))
  {
    LastUnique(SlotEvents(id, s), if phase == PrepareAdv then 0 else if phase == PrepareConnect then 1 else if phase == Xfer then 2 else 3);
  }

  lemma LastIsSlot(ids: seq<string>, slots: seq<Slot>, i: nat, phase: Phase)
    requires IsBle(phase) && |ids| == |slots| && Distinct(ids) && i < |ids|
    ensures Last(Flat(BlocksOf(ids, slots)), ids[i], phase) == Hit(EventOf(ids[i], slots[i], phase))
  {
    BlocksOwned(ids, slots);
    LastInSlot(ids[i], slots[i], phase);
    LastOfBlock(BlocksOf(ids, slots), ids, i, phase);
  }

  lemma {:induction false} TimelineMember(c: Corridor, n: nat, e: Event) returns (i: nat)
    requires KnownIds(c) && n <= |c.ids| && e in Timeline(c, n)
    ensures i < n && e in SlotEvents(c.ids[i], SlotAt(c, i))
  {
    if e in SlotEvents(c.ids[n - 1], SlotAt(c, n - 1)) {
      i := n - 1;
    } else {
      i := TimelineMember(c, n - 1, e);
    }
  }

  // ----- each flag of the validator

  lemma PhasesPass(c: Corridor, i: nat)
    requires Sound(c) && i < |c.ids|
    ensures var phases := ByStart(Of(Timeline(c, |c.ids|), c.ids[i]));
            PhasesValid(phases) && WithinTimeouts(phases, c.policy)
  {
    OfIsSlot(c, i);
    SlotShape(c, i);
    var e := SlotEvents(c.ids[i], SlotAt(c, i));
    assert DurationsAt(c, i).xfer >= XFER_MIN && DurationsAt(c, i).settle >= 1;
    assert 0 <= DurationsAt(c, i).adv <= c.policy.advTimeout && 0 <= DurationsAt(c, i).connect <= c.policy.connectTimeout;
    Sorting.SortKeeps(e, (a: Event, b: Event) => a.startMs < b.startMs);
    assert ByStart(e) == e;
  }

  lemma XferOfSlot(id: string, s: Slot)
    ensures OfPhase(SlotEvents(id, s), Xfer) == [EventOf(id, s, Xfer)]
  {
    var e := SlotEvents(id, s);
    OfPhaseStep([], e[0], Xfer);
    OfPhaseStep([e[0]], e[1], Xfer);
    OfPhaseStep([e[0], e[1]], e[2], Xfer);
    OfPhaseStep([e[0], e[1], e[2]], e[3], Xfer);
    assert [] + [e[0]] == [e[0]] && [e[0]] + [e[1]] == [e[0], e[1]] && [e[0], e[1]] + [e[2]] == [e[0], e[1], e[2]];
    assert [e[0], e[1], e[2]] + [e[3]] == e;
  }

  /** The transfers of the slots, as events. */
  ghost function XfersIn(ids: seq<string>, slots: seq<Slot>): (r: seq<Event>)
    requires |ids| == |slots|
    ensures |r| == |ids| && forall i :: 0 <= i < |ids| ==> r[i] == EventOf(ids[i], slots[i], Xfer)
  {
    seq(|ids|, i requires 0 <= i < |ids| => EventOf(ids[i], slots[i], Xfer))
  }

  lemma XfersNext(ids: seq<string>, slots: seq<Slot>, n: nat)
    requires |ids| == |slots| == n + 1
    ensures XfersIn(ids, slots) == XfersIn(ids[..n], slots[..n]) + [EventOf(ids[n], slots[n], Xfer)]
  {
  }

  lemma {:induction false} XfersOf(ids: seq<string>, slots: seq<Slot>)
    requires |ids| == |slots|
    ensures OfPhase(Flat(BlocksOf(ids, slots)), Xfer) == XfersIn(ids, slots)
  {
    if ids != [] {
      var n := |ids| - 1;
      XfersOf(ids[..n], slots[..n]);
      BlocksNext(ids, slots);
      OfPhaseConcat(Flat(BlocksOf(ids[..n], slots[..n])), SlotEvents(ids[n], slots[n]), Xfer);
      XferOfSlot(ids[n], slots[n]);
      XfersNext(ids, slots, n);
    }
  }

  /** The phases of each slot follow one another, and connecting waits for the slot before to settle. */
  ghost predicate WellPlaced(slots: seq<Slot>) {
    && (forall i :: 0 <= i < |slots| ==> slots[i].connectStart <= slots[i].xferStart < slots[i].xferEnd < slots[i].settleEnd)
    && (forall i :: 0 <= i < |slots| - 1 ==> slots[i].settleEnd <= slots[i + 1].connectStart)
  }

  lemma SlotsWellPlaced(c: Corridor, slots: seq<Slot>)
    requires Sound(c) && AreSlots(slots, c)
    ensures WellPlaced(slots) && InSequence(slots)
  {
    forall i | 0 <= i < |slots|
      ensures slots[i].connectStart <= slots[i].xferStart < slots[i].xferEnd < slots[i].settleEnd && (i > 0 ==> slots[i - 1].settleEnd <= slots[i].connectStart)
    {
      SlotShape(c, i);
      assert DurationsAt(c, i).connect >= 0 && DurationsAt(c, i).xfer >= XFER_MIN && DurationsAt(c, i).settle >= 1;
      if i > 0 { SlotAfter(c, i); }
    }
  }

  /** Transfers follow one another, and so do the ends. */
  ghost predicate InSequence(slots: seq<Slot>) {
    && (forall i :: 0 <= i < |slots| ==> slots[i].xferStart < slots[i].xferEnd)
    && (forall i :: 0 <= i < |slots| - 1 ==> slots[i].xferEnd <= slots[i + 1].xferStart && slots[i].settleEnd < slots[i + 1].settleEnd)
  }

  lemma SerializedSorts(events: seq<Event>)
    requires Serialized(events) && forall i :: 0 <= i < |events| ==> events[i].startMs <= events[i].endMs
    ensures Serialized(ByStart(events))
  {
    Sorting.SortKeeps(events, (a: Event, b: Event) => a.startMs < b.startMs);
    assert ByStart(events) == events;
  }

  lemma XfersPass(ids: seq<string>, slots: seq<Slot>)
    requires |ids| == |slots| && InSequence(slots)
    ensures Serialized(ByStart(OfPhase(Flat(BlocksOf(ids, slots)), Xfer)))
  {
    XfersOf(ids, slots);
    SerializedSorts(OfPhase(Flat(BlocksOf(ids, slots)), Xfer));
  }

  lemma CompletionStep(a: seq<Event>, e: Event)
    ensures Completion(a + [e]) == if e.phase == Settling then Record(Completion(a), e.owner, e.endMs) else Completion(a)
  {
    assert (a + [e])[..|a|] == a;
  }

  lemma CompletionSlot(a: seq<Event>, id: string, s: Slot)
    ensures Completion(a + SlotEvents(id, s)) == Record(Completion(a), id, s.settleEnd)
  {
    var e := SlotEvents(id, s);
    CompletionStep(a, e[0]);
    CompletionStep(a + [e[0]], e[1]);
    CompletionStep(a + [e[0]] + [e[1]], e[2]);
    CompletionStep(a + [e[0]] + [e[1]] + [e[2]], e[3]);
    assert a + [e[0]] + [e[1]] + [e[2]] + [e[3]] == a + e;
  }

  /** When each action settles. */
  ghost function EndsOf(ids: seq<string>, slots: seq<Slot>): (r: seq<(string, int)>)
    requires |ids| == |slots|
    ensures |r| == |ids| && forall i :: 0 <= i < |ids| ==> r[i] == (ids[i], slots[i].settleEnd)
  {
    seq(|ids|, i requires 0 <= i < |ids| => (ids[i], slots[i].settleEnd))
  }

  lemma EndsNext(ids: seq<string>, slots: seq<Slot>, n: nat)
    requires |ids| == |slots| == n + 1 && Distinct(ids)
    ensures Record(EndsOf(ids[..n], slots[..n]), ids[n], slots[n].settleEnd) == EndsOf(ids, slots)
  {
    RecordNew(EndsOf(ids[..n], slots[..n]), ids[n], slots[n].settleEnd);
  }

  lemma {:induction false} CompletionOf(ids: seq<string>, slots: seq<Slot>)
    requires |ids| == |slots| && Distinct(ids)
    ensures Completion(Flat(BlocksOf(ids, slots))) == EndsOf(ids, slots)
  {
    if ids != [] {
      var n := |ids| - 1;
      CompletionOf(ids[..n], slots[..n]);
      BlocksNext(ids, slots);
      CompletionSlot(Flat(BlocksOf(ids[..n], slots[..n])), ids[n], slots[n]);
      EndsNext(ids, slots, n);
    }
  }

  lemma CompletionPasses(ids: seq<string>, slots: seq<Slot>)
    requires |ids| == |slots| && Distinct(ids) && InSequence(slots)
    ensures CompletionOrder(Flat(BlocksOf(ids, slots))) == ids
  {
    CompletionOf(ids, slots);
    Sorting.SortKeeps(EndsOf(ids, slots), EarlierEnd);
  }

  /** Action `i` has a phase running at time `t`. */
  ghost predicate Running(c: Corridor, i: nat, t: int)
    requires KnownIds(c) && i < |c.ids|
  {
    SlotAt(c, i).advStart <= t < SlotAt(c, i).settleEnd
  }

  lemma RunningAreNeighbours(c: Corridor, i: nat, j: nat, t: int)
    requires Sound(c) && i < j < |c.ids| && Running(c, i, t) && Running(c, j, t)
    ensures j == i + 1
  {
    if i < j - 1 {
      SlotAfter(c, j);
      SettledBeforeConnect(c, i, j - 1);
    }
  }

  lemma ActiveIsRunning(c: Corridor, t: int, id: string) returns (i: nat)
    requires Sound(c) && id in Active(Timeline(c, |c.ids|), t)
    ensures i < |c.ids| && c.ids[i] == id && Running(c, i, t)
  {
    var e :| e in Timeline(c, |c.ids|) && e.startMs <= t < e.endMs && e.owner == id;
    i := TimelineMember(c, |c.ids|, e);
    SlotShape(c, i);
    var d := DurationsAt(c, i);
    assert 0 <= d.adv && 0 <= d.connect && d.xfer >= XFER_MIN && d.settle >= 1;
  }

  /** At any time whatsoever at most two actions are active. */
  lemma AtMostTwoActive(c: Corridor, t: int)
    requires Sound(c)
    ensures |Active(Timeline(c, |c.ids|), t)| <= 2
  {
    var active := Active(Timeline(c, |c.ids|), t);
    if i: nat :| i + 1 < |c.ids| && Running(c, i, t) && Running(c, i + 1, t) {
      ActiveWithinPair(c, i, t);
      SubsetSize(active, {c.ids[i], c.ids[i + 1]});
    } else {
      ActiveAlone(c, t);
    }
  }

  lemma RunningInPair(c: Corridor, i: nat, j: nat, t: int)
    requires Sound(c) && i + 1 < |c.ids| && Running(c, i, t) && Running(c, i + 1, t) && j < |c.ids| && Running(c, j, t)
    ensures j == i || j == i + 1
  {
    if j < i { RunningAreNeighbours(c, j, i + 1, t); }
    if j > i { RunningAreNeighbours(c, i, j, t); }
  }

  lemma ActiveInPair(c: Corridor, i: nat, t: int, id: string)
    requires Sound(c) && i + 1 < |c.ids| && Running(c, i, t) && Running(c, i + 1, t) && id in Active(Timeline(c, |c.ids|), t)
    ensures id == c.ids[i] || id == c.ids[i + 1]
  {
    var j := ActiveIsRunning(c, t, id);
    RunningInPair(c, i, j, t);
  }

  lemma ActiveWithinPair(c: Corridor, i: nat, t: int)
    requires Sound(c) && i + 1 < |c.ids| && Running(c, i, t) && Running(c, i + 1, t)
    ensures Active(Timeline(c, |c.ids|), t) <= {c.ids[i], c.ids[i + 1]}
  {
    var active, first, second := Active(Timeline(c, |c.ids|), t), c.ids[i], c.ids[i + 1];
    forall id | id in active ensures id in {first, second} {
      ActiveInPair(c, i, t, id);
    }
  }

  lemma ActiveAlone(c: Corridor, t: int)
    requires Sound(c) && forall i :: 0 <= i < |c.ids| - 1 ==> !(Running(c, i, t) && Running(c, i + 1, t))
    ensures |Active(Timeline(c, |c.ids|), t)| <= 1
  {
    var active := Active(Timeline(c, |c.ids|), t);
    if active != {} {
      var one :| one in active;
      var i := ActiveIsRunning(c, t, one);
      forall id | id in active ensures id in {one} {
        var j := ActiveIsRunning(c, t, id);
        if j < i { RunningAreNeighbours(c, j, i, t); }
        if j > i { RunningAreNeighbours(c, i, j, t); }
      }
      SubsetSize(active, {one});
    }
  }

  /** What the pair checks see are the slots. */
  lemma ViewIsSlots(ids: seq<string>, slots: seq<Slot>, i: nat)
    requires |ids| == |slots| && Distinct(ids) && i + 1 < |ids|
    ensures var v, p, s := View(Flat(BlocksOf(ids, slots)), ids[i], ids[i + 1]), slots[i], slots[i + 1];
            v.Complete() && v.leftConnect.event.startMs == p.connectStart && v.leftXfer.event.startMs == p.xferStart
            && v.leftSettle.event.endMs == p.settleEnd && v.rightAdv.event.startMs == s.advStart && v.rightConnect.event.startMs == s.connectStart
  {
    LastIsSlot(ids, slots, i, PrepareConnect);
    LastIsSlot(ids, slots, i, Xfer);
    LastIsSlot(ids, slots, i, Settling);
    LastIsSlot(ids, slots, i + 1, PrepareAdv);
    LastIsSlot(ids, slots, i + 1, PrepareConnect);
  }

  lemma PairsPass(c: Corridor, i: nat)
    requires Sound(c) && i + 1 < |c.ids|
    ensures var events := Timeline(c, |c.ids|); TypeAt(c, events, i) && ScannerAt(c, events, i) && ConnectAt(c, events, i)
  {
    var slots := SlotsOf(c);
    ViewIsSlots(c.ids, slots, i);
    SlotAfter(c, i + 1);
  }

  /** Every timeline the expander builds passes every check of the validator. */
  lemma ExpansionValidates(c: Corridor, v: Validation)
    requires Sound(c) && Reports(c, Timeline(c, |c.ids|), v)
    ensures v.Passed()
  {
    forall i | 0 <= i < |c.ids| {
      PhasesPass(c, i);
    }
    var slots := SlotsOf(c);
    SlotsWellPlaced(c, slots);
    XfersPass(c.ids, slots);
    CompletionPasses(c.ids, slots);
    forall t {
      AtMostTwoActive(c, t);
    }
    forall i | 0 <= i < |c.ids| - 1 {
      PairsPass(c, i);
    }
  }
}
