/** Micro-phase timelines as the BLE and API refiners lay them out and their validators read them
    (optimizer/ble_micro_refinement.py, optimizer/api_micro_refinement.py). */
module Timelines {
  import opened Numbers
  import opened Sequences
  import Sorting
  import Text

  datatype Phase =
    | PrepareAdv | PrepareConnect | Xfer | Settling
    | CloudAuthCheck | CloudRateBudgetCheck | ApiPrepare | ApiSessionReady | CloudRequestSend | ApiResponseRecv
    | CloudBackoffWait | ApiParseNormalize | ApiAggregate | CloudBatchGroupCommit
    | LocalEndpointResolve | LocalSessionReady | LocalRequestSend | LocalResponseRecv | LocalParse | LocalCacheUpdate
    | MqttLastMsgRead | MqttCacheParse
    | HaStateWrite

  /** One phase of one action or batch step, over the half-open interval from `startMs` to `endMs`. */
  datatype Event = Event(owner: string, phase: Phase, startMs: int, endMs: int)

  function Of(events: seq<Event>, id: string): seq<Event> {
    if events == [] then []
    else
      var front := Of(events[..|events| - 1], id);
      if events[|events| - 1].owner == id then front + [events[|events| - 1]] else front
  }

  function OfPhase(events: seq<Event>, phase: Phase): seq<Event> {
    if events == [] then []
    else
      var front := OfPhase(events[..|events| - 1], phase);
      if events[|events| - 1].phase == phase then front + [events[|events| - 1]] else front
  }

  function ByStart(events: seq<Event>): seq<Event> {
    Sorting.Sort(events, (a: Event, b: Event) => a.startMs < b.startMs)
  }

  /** Each event ends before the next one starts. */
  ghost predicate Serialized(events: seq<Event>) {
    forall k :: 0 <= k < |events| - 1 ==> events[k].endMs <= events[k + 1].startMs
  }

  method FindInversion(events: seq<Event>) returns (found: bool)
    ensures found <==> !Serialized(events)
  {
    found := false;
    if events == [] { return; }
    for k := 1 to |events|
      invariant found <==> !Serialized(events[..k])
    {
      if events[k - 1].endMs > events[k].startMs { found := true; }
      assert events[..k + 1][..k] == events[..k];
      assert Serialized(events[..k + 1]) <==> Serialized(events[..k]) && events[k - 1].endMs <= events[k].startMs;
    }
    assert events[..|events|] == events;
  }

  /** Sets the entry of `id`, in place when there is one. */
  function Record(table: seq<(string, int)>, id: string, end: int): seq<(string, int)> {
    if table == [] then [(id, end)]
    else if table[0].0 == id then [(id, end)] + table[1..]
    else [table[0]] + Record(table[1..], id, end)
  }

  predicate EarlierEnd(a: (string, int), b: (string, int)) {
    a.1 < b.1 || (a.1 == b.1 && Text.Less(a.0, b.0))
  }

  /** Owners by their recorded end, ties by name. */
  function ByCompletion(table: seq<(string, int)>): seq<string> {
    var sorted := Sorting.Sort(table, EarlierEnd);
    seq(|sorted|, i requires 0 <= i < |sorted| => sorted[i].0)
  }

  /** The actions with a phase running at time `t`. */
  function Active(events: seq<Event>, t: int): set<string> {
    set e | e in events && e.startMs <= t < e.endMs :: e.owner
  }

  function Points(events: seq<Event>): set<int> {
    (set e | e in events :: e.startMs) + (set e | e in events :: e.endMs)
  }

  ghost predicate LookaheadOk(events: seq<Event>, limit: int) {
    limit >= 0 && forall t :: t in Points(events) ==> |Active(events, t)| <= limit
  }

  datatype Found = Missing | Hit(event: Event)

  /** The last event of that action and phase. */
  function Last(events: seq<Event>, id: string, phase: Phase): Found {
    if events == [] then Missing
    else
      var e := events[|events| - 1];
      if e.owner == id && e.phase == phase then Hit(e) else Last(events[..|events| - 1], id, phase)
  }

  /** Largest number of actions active at a sweep point; 0 when there is no point. */
  method MaxActive(events: seq<Event>) returns (most: nat)
    ensures forall t :: t in Points(events) ==> |Active(events, t)| <= most
    ensures most == 0 || exists t :: t in Points(events) && |Active(events, t)| == most
  {
    most := 0;
    var todo := Points(events);
    while todo != {}
      invariant todo <= Points(events)
      invariant forall t :: t in Points(events) && t !in todo ==> |Active(events, t)| <= most
      invariant most == 0 || exists t :: t in Points(events) && |Active(events, t)| == most
    {
      var point :| point in todo;
      todo := todo - {point};
      var active := Active(events, point);
      if |active| > most { most := |active|; }
    }
  }

  method CheckLookahead(events: seq<Event>, limit: int) returns (ok: bool)
    ensures ok == LookaheadOk(events, limit)
  {
    var most := MaxActive(events);
    ok := most <= limit;
  }

  /** Latest end of any event; 0 when there is none. */
  function MaxEnd(events: seq<Event>): int {
    if events == [] then 0
    else if |events| == 1 then events[0].endMs
    else Max(MaxEnd(events[..|events| - 1]), events[|events| - 1].endMs)
  }

  lemma {:induction false} OfConcat(a: seq<Event>, b: seq<Event>, id: string)
    ensures Of(a + b, id) == Of(a, id) + Of(b, id)
  {
    if b == [] {
      assert a + b == a;
    } else {
      assert (a + b)[..|a + b| - 1] == a + b[..|b| - 1];
      OfConcat(a, b[..|b| - 1], id);
    }
  }

  lemma {:induction false} OfAll(a: seq<Event>, id: string)
    ensures (forall e :: e in a ==> e.owner == id) ==> Of(a, id) == a
    ensures (forall e :: e in a ==> e.owner != id) ==> Of(a, id) == []
  {
    if a != [] {
      OfAll(a[..|a| - 1], id);
      assert a == a[..|a| - 1] + [a[|a| - 1]];
    }
  }

  lemma {:induction false} LastConcat(a: seq<Event>, b: seq<Event>, id: string, phase: Phase)
    ensures Last(a + b, id, phase) == if Last(b, id, phase).Hit? then Last(b, id, phase) else Last(a, id, phase)
  {
    if b == [] {
      assert a + b == a;
    } else {
      assert (a + b)[..|a + b| - 1] == a + b[..|b| - 1];
      LastConcat(a, b[..|b| - 1], id, phase);
    }
  }

  lemma {:induction false} OfPhaseConcat(a: seq<Event>, b: seq<Event>, phase: Phase)
    ensures OfPhase(a + b, phase) == OfPhase(a, phase) + OfPhase(b, phase)
  {
    if b == [] {
      assert a + b == a;
    } else {
      assert (a + b)[..|a + b| - 1] == a + b[..|b| - 1];
      OfPhaseConcat(a, b[..|b| - 1], phase);
    }
  }

  lemma OfPhaseStep(a: seq<Event>, e: Event, phase: Phase)
    ensures OfPhase(a + [e], phase) == OfPhase(a, phase) + if e.phase == phase then [e] else []
  {
    assert (a + [e])[..|a|] == a;
  }

  lemma {:induction false} RecordNew(table: seq<(string, int)>, id: string, end: int)
    requires forall k :: 0 <= k < |table| ==> table[k].0 != id
    ensures Record(table, id, end) == table + [(id, end)]
  {
    if table != [] {
      RecordNew(table[1..], id, end);
      assert table == [table[0]] + table[1..];
    }
  }

  lemma MaxEndStep(a: seq<Event>, e: Event)
    ensures MaxEnd(a + [e]) == if a == [] then e.endMs else Max(MaxEnd(a), e.endMs)
  {
    assert (a + [e])[..|a|] == a;
  }

  lemma {:induction false} LastNone(a: seq<Event>, id: string, phase: Phase)
    requires forall e :: e in a ==> e.owner != id || e.phase != phase
    ensures Last(a, id, phase) == Missing
  {
    if a != [] {
      assert a[|a| - 1] in a;
      LastNone(a[..|a| - 1], id, phase);
    }
  }

  lemma {:induction false} LastUnique(a: seq<Event>, k: nat)
    requires k < |a| && forall j :: 0 <= j < |a| && j != k ==> a[j].owner != a[k].owner || a[j].phase != a[k].phase
    ensures Last(a, a[k].owner, a[k].phase) == Hit(a[k])
  {
    if k < |a| - 1 {
      var front := a[..|a| - 1];
      assert front[k] == a[k];
      LastUnique(front, k);
    }
  }

  // ----- timelines laid out owner by owner

  ghost function Flat(blocks: seq<seq<Event>>): seq<Event> {
    if blocks == [] then [] else Flat(blocks[..|blocks| - 1]) + blocks[|blocks| - 1]
  }

  /** Block `i` holds events of `ids[i]` only, and the ids differ. */
  ghost predicate Owned(blocks: seq<seq<Event>>, ids: seq<string>) {
    && |ids| == |blocks| && Distinct(ids)
    && (forall i :: 0 <= i < |blocks| ==> OwnedBy(blocks[i], ids[i]))
  }

  ghost predicate OwnedBy(block: seq<Event>, id: string) {
    forall e :: e in block ==> e.owner == id
  }

  lemma {:induction false} OfOthers(blocks: seq<seq<Event>>, ids: seq<string>, id: string)
    requires Owned(blocks, ids) && id !in ids
    ensures Of(Flat(blocks), id) == []
  {
    if blocks != [] {
      var front, last, k := blocks[..|blocks| - 1], blocks[|blocks| - 1], |ids| - 1;
      OfOthers(front, ids[..k], id);
      OfConcat(Flat(front), last, id);
      assert OwnedBy(last, ids[k]) && ids[k] in ids;
      OfAll(last, id);
    }
  }

  /** Filtering by an owner gives back its block. */
  lemma {:induction false} OfBlock(blocks: seq<seq<Event>>, ids: seq<string>, i: nat)
    requires Owned(blocks, ids) && i < |blocks|
    ensures Of(Flat(blocks), ids[i]) == blocks[i]
  {
    var front, last, k := blocks[..|blocks| - 1], blocks[|blocks| - 1], |ids| - 1;
    OfConcat(Flat(front), last, ids[i]);
    assert OwnedBy(last, ids[k]);
    OfAll(last, ids[i]);
    if i == k { OfOthers(front, ids[..k], ids[i]); } else { OfBlock(front, ids[..k], i); }
  }

  lemma {:induction false} LastOfBlock(blocks: seq<seq<Event>>, ids: seq<string>, i: nat, phase: Phase)
    requires Owned(blocks, ids) && i < |blocks| && Last(blocks[i], ids[i], phase).Hit?
    ensures Last(Flat(blocks), ids[i], phase) == Last(blocks[i], ids[i], phase)
  {
    var front, last, k := blocks[..|blocks| - 1], blocks[|blocks| - 1], |ids| - 1;
    LastConcat(Flat(front), last, ids[i], phase);
    if i < k {
      assert OwnedBy(last, ids[k]) && ids[i] != ids[k];
      LastNone(last, ids[i], phase);
      LastOfBlock(front, ids[..k], i, phase);
    }
  }

  lemma {:induction false} MaxEndIs(a: seq<Event>, m: int)
    requires a != [] && (forall e :: e in a ==> e.endMs <= m) && exists e :: e in a && e.endMs == m
    ensures MaxEnd(a) == m
  {
    if |a| > 1 {
      var front, last := a[..|a| - 1], a[|a| - 1];
      assert a == front + [last];
      if e :| e in front && e.endMs == m {
        MaxEndIs(front, m);
      } else {
        MaxEndUpper(front, m);
      }
    }
  }

  lemma {:induction false} MaxEndUpper(a: seq<Event>, m: int)
    requires a != [] && (forall e :: e in a ==> e.endMs <= m)
    ensures MaxEnd(a) <= m
  {
    assert a[|a| - 1] in a;
    if |a| > 1 { MaxEndUpper(a[..|a| - 1], m); }
  }

  /** Sampling at the end points finds the true maximum: no instant has more active owners than some sweep point. */
  lemma SweepIsExact(events: seq<Event>, limit: nat)
    ensures (forall t :: t in Points(events) ==> |Active(events, t)| <= limit) <==> (forall t {:trigger Active(events, t)} :: |Active(events, t)| <= limit)
  {
    if forall t :: t in Points(events) ==> |Active(events, t)| <= limit {
      forall t ensures |Active(events, t)| <= limit {
        if e :| e in events && e.startMs <= t < e.endMs {
          var starts := set d | d in events :: d.startMs;
          assert e.startMs in starts;
          var point := LargestUpTo(starts, t);
          forall d | d in events && d.startMs <= t < d.endMs ensures d.startMs <= point < d.endMs { assert d.startMs in starts; }
          SubsetSize(Active(events, t), Active(events, point));
          assert point in Points(events);
        } else {
          assert Active(events, t) == {};
        }
      }
    }
  }
}
