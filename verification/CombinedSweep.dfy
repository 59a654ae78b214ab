/** Sweep over a simulated timeline (optimizer/combined_micro_refinement.py `_sweep_max_overlap` and the limits checked
    with it). */
module CombinedSweep {
  import opened Numbers
  import opened Sequences
  import opened Timelines

  datatype SimPhase = CoarseBatch | Micro(phase: Phase)

  datatype SimSource = Coarse | BleSegment | ApiSegment

  /** An event of the simulated plan with the keys of the resources it uses; an absent key is empty. */
  datatype SimEvent = SimEvent(source: SimSource, corridor: string, owner: string, batch: string, phase: SimPhase, startMs: int, endMs: int,
    host: string, bucket: string, session: string, endpoint: string)

  predicate ActiveAt(e: SimEvent, t: int) {
    e.startMs <= t < e.endMs
  }

  /** How many events with key `k` are active at time `t`. */
  ghost function Count(events: seq<SimEvent>, key: SimEvent -> string, k: string, t: int): nat {
    if events == [] then 0
    else
      var last := events[|events| - 1];
      Count(events[..|events| - 1], key, k, t) + (if ActiveAt(last, t) && key(last) == k then 1 else 0)
  }

  function Lookup(m: map<string, nat>, k: string): nat {
    if k in m then m[k] else 0
  }

  /** The active events at one point, counted by key. */
  method Buckets(events: seq<SimEvent>, key: SimEvent -> string, point: int) returns (buckets: map<string, nat>)
    ensures forall k {:trigger Count(events, key, k, point)} :: Lookup(buckets, k) == Count(events, key, k, point)
    ensures forall k :: k in buckets ==> buckets[k] > 0
  {
    buckets := map[];
    for i := 0 to |events|
      invariant forall k {:trigger Count(events[..i], key, k, point)} :: Lookup(buckets, k) == Count(events[..i], key, k, point)
      invariant forall k :: k in buckets ==> buckets[k] > 0
    {
      var before := buckets;
      if ActiveAt(events[i], point) {
        var k := key(events[i]);
        buckets := buckets[k := Lookup(buckets, k) + 1];
      }
      assert events[..i + 1][..i] == events[..i];
      forall k ensures Lookup(buckets, k) == Count(events[..i + 1], key, k, point) {
        assert Lookup(before, k) == Count(events[..i], key, k, point);
      }
    }
    assert events[..|events|] == events;
  }

  method Merge(maxima: map<string, nat>, buckets: map<string, nat>) returns (merged: map<string, nat>)
    ensures forall k {:trigger Lookup(merged, k)} :: Lookup(merged, k) == Max(Lookup(maxima, k), Lookup(buckets, k))
    ensures forall k :: k in merged ==> k in maxima || k in buckets
  {
    merged := maxima;
    var todo := buckets.Keys;
    while todo != {}
      invariant todo <= buckets.Keys
      invariant forall k {:trigger Lookup(merged, k)} :: Lookup(merged, k) == if k in todo then Lookup(maxima, k) else Max(Lookup(maxima, k), Lookup(buckets, k))
      invariant forall k :: k in merged ==> k in maxima || k in buckets
    {
      var k :| k in todo;
      todo := todo - {k};
      var before := merged;
      merged := merged[k := Max(Lookup(merged, k), buckets[k])];
      forall j ensures Lookup(merged, j) == if j in todo then Lookup(maxima, j) else Max(Lookup(maxima, j), Lookup(buckets, j)) {
        assert Lookup(before, j) == if j in todo || j == k then Lookup(maxima, j) else Max(Lookup(maxima, j), Lookup(buckets, j));
      }
    }
  }

  /** `m` holds, for each key, the largest number of events with it that are active at the same time. */
  ghost predicate IsMaximum(m: map<string, nat>, events: seq<SimEvent>, key: SimEvent -> string) {
    && (forall k, t {:trigger Count(events, key, k, t)} :: Count(events, key, k, t) <= Lookup(m, k))
    && (forall k :: k in m ==> m[k] > 0 && Reached(events, key, k, m[k]))
  }

  ghost predicate Reached(events: seq<SimEvent>, key: SimEvent -> string, k: string, n: nat) {
    exists t :: Count(events, key, k, t) == n
  }

  ghost function StartPoints(events: seq<SimEvent>): set<int> {
    set e | e in events :: e.startMs
  }

  function Points(events: seq<SimEvent>): set<int> {
    (set e | e in events :: e.startMs) + (set e | e in events :: e.endMs)
  }

  lemma {:induction false} CountGrows(events: seq<SimEvent>, key: SimEvent -> string, k: string, t: int, p: int)
    requires forall e :: e in events && ActiveAt(e, t) ==> ActiveAt(e, p)
    ensures Count(events, key, k, t) <= Count(events, key, k, p)
  {
    if events != [] {
      assert events[|events| - 1] in events;
      CountGrows(events[..|events| - 1], key, k, t, p);
    }
  }

  lemma {:induction false} CountNothing(events: seq<SimEvent>, key: SimEvent -> string, k: string, t: int)
    requires forall e :: e in events ==> !ActiveAt(e, t)
    ensures Count(events, key, k, t) == 0
  {
    if events != [] {
      assert events[|events| - 1] in events;
      CountNothing(events[..|events| - 1], key, k, t);
    }
  }

  /** No instant beats the end points. */
  lemma EndPointsSuffice(events: seq<SimEvent>, key: SimEvent -> string, k: string, t: int) returns (p: int)
    ensures Count(events, key, k, t) == 0 || (p in Points(events) && Count(events, key, k, t) <= Count(events, key, k, p))
  {
    p := t;
    if e :| e in events && ActiveAt(e, t) {
      assert e.startMs in StartPoints(events);
      p := LargestUpTo(StartPoints(events), t);
      forall d | d in events && ActiveAt(d, t) ensures ActiveAt(d, p) { assert d.startMs in StartPoints(events); }
      CountGrows(events, key, k, t, p);
    } else {
      CountNothing(events, key, k, t);
    }
  }

  /** The sweep samples only the end points of events, yet finds the true maxima over all times. */
  method SweepMaxOverlap(events: seq<SimEvent>, keep: SimEvent -> bool, key: SimEvent -> string) returns (maxima: map<string, nat>)
    ensures IsMaximum(maxima, Filter(events, keep), key)
  {
    var filtered := Filter(events, keep);
    maxima := map[];
    var todo := Points(filtered);
    while todo != {}
      invariant todo <= Points(filtered)
      invariant forall k, t {:trigger Count(filtered, key, k, t)} :: t in Points(filtered) && t !in todo ==> Count(filtered, key, k, t) <= Lookup(maxima, k)
      invariant forall k :: k in maxima ==> maxima[k] > 0 && Reached(filtered, key, k, maxima[k])
    {
      var point :| point in todo;
      todo := todo - {point};
      var buckets := Buckets(filtered, key, point);
      var merged := Merge(maxima, buckets);
      forall k | k in merged ensures merged[k] > 0 && Reached(filtered, key, k, merged[k]) {
        assert Lookup(merged, k) == Max(Lookup(maxima, k), Lookup(buckets, k));
        assert Lookup(buckets, k) == Count(filtered, key, k, point);
      }
      forall k, t | t in Points(filtered) && t !in todo ensures Count(filtered, key, k, t) <= Lookup(merged, k) {
        assert Lookup(merged, k) == Max(Lookup(maxima, k), Lookup(buckets, k));
        assert Lookup(buckets, k) == Count(filtered, key, k, point);
      }
      maxima := merged;
    }
    forall k, t ensures Count(filtered, key, k, t) <= Lookup(maxima, k) {
      var p := EndPointsSuffice(filtered, key, k, t);
    }
  }

  /** At no time are more than `limit` events with the same key active. */
  ghost predicate Within(events: seq<SimEvent>, key: SimEvent -> string, limit: int) {
    forall k, t {:trigger Count(events, key, k, t)} :: Count(events, key, k, t) > 0 ==> Count(events, key, k, t) <= limit
  }

  /** One limit check. */
  method CheckLimit(events: seq<SimEvent>, keep: SimEvent -> bool, key: SimEvent -> string, limit: int) returns (ok: bool)
    ensures ok == Within(Filter(events, keep), key, limit)
  {
    var maxima := SweepMaxOverlap(events, keep, key);
    ok := forall k :: k in maxima ==> maxima[k] <= limit;
    ghost var filtered := Filter(events, keep);
    if ok {
      forall k, t | Count(filtered, key, k, t) > 0 ensures Count(filtered, key, k, t) <= limit {
        assert Count(filtered, key, k, t) <= Lookup(maxima, k);
      }
    } else {
      ghost var k :| k in maxima && maxima[k] > limit;
      assert Reached(filtered, key, k, maxima[k]);
      ghost var t :| Count(filtered, key, k, t) == maxima[k];
    }
  }

  // ----- the limits of the combined validator

  predicate InPhase(e: SimEvent, phase: Phase) {
    e.phase == Micro(phase)
  }

  predicate Parses(e: SimEvent) {
    InPhase(e, ApiParseNormalize) || InPhase(e, ApiAggregate) || InPhase(e, LocalParse) || InPhase(e, LocalCacheUpdate) || InPhase(e, MqttCacheParse)
  }

  function OrMissing(key: string): string {
    if key == "" then "__missing__" else key
  }

  datatype Limits = Limits(bleXfer: int, bleConnect: int, cloudHost: int, cloudBucket: int, localEndpoint: int, localSession: int, parse: int)

  /** Never more transfers, nor, with the slot guard on, connection set-ups at a time than allowed. */
  ghost predicate BleWithin(events: seq<SimEvent>, l: Limits, slotGuard: bool) {
    && Within(Filter(events, (e: SimEvent) => InPhase(e, Xfer)), e => "", l.bleXfer)
    && (slotGuard ==> Within(Filter(events, (e: SimEvent) => InPhase(e, PrepareConnect)), e => "", l.bleConnect))
  }

  /** Never more requests at a time to one host, bucket, endpoint or session than allowed. */
  ghost predicate RequestsWithin(events: seq<SimEvent>, l: Limits) {
    && Within(Filter(events, (e: SimEvent) => InPhase(e, CloudRequestSend)), (e: SimEvent) => OrMissing(e.host), l.cloudHost)
    && Within(Filter(events, (e: SimEvent) => InPhase(e, CloudRequestSend)), (e: SimEvent) => OrMissing(e.bucket), l.cloudBucket)
    && Within(Filter(events, (e: SimEvent) => InPhase(e, LocalRequestSend)), (e: SimEvent) => OrMissing(e.endpoint), l.localEndpoint)
    && Within(Filter(events, (e: SimEvent) => InPhase(e, LocalRequestSend)), (e: SimEvent) => OrMissing(e.session), l.localSession)
  }

  method CheckBle(events: seq<SimEvent>, l: Limits, slotGuard: bool) returns (ok: bool)
    ensures ok == BleWithin(events, l, slotGuard)
  {
    ok := CheckLimit(events, (e: SimEvent) => InPhase(e, Xfer), e => "", l.bleXfer);
    var connects := CheckLimit(events, (e: SimEvent) => InPhase(e, PrepareConnect), e => "", l.bleConnect);
    if slotGuard && !connects { ok := false; }
  }

  method CheckRequests(events: seq<SimEvent>, l: Limits) returns (ok: bool)
    ensures ok == RequestsWithin(events, l)
  {
    var host := CheckLimit(events, (e: SimEvent) => InPhase(e, CloudRequestSend), (e: SimEvent) => OrMissing(e.host), l.cloudHost);
    var bucket := CheckLimit(events, (e: SimEvent) => InPhase(e, CloudRequestSend), (e: SimEvent) => OrMissing(e.bucket), l.cloudBucket);
    var endpoint := CheckLimit(events, (e: SimEvent) => InPhase(e, LocalRequestSend), (e: SimEvent) => OrMissing(e.endpoint), l.localEndpoint);
    var session := CheckLimit(events, (e: SimEvent) => InPhase(e, LocalRequestSend), (e: SimEvent) => OrMissing(e.session), l.localSession);
    ok := host && bucket && endpoint && session;
  }

  method CheckParsing(events: seq<SimEvent>, l: Limits) returns (ok: bool)
    ensures ok == Within(Filter(events, Parses), e => "", l.parse)
  {
    ok := CheckLimit(events, Parses, e => "", l.parse);
  }

  /** `e` prepares or sends to the host of the backoff `b` of another owner before that backoff is over. */
  predicate Bypasses(e: SimEvent, b: SimEvent) {
    && InPhase(b, CloudBackoffWait) && b.host != "" && b.endMs > b.startMs
    && e.host == b.host && e.owner != b.owner && e.startMs < b.endMs
    && (InPhase(e, CloudAuthCheck) || InPhase(e, CloudRateBudgetCheck) || InPhase(e, ApiPrepare) || InPhase(e, CloudRequestSend))
  }

  method CheckBackoff(events: seq<SimEvent>) returns (ok: bool)
    ensures ok <==> forall e, b :: e in events && b in events ==> !Bypasses(e, b)
  {
    ok := true;
    for i := 0 to |events|
      invariant ok <==> forall e, k :: 0 <= k < i && e in events ==> !Bypasses(e, events[k])
    {
      var bypassed := exists e :: e in events && Bypasses(e, events[i]);
      if bypassed { ok := false; }
    }
  }
}
