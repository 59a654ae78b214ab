/** Exactly when an API step's durations come out negative (optimizer/api_micro_refinement.py
    `_allocate_phase_durations`, `_phase_durations`). Only a tight total can leave the last phase short. */
module ApiOverdraft {
  import opened Numbers
  import opened Sequences
  import opened ApiPhases

  /** A latency `l` lies between 1/16 and 1/12 or between 3/16 and 7/36 of the sum `f` of a cloud step's minima; on the
      upper ends only an even one, and an odd one also at 3/28. */
  ghost predicate Short(l: int, f: int) {
    || (f < 16 * l && 12 * l < f)
    || (3 * f < 16 * l && 36 * l < 7 * f)
    || (l % 2 == 0 && (12 * l == f || 36 * l == 7 * f))
    || (l % 2 == 1 && 28 * l == 3 * f)
  }

  /** The latencies that leave a phase of a step with a negative duration. */
  ghost predicate Overdrawn(kind: Kind, latency: int, wait: int) {
    match kind
    case Cloud => Short(latency, Floor(Cloud, wait))
    case LocalHttp => latency == 5
    case Mqtt => false
  }

  // ----- where a rounded ratio lies

  /** `r` against the point between `c` and `c + 1`, at which the ratio of `n` and `d` is rounded to the even one. */
  ghost predicate Between(n: int, d: int, r: int, c: int) {
    && (2 * n < (2 * c + 1) * d ==> r <= c)
    && (2 * n > (2 * c + 1) * d ==> r >= c + 1)
    && (2 * n == (2 * c + 1) * d ==> r == if c % 2 == 0 then c else c + 1)
  }

  lemma MulOrder(d: int, a: int, b: int)
    requires d > 0
    ensures a <= b ==> d * a <= d * b
    ensures a > b ==> d * a >= d * b + d
    ensures d * a == d * b ==> a == b
  {
    MulAtLeast(d, a - b);
    assert d * (a - b) == d * a - d * b;
  }

  lemma RoundBetween(n: int, d: int, c: int)
    requires d > 0
    ensures Between(n, d, RoundHalfEven(n, d), c)
  {
    var r := RoundHalfEven(n, d);
    MulOrder(d, r, c);
    MulOrder(d, r, c + 1);
    Nearest(n, d, r, c, d * r, d * c);
    assert (2 * c + 1) * d == 2 * (d * c) + d && d * (c + 1) == d * c + d && 2 * (d * r - n) == 2 * (d * r) - 2 * n;
  }

  /** The comparison on the products alone. */
  lemma Nearest(n: int, d: int, r: int, c: int, whole: int, point: int)
    requires d > 0 && -d <= 2 * whole - 2 * n <= d && (2 * whole - 2 * n == d || 2 * whole - 2 * n == -d ==> r % 2 == 0)
    requires (r <= c ==> whole <= point) && (r > c ==> whole >= point + d) && (whole == point ==> r == c) && (whole == point + d ==> r == c + 1)
    ensures 2 * n < 2 * point + d ==> r <= c
    ensures 2 * n > 2 * point + d ==> r >= c + 1
    ensures 2 * n == 2 * point + d ==> r == if c % 2 == 0 then c else c + 1
  {
  }

  /** The same for what the backoff wait leaves of a latency: 126 parts of it, rounded. */
  ghost predicate RestBetween(l: int, f: int, rest: int, k: int) {
    && (252 * l < (2 * k + 1) * f ==> rest <= k)
    && (252 * l > (2 * k + 1) * f ==> rest >= k + 1)
    && (252 * l == (2 * k + 1) * f ==> rest == if (l - k) % 2 == 0 then k else k + 1)
  }

  lemma RestIsBetween(l: int, wait: int, k: int)
    requires wait >= 0
    ensures RestBetween(l, 126 + wait, l - RoundHalfEven(wait * l, 126 + wait), k)
  {
    var f, c := 126 + wait, l - k - 1;
    RoundBetween(wait * l, f, c);
    assert wait * l == f * l - 126 * l;
    assert (2 * c + 1) * f == 2 * (f * l) - (2 * k + 1) * f;
  }

  /** The rounded parts of a latency for the minima of 8, 10, 12, 14 and 24 ms, and what the wait leaves. */
  datatype Parts = Parts(r8: int, r10: int, r12: int, r14: int, r24: int, rest: int)

  ghost function PartsOf(l: int, wait: int): Parts
    requires wait >= 0
  {
    var f := 126 + wait;
    Parts(RoundHalfEven(8 * l, f), RoundHalfEven(10 * l, f), RoundHalfEven(12 * l, f), RoundHalfEven(14 * l, f), RoundHalfEven(24 * l, f),
          l - RoundHalfEven(wait * l, f))
  }

  ghost predicate Rounded(l: int, f: int, r: Parts) {
    && (forall c :: Between(8 * l, f, r.r8, c)) && (forall c :: Between(10 * l, f, r.r10, c)) && (forall c :: Between(12 * l, f, r.r12, c))
    && (forall c :: Between(14 * l, f, r.r14, c)) && (forall c :: Between(24 * l, f, r.r24, c)) && forall k :: RestBetween(l, f, r.rest, k)
  }

  lemma PartsAreRounded(l: int, wait: int)
    requires wait >= 0
    ensures Rounded(l, 126 + wait, PartsOf(l, wait))
  {
    var f, r := 126 + wait, PartsOf(l, wait);
    forall c ensures Between(8 * l, f, r.r8, c) { RoundBetween(8 * l, f, c); }
    forall c ensures Between(10 * l, f, r.r10, c) { RoundBetween(10 * l, f, c); }
    forall c ensures Between(12 * l, f, r.r12, c) { RoundBetween(12 * l, f, c); }
    forall c ensures Between(14 * l, f, r.r14, c) { RoundBetween(14 * l, f, c); }
    forall c ensures Between(24 * l, f, r.r24, c) { RoundBetween(24 * l, f, c); }
    forall k ensures RestBetween(l, f, r.rest, k) { RestIsBetween(l, wait, k); }
  }

  /** What the nine phases with fixed minima before the last one get of a tight latency. */
  ghost function Drawn(r: Parts): int {
    3 * r.r8 + 2 * r.r10 + r.r12 + r.r14 + 2 * r.r24
  }

  // ----- the latency against the minima

  /** Below the points given for the five parts they draw at most what the wait certainly leaves. */
  lemma Enough(l: int, f: int, r: Parts, k8: int, k10: int, k12: int, k14: int, k24: int)
    requires Rounded(l, f, r) && 16 * l < (2 * k8 + 1) * f && 20 * l < (2 * k10 + 1) * f && 24 * l < (2 * k12 + 1) * f
    requires 28 * l < (2 * k14 + 1) * f && 48 * l < (2 * k24 + 1) * f
    requires 252 * l > (2 * (3 * k8 + 2 * k10 + k12 + k14 + 2 * k24 - 1) + 1) * f
    ensures Drawn(r) <= r.rest
  {
    assert Between(8 * l, f, r.r8, k8) && Between(10 * l, f, r.r10, k10) && Between(12 * l, f, r.r12, k12);
    assert Between(14 * l, f, r.r14, k14) && Between(24 * l, f, r.r24, k24);
    assert RestBetween(l, f, r.rest, 3 * k8 + 2 * k10 + k12 + k14 + 2 * k24 - 1);
  }

  lemma TooMuch(l: int, f: int, r: Parts)
    requires Rounded(l, f, r) && f > 0 && ((f < 16 * l && 12 * l < f) || (3 * f < 16 * l && 36 * l < 7 * f))
    ensures Drawn(r) > r.rest
  {
    if 12 * l < f {
      assert Between(8 * l, f, r.r8, 0) && Between(10 * l, f, r.r10, 0) && Between(12 * l, f, r.r12, 0);
      assert Between(14 * l, f, r.r14, 0) && Between(24 * l, f, r.r24, 1) && RestBetween(l, f, r.rest, 10);
    } else {
      assert Between(8 * l, f, r.r8, 1) && Between(10 * l, f, r.r10, 1) && Between(12 * l, f, r.r12, 1);
      assert Between(14 * l, f, r.r14, 2) && Between(24 * l, f, r.r24, 4) && RestBetween(l, f, r.rest, 24);
    }
  }

  /** Up to 1/16. */
  lemma Below1(l: int, f: int, p: Parts)
    requires Rounded(l, f, p) && f > 0 && 0 < l && 24 * l < f
    ensures Drawn(p) <= p.rest
  {
    if 48 * l < f { Enough(l, f, p, 0, 0, 0, 0, 0); }
    else { Enough(l, f, p, 0, 0, 0, 1, 1); }
  }

  lemma Below2(l: int, f: int, p: Parts)
    requires Rounded(l, f, p) && f > 0 && f <= 24 * l && 16 * l < f
    ensures Drawn(p) <= p.rest
  {
    if 20 * l < f { Enough(l, f, p, 0, 0, 1, 1, 1); }
    else { Enough(l, f, p, 0, 1, 1, 1, 1); }
  }

  /** From 1/12 to 1/8 except for 3/28, and on to 3/16. */
  lemma Inside1(l: int, f: int, p: Parts)
    requires Rounded(l, f, p) && f > 0 && f < 12 * l && 8 * l < f && 28 * l != 3 * f
    ensures Drawn(p) <= p.rest
  {
    if 48 * l < 5 * f { Enough(l, f, p, 1, 1, 1, 1, 2); }
    else if 28 * l < 3 * f { Enough(l, f, p, 1, 1, 1, 1, 3); }
    else { Enough(l, f, p, 1, 1, 1, 2, 3); }
  }

  lemma Inside2(l: int, f: int, p: Parts)
    requires Rounded(l, f, p) && f > 0 && f <= 8 * l && 20 * l < 3 * f
    ensures Drawn(p) <= p.rest
  {
    if 48 * l < 7 * f { Enough(l, f, p, 1, 1, 2, 2, 3); }
    else { Enough(l, f, p, 1, 1, 2, 2, 4); }
  }

  lemma Inside3(l: int, f: int, p: Parts)
    requires Rounded(l, f, p) && f > 0 && 3 * f <= 20 * l && 16 * l < 3 * f
    ensures Drawn(p) <= p.rest
  {
    if 28 * l < 5 * f { Enough(l, f, p, 1, 2, 2, 2, 4); }
    else { Enough(l, f, p, 1, 2, 2, 3, 4); }
  }

  /** From 7/36 to 25/48. */
  lemma Above1(l: int, f: int, p: Parts)
    requires Rounded(l, f, p) && f > 0 && 7 * f < 36 * l && 4 * l < f
    ensures Drawn(p) <= p.rest
  {
    if 24 * l < 5 * f { Enough(l, f, p, 2, 2, 2, 3, 5); }
    else if 48 * l < 11 * f { Enough(l, f, p, 2, 2, 3, 3, 5); }
    else { Enough(l, f, p, 2, 2, 3, 3, 6); }
  }

  lemma Above2(l: int, f: int, p: Parts)
    requires Rounded(l, f, p) && f > 0 && f <= 4 * l && 16 * l < 5 * f
    ensures Drawn(p) <= p.rest
  {
    if 48 * l < 13 * f { Enough(l, f, p, 2, 3, 3, 4, 6); }
    else { Enough(l, f, p, 2, 3, 4, 4, 7); }
  }

  lemma Above3(l: int, f: int, p: Parts)
    requires Rounded(l, f, p) && f > 0 && 5 * f <= 16 * l && 8 * l < 3 * f
    ensures Drawn(p) <= p.rest
  {
    if 28 * l < 9 * f { Enough(l, f, p, 3, 3, 4, 4, 8); }
    else if 20 * l < 7 * f { Enough(l, f, p, 3, 3, 4, 5, 8); }
    else { Enough(l, f, p, 3, 4, 4, 5, 9); }
  }

  lemma Above4(l: int, f: int, p: Parts)
    requires Rounded(l, f, p) && f > 0 && 3 * f <= 8 * l && 16 * l < 7 * f
    ensures Drawn(p) <= p.rest
  {
    if 48 * l < 19 * f { Enough(l, f, p, 3, 4, 5, 6, 9); }
    else { Enough(l, f, p, 3, 4, 5, 6, 10); }
  }

  lemma Above5(l: int, f: int, p: Parts)
    requires Rounded(l, f, p) && f > 0 && 7 * f <= 16 * l && 48 * l < 25 * f
    ensures Drawn(p) <= p.rest
  {
    if 24 * l < 11 * f { Enough(l, f, p, 4, 5, 5, 6, 11); }
    else if 48 * l < 23 * f { Enough(l, f, p, 4, 5, 6, 7, 11); }
    else { Enough(l, f, p, 4, 5, 6, 7, 12); }
  }

  // ----- on the ends of the ranges and at 3/28 some parts are rounded to even

  lemma OneSixteenth(l: int, f: int, r: Parts)
    requires Rounded(l, f, r) && f > 0 && 16 * l == f
    ensures Drawn(r) <= r.rest
  {
    assert Between(8 * l, f, r.r8, 0) && Between(10 * l, f, r.r10, 1) && Between(12 * l, f, r.r12, 1)
      && Between(14 * l, f, r.r14, 1) && Between(24 * l, f, r.r24, 1) && RestBetween(l, f, r.rest, 7);
  }

  lemma OneTwelfth(l: int, f: int, r: Parts)
    requires Rounded(l, f, r) && f > 0 && 12 * l == f
    ensures Drawn(r) > r.rest <==> l % 2 == 0
  {
    assert r.r8 == 1 by { assert Between(8 * l, f, r.r8, 0) && Between(8 * l, f, r.r8, 1); }
    assert r.r10 == 1 by { assert Between(10 * l, f, r.r10, 0) && Between(10 * l, f, r.r10, 1); }
    assert r.r12 == 1 by { assert Between(12 * l, f, r.r12, 0) && Between(12 * l, f, r.r12, 1); }
    assert r.r14 == 1 by { assert Between(14 * l, f, r.r14, 0) && Between(14 * l, f, r.r14, 1); }
    assert r.r24 == 2 by { assert Between(24 * l, f, r.r24, 1) && Between(24 * l, f, r.r24, 2); }
    assert RestBetween(l, f, r.rest, 10);
  }

  lemma ThreeTwentyEighthsParts(j: int, r: Parts)
    requires j > 0 && Rounded(3 * j, 28 * j, r)
    ensures r.r8 == 1 && r.r10 == 1 && r.r12 == 1 && r.r14 == 2 && r.r24 == 3
  {
    var l, f := 3 * j, 28 * j;
    assert Between(8 * l, f, r.r8, 0) && Between(8 * l, f, r.r8, 1) && Between(10 * l, f, r.r10, 0) && Between(10 * l, f, r.r10, 1);
    assert Between(12 * l, f, r.r12, 0) && Between(12 * l, f, r.r12, 1) && Between(14 * l, f, r.r14, 1);
    assert Between(24 * l, f, r.r24, 2) && Between(24 * l, f, r.r24, 3);
  }

  lemma TripleParity(j: int)
    ensures (3 * j) % 2 == 1 <==> j % 2 == 1
    ensures (3 * j - 13) % 2 == 0 <==> j % 2 == 1
  {
    assert 3 * j == 2 * j + j && 3 * j - 13 == 2 * (j - 7) + j + 1;
  }

  lemma ThreeTwentyEighthsRest(j: int, r: Parts)
    requires j > 0 && Rounded(3 * j, 28 * j, r)
    ensures r.rest == if (3 * j - 13) % 2 == 0 then 13 else 14
  {
    assert RestBetween(3 * j, 28 * j, r.rest, 13);
  }

  lemma ThreeTwentyEighths(l: int, f: int, j: int, r: Parts)
    requires j > 0 && l == 3 * j && f == 28 * j && Rounded(l, f, r)
    ensures Drawn(r) > r.rest <==> l % 2 == 1
  {
    ThreeTwentyEighthsParts(j, r);
    ThreeTwentyEighthsRest(j, r);
    assert Drawn(r) == 14;
    TripleParity(j);
  }

  lemma TwentyEighths(l: int, f: int) returns (j: int)
    requires f > 0 && 28 * l == 3 * f
    ensures j > 0 && l == 3 * j && f == 28 * j
  {
    j := f - 9 * l;
  }

  lemma ThreeSixteenths(l: int, f: int, r: Parts)
    requires Rounded(l, f, r) && f > 0 && 16 * l == 3 * f
    ensures Drawn(r) <= r.rest
  {
    assert Between(8 * l, f, r.r8, 1) && Between(10 * l, f, r.r10, 2) && Between(12 * l, f, r.r12, 2)
      && Between(14 * l, f, r.r14, 3) && Between(24 * l, f, r.r24, 4) && RestBetween(l, f, r.rest, 23);
  }

  lemma SevenThirtySixths(l: int, f: int, r: Parts)
    requires Rounded(l, f, r) && f > 0 && 36 * l == 7 * f
    ensures Drawn(r) > r.rest <==> l % 2 == 0
  {
    assert r.r8 == 2 by { assert Between(8 * l, f, r.r8, 1) && Between(8 * l, f, r.r8, 2); }
    assert r.r10 == 2 by { assert Between(10 * l, f, r.r10, 1) && Between(10 * l, f, r.r10, 2); }
    assert r.r12 == 2 by { assert Between(12 * l, f, r.r12, 1) && Between(12 * l, f, r.r12, 2); }
    assert r.r14 == 3 by { assert Between(14 * l, f, r.r14, 2) && Between(14 * l, f, r.r14, 3); }
    assert r.r24 == 5 by { assert Between(24 * l, f, r.r24, 4) && Between(24 * l, f, r.r24, 5); }
    assert RestBetween(l, f, r.rest, 24);
  }

  /** A part is at most half a millisecond off. */
  lemma HalfOff(n: int, d: int)
    requires d > 0
    ensures -d <= 2 * (d * RoundHalfEven(n, d)) - 2 * n <= d
  {
    var r := RoundHalfEven(n, d);
    assert 2 * (d * r - n) == 2 * (d * r) - 2 * n;
  }

  lemma RestOff(l: int, wait: int)
    requires wait >= 0
    ensures 2 * ((126 + wait) * PartsOf(l, wait).rest) >= 252 * l - (126 + wait)
  {
    var f, w := 126 + wait, RoundHalfEven(wait * l, 126 + wait);
    HalfOff(wait * l, f);
    assert wait * l == f * l - 126 * l;
    assert f * (l - w) == f * l - f * w;
  }

  /** From 25/48 on, the roundings cannot take more than the last phase has. */
  lemma FarOff(l: int, wait: int)
    requires wait >= 0 && 48 * l >= 25 * (126 + wait)
    ensures Drawn(PartsOf(l, wait)) <= PartsOf(l, wait).rest
  {
    var f, p := 126 + wait, PartsOf(l, wait);
    HalfOff(8 * l, f); HalfOff(10 * l, f); HalfOff(12 * l, f); HalfOff(14 * l, f); HalfOff(24 * l, f);
    RestOff(l, wait);
    FarFromShort(f, l, p, f * p.r8, f * p.r10, f * p.r12, f * p.r14, f * p.r24, f * p.rest);
  }

  lemma FarFromShort(f: int, l: int, p: Parts, a: int, b: int, c: int, d: int, e: int, rest: int)
    requires f > 0 && 48 * l >= 25 * f && 2 * rest >= 252 * l - f
    requires 2 * a <= 16 * l + f && 2 * b <= 20 * l + f && 2 * c <= 24 * l + f && 2 * d <= 28 * l + f && 2 * e <= 48 * l + f
    requires a == f * p.r8 && b == f * p.r10 && c == f * p.r12 && d == f * p.r14 && e == f * p.r24 && rest == f * p.rest
    ensures Drawn(p) <= p.rest
  {
    assert 3 * a + 2 * b + c + d + 2 * e < rest + f;
    assert f * Drawn(p) == 3 * a + 2 * b + c + d + 2 * e;
    MulOrder(f, Drawn(p), p.rest);
  }

  /** For tight latencies, the phases get more than there is exactly in the stated ranges. */
  lemma DrawnExactly(l: int, wait: int)
    requires wait >= 0 && l > 0
    ensures Drawn(PartsOf(l, wait)) > PartsOf(l, wait).rest <==> Short(l, 126 + wait)
  {
    var f, p := 126 + wait, PartsOf(l, wait);
    PartsAreRounded(l, wait);
    if 24 * l < f { Below1(l, f, p); }
    else if 16 * l < f { Below2(l, f, p); }
    else if 16 * l == f { OneSixteenth(l, f, p); }
    else if 12 * l < f { TooMuch(l, f, p); }
    else if 12 * l == f { OneTwelfth(l, f, p); }
    else if 28 * l == 3 * f { var j := TwentyEighths(l, f); ThreeTwentyEighths(l, f, j, p); }
    else if 8 * l < f { Inside1(l, f, p); }
    else if 20 * l < 3 * f { Inside2(l, f, p); }
    else if 16 * l < 3 * f { Inside3(l, f, p); }
    else if 16 * l == 3 * f { ThreeSixteenths(l, f, p); }
    else if 36 * l < 7 * f { TooMuch(l, f, p); }
    else if 36 * l == 7 * f { SevenThirtySixths(l, f, p); }
    else if 4 * l < f { Above1(l, f, p); }
    else if 16 * l < 5 * f { Above2(l, f, p); }
    else if 8 * l < 3 * f { Above3(l, f, p); }
    else if 16 * l < 7 * f { Above4(l, f, p); }
    else if 48 * l < 25 * f { Above5(l, f, p); }
    else { FarOff(l, wait); }
  }

  // ----- the durations of the three kinds of step

  lemma LastIsRest(total: int, specs: seq<Spec>)
    requires specs != [] && total > 0
    ensures var n := |specs| - 1; Allocation(total, specs)[n] == total - Total(Shares(total, specs, n), n)
  {
  }

  /** The last phase of a tight cloud step. */
  lemma CloudTail(latency: int, wait: int)
    requires wait >= 0 && 0 < latency <= 126 + wait
    ensures StepDurations(Cloud, latency, wait)[10] == PartsOf(latency, wait).rest - Drawn(PartsOf(latency, wait))
  {
    var s, p := SpecsOf(Cloud, wait), PartsOf(latency, wait);
    var front := Shares(latency, s, 10);
    FloorIsMinTotal(Cloud, wait);
    forall k | 0 <= k < 10 ensures front[k] == Share(latency, s, k) { SharesAt(latency, s, 10, k); }
    TotalOfTen(front);
    CloudShares(latency, wait);
    LastIsRest(latency, s);
  }

  lemma CloudShares(latency: int, wait: int)
    requires wait >= 0 && 0 < latency <= 126 + wait
    ensures var s, p := SpecsOf(Cloud, wait), PartsOf(latency, wait);
      && Share(latency, s, 0) == p.r10 && Share(latency, s, 1) == p.r8 && Share(latency, s, 2) == p.r14 && Share(latency, s, 3) == p.r8
      && Share(latency, s, 4) == p.r24 && Share(latency, s, 5) == p.r24 && Share(latency, s, 6) == latency - p.rest
      && Share(latency, s, 7) == p.r12 && Share(latency, s, 8) == p.r10 && Share(latency, s, 9) == p.r8
  {
    FloorIsMinTotal(Cloud, wait);
    var f := 126 + wait;
    RoundedPart(8, latency, f); RoundedPart(10, latency, f); RoundedPart(12, latency, f); RoundedPart(14, latency, f); RoundedPart(24, latency, f);
    RoundedPart(wait, latency, f);
  }

  /** Twice the minimum of a local phase times the latency, against 176 times its part. */
  ghost predicate Eighty8(n: int, part: int) {
    -88 <= 176 * part - n <= 88 && (176 * part - n == 88 || 176 * part - n == -88 ==> part % 2 == 0)
  }

  lemma RoundedTo88(n: int)
    ensures Eighty8(2 * n, RoundHalfEven(n, 88))
  {
    var r := RoundHalfEven(n, 88);
    assert 2 * (88 * r - n) == 176 * r - 2 * n;
  }

  lemma LocalLarge(l: int, a: int, b: int, c: int)
    requires l >= 33 && Eighty8(24 * l, a) && Eighty8(20 * l, b) && Eighty8(36 * l, c)
    ensures 2 * a + 2 * b + 2 * c <= l
  {
  }

  lemma LocalSmall(l: int, a: int, b: int, c: int)
    requires 0 < l < 33 && Eighty8(24 * l, a) && Eighty8(20 * l, b) && Eighty8(36 * l, c)
    ensures 2 * a + 2 * b + 2 * c > l <==> l == 5
  {
    if l < 12 {
      assert 0 <= a <= 2 && 0 <= b <= 2 && 0 <= c <= 3;
    } else if l < 22 {
      assert 2 <= a <= 3 && 1 <= b <= 2 && 2 <= c <= 4;
    } else {
      assert 3 <= a <= 4 && 2 <= b <= 4 && 4 <= c <= 7;
    }
  }

  /** The last phase of a tight local step. */
  lemma LocalTail(latency: int)
    requires 0 < latency <= 88
    ensures StepDurations(LocalHttp, latency, 0)[6] < 0 <==> latency == 5
  {
    var s := SpecsOf(LocalHttp, 0);
    var front := Shares(latency, s, 6);
    FloorIsMinTotal(LocalHttp, 0);
    forall k | 0 <= k < 6 ensures front[k] == Share(latency, s, k) { SharesAt(latency, s, 6, k); }
    TotalOfSix(front);
    LastIsRest(latency, s);
    LocalShares(latency);
    var a, b, c := RoundHalfEven(12 * latency, 88), RoundHalfEven(10 * latency, 88), RoundHalfEven(18 * latency, 88);
    RoundedTo88(12 * latency); RoundedTo88(10 * latency); RoundedTo88(18 * latency);
    if latency >= 33 { LocalLarge(latency, a, b, c); } else { LocalSmall(latency, a, b, c); }
  }

  lemma LocalShares(latency: int)
    requires 0 < latency <= 88
    ensures var s, a, b, c := SpecsOf(LocalHttp, 0), RoundHalfEven(12 * latency, 88), RoundHalfEven(10 * latency, 88), RoundHalfEven(18 * latency, 88);
      && Share(latency, s, 0) == a && Share(latency, s, 1) == b && Share(latency, s, 2) == c && Share(latency, s, 3) == c
      && Share(latency, s, 4) == a && Share(latency, s, 5) == b
  {
    FloorIsMinTotal(LocalHttp, 0);
    RoundedPart(12, latency, 88); RoundedPart(10, latency, 88); RoundedPart(18, latency, 88);
  }

  lemma TotalOfSix(s: seq<int>)
    requires |s| == 6
    ensures Total(s, 6) == s[0] + s[1] + s[2] + s[3] + s[4] + s[5]
  {
    assert Total(s, 2) == s[0] + s[1] by { assert Total(s, 1) == s[0]; }
    assert Total(s, 4) == Total(s, 3) + s[3] && Total(s, 3) == Total(s, 2) + s[2];
    assert Total(s, 6) == Total(s, 5) + s[5] && Total(s, 5) == Total(s, 4) + s[4];
  }

  /** The last phase of a tight MQTT step. */
  lemma MqttTail(latency: int)
    requires 0 < latency <= 40
    ensures StepDurations(Mqtt, latency, 0)[2] >= 0
  {
    var s := SpecsOf(Mqtt, 0);
    var front := Shares(latency, s, 2);
    FloorIsMinTotal(Mqtt, 0);
    forall k | 0 <= k < 2 ensures front[k] == Share(latency, s, k) { SharesAt(latency, s, 2, k); }
    assert Total(front, 2) == front[0] + front[1] by { assert Total(front, 1) == front[0]; }
    LastIsRest(latency, s);
    RoundedPart(20, latency, 40); RoundedPart(12, latency, 40);
    MqttParts(latency, RoundHalfEven(20 * latency, 40), RoundHalfEven(12 * latency, 40));
  }

  lemma MqttParts(l: int, a: int, b: int)
    requires 0 < l <= 40 && a == RoundHalfEven(20 * l, 40) && b == RoundHalfEven(12 * l, 40)
    ensures a + b <= l
  {
    assert -40 <= 80 * a - 40 * l <= 40 && -40 <= 80 * b - 24 * l <= 40;
    assert (80 * a - 40 * l == 40 || 80 * a - 40 * l == -40 ==> a % 2 == 0) && (80 * b - 24 * l == 40 || 80 * b - 24 * l == -40 ==> b % 2 == 0);
  }

  // ----- the theorems

  lemma WaitMattersToCloudOnly(kind: Kind, latency: int, wait: int)
    requires kind != Cloud
    ensures StepDurations(kind, latency, wait) == StepDurations(kind, latency, 0)
  {
  }

  lemma AboveIsNotOverdrawn(kind: Kind, latency: int, wait: int)
    requires wait >= 0 && (latency > Floor(kind, wait) || latency <= 0)
    ensures !Overdrawn(kind, latency, wait)
  {
  }

  lemma TightExactly(kind: Kind, latency: int, wait: int)
    requires wait >= 0 && 0 < latency <= Floor(kind, wait)
    ensures var d := StepDurations(kind, latency, wait);
      (d[|d| - 1] < 0 <==> Overdrawn(kind, latency, wait)) && forall k :: 0 <= k < |d| - 1 ==> d[k] >= 0
  {
    var specs := SpecsOf(kind, wait);
    SpecsShape(kind, wait);
    FloorIsMinTotal(kind, wait);
    TightTotals(latency, specs);
    match kind
    case Cloud => CloudTail(latency, wait); DrawnExactly(latency, wait);
    case LocalHttp => WaitMattersToCloudOnly(kind, latency, wait); LocalTail(latency);
    case Mqtt => WaitMattersToCloudOnly(kind, latency, wait); MqttTail(latency);
  }

  /** A step has a phase of negative duration exactly when its latency is overdrawn, and then only its last phase. */
  lemma NegativeExactly(kind: Kind, latency: int, wait: int)
    requires wait >= 0
    ensures var d := StepDurations(kind, latency, wait);
      ((exists k :: 0 <= k < |d| && d[k] < 0) <==> Overdrawn(kind, latency, wait)) && forall k :: 0 <= k < |d| - 1 ==> d[k] >= 0
  {
    if latency > Floor(kind, wait) {
      DurationsPositive(kind, latency, wait);
      AboveIsNotOverdrawn(kind, latency, wait);
    } else if latency > 0 {
      TightExactly(kind, latency, wait);
      var d := StepDurations(kind, latency, wait);
      assert d[|d| - 1] < 0 ==> exists k :: 0 <= k < |d| && d[k] < 0;
    } else {
      AboveIsNotOverdrawn(kind, latency, wait);
    }
  }

  /** Without a wait just four latencies of a cloud step are overdrawn. */
  lemma WithoutWait(latency: int)
    ensures Overdrawn(Cloud, latency, 0) <==> latency == 8 || latency == 9 || latency == 10 || latency == 24
  {
  }

  /** A cloud step at the least estimated latency, 350 ms, with a wait of 1674 ms ends with a state write of -1 ms. */
  lemma TailCanBeNegative()
    ensures StepDurations(Cloud, 350, 1674)[10] == -1
  {
    CloudTail(350, 1674);
    assert PartsOf(350, 1674) == Parts(2, 2, 2, 3, 5, 24);
  }
}
