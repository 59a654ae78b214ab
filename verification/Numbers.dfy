/** Integer helpers. */
module Numbers {

  function Min(a: int, b: int): int {
    if a <= b then a else b
  }

  function Max(a: int, b: int): int {
    if a >= b then a else b
  }

  /** A ratio rounded to the nearest integer, halves to even, as Python's `round`. */
  function RoundHalfEven(n: int, d: int): (r: int)
    requires d > 0
    ensures -d <= 2 * (d * r - n) <= d
    ensures 2 * (d * r - n) == d || 2 * (d * r - n) == -d ==> r % 2 == 0
  {
    var q := n / d;
    var rest := n - d * q;
    assert 0 <= rest < d && d * (q + 1) == d * q + d;
    if 2 * rest < d || (2 * rest == d && q % 2 == 0) then q else q + 1
  }

  /** The largest of the points that are not beyond `t`. */
  lemma LargestUpTo(points: set<int>, t: int) returns (p: int)
    requires exists q :: q in points && q <= t
    ensures p in points && p <= t && forall q :: q in points && q <= t ==> q <= p
    decreases |points|
  {
    var first :| first in points && first <= t;
    p := first;
    if q :| q in points && first < q <= t {
      var rest := points - {first};
      assert q in rest;
      p := LargestUpTo(rest, t);
      assert forall r :: r in points ==> r in rest || r == first;
    }
  }
}
