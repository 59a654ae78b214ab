/** Strings as the optimizer compares them: lexicographic order by code point, prefixes, substrings, and
    lower-casing of ASCII letters. */
module Text {

  /** Python's `a < b` on strings. */
  predicate Less(a: string, b: string) {
    b != [] && (a == [] || a[0] < b[0] || (a[0] == b[0] && Less(a[1..], b[1..])))
  }

  lemma {:induction false} LessTotal(a: string, b: string)
    ensures Less(a, b) || a == b || Less(b, a)
    ensures !(Less(a, b) && Less(b, a))
    ensures !Less(a, a)
  {
    if a != [] && b != [] {
      LessTotal(a[1..], b[1..]);
      assert a == [a[0]] + a[1..] && b == [b[0]] + b[1..];
    }
    if a != [] { LessIrreflexive(a); }
  }

  lemma {:induction false} LessIrreflexive(a: string)
    ensures !Less(a, a)
  {
    if a != [] { LessIrreflexive(a[1..]); }
  }

  lemma {:induction false} LessTransitive(a: string, b: string, c: string)
    requires Less(a, b) && Less(b, c)
    ensures Less(a, c)
  {
    if a != [] && b != [] && c != [] && a[0] == b[0] == c[0] {
      LessTransitive(a[1..], b[1..], c[1..]);
    }
  }

  predicate StartsWith(s: string, prefix: string) {
    prefix <= s
  }

  predicate Contains(s: string, part: string) {
    exists i | 0 <= i <= |s| :: part <= s[i..]
  }

  function LowerChar(c: char): char {
    if 'A' <= c <= 'Z' then (c as int + 32) as char else c
  }

  function Lower(s: string): string {
    seq(|s|, i requires 0 <= i < |s| => LowerChar(s[i]))
  }

  /** What Python's `strip` counts as white space. */
  predicate IsBlank(c: char) {
    var n := c as int;
    || n == 0x20 || 0x09 <= n <= 0x0D || 0x1C <= n <= 0x1F || n == 0x85 || n == 0xA0 || n == 0x1680
    || 0x2000 <= n <= 0x200A || n == 0x2028 || n == 0x2029 || n == 0x202F || n == 0x205F || n == 0x3000
  }

  /** Drops white space at both ends. */
  function Strip(s: string): (r: string)
    ensures r == "" || (!IsBlank(r[0]) && !IsBlank(r[|r| - 1]))
  {
    if s == "" then ""
    else if IsBlank(s[0]) then Strip(s[1..])
    else if IsBlank(s[|s| - 1]) then Strip(s[..|s| - 1])
    else s
  }

  function Digit(n: nat): char
    requires n < 10
  {
    ('0' as int + n) as char
  }

  /** Decimal notation. */
  function Decimal(n: nat): string {
    if n < 10 then [Digit(n)] else Decimal(n / 10) + [Digit(n % 10)]
  }

  lemma {:induction false} LessAfterPrefix(prefix: string, a: string, b: string)
    ensures Less(prefix + a, prefix + b) <==> Less(a, b)
  {
    if prefix == "" {
      assert prefix + a == a && prefix + b == b;
    } else {
      LessAfterPrefix(prefix[1..], a, b);
      assert (prefix + a)[1..] == prefix[1..] + a && (prefix + b)[1..] == prefix[1..] + b;
    }
  }

  // ----- numbers with at least two digits

  function Padded(n: nat): string {
    if n < 10 then [Digit(0), Digit(n)] else Decimal(n)
  }

  ghost function Width(n: nat): nat {
    if n < 100 then 2 else Width(n / 10) + 1
  }

  /** The number that the first `w` digits make. */
  ghost function Lead(n: nat, w: nat): nat
    requires w >= 2
  {
    if Width(n) <= w then n else Lead(n / 10, w)
  }

  lemma PaddedNext(n: nat)
    ensures n < 100 ==> Padded(n) == [Digit(n / 10), Digit(n % 10)]
    ensures n >= 100 ==> Padded(n) == Padded(n / 10) + [Digit(n % 10)]
  {
    if 10 <= n < 100 { assert Decimal(n / 10) == [Digit(n / 10)]; }
  }

  lemma {:induction false} PaddedWidth(n: nat)
    ensures |Padded(n)| == Width(n) >= 2
  {
    PaddedNext(n);
    if n >= 100 { PaddedWidth(n / 10); }
  }

  lemma {:induction false} LessAppend(x: string, y: string, u: string, v: string)
    requires |x| == |y| && Less(x, y)
    ensures Less(x + u, y + v)
  {
    assert (x + u)[0] == x[0] && (y + v)[0] == y[0];
    if x[0] == y[0] {
      LessAppend(x[1..], y[1..], u, v);
      assert (x + u)[1..] == x[1..] + u && (y + v)[1..] == y[1..] + v;
    }
  }

  lemma {:induction false} LessExtended(x: string, u: string)
    requires u != ""
    ensures Less(x, x + u)
  {
    if x != "" {
      LessExtended(x[1..], u);
      assert (x + u)[1..] == x[1..] + u;
    } else {
      assert x + u == u;
    }
  }

  /** Numbers of the same width are in the order of their digits. */
  lemma {:induction false} SameWidthOrder(i: nat, j: nat)
    requires i < j && Width(i) == Width(j)
    ensures Less(Padded(i), Padded(j))
  {
    PaddedNext(i);
    PaddedNext(j);
    if i < 100 {
      TwoDigitsInOrder(i, j);
    } else if i / 10 < j / 10 {
      SameWidthOrder(i / 10, j / 10);
      PaddedWidth(i / 10);
      PaddedWidth(j / 10);
      LessAppend(Padded(i / 10), Padded(j / 10), [Digit(i % 10)], [Digit(j % 10)]);
    } else {
      LessAfterPrefix(Padded(i / 10), [Digit(i % 10)], [Digit(j % 10)]);
    }
  }

  lemma TwoDigitsInOrder(i: nat, j: nat)
    requires i < j < 100
    ensures Less([Digit(i / 10), Digit(i % 10)], [Digit(j / 10), Digit(j % 10)])
  {
    var a, b := [Digit(i / 10), Digit(i % 10)], [Digit(j / 10), Digit(j % 10)];
    assert a[1..] == [a[1]] && b[1..] == [b[1]];
    assert Less(a[1..], b[1..]) <==> a[1] < b[1];
  }

  lemma {:induction false} WidthGrows(i: nat, j: nat)
    requires i <= j
    ensures Width(i) <= Width(j)
  {
    if i >= 100 { WidthGrows(i / 10, j / 10); }
  }

  lemma {:induction false} LeadIsPrefix(n: nat, w: nat)
    requires 2 <= w <= Width(n)
    ensures Width(Lead(n, w)) == w && Padded(Lead(n, w)) <= Padded(n)
  {
    if Width(n) > w {
      LeadIsPrefix(n / 10, w);
      PaddedNext(n);
    }
  }

  /** The larger number comes first exactly when its leading digits, as many as the smaller one has, make a smaller number. */
  lemma PaddedOrder(i: nat, j: nat)
    requires i < j
    ensures Width(i) >= 2
    ensures Less(Padded(j), Padded(i)) <==> Lead(j, Width(i)) < i
    ensures Padded(i) != Padded(j)
  {
    PaddedWidth(i);
    WidthGrows(i, j);
    LeadIsPrefix(j, Width(i));
    var lead := Lead(j, Width(i));
    PaddedWidth(lead);
    PaddedWidth(j);
    var u := Padded(j)[Width(i)..];
    assert Padded(j) == Padded(lead) + u && Padded(i) == Padded(i) + "";
    if lead < i {
      SameWidthOrder(lead, i);
      LessAppend(Padded(lead), Padded(i), u, "");
    } else if lead > i {
      SameWidthOrder(i, lead);
      LessAppend(Padded(i), Padded(lead), "", u);
    } else {
      LessExtended(Padded(i), u);
    }
    LessTotal(Padded(i), Padded(j));
  }
}
