/** Multiples and quotients, the sizes of sets, and the order in which a table is probed. */
module Arith {
  lemma MulMono(c: nat, i: int, j: int)
    ensures i <= j ==> c * i <= c * j
  {
    if i <= j { MulNonNeg(c, j - i); }
  }

  lemma MulNonNeg(c: nat, d: nat)
    ensures c * d >= 0
  {
  }

  /** The quotient is the only one there is. */
  lemma QuotientIs(x: int, c: nat, q: int)
    requires c > 0 && c * q <= x < c * (q + 1)
    ensures x / c == q && x % c == x - c * q
  {
    var d := x / c;
    assert c * d <= x < c * (d + 1) by { assert x == c * d + x % c; }
    MulMono(c, d + 1, q);
    MulMono(c, q + 1, d);
  }

  lemma MultipleIs(c: nat, i: int)
    requires c > 0
    ensures (c * i) % c == 0 && (c * i) / c == i
  {
    assert c * (i + 1) == c * i + c;
    QuotientIs(c * i, c, i);
  }

  /** Two multiples of c are as far apart as that. */
  lemma NextMultiple(c: nat, p: nat, q: nat)
    requires c > 0 && p % c == 0
    ensures (p + c) % c == 0
    ensures q % c == 0 && p < q ==> p + c <= q
  {
    var i, j := p / c, q / c;
    assert p == c * i;
    assert p + c == c * (i + 1);
    MultipleIs(c, i + 1);
    if q % c == 0 && p < q {
      assert q == c * j;
      MulMono(c, j, i);
      MulMono(c, i + 1, j);
    }
  }

  /** The last multiple of c that n is not short of. */
  lemma LastMultiple(c: nat, n: nat)
    requires c > 0
    ensures var m := c * (n / c); 0 <= m <= n < m + c && m % c == 0
  {
    assert n == c * (n / c) + n % c;
    MulMono(c, 0, n / c);
    MultipleIs(c, n / c);
  }

  function RoundDown(x: nat, c: nat): (m: nat)
    requires c > 0
    ensures m == c * (x / c) && m <= x < m + c && m % c == 0
  {
    LastMultiple(c, x);
    c * (x / c)
  }

  lemma SubsetSize<T>(a: set<T>, b: set<T>)
    requires a <= b
    ensures |a| <= |b|
  {
    assert |b| == |a| + |b - a| by { assert b == a + (b - a); }
  }

  // ---- Linear probing

  /** The i-th place looked at, from start on and around. */
  function Probe(start: nat, i: nat, count: nat): (p: nat)
    requires count > 0
    ensures p < count
  {
    (start + i) % count
  }

  /** As many probes as there are places come to every one of them. */
  lemma ProbesReach(start: nat, place: nat, count: nat) returns (i: nat)
    requires start < count && place < count
    ensures i < count && Probe(start, i, count) == place
  {
    i := if place >= start then place - start else place + count - start;
    QuotientIs(start + i, count, if place >= start then 0 else 1);
  }
}
