/** IPv6 prefixes: an address and how many of its 128 bits are the prefix's. */
module Prefixes {
  import opened Arith

  function Pow2(n: nat): (r: nat)
    ensures r > 0
  {
    if n == 0 then 1 else 2 * Pow2(n - 1)
  }

  const TWO_64: nat := 0x1_0000_0000_0000_0000

  datatype Prefix = Prefix(addr: nat, bits: nat)

  predicate Valid(p: Prefix) {
    p.bits <= 128 && p.addr < Size(Prefix(0, 0))
  }

  /** How many addresses it has. */
  function Size(p: Prefix): (n: nat)
    requires p.bits <= 128
    ensures n > 0
  {
    Pow2(128 - p.bits)
  }

  function Masked(p: Prefix): (m: Prefix)
    requires p.bits <= 128
    ensures m.bits == p.bits
  {
    Prefix(RoundDown(p.addr, Size(p)), p.bits)
  }

  /** Prefix.Contains. */
  predicate Contains(p: Prefix, a: nat)
    requires p.bits <= 128
  {
    a / Size(p) == p.addr / Size(p)
  }

  /** Prefix.Overlaps: the bits both have are the same. */
  predicate Overlaps(p: Prefix, q: Prefix)
    requires p.bits <= 128 && q.bits <= 128
  {
    if p.bits <= q.bits then Contains(p, q.addr) else Contains(q, p.addr)
  }

  /** q is part of p, and not all of it. */
  predicate Inside(q: Prefix, p: Prefix)
    requires p.bits <= 128
  {
    p.bits < q.bits && Contains(p, q.addr)
  }

  lemma {:induction false} Pow2Add(a: nat, b: nat)
    ensures Pow2(a + b) == Pow2(a) * Pow2(b)
  {
    if a > 0 {
      Pow2Add(a - 1, b);
      assert Pow2(a - 1 + b) == Pow2(a + b - 1);
      Times2(Pow2(a - 1), Pow2(b));
    }
  }

  lemma Times2(x: nat, y: nat)
    ensures 2 * x * y == 2 * (x * y)
  {
  }

  lemma {:induction false} Pow2Known()
    ensures Pow2(0) == 1 && Pow2(16) == 0x1_0000 && Pow2(32) == 0x1_0000_0000 && Pow2(64) == TWO_64
  {
    assert Pow2(4) == 16;
    hide Pow2;
    Pow2Add(4, 4);
    Pow2Add(8, 8);
    Pow2Add(16, 16);
    Pow2Add(32, 32);
  }

  /** x is the i-th block of c when that is its quotient, */
  lemma InBlock(c: nat, i: int, x: nat)
    requires c > 0
    ensures c * i <= x < c * i + c <==> x / c == i
  {
    LastMultiple(c, x);
    assert c * (i + 1) == c * i + c;
    if c * i <= x < c * i + c { QuotientIs(x, c, i); }
  }

  /** and, of b, the one with remainder r in it. */
  lemma PairIs(b: nat, i: int, r: nat, x: nat)
    requires r < b
    ensures x == b * i + r <==> x / b == i && x % b == r
  {
    LastMultiple(b, x);
    InBlock(b, i, x);
    if x == b * i + r { QuotientIs(x, b, i); }
  }

  lemma DivDiv(x: nat, c: nat, d: nat)
    requires c > 0 && d > 0
    ensures c * d > 0 && x / (c * d) == x / c / d
  {
    var y := x / c;
    LastMultiple(c, x);
    LastMultiple(d, y);
    Nested(x, c, y, d, y / d);
    QuotientIs(x, c * d, y / d);
  }

  lemma Nested(x: nat, c: nat, y: nat, d: nat, q: nat)
    requires c > 0 && d > 0 && c * y <= x < c * y + c && d * q <= y < d * q + d
    ensures c * d > 0 && (c * d) * q <= x < (c * d) * (q + 1)
  {
    Split(c, d, q, y - d * q, x - c * y);
    Product(c, y - d * q, d);
    MulNonNeg(c, y - d * q);
  }

  lemma Split(c: nat, d: nat, q: nat, s: nat, r: nat)
    ensures c * (d * q + s) + r == (c * d) * q + (c * s + r)
    ensures (c * d) * (q + 1) == (c * d) * q + c * d
  {
    assert c * (d * q) == (c * d) * q;
  }

  lemma Product(c: nat, s: nat, d: nat)
    requires c > 0 && d > 0
    ensures c * d > 0 && (s < d ==> c * s + c <= c * d)
  {
    MulMono(c, 1, d);
    MulMono(c, s + 1, d);
  }

  /** A quotient by the smaller prefix tells the one by the larger. */
  lemma {:induction false} Coarser(p: Prefix, q: Prefix, a: nat)
    requires p.bits <= q.bits <= 128
    ensures a / Size(p) == a / Size(q) / Pow2(q.bits - p.bits)
  {
    Pow2Add(128 - q.bits, q.bits - p.bits);
    DivDiv(a, Size(q), Pow2(q.bits - p.bits));
  }

  lemma {:induction false} MaskedIs(p: Prefix)
    requires p.bits <= 128
    ensures var m := Masked(p); m.addr <= p.addr < m.addr + Size(p) && m.addr % Size(p) == 0 && Masked(m) == m
    ensures forall a: nat :: Contains(p, a) <==> Masked(p).addr <= a < Masked(p).addr + Size(p)
  {
    hide Pow2;
    var c := Size(p);
    var i := p.addr / c;
    LastMultiple(c, p.addr);
    MultipleIs(c, i);
    forall a: nat ensures a / c == i <==> c * i <= a < c * i + c { InBlock(c, i, a); }
  }

  /** Overlapping prefixes are the ones with an address in common, and then one is within the other. */
  lemma {:induction false} OverlapsIff(p: Prefix, q: Prefix)
    requires p.bits <= 128 && q.bits <= 128
    ensures Overlaps(p, q) <==> exists a: nat :: Contains(p, a) && Contains(q, a)
    ensures Overlaps(p, q) && p.bits <= q.bits ==> forall a: nat :: Contains(q, a) ==> Contains(p, a)
  {
    if p.bits <= q.bits { OverlapsNested(p, q); } else { OverlapsNested(q, p); }
  }

  lemma {:induction false} OverlapsNested(p: Prefix, q: Prefix)
    requires p.bits <= q.bits <= 128
    ensures Contains(p, q.addr) <==> exists a: nat :: Contains(p, a) && Contains(q, a)
    ensures Contains(p, q.addr) ==> forall a: nat :: Contains(q, a) ==> Contains(p, a)
  {
    Coarser(p, q, q.addr);
    forall a: nat | Contains(q, a) ensures Contains(p, a) <==> Contains(p, q.addr) {
      Coarser(p, q, a);
    }
    assert Contains(q, q.addr);
  }
}
