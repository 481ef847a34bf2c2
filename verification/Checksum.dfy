/** The Internet checksum: the ones'-complement sum of sixteen-bit words, complemented.

A sum is taken as the natural number it is before its carries are folded in, so that the sum modulo
0xffff, which is all the ones'-complement sum knows, is plain arithmetic. */
module Checksum {
  import opened Wire

  const ONES: nat := 0xffff

  /** The words of b, an odd byte at the end being the high half of one. */
  function WordSum(b: Bytes): nat
    decreases |b|
  {
    if |b| == 0 then 0
    else if |b| == 1 then b[0] as int * 256
    else Get16(b, 0) + WordSum(b[2..])
  }

  /** The carries added back in until none is left. */
  function Fold(s: nat): (r: nat)
    ensures r <= ONES
  {
    if s <= ONES then s else Fold(s / 0x1_0000 + s % 0x1_0000)
  }

  /** What the IPv6 pseudo-header adds. */
  function Pseudo6(src: Bytes, dst: Bytes, proto: Byte, len: nat): nat {
    WordSum(src) + WordSum(dst) + len + proto
  }

  /** The checksum of msg after a pseudo-header that adds pseudo, 0 when there is none. */
  function L4Checksum(pseudo: nat, msg: Bytes): nat {
    ONES - Fold(pseudo + WordSum(msg))
  }

  /** Folding keeps the sum modulo 0xffff, and zero apart from 0xffff. */
  lemma {:induction false} FoldIs(s: nat)
    ensures Fold(s) == if s == 0 then 0 else if s % ONES == 0 then ONES else s % ONES
  {
    if s > ONES {
      var q, r := s / 0x1_0000, s % 0x1_0000;
      FoldIs(q + r);
      assert s == (q + r) + ONES * q;
      ModDrop(q + r, q);
    }
  }

  lemma ModDrop(x: int, q: int)
    ensures (x + ONES * q) % ONES == x % ONES
  {
    assert (x + ONES * q) - ONES * ((x / ONES) + q) == x % ONES;
  }

  /** A message verifies exactly when its words, pseudo-header included, sum to a multiple of 0xffff
      that is not nothing at all. */
  lemma {:induction false} VerifiesIff(pseudo: nat, msg: Bytes)
    ensures 0 <= L4Checksum(pseudo, msg) <= ONES
    ensures L4Checksum(pseudo, msg) == 0 <==>
              pseudo + WordSum(msg) > 0 && (pseudo + WordSum(msg)) % ONES == 0
  {
    FoldIs(pseudo + WordSum(msg));
  }

  lemma {:induction false} WordSumConcat(a: Bytes, b: Bytes)
    requires |a| % 2 == 0
    ensures WordSum(a + b) == WordSum(a) + WordSum(b)
    decreases |a|
  {
    if a == [] {
      assert a + b == b;
    } else {
      assert (a + b)[2..] == a[2..] + b;
      WordSumConcat(a[2..], b);
    }
  }

  /** Writing a word moves the sum by what the word does. */
  lemma {:induction false} WordSumSet(b: Bytes, i: nat, v: nat)
    requires i % 2 == 0 && i + 2 <= |b| && v <= ONES
    ensures WordSum(Set16(b, i, v)) + Get16(b, i) == WordSum(b) + v
  {
    CutTwice(b, i, i + 2);
    WordSumMid(b[..i], b[i..i + 2], b[i + 2..]);
    WordSumMid(b[..i], Put16(v), b[i + 2..]);
    PutGet16(v);
  }

  lemma {:induction false} WordSumMid(a: Bytes, m: Bytes, c: Bytes)
    requires |a| % 2 == 0 && |m| == 2
    ensures WordSum(a + m + c) == WordSum(a) + Get16(m, 0) + WordSum(c)
  {
    WordSumConcat(a + m, c);
    WordSumConcat(a, m);
    assert WordSum(m) == Get16(m, 0) + WordSum(m[2..]);
  }

  /** Storing the checksum of a message whose field is zero makes it verify, and so does storing
      0xffff for a checksum of zero, as UDP does. */
  lemma {:induction false} StoredVerifies(pseudo: nat, msg: Bytes, i: nat)
    requires i % 2 == 0 && i + 2 <= |msg| && Get16(msg, i) == 0
    ensures L4Checksum(pseudo, Set16(msg, i, L4Checksum(pseudo, msg))) == 0
    ensures L4Checksum(pseudo, msg) == 0 ==> L4Checksum(pseudo, Set16(msg, i, ONES)) == 0
  {
    var s := pseudo + WordSum(msg);
    VerifiesIff(pseudo, msg);
    var c := L4Checksum(pseudo, msg);
    FoldIs(s);
    WordSumSet(msg, i, c);
    VerifiesIff(pseudo, Set16(msg, i, c));
    if s > 0 { ModDrop(0, s / ONES + 1); }
    if c == 0 {
      WordSumSet(msg, i, ONES);
      VerifiesIff(pseudo, Set16(msg, i, ONES));
      ModDrop(s, 1);
    }
  }

  lemma {:induction false} WordSumBound(b: Bytes)
    ensures WordSum(b) <= (|b| + 1) / 2 * ONES
    decreases |b|
  {
    if |b| >= 2 { WordSumBound(b[2..]); }
  }

  lemma {:induction false} WordSumStep(b: Bytes, i: nat)
    requires i < |b|
    ensures WordSum(b[i..]) == if i + 1 < |b| then Get16(b, i) + WordSum(b[i + 2..]) else b[i] as int * 256
  {
    if i + 1 < |b| { assert b[i..][2..] == b[i + 2..]; }
  }

  lemma WordSumNone(b: Bytes)
    ensures WordSum(b[|b|..]) == 0
  {
  }

  /** The sum as the slow path accumulates it, in thirty-two bits: word by word, an odd byte last. */
  method AddWords(sum: nat, b: Bytes) returns (r: nat)
    requires sum + WordSum(b) < 0x1_0000_0000
    ensures r == sum + WordSum(b)
  {
    hide WordSum;
    r := sum;
    var i := 0;
    assert b[0..] == b;
    while i + 1 < |b|
      invariant 0 <= i <= |b| && i % 2 == 0
      invariant r + WordSum(b[i..]) == sum + WordSum(b)
    {
      WordSumStep(b, i);
      r := (r + Get16(b, i)) % 0x1_0000_0000;
      i := i + 2;
    }
    if |b| > 0 { WordSumStep(b, |b| - 1); }
    WordSumNone(b);
    if |b| % 2 == 1 {
      r := (r + b[|b| - 1] as int * 256) % 0x1_0000_0000;
    }
  }

  /** The same sum byte by byte, as the Neighbor Discovery proxy accumulates it. */
  method AddBytes(sum: nat, b: Bytes) returns (r: nat)
    requires sum + WordSum(b) < 0x1_0000_0000
    ensures r == sum + WordSum(b)
  {
    hide WordSum;
    r := sum;
    var i := 0;
    assert b[0..] == b;
    WordSumNone(b);
    while i < |b|
      invariant 0 <= i <= |b| + 1
      invariant i <= |b| ==> r + WordSum(b[i..]) == sum + WordSum(b)
      invariant i > |b| ==> r == sum + WordSum(b)
    {
      WordSumStep(b, i);
      r := (r + b[i] as int * 256) % 0x1_0000_0000;
      if i + 1 < |b| {
        r := (r + b[i + 1]) % 0x1_0000_0000;
      }
      i := i + 2;
    }
  }

  method FoldCarries(s: nat) returns (r: nat)
    ensures r == Fold(s) && r <= ONES
  {
    r := s;
    while r > ONES
      invariant Fold(r) == Fold(s)
    {
      r := r / 0x1_0000 + r % 0x1_0000;
    }
  }

  /** l4Checksum: thirty-two bits are enough for anything IP carries. */
  method ComputeL4Checksum(addrs: Option<(Bytes, Bytes)>, proto: Byte, msg: Bytes) returns (c: nat)
    requires addrs.Some? ==> |addrs.value.0| == 16 && |addrs.value.1| == 16
    requires |msg| <= ONES
    ensures c == L4Checksum(if addrs.Some? then Pseudo6(addrs.value.0, addrs.value.1, proto, |msg|) else 0, msg)
  {
    WordSumBound(msg);
    var sum := 0;
    if addrs.Some? {
      WordSumBound(addrs.value.0);
      WordSumBound(addrs.value.1);
      sum := AddWords(sum, addrs.value.0);
      sum := AddWords(sum, addrs.value.1);
      sum := sum + |msg| + proto;
    }
    sum := AddWords(sum, msg);
    sum := FoldCarries(sum);
    c := ONES - sum;
  }

  /** icmpv6Checksum, which takes both addresses as one and adds the length first: the same value as
      l4Checksum with the pseudo-header of ICMPv6. */
  method ComputeIcmp6Checksum(addrs: Bytes, msg: Bytes) returns (c: nat)
    requires |addrs| == 32 && |msg| <= ONES
    ensures c == L4Checksum(Pseudo6(addrs[..16], addrs[16..], 58, |msg|), msg)
  {
    WordSumBound(msg);
    WordSumBound(addrs);
    var sum := |msg| + 58;
    sum := AddBytes(sum, addrs);
    sum := AddBytes(sum, msg);
    assert addrs == addrs[..16] + addrs[16..];
    WordSumConcat(addrs[..16], addrs[16..]);
    sum := FoldCarries(sum);
    c := ONES - sum;
  }
}
