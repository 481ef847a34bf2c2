/** IPv4 addresses carried in IPv6 ones, behind a prefix, as section 2.2 of RFC 6052 lays them out. */
module Rfc6052 {
  import opened Wire

  /** The prefix lengths the RFC has. */
  predicate Allowed(bits: nat) {
    bits in {32, 40, 48, 56, 64, 96}
  }

  /** The RFC's layout: the prefix, the address around the u octet, and zeros. */
  function Layout(prefix: Bytes, bits: nat, v4: Bytes): (a: Bytes)
    requires |prefix| == 16 && Allowed(bits) && |v4| == 4
    ensures |a| == 16
  {
    var n := bits / 8;
    if n > 8 then prefix[..n] + v4
    else prefix[..n] + v4[..8 - n] + [0] + v4[8 - n..] + seq(11 - n, i => 0)
  }

  /** Where byte i of the address lies in that layout. */
  function Position(bits: nat, i: nat): (p: nat)
    requires Allowed(bits) && i < 4
    ensures bits / 8 <= p < 16 && (bits <= 64 ==> p != 8)
  {
    var n := bits / 8;
    if n > 8 || n + i < 8 then n + i else n + i + 1
  }

  lemma LayoutAt(prefix: Bytes, bits: nat, v4: Bytes, i: nat)
    requires |prefix| == 16 && Allowed(bits) && |v4| == 4 && i < 4
    ensures Layout(prefix, bits, v4)[Position(bits, i)] == v4[i]
  {
  }

  /** v4Positions, which skips byte 8 as it counts. */
  method V4Positions(bits: nat) returns (pos: seq<nat>)
    requires Allowed(bits)
    ensures |pos| == 4 && forall i :: 0 <= i < 4 ==> pos[i] == Position(bits, i)
  {
    pos := [];
    var b := bits / 8;
    while |pos| < 4
      invariant |pos| <= 4
      invariant bits > 64 || b <= 8 ==> b == bits / 8 + |pos|
      invariant bits <= 64 && b > 8 ==> b == bits / 8 + |pos| + 1
      invariant forall i :: 0 <= i < |pos| ==> pos[i] == Position(bits, i)
      decreases 4 - |pos|, if b == 8 then 1 else 0
    {
      if b != 8 { pos := pos + [b]; }
      b := b + 1;
    }
  }

  /** embed4: the prefix with its bits past the length cleared, and the address written over it. */
  method Embed4(prefix: Bytes, bits: nat, v4: Bytes) returns (a: Bytes)
    requires |prefix| == 16 && Allowed(bits) && |v4| == 4
    ensures a == Layout(prefix, bits, v4)
  {
    hide Layout, Position;
    a := prefix[..bits / 8] + seq(16 - bits / 8, i => 0);
    var pos := V4Positions(bits);
    for i := 0 to 4
      invariant Written(prefix, bits, v4, i, a)
    {
      WrittenNext(prefix, bits, v4, i, a);
      a := a[pos[i] := v4[i]];
    }
    WrittenIs(prefix, bits, v4, a);
  }

  /** a is the masked prefix with the first n bytes of the address in place. */
  predicate Written(prefix: Bytes, bits: nat, v4: Bytes, n: nat, a: Bytes)
    requires |prefix| == 16 && Allowed(bits) && |v4| == 4 && n <= 4
  {
    && |a| == 16 && a[..bits / 8] == prefix[..bits / 8]
    && (forall k :: 0 <= k < n ==> a[Position(bits, k)] == v4[k])
    && (forall j :: bits / 8 <= j < 16 && (forall k :: 0 <= k < n ==> Position(bits, k) != j) ==> a[j] == 0)
  }

  lemma WrittenNext(prefix: Bytes, bits: nat, v4: Bytes, n: nat, a: Bytes)
    requires |prefix| == 16 && Allowed(bits) && |v4| == 4 && n < 4 && Written(prefix, bits, v4, n, a)
    ensures Written(prefix, bits, v4, n + 1, a[Position(bits, n) := v4[n]])
  {
    assert a[Position(bits, n) := v4[n]][..bits / 8] == a[..bits / 8];
  }

  lemma WrittenIs(prefix: Bytes, bits: nat, v4: Bytes, a: Bytes)
    requires |prefix| == 16 && Allowed(bits) && |v4| == 4 && Written(prefix, bits, v4, 4, a)
    ensures a == Layout(prefix, bits, v4)
  {
    var want := Layout(prefix, bits, v4);
    assert want[..bits / 8] == prefix[..bits / 8];
    hide Layout, Position, Taken;
    forall j: nat | j < 16 ensures a[j] == want[j] {
      if j < bits / 8 {
        assert a[j] == a[..bits / 8][j] && want[j] == want[..bits / 8][j];
      } else {
        Placed(bits, j);
        ZeroAt(prefix, bits, v4, j);
        if HoldsByte(bits, j) {
          var i :| 0 <= i < 4 && Position(bits, i) == j;
          LayoutAt(prefix, bits, v4, i);
        }
      }
    }
  }

  /** extract4. */
  method Extract4(bits: nat, a: Bytes) returns (v4: Bytes)
    requires Allowed(bits) && |a| == 16
    ensures v4 == Carried(bits, a)
  {
    var pos := V4Positions(bits);
    v4 := [];
    for i := 0 to 4
      invariant |v4| == i && forall k :: 0 <= k < i ==> v4[k] == a[Position(bits, k)]
    {
      v4 := v4 + [a[pos[i]]];
    }
  }

  /** The address that a carries. */
  function Carried(bits: nat, a: Bytes): (v4: Bytes)
    requires Allowed(bits) && |a| == 16
    ensures |v4| == 4
  {
    [a[Position(bits, 0)], a[Position(bits, 1)], a[Position(bits, 2)], a[Position(bits, 3)]]
  }

  /** in_pref64: the bytes of the prefix are a's. */
  predicate InPrefix(prefix: Bytes, bits: nat, a: Bytes)
    requires |prefix| == 16 && Allowed(bits) && |a| == 16
  {
    a[..bits / 8] == prefix[..bits / 8]
  }

  /** What is embedded comes out again, from an address inside the prefix whose u octet is zero. */
  lemma EmbedExtract(prefix: Bytes, bits: nat, v4: Bytes)
    requires |prefix| == 16 && Allowed(bits) && |v4| == 4
    ensures var a := Layout(prefix, bits, v4);
            Carried(bits, a) == v4 && InPrefix(prefix, bits, a) && (bits <= 64 ==> a[8] == 0)
  {
    LayoutAt(prefix, bits, v4, 0);
    LayoutAt(prefix, bits, v4, 1);
    LayoutAt(prefix, bits, v4, 2);
    LayoutAt(prefix, bits, v4, 3);
  }

  /** No byte but the prefix's and the address's is anything but zero. */
  predicate RestZero(bits: nat, a: Bytes)
    requires Allowed(bits) && |a| == 16
  {
    forall j :: bits / 8 <= j < 16 && (forall i :: 0 <= i < 4 ==> Position(bits, i) != j) ==> a[j] == 0
  }

  /** An address in the prefix is the one embedding what it carries exactly when its other bytes are
      zero: the others translate to the same IPv4 address and do not come back. */
  lemma ExtractEmbed(prefix: Bytes, bits: nat, a: Bytes)
    requires |prefix| == 16 && Allowed(bits) && |a| == 16 && InPrefix(prefix, bits, a)
    ensures Layout(prefix, bits, Carried(bits, a)) == a <==> RestZero(bits, a)
  {
    LayoutRest(prefix, bits, Carried(bits, a));
    hide Layout, Position;
    if RestZero(bits, a) {
      assert Written(prefix, bits, Carried(bits, a), 4, a);
      WrittenIs(prefix, bits, Carried(bits, a), a);
    }
  }

  /** There is such an address under every prefix of up to sixty-four bits, whatever it carries; behind one of
      ninety-six bits there is no byte left. */
  lemma OthersLost(prefix: Bytes, bits: nat, v4: Bytes, a: Bytes)
    requires |prefix| == 16 && Allowed(bits) && |v4| == 4 && |a| == 16
    ensures bits > 64 ==> RestZero(bits, a)
    ensures bits <= 64 && a == Layout(prefix, bits, v4)[15 := 1] ==>
              InPrefix(prefix, bits, a) && Carried(bits, a) == v4 && !RestZero(bits, a)
  {
    if bits > 64 {
      hide Layout;
      forall j: nat | bits / 8 <= j < 16 ensures HoldsByte(bits, j) {
        Placed(bits, j);
      }
    } else if a == Layout(prefix, bits, v4)[15 := 1] {
      EmbedExtract(prefix, bits, v4);
      hide Layout;
      assert a[..bits / 8] == Layout(prefix, bits, v4)[..bits / 8];
      assert a[15] == 1 && forall i :: 0 <= i < 4 ==> Position(bits, i) < 15;
      OtherThanZero(bits, a, 15);
    }
  }

  lemma OtherThanZero(bits: nat, a: Bytes, j: nat)
    requires Allowed(bits) && |a| == 16 && bits / 8 <= j < 16 && a[j] != 0
    requires forall i :: 0 <= i < 4 ==> Position(bits, i) != j
    ensures !RestZero(bits, a)
  {
  }

  lemma LayoutRest(prefix: Bytes, bits: nat, v4: Bytes)
    requires |prefix| == 16 && Allowed(bits) && |v4| == 4
    ensures RestZero(bits, Layout(prefix, bits, v4))
  {
    var a := Layout(prefix, bits, v4);
    hide Layout, Position;
    forall j: nat | bits / 8 <= j < 16 && (forall i :: 0 <= i < 4 ==> Position(bits, i) != j) ensures a[j] == 0 {
      Placed(bits, j);
      ZeroAt(prefix, bits, v4, j);
    }
  }

  /** The bytes the address takes: four from the prefix on, the u octet passed over. */
  predicate Taken(bits: nat, j: nat) {
    bits > 64 || (j != 8 && j < bits / 8 + 5)
  }

  predicate HoldsByte(bits: nat, j: nat)
    requires Allowed(bits)
  {
    exists i :: 0 <= i < 4 && Position(bits, i) == j
  }

  lemma Placed(bits: nat, j: nat)
    requires Allowed(bits) && bits / 8 <= j < 16
    ensures Taken(bits, j) ==> HoldsByte(bits, j)
  {
    var i := if bits > 64 || j < 8 then j - bits / 8 else j - bits / 8 - 1;
    if Taken(bits, j) { assert i < 4 && Position(bits, i) == j; }
  }

  lemma ZeroAt(prefix: Bytes, bits: nat, v4: Bytes, j: nat)
    requires |prefix| == 16 && Allowed(bits) && |v4| == 4 && bits / 8 <= j < 16
    ensures !Taken(bits, j) ==> Layout(prefix, bits, v4)[j] == 0
  {
  }
}
