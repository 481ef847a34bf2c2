/** Bytes on the wire, in network order, and the protocols they are of. */
module Wire {
  import opened Arith

  type Byte = x: int | 0 <= x < 256
  type Bytes = seq<Byte>

  const ICMP: Byte := 1
  const TCP: Byte := 6
  const UDP: Byte := 17
  const FRAGMENT: Byte := 44
  const ICMPV6: Byte := 58

  datatype Option<T> = None | Some(value: T)

  function Get16(b: Bytes, i: nat): (v: nat)
    requires i + 2 <= |b|
    ensures v <= 0xffff
  {
    b[i] as int * 256 + b[i + 1] as int
  }

  function Get32(b: Bytes, i: nat): (v: nat)
    requires i + 4 <= |b|
  {
    Get16(b, i) * 0x1_0000 + Get16(b, i + 2)
  }

  /** v as sixteen bits, the higher ones lost. */
  function Put16(v: nat): (b: Bytes)
    ensures |b| == 2
  {
    [v / 256 % 256, v % 256]
  }

  function Put32(v: nat): (b: Bytes)
    ensures |b| == 4
  {
    Put16(v / 0x1_0000) + Put16(v)
  }

  /** b with v written at i. */
  function Set16(b: Bytes, i: nat, v: nat): (r: Bytes)
    requires i + 2 <= |b|
    ensures |r| == |b|
    ensures forall j :: 0 <= j < |b| ==>
              r[j] == if j == i then v / 256 % 256 else if j == i + 1 then v % 256 else b[j]
  {
    b[..i] + Put16(v) + b[i + 2..]
  }

  lemma CutTwice(b: Bytes, i: nat, j: nat)
    requires i <= j <= |b|
    ensures b == b[..i] + b[i..j] + b[j..]
  {
  }

  lemma PutGet16(v: nat)
    ensures Get16(Put16(v), 0) == v % 0x1_0000
  {
    var x, l := v / 256, v % 256;
    var y, r := x / 256, x % 256;
    assert v == 256 * x + l && x == 256 * y + r;
    QuotientIs(v, 0x1_0000, y);
  }

  /** A number that fits, read where it was put. */
  lemma Read16(b: Bytes, i: nat, v: nat)
    requires i + 2 <= |b| && b[i..i + 2] == Put16(v) && v < 0x1_0000
    ensures Get16(b, i) == v
  {
    hide Put16, Get16;
    Pair16(b, i, Put16(v));
    PutGet16(v);
  }

  lemma PutGet32(v: nat)
    ensures Get32(Put32(v), 0) == v % 0x1_0000_0000
  {
    hide Put16, Get16;
    var h, b := v / 0x1_0000, Put32(v);
    PutGet16(h);
    PutGet16(v);
    Pair16(b, 0, Put16(h));
    Pair16(b, 2, Put16(v));
    Halves(v);
  }

  lemma Pair16(b: Bytes, i: nat, p: Bytes)
    requires i + 2 <= |b| && |p| == 2 && (b[i..i + 2] == p || (b[i] == p[0] && b[i + 1] == p[1]))
    ensures Get16(b, i) == Get16(p, 0)
  {
  }

  /** Four bytes are the number they are read as. */
  lemma GetPut32(b: Bytes)
    requires |b| == 4
    ensures Get32(b, 0) < 0x1_0000_0000 && Put32(Get32(b, 0)) == b
  {
    var h, l := Get16(b, 0), Get16(b, 2);
    var v := Get32(b, 0);
    QuotientIs(v, 0x1_0000, h);
    GetPut16(b[0], b[1], h, h);
    GetPut16(b[2], b[3], l, v);
  }

  lemma GetPut16(x: Byte, y: Byte, w: nat, v: nat)
    requires w == x as int * 256 + y as int && v % 0x1_0000 == w
    ensures Put16(v) == [x, y]
  {
    var q := v / 0x1_0000;
    assert v == 0x1_0000 * q + w;
    QuotientIs(v, 256, 256 * q + x);
    QuotientIs(256 * q + x, 256, q);
  }

  lemma Halves(v: nat)
    ensures v % 0x1_0000_0000 == v / 0x1_0000 % 0x1_0000 * 0x1_0000 + v % 0x1_0000
  {
    var h, l := v / 0x1_0000, v % 0x1_0000;
    var q, r := h / 0x1_0000, h % 0x1_0000;
    assert v == 0x1_0000 * h + l && h == 0x1_0000 * q + r;
    QuotientIs(v, 0x1_0000_0000, q);
  }
}
