/** The stateless translation between IPv6 and IPv4 of RFC 7915, one packet at a time: what becomes of
the headers, of an ICMP message and of the packet an error quotes, and how the checksum is moved by
the difference of what changed instead of being computed again.

The kernel's helpers stand for the ones'-complement sums they are: bpf_csum_diff is the difference of
two sums, and bpf_l4_csum_replace moves a checksum by one. */
module Xlat {
  import opened Wire
  import opened Checksum

  // ---- Checksums moved by a difference

  /** bpf_csum_diff: what replacing the bytes from by the bytes to adds to a sum that has seed. */
  function Diff(from: Bytes, to: Bytes, seed: int): int {
    seed + WordSum(to) - WordSum(from)
  }

  /** bpf_l4_csum_replace: the complement of a folded sum that is never the empty one, so never 0xffff. */
  function Replace(check: nat, diff: int): (r: nat)
    ensures r < ONES
  {
    var f := (diff - check) % ONES;
    ONES - (if f == 0 then ONES else f)
  }

  /** The same with BPF_F_MARK_MANGLED_0, for UDP: no checksum stays none, and zero becomes 0xffff. */
  function ReplaceUdp(check: nat, diff: int): (r: nat)
    ensures r <= ONES
  {
    if check == 0 then 0
    else if Replace(check, diff) == 0 then ONES else Replace(check, diff)
  }

  lemma ModSum(a: int, b: int)
    requires a % ONES == 0 && b % ONES == 0
    ensures (a + b) % ONES == 0
  {
    assert a + b == ONES * (a / ONES + b / ONES);
    ModDrop(0, a / ONES + b / ONES);
  }

  lemma ReplaceMoves(check: nat, diff: int)
    ensures (Replace(check, diff) - check + diff) % ONES == 0
    ensures check != 0 ==> (ReplaceUdp(check, diff) - check + diff) % ONES == 0
  {
    var d := diff - check;
    assert d == ONES * (d / ONES) + d % ONES;
    ModDrop(0, d / ONES + 1);
    ModDrop(0, d / ONES + 2);
  }

  /** A checksum c of a sum s, moved to c' as the sum goes to s', still makes the two cancel, and is
      the complement of s' up to the two forms of zero. */
  lemma MovedCancels(s: nat, c: nat, s': nat, c': nat)
    requires (s + c) % ONES == 0 && (c' - c + (s' - s)) % ONES == 0 && c' <= ONES
    ensures (s' + c') % ONES == 0
    ensures c' % ONES == (ONES - Fold(s')) % ONES
  {
    ModSum(s + c, c' - c + (s' - s));
    FoldIs(s');
    var t := s' + c';
    assert s' == ONES * (s' / ONES) + s' % ONES;
    assert (s' % ONES + c') % ONES == 0 by {
      ModDrop(s' % ONES + c', s' / ONES);
    }
    assert s' % ONES + c' == 0 || s' % ONES + c' == ONES by {
      assert 0 <= s' % ONES + c' < 2 * ONES;
    }
  }

  /** The checksum at i, moved by what changed: msg' is the new message with its field zero. */
  lemma {:induction false} MovedField(pseudo: nat, msg: Bytes, pseudo': nat, msg': Bytes, i: nat, c': nat)
    requires i % 2 == 0 && i + 2 <= |msg| && i + 2 <= |msg'| && Get16(msg', i) == 0 && c' <= ONES
    requires L4Checksum(pseudo, msg) == 0
    requires var c := Get16(msg, i);
             (c' - c + ((pseudo' + WordSum(msg')) - (pseudo + WordSum(msg) - c))) % ONES == 0
    ensures WordSum(msg) >= Get16(msg, i)
    ensures c' % ONES == L4Checksum(pseudo', msg') % ONES
    ensures L4Checksum(pseudo', Set16(msg', i, c')) == 0 <==> pseudo' + WordSum(Set16(msg', i, c')) > 0
  {
    var c := Get16(msg, i);
    WordSumSet(msg, i, 0);
    WordSumSet(msg', i, c');
    VerifiesIff(pseudo, msg);
    MovedCancels(pseudo + WordSum(msg) - c, c, pseudo' + WordSum(msg'), c');
    VerifiesIff(pseudo', Set16(msg', i, c'));
  }

  // ---- TCP and UDP: only the pseudo-header changes

  function Pseudo4(src: Bytes, dst: Bytes, proto: Byte, len: nat): nat {
    WordSum(src) + WordSum(dst) + len + proto
  }

  function CsumAt(proto: Byte): nat {
    if proto == TCP then 16 else 6
  }

  function MoveL4(proto: Byte, l4: Bytes, diff: int): Bytes
    requires CsumAt(proto) + 2 <= |l4|
  {
    var c := Get16(l4, CsumAt(proto));
    Set16(l4, CsumAt(proto), if proto == UDP then ReplaceUdp(c, diff) else Replace(c, diff))
  }

  /** A right TCP or UDP checksum is right after the translation to IPv4, and is what would be
      computed from nothing, for any addresses on either side. */
  lemma {:induction false} L4SixToFour(src6: Bytes, dst6: Bytes, src4: Bytes, dst4: Bytes, proto: Byte, l4: Bytes)
    requires |src6| == |dst6| == 16 && |src4| == |dst4| == 4
    requires (proto == TCP || proto == UDP) && CsumAt(proto) + 2 <= |l4|
    requires proto == UDP ==> Get16(l4, 6) != 0
    requires L4Checksum(Pseudo6(src6, dst6, proto, |l4|), l4) == 0
    ensures var l4' := MoveL4(proto, l4, Diff(src6 + dst6, src4 + dst4, 0));
            var pseudo := Pseudo4(src4, dst4, proto, |l4|);
            && L4Checksum(pseudo, l4') == 0
            && Get16(l4', CsumAt(proto)) % ONES == L4Checksum(pseudo, Set16(l4, CsumAt(proto), 0)) % ONES
            && (proto == UDP ==> Get16(l4', 6) != 0)
  {
    var diff := Diff(src6 + dst6, src4 + dst4, 0);
    WordSumConcat(src6, dst6);
    WordSumConcat(src4, dst4);
    MovedL4(Pseudo6(src6, dst6, proto, |l4|), Pseudo4(src4, dst4, proto, |l4|), proto, l4, diff);
  }

  lemma {:induction false} L4FourToSix(src4: Bytes, dst4: Bytes, src6: Bytes, dst6: Bytes, proto: Byte, l4: Bytes)
    requires |src6| == |dst6| == 16 && |src4| == |dst4| == 4
    requires (proto == TCP || proto == UDP) && CsumAt(proto) + 2 <= |l4|
    requires proto == UDP ==> Get16(l4, 6) != 0  // one without a checksum goes to the slow path
    requires L4Checksum(Pseudo4(src4, dst4, proto, |l4|), l4) == 0
    ensures var l4' := MoveL4(proto, l4, Diff(src4 + dst4, src6 + dst6, 0));
            var pseudo := Pseudo6(src6, dst6, proto, |l4|);
            && L4Checksum(pseudo, l4') == 0
            && Get16(l4', CsumAt(proto)) % ONES == L4Checksum(pseudo, Set16(l4, CsumAt(proto), 0)) % ONES
            && (proto == UDP ==> Get16(l4', 6) != 0)
  {
    var diff := Diff(src4 + dst4, src6 + dst6, 0);
    WordSumConcat(src6, dst6);
    WordSumConcat(src4, dst4);
    MovedL4(Pseudo4(src4, dst4, proto, |l4|), Pseudo6(src6, dst6, proto, |l4|), proto, l4, diff);
  }

  lemma {:induction false} MovedL4(pseudo: nat, pseudo': nat, proto: Byte, l4: Bytes, diff: int)
    requires (proto == TCP || proto == UDP) && CsumAt(proto) + 2 <= |l4|
    requires proto == UDP ==> Get16(l4, 6) != 0
    requires pseudo' > 0 && diff == pseudo' - pseudo && L4Checksum(pseudo, l4) == 0
    ensures var l4' := MoveL4(proto, l4, diff);
            && L4Checksum(pseudo', l4') == 0
            && Get16(l4', CsumAt(proto)) % ONES == L4Checksum(pseudo', Set16(l4, CsumAt(proto), 0)) % ONES
            && (proto == UDP ==> Get16(l4', 6) != 0)
  {
    var i := CsumAt(proto);
    var c := Get16(l4, i);
    var c' := if proto == UDP then ReplaceUdp(c, diff) else Replace(c, diff);
    ReplaceMoves(c, diff);
    var zeroed := Set16(l4, i, 0);
    WordSumSet(l4, i, 0);
    GetSet16(l4, i, 0);
    GetSet16(l4, i, c');
    assert Set16(zeroed, i, c') == Set16(l4, i, c');
    MovedField(pseudo, l4, pseudo', zeroed, i, c');
  }

  /** A datagram's fragments in order, put together. */
  function Together(pieces: seq<Bytes>): Bytes {
    if pieces == [] then [] else pieces[0] + Together(pieces[1..])
  }

  /** The fragments, each translated by itself: only the first has a checksum to move. */
  function MovePieces(proto: Byte, pieces: seq<Bytes>, diff: int): seq<Bytes>
    requires pieces != [] && CsumAt(proto) + 2 <= |pieces[0]|
  {
    [MoveL4(proto, pieces[0], diff)] + pieces[1..]
  }

  lemma {:induction false} PiecesMove(proto: Byte, pieces: seq<Bytes>, diff: int)
    requires pieces != [] && CsumAt(proto) + 2 <= |pieces[0]|
    ensures CsumAt(proto) + 2 <= |Together(pieces)|
    ensures Together(MovePieces(proto, pieces, diff)) == MoveL4(proto, Together(pieces), diff)
  {
    var i, first, rest := CsumAt(proto), pieces[0], Together(pieces[1..]);
    assert MovePieces(proto, pieces, diff)[1..] == pieces[1..];
    assert Get16(first + rest, i) == Get16(first, i);
    assert first[..i] == (first + rest)[..i] && first[i + 2..] + rest == (first + rest)[i + 2..];
  }

  /** Fragments of one datagram, translated apart from each other and put together on the other side,
      verify there when the datagram did on this one. */
  lemma {:induction false} PiecesSixToFour(src6: Bytes, dst6: Bytes, src4: Bytes, dst4: Bytes, proto: Byte, pieces: seq<Bytes>)
    requires |src6| == |dst6| == 16 && |src4| == |dst4| == 4
    requires (proto == TCP || proto == UDP) && pieces != [] && CsumAt(proto) + 2 <= |pieces[0]|
    requires proto == UDP ==> Get16(pieces[0], 6) != 0
    requires L4Checksum(Pseudo6(src6, dst6, proto, |Together(pieces)|), Together(pieces)) == 0
    ensures var whole := Together(MovePieces(proto, pieces, Diff(src6 + dst6, src4 + dst4, 0)));
            |whole| == |Together(pieces)| && L4Checksum(Pseudo4(src4, dst4, proto, |whole|), whole) == 0
  {
    hide L4Checksum, Diff, Pseudo4, Pseudo6;
    PiecesMove(proto, pieces, Diff(src6 + dst6, src4 + dst4, 0));
    L4SixToFour(src6, dst6, src4, dst4, proto, Together(pieces));
  }

  lemma {:induction false} PiecesFourToSix(src4: Bytes, dst4: Bytes, src6: Bytes, dst6: Bytes, proto: Byte, pieces: seq<Bytes>)
    requires |src6| == |dst6| == 16 && |src4| == |dst4| == 4
    requires (proto == TCP || proto == UDP) && pieces != [] && CsumAt(proto) + 2 <= |pieces[0]|
    requires proto == UDP ==> Get16(pieces[0], 6) != 0
    requires L4Checksum(Pseudo4(src4, dst4, proto, |Together(pieces)|), Together(pieces)) == 0
    ensures var whole := Together(MovePieces(proto, pieces, Diff(src4 + dst4, src6 + dst6, 0)));
            |whole| == |Together(pieces)| && L4Checksum(Pseudo6(src6, dst6, proto, |whole|), whole) == 0
  {
    hide L4Checksum, Diff, Pseudo4, Pseudo6;
    PiecesMove(proto, pieces, Diff(src4 + dst4, src6 + dst6, 0));
    L4FourToSix(src4, dst4, src6, dst6, proto, Together(pieces));
  }

  lemma GetSet16(b: Bytes, i: nat, v: nat)
    requires i + 2 <= |b| && v <= ONES
    ensures Get16(Set16(b, i, v), i) == v
  {
    var r := Set16(b, i, v);
    assert r[i] == Put16(v)[0] && r[i + 1] == Put16(v)[1];
    PutGet16(v);
  }

  // ---- Headers

  /** What of an IPv4 header without options is translated. off is in units of eight bytes. */
  datatype Ip4 = Ip4(tos: Byte, tot: nat, id: nat, df: bool, mf: bool, off: nat, ttl: Byte, proto: Byte)

  datatype Frag = Frag(off: nat, more: bool, id: nat)

  /** What of an IPv6 header, and of a fragment header after it, is translated. len is the payload's,
      without the fragment header; next is the protocol after it. */
  datatype Ip6 = Ip6(tc: Byte, len: nat, next: Byte, hop: Byte, frag: Option<Frag>)

  function Proto6to4(p: Byte): Byte {
    if p == ICMPV6 then ICMP else p
  }

  function Proto4to6(p: Byte): Byte {
    if p == ICMP then ICMPV6 else p
  }

  predicate Known4(p: Byte) { p == TCP || p == UDP || p == ICMP }

  predicate Known6(p: Byte) { p == TCP || p == UDP || p == ICMPV6 }

  function Head6to4(h: Ip6): Ip4 {
    Ip4(h.tc, (h.len + 20) % 0x1_0000,
        if h.frag.Some? then h.frag.value.id % 0x1_0000 else 0,
        h.frag.None?,  // a whole packet must not be cut on the way; the pieces of one may
        h.frag.Some? && h.frag.value.more,
        if h.frag.Some? then h.frag.value.off else 0,
        h.hop, Proto6to4(h.next))
  }

  function Head4to6(h: Ip4): Ip6
    requires h.tot >= 20
  {
    Ip6(h.tos, h.tot - 20, Proto4to6(h.proto), h.ttl,
        if h.mf || h.off != 0 then Some(Frag(h.off, h.mf, h.id)) else None)
  }

  /** Two headers of one packet, or of one piece of one: the same payload, of the same protocol, with the same
      way to go, and at the same place in the whole. */
  predicate SamePacket(h4: Ip4, h6: Ip6) {
    && h4.tot == 20 + h6.len && h4.tos == h6.tc && h4.ttl == h6.hop
    && (h4.proto == h6.next || (h4.proto == ICMP && h6.next == ICMPV6))
    && (h4.proto == ICMP <==> h6.next == ICMPV6)
    && h4.off == (if h6.frag.Some? then h6.frag.value.off else 0)
    && (h4.mf <==> h6.frag.Some? && h6.frag.value.more)
    && (h6.frag.Some? ==> h4.id == h6.frag.value.id % 0x1_0000)
  }

  /** Either translator gives the other header of the same packet. A whole packet gets no fragment header,
      and one without may not be cut. */
  lemma HeadsAgree(h4: Ip4, h6: Ip6)
    ensures 20 <= h4.tot && h4.id <= 0xffff && h4.proto != ICMPV6 ==>
              SamePacket(h4, Head4to6(h4)) && (Head4to6(h4).frag.None? <==> !h4.mf && h4.off == 0)
    ensures h6.len + 20 <= 0xffff && h6.next != ICMP ==>
              SamePacket(Head6to4(h6), h6) && (Head6to4(h6).df <==> h6.frag.None?)
  {
  }

  /** There and back from IPv4: all is kept but what only a fragment carries over, the identification,
      and Don't Fragment, which a whole packet comes back with and a fragment without. */
  lemma HeadFrom4AndBack(h: Ip4)
    requires 20 <= h.tot <= 0xffff && h.id <= 0xffff && Known4(h.proto)
    ensures var cut := h.mf || h.off != 0;
            Head6to4(Head4to6(h)) == h.(id := if cut then h.id else 0, df := !cut)
  {
  }

  /** There and back from IPv6: all is kept that fits, except that a fragment header on a packet that
      is whole, an atomic fragment's, is gone. */
  lemma HeadFrom6AndBack(h: Ip6)
    requires h.len + 20 <= 0xffff && Known6(h.next)
    ensures var f := h.frag;
            Head4to6(Head6to4(h)) == h.(frag :=
              if f.Some? && (f.value.more || f.value.off != 0)
              then Some(f.value.(id := f.value.id % 0x1_0000)) else None)
  {
  }

  /** Twenty bytes of IPv4 header, the checksum in place. */
  function Enc4(h: Ip4, src: Bytes, dst: Bytes): (b: Bytes)
    requires |src| == |dst| == 4
    ensures |b| == 20
  {
    var b := Bare4(h, src, dst);
    Set16(b, 10, IpChecksum(b))
  }

  function Bare4(h: Ip4, src: Bytes, dst: Bytes): (b: Bytes)
    requires |src| == |dst| == 4
    ensures |b| == 20
  {
    [0x45, h.tos] + Put16(h.tot) + Put16(h.id)
    + Put16((if h.df then 0x4000 else 0) + (if h.mf then 0x2000 else 0) + h.off)
    + [h.ttl, h.proto, 0, 0] + src + dst
  }

  function Dec4(b: Bytes): Ip4
    requires |b| == 20
  {
    var fo := Get16(b, 6);
    Ip4(b[1], Get16(b, 2), Get16(b, 4), fo / 0x4000 % 2 == 1, fo / 0x2000 % 2 == 1, fo % 0x2000, b[8], b[9])
  }

  lemma EncDec4(h: Ip4, src: Bytes, dst: Bytes)
    requires |src| == |dst| == 4 && h.tot <= 0xffff && h.id <= 0xffff && h.off < 0x2000
    ensures var b := Enc4(h, src, dst);
            b[0] == 0x45 && Dec4(b) == h && b[12..16] == src && b[16..20] == dst
  {
    var b, e := Bare4(h, src, dst), Enc4(h, src, dst);
    var fo := (if h.df then 0x4000 else 0) + (if h.mf then 0x2000 else 0) + h.off;
    Layout4(h, src, dst);
    assert forall i :: 0 <= i < 20 && i != 10 && i != 11 ==> e[i] == b[i];
    assert e[12..16] == b[12..16] && e[16..20] == b[16..20];
    FlagBits(h.df, h.mf, h.off);
  }

  lemma FlagBits(df: bool, mf: bool, off: nat)
    requires off < 0x2000
    ensures var fo := (if df then 0x4000 else 0) + (if mf then 0x2000 else 0) + off;
            fo < 0x8000 && (fo / 0x4000 % 2 == 1 <==> df) && (fo / 0x2000 % 2 == 1 <==> mf) && fo % 0x2000 == off
  {
  }

  lemma Layout4(h: Ip4, src: Bytes, dst: Bytes)
    requires |src| == |dst| == 4 && h.tot <= 0xffff && h.id <= 0xffff && h.off < 0x2000
    ensures var b := Bare4(h, src, dst);
            var fo := (if h.df then 0x4000 else 0) + (if h.mf then 0x2000 else 0) + h.off;
            && b[0] == 0x45 && b[1] == h.tos && b[8] == h.ttl && b[9] == h.proto && b[10] == b[11] == 0
            && Get16(b, 2) == h.tot && Get16(b, 4) == h.id && Get16(b, 6) == fo
            && b[12..16] == src && b[16..20] == dst
  {
    var b, fo := Bare4(h, src, dst), (if h.df then 0x4000 else 0) + (if h.mf then 0x2000 else 0) + h.off;
    hide Put16, Get16;
    assert b[2..4] == Put16(h.tot) && b[4..6] == Put16(h.id) && b[6..8] == Put16(fo);
    Read16(b, 2, h.tot);
    Read16(b, 4, h.id);
    Read16(b, 6, fo);
  }

  /** The header checksum as the program computes it, the carries added back twice. */
  function IpChecksum(b: Bytes): (r: nat)
    requires |b| == 20
    ensures r <= ONES
  {
    WordSumBound(b);
    var s1 := WordSum(b) % 0x1_0000 + WordSum(b) / 0x1_0000;
    var s2 := s1 % 0x1_0000 + s1 / 0x1_0000;
    ONES - s2
  }

  /** Twice is enough, and the header so filled in verifies. */
  lemma {:induction false} Enc4Verifies(h: Ip4, src: Bytes, dst: Bytes)
    requires |src| == |dst| == 4
    ensures L4Checksum(0, Enc4(h, src, dst)) == 0
  {
    var b := Bare4(h, src, dst);
    WordSumBound(b);
    var s1 := WordSum(b) % 0x1_0000 + WordSum(b) / 0x1_0000;
    assert Fold(WordSum(b)) == Fold(s1) == ONES - IpChecksum(b);
    assert b[10..12] == [0, 0];
    StoredVerifies(0, b, 10);
  }

  /** An IPv6 header, and the fragment header when there is one. */
  function Enc6(h: Ip6, src: Bytes, dst: Bytes): (b: Bytes)
    requires |src| == |dst| == 16
    ensures |b| == if h.frag.Some? then 48 else 40
  {
    [0x60 + h.tc / 16, h.tc % 16 * 16, 0, 0]
    + Put16(h.len + if h.frag.Some? then 8 else 0)
    + [if h.frag.Some? then FRAGMENT else h.next, h.hop] + src + dst
    + (if h.frag.Some? then
         [h.next, 0] + Put16(h.frag.value.off * 8 + if h.frag.value.more then 1 else 0) + Put32(h.frag.value.id)
       else [])
  }

  // ---- ICMP

  /** The pointer of a Parameter Problem in the other layout (figures 3 and 6 of RFC 7915). */
  function Pointer4to6(p: nat): Option<nat> {
    if p <= 1 then Some(p)
    else if p <= 3 then Some(4)
    else if p == 8 then Some(7)
    else if p == 9 then Some(6)
    else if 12 <= p <= 15 then Some(8)
    else if 16 <= p <= 19 then Some(24)
    else None
  }

  function Pointer6to4(p: nat): Option<nat> {
    if p <= 1 then Some(p)
    else if p == 4 || p == 5 then Some(2)
    else if p == 6 then Some(9)
    else if p == 7 then Some(8)
    else if 8 <= p <= 23 then Some(12)
    else if 24 <= p <= 39 then Some(16)
    else None
  }

  /** A pointer that has a counterpart both ways points into the same field when it comes back. */
  lemma PointerBack(p: nat)
    requires Pointer4to6(p).Some? && p < 256
    ensures Pointer6to4(Pointer4to6(p).value).Some?
    ensures Pointer4to6(Pointer6to4(Pointer4to6(p).value).value) == Pointer4to6(p)
  {
  }

  /** A translated ICMP header; quotes tells an error from an echo. */
  datatype Icmp = Icmp(h: Bytes, quotes: bool)

  function Header8(typ: Byte, code: Byte, rest: Bytes): (b: Bytes)
    requires |rest| == 4
    ensures |b| == 8 && b[2] == b[3] == 0 && b[0] == typ
  {
    [typ, code, 0, 0] + rest
  }

  /** From ICMPv6 (section 5.2 of RFC 7915); the checksum field is zero on both sides. */
  function Icmp6to4(h: Bytes): (r: Option<Icmp>)
    requires |h| == 8 && h[2] == h[3] == 0
    ensures r.Some? ==> |r.value.h| == 8 && r.value.h[2] == r.value.h[3] == 0
  {
    var code, v := h[1], Get32(h, 4);
    match h[0]
    case 128 => Some(Icmp(h[0 := 8], false))
    case 129 => Some(Icmp(h[0 := 0], false))
    case 1 =>
      var c: Option<Byte> := if code == 0 || code == 2 || code == 3 then Some(1)
                             else if code == 1 then Some(10)
                             else if code == 4 then Some(3) else None;
      if c.Some? then Some(Icmp(Header8(3, c.value, [0, 0, 0, 0]), true)) else None
    case 2 =>
      var floor := if v < 68 + 20 then 68 + 20 else v;
      var mtu := if floor - 20 > 0xffff then 0xffff else floor - 20;
      Some(Icmp(Header8(3, 4, Put32(mtu)), true))
    case 3 => Some(Icmp(Header8(11, code, [0, 0, 0, 0]), true))
    case 4 =>
      if code == 1 then Some(Icmp(Header8(3, 2, [0, 0, 0, 0]), true))
      else if code == 0 && Pointer6to4(v).Some? then
        Some(Icmp(Header8(12, 0, Put32(Pointer6to4(v).value * 0x100_0000)), true))
      else None
    case _ => None
  }

  /** To ICMPv6 (section 4.2 of RFC 7915). */
  function Icmp4to6(h: Bytes): (r: Option<Icmp>)
    requires |h| == 8 && h[2] == h[3] == 0
    ensures r.Some? ==> |r.value.h| == 8 && r.value.h[2] == r.value.h[3] == 0
  {
    var code := h[1];
    match h[0]
    case 8 => Some(Icmp(h[0 := 128], false))
    case 0 => Some(Icmp(h[0 := 129], false))
    case 3 =>
      if code == 2 then Some(Icmp(Header8(4, 1, Put32(6)), true))
      else if code == 4 then
        var v := Get16(h, 6);
        var mtu := if v == 0 || v + 20 < 1280 then 1280 else v + 20;
        Some(Icmp(Header8(2, 0, Put32(mtu)), true))
      else if code in {0, 1, 5, 6, 7, 8, 11, 12} then Some(Icmp(Header8(1, 0, [0, 0, 0, 0]), true))
      else if code in {9, 10, 13, 15} then Some(Icmp(Header8(1, 1, [0, 0, 0, 0]), true))
      else if code == 3 then Some(Icmp(Header8(1, 4, [0, 0, 0, 0]), true))
      else None
    case 11 => Some(Icmp(Header8(3, code, [0, 0, 0, 0]), true))
    case 12 =>
      if (code == 0 || code == 2) && Pointer4to6(h[4]).Some? then
        Some(Icmp(Header8(4, 0, Put32(Pointer4to6(h[4]).value)), true))
      else None
    case _ => None
  }

  /** An echo comes back as it was. */
  lemma EchoBack(h: Bytes)
    requires |h| == 8 && h[2] == h[3] == 0 && (h[0] == 8 || h[0] == 0)
    ensures Icmp4to6(h).Some? && Icmp6to4(Icmp4to6(h).value.h) == Some(Icmp(h, false))
  {
    var h6 := Icmp4to6(h).value.h;
    assert h6[0 := h[0]] == h;
  }

  /** The type of a quoted echo, in the other family. */
  function Echo6to4(l4: Bytes): Bytes
    requires |l4| == 8
  {
    if l4[0] == 128 then l4[0 := 8] else if l4[0] == 129 then l4[0 := 0] else l4
  }

  function Echo4to6(l4: Bytes): Bytes
    requires |l4| == 8
  {
    if l4[0] == 8 then l4[0 := 128] else if l4[0] == 0 then l4[0 := 129] else l4
  }

  /** A pseudo-header as the program lays it out in memory sums to what it stands for. */
  lemma {:induction false} PseudoBytes(src: Bytes, dst: Bytes, len: nat)
    requires |src| == |dst| == 16 && len <= 0xffff
    ensures WordSum(src + dst + Put32(len) + Put32(ICMPV6)) == Pseudo6(src, dst, ICMPV6, len)
  {
    WordSumConcat(src, dst);
    WordSumConcat(src + dst, Put32(len));
    WordSumConcat(src + dst + Put32(len), Put32(ICMPV6));
    Word32(len);
    Word32(ICMPV6);
  }

  lemma {:induction false} Word32(v: nat)
    requires v <= 0xffff
    ensures WordSum(Put32(v)) == v
  {
    var b := Put32(v);
    assert b == Put16(0) + Put16(v);
    WordSumConcat(Put16(0), Put16(v));
    PutGet16(v);
    assert Put16(0)[2..] == [] && Put16(v)[2..] == [];
  }

  /** What a message turns into: n in place of its first cut bytes, the checksum field zero. */
  datatype Rewrite = Rewrite(cut: nat, n: Bytes)

  predicate Fits(r: Rewrite, msg: Bytes) {
    8 <= r.cut <= |msg| && r.cut % 2 == 0 && |r.n| >= 8 && |r.n| % 2 == 0 && r.n[2] == r.n[3] == 0
  }

  /** What an error quotes: its header, the eight bytes after it, and where they end in the message. */
  datatype Quoted = Quoted(ip: Ip6, src: Bytes, dst: Bytes, l4: Bytes, size: nat)

  function Quote6(msg: Bytes): (q: Option<Quoted>)
    requires |msg| >= 8
    ensures q.Some? ==> q.value.size <= |msg| && (q.value.size == 56 || q.value.size == 64)
                        && |q.value.src| == |q.value.dst| == 16 && |q.value.l4| == 8
  {
    if |msg| < 56 then None else
    var tc: Byte := msg[8] % 16 * 16 + msg[9] / 16;
    var ipl, next, hop := Get16(msg, 12), msg[14], msg[15];
    var src, dst := msg[16..32], msg[32..48];
    if next != FRAGMENT then
      Some(Quoted(Ip6(tc, ipl, next, hop, None), src, dst, msg[48..56], 56))
    else if |msg| < 64 || ipl < 8 then None
    else
      var fo := Get16(msg, 50);
      Some(Quoted(Ip6(tc, ipl - 8, msg[48], hop, Some(Frag(fo / 8, fo % 2 == 1, Get32(msg, 52)))),
                  src, dst, msg[56..64], 64))
  }

  function Mapped(m: Bytes -> Option<Bytes>, a: Bytes, n: nat): (r: Option<Bytes>)
    requires forall x :: m(x).Some? ==> |m(x).value| == n
    ensures r == m(a) && (r.Some? ==> |r.value| == n)
  {
    m(a)
  }

  /** An ICMPv6 message in IPv4, the addresses of an error's quote mapped by a4. */
  function Rewrite6to4(msg: Bytes, a4: Bytes -> Option<Bytes>): (r: Option<Rewrite>)
    requires forall a :: a4(a).Some? ==> |a4(a).value| == 4
    ensures r.Some? ==> Fits(r.value, msg)
  {
    if |msg| < 8 then None else
    var now := Icmp6to4([msg[0], msg[1], 0, 0] + msg[4..8]);
    if now.None? then None
    else if !now.value.quotes then Some(Rewrite(8, now.value.h))
    else RewriteQuote6to4(now.value.h, msg, a4)
  }

  function RewriteQuote6to4(icmp: Bytes, msg: Bytes, a4: Bytes -> Option<Bytes>): (r: Option<Rewrite>)
    requires |msg| >= 8 && |icmp| == 8 && icmp[2] == icmp[3] == 0
    requires forall a :: a4(a).Some? ==> |a4(a).value| == 4
    ensures r.Some? ==> Fits(r.value, msg)
  {
    var quote := Quote6(msg);
    if quote.None? || !Known6(quote.value.ip.next) then None else
    var q := quote.value;
    hide Quote6, Enc4, Head6to4, Known6, L4To4;
    var s4, d4 := Mapped(a4, q.src, 4), Mapped(a4, q.dst, 4);
    if s4.None? || d4.None? then None else
    Some(Rewrite(q.size, Joined(icmp, Enc4(Head6to4(q.ip), s4.value, d4.value), L4To4(q.ip, q.l4))))
  }

  function Joined(icmp: Bytes, ip: Bytes, l4: Bytes): (n: Bytes)
    requires |icmp| == 8 && icmp[2] == icmp[3] == 0
    ensures |n| == 8 + |ip| + |l4| && n[2] == n[3] == 0
  {
    icmp + ip + l4
  }

  /** An ICMP message in IPv6, the addresses of an error's quote mapped by a6. */
  function Rewrite4to6(msg: Bytes, a6: Bytes -> Option<Bytes>): (r: Option<Rewrite>)
    requires forall a :: a6(a).Some? ==> |a6(a).value| == 16
    ensures r.Some? ==> Fits(r.value, msg)
  {
    if |msg| < 8 then None else
    var now := Icmp4to6([msg[0], msg[1], 0, 0] + msg[4..8]);
    if now.None? then None
    else if !now.value.quotes then Some(Rewrite(8, now.value.h))
    else RewriteQuote4to6(now.value.h, msg, a6)
  }

  function RewriteQuote4to6(icmp: Bytes, msg: Bytes, a6: Bytes -> Option<Bytes>): (r: Option<Rewrite>)
    requires |msg| >= 8 && |icmp| == 8 && icmp[2] == icmp[3] == 0
    requires forall a :: a6(a).Some? ==> |a6(a).value| == 16
    ensures r.Some? ==> Fits(r.value, msg)
  {
    if |msg| < 36 || msg[8] % 16 != 5 || !Known4(msg[17]) then None else
    hide Enc6, Unchecked4to6, Dec4, Known4, L4To6;
    var s6, d6 := Mapped(a6, msg[20..24], 16), Mapped(a6, msg[24..28], 16);
    if s6.None? || d6.None? then None else
    var ip := Dec4(msg[8..28]);
    Some(Rewrite(36, Joined(icmp, Enc6(Unchecked4to6(ip), s6.value, d6.value), L4To6(ip, msg[28..36]))))
  }

  function L4To6(ip: Ip4, l4: Bytes): (r: Bytes)
    requires |l4| == 8
    ensures |r| == 8
  {
    if ip.off == 0 && ip.proto == ICMP then Echo4to6(l4) else l4
  }

  function L4To4(ip: Ip6, l4: Bytes): (r: Bytes)
    requires |l4| == 8
    ensures |r| == 8
  {
    if (ip.frag.None? || ip.frag.value.off == 0) && ip.next == ICMPV6 then Echo6to4(l4) else l4
  }

  /** Head4to6 of a quoted header, whose length nobody has checked: it wraps. */
  function Unchecked4to6(h: Ip4): Ip6 {
    if h.tot >= 20 then Head4to6(h)
    else Head4to6(h.(tot := h.tot + 0x1_0000))
  }

  /** The message rewritten, its checksum moved by what changed and by seed. */
  function Applied(msg: Bytes, r: Rewrite, seed: int): (m: Bytes)
    requires Fits(r, msg)
    ensures |m| == |msg| - r.cut + |r.n|
  {
    Set16(r.n + msg[r.cut..], 2, Replace(Get16(msg, 2), Diff(Set16(msg[..r.cut], 2, 0), r.n, seed)))
  }

  /** Whatever is rewritten, the moved checksum is right. */
  lemma {:induction false} AppliedMoves(pseudo: nat, msg: Bytes, r: Rewrite, pseudo': nat)
    requires Fits(r, msg) && L4Checksum(pseudo, msg) == 0
    ensures var m := Applied(msg, r, pseudo' - pseudo);
            && Get16(m, 2) % ONES == L4Checksum(pseudo', Set16(m, 2, 0)) % ONES
            && (L4Checksum(pseudo', m) == 0 <==> pseudo' + WordSum(m) > 0)
  {
    hide L4Checksum, WordSum, Replace;
    var c, tail := Get16(msg, 2), msg[r.cut..];
    var o := Set16(msg[..r.cut], 2, 0);
    var diff := Diff(o, r.n, pseudo' - pseudo);
    var c' := Replace(c, diff);
    var zeroed := r.n + tail;
    var m := Set16(zeroed, 2, c');
    assert Get16(zeroed, 2) == 0;
    assert msg == msg[..r.cut] + tail && Get16(msg[..r.cut], 2) == c;
    WordSumConcat(msg[..r.cut], tail);
    WordSumConcat(r.n, tail);
    WordSumSet(msg[..r.cut], 2, 0);
    ReplaceMoves(c, diff);
    MovedField(pseudo, msg, pseudo', zeroed, 2, c');
    GetSet16(zeroed, 2, c');
    assert Set16(m, 2, 0) == zeroed by {
      assert m[..2] == zeroed[..2] && m[4..] == zeroed[4..] && zeroed[2..4] == Put16(0);
      CutTwice(zeroed, 2, 4);
    }
  }

  /** icmp6_to_4: the message to IPv4, the checksum moved by the pseudo-header that goes and by what
      is rewritten. */
  function Msg6to4(src: Bytes, dst: Bytes, msg: Bytes, a4: Bytes -> Option<Bytes>): Option<Bytes>
    requires |src| == |dst| == 16
    requires forall a :: a4(a).Some? ==> |a4(a).value| == 4
  {
    match Rewrite6to4(msg, a4)
    case None => None
    case Some(r) =>
      Some(Applied(msg, r, 0 - WordSum(src + dst + Put32(|msg|) + Put32(ICMPV6)) as int))
  }

  /** icmp4_to_6: the message to IPv6. The new length that enters the pseudo-header has sixteen bits. */
  function Msg4to6(src: Bytes, dst: Bytes, msg: Bytes, a6: Bytes -> Option<Bytes>): Option<Bytes>
    requires |src| == |dst| == 16
    requires forall a :: a6(a).Some? ==> |a6(a).value| == 16
  {
    match Rewrite4to6(msg, a6)
    case None => None
    case Some(r) =>
      var len := (|msg| - r.cut + |r.n|) % 0x1_0000;
      Some(Applied(msg, r, WordSum(src + dst + Put32(len) + Put32(ICMPV6))))
  }

  lemma {:induction false} NothingIff(b: Bytes)
    ensures WordSum(b) == 0 <==> forall i :: 0 <= i < |b| ==> b[i] == 0
    decreases |b|
  {
    if |b| >= 2 {
      NothingIff(b[2..]);
      assert forall i :: 2 <= i < |b| ==> b[i] == b[2..][i - 2];
    }
  }

  /** An echo reply that is zero but for its type and its checksum. */
  predicate Blank(msg: Bytes)
    requires |msg| >= 8
  {
    msg[0] == 129 && msg[1] == 0 && forall i :: 4 <= i < |msg| ==> msg[i] == 0
  }

  /** No rewritten message begins with zero but an echo reply, whose other bytes stay as they were. */
  lemma {:induction false} BlankIff(msg: Bytes, a4: Bytes -> Option<Bytes>, seed: int)
    requires forall a :: a4(a).Some? ==> |a4(a).value| == 4
    requires Rewrite6to4(msg, a4).Some?
    ensures |msg| >= 8
    ensures Blank(msg) <==> var m := Applied(msg, Rewrite6to4(msg, a4).value, seed);
                            forall i :: 0 <= i < |m| && i != 2 && i != 3 ==> m[i] == 0
  {
    hide Quote6, Replace, Diff, Enc4, WordSum;
    var r := Rewrite6to4(msg, a4).value;
    var m := Applied(msg, r, seed);
    assert m[0] == r.n[0];
    if msg[0] == 129 {
      assert r == Rewrite(8, [0, msg[1], 0, 0] + msg[4..8]);
      assert m[1] == msg[1] && |m| == |msg|;
      assert forall i :: 4 <= i < |msg| ==> m[i] == msg[i];
    }
  }

  lemma {:induction false} WordSumField(m: Bytes)
    requires |m| >= 4
    ensures WordSum(m) == 0 <==> Get16(m, 2) == 0 && forall i :: 0 <= i < |m| && i != 2 && i != 3 ==> m[i] == 0
    ensures WordSum(Set16(m, 2, 0)) == 0 <==> forall i :: 0 <= i < |m| && i != 2 && i != 3 ==> m[i] == 0
  {
    NothingIff(m);
    NothingIff(Set16(m, 2, 0));
  }

  /** Every ICMPv6 message translated, an echo or an error with its quote, has the checksum that would
      be computed from nothing, up to the two forms of zero; it verifies unless it was an echo reply of
      zeros. */
  lemma {:induction false} Msg6to4Moves(src: Bytes, dst: Bytes, msg: Bytes, a4: Bytes -> Option<Bytes>)
    requires |src| == |dst| == 16 && |msg| <= 0xffff
    requires forall a :: a4(a).Some? ==> |a4(a).value| == 4
    requires L4Checksum(Pseudo6(src, dst, ICMPV6, |msg|), msg) == 0
    ensures var m := Msg6to4(src, dst, msg, a4);
            m.Some? ==>
              && |m.value| >= 8 && |msg| >= 8
              && Get16(m.value, 2) % ONES == L4Checksum(0, Set16(m.value, 2, 0)) % ONES
              && (L4Checksum(0, m.value) == 0 <==> !Blank(msg))
  {
    hide Rewrite6to4, L4Checksum, WordSum, Applied, Blank, Pseudo6, Set16;
    PseudoBytes(src, dst, |msg|);
    var r := Rewrite6to4(msg, a4);
    if r.Some? {
      var pseudo := Pseudo6(src, dst, ICMPV6, |msg|);
      AppliedMoves(pseudo, msg, r.value, 0);
      var seed: int := 0 - (pseudo as int);
      BlankIff(msg, a4, seed);
      BlankField(msg, r.value, seed);
    }
  }

  /** The moved checksum is never 0xffff, so of a message of zeros it is zero too. */
  lemma {:induction false} BlankField(msg: Bytes, r: Rewrite, seed: int)
    requires Fits(r, msg)
    requires var m := Applied(msg, r, seed); Get16(m, 2) % ONES == L4Checksum(0, Set16(m, 2, 0)) % ONES
    ensures var m := Applied(msg, r, seed);
            WordSum(m) == 0 <==> forall i :: 0 <= i < |m| && i != 2 && i != 3 ==> m[i] == 0
  {
    var m := Applied(msg, r, seed);
    hide WordSum, Diff, Replace;
    WordSumField(m);
    GetSet16(r.n + msg[r.cut..], 2, Replace(Get16(msg, 2), Diff(Set16(msg[..r.cut], 2, 0), r.n, seed)));
  }

  const ZEROS: Bytes := [0, 0, 0, 0, 0, 0, 0, 0]
  const ZERO_REPLY: Bytes := [129, 0, 0x7e, 0xbd, 0, 0, 0, 0]

  lemma {:induction false} ZeroReplyVerifies(none: Bytes)
    requires |none| == 16 && forall i :: 0 <= i < 16 ==> none[i] == 0
    ensures L4Checksum(Pseudo6(none, none, ICMPV6, 8), ZERO_REPLY) == 0 && L4Checksum(0, ZEROS) == ONES
  {
    NothingIff(none);
    NothingIff(ZEROS);
    FoldIs(0);
    var head, rest: Bytes := [129, 0, 0x7e, 0xbd], [0, 0, 0, 0];
    assert head + rest == ZERO_REPLY;
    WordSumConcat(head, rest);
    NothingIff(rest);
    assert WordSum(head) == 0xffbd by { assert head[2..] == [0x7e, 0xbd] && head[2..][2..] == []; }
    VerifiesIff(66, ZERO_REPLY);
  }

  /** Such an echo reply, its checksum right, gets a checksum of 0 in IPv4, where 0xffff is due. */
  lemma {:induction false} ZerosFail(none: Bytes, a4: Bytes -> Option<Bytes>)
    requires forall a :: a4(a).Some? ==> |a4(a).value| == 4
    requires |none| == 16 && forall i :: 0 <= i < 16 ==> none[i] == 0
    ensures L4Checksum(Pseudo6(none, none, ICMPV6, 8), ZERO_REPLY) == 0
    ensures Msg6to4(none, none, ZERO_REPLY, a4) == Some(ZEROS) && L4Checksum(0, ZEROS) == ONES
  {
    hide L4Checksum, WordSum, Applied, Rewrite6to4;
    ZeroReplyVerifies(none);
    Msg6to4Moves(none, none, ZERO_REPLY, a4);
    ZeroReplyRewritten(a4);
    var r := Rewrite(8, ZEROS);
    var seed: int := 0 - (WordSum(none + none + Put32(8) + Put32(ICMPV6)) as int);
    var m := Applied(ZERO_REPLY, r, seed);
    BlankIff(ZERO_REPLY, a4, seed);
    BlankField(ZERO_REPLY, r, seed);
    NothingIff(m);
    assert m == ZEROS;
  }

  lemma ZeroReplyRewritten(a4: Bytes -> Option<Bytes>)
    requires forall a :: a4(a).Some? ==> |a4(a).value| == 4
    ensures Rewrite6to4(ZERO_REPLY, a4) == Some(Rewrite(8, ZEROS))
  {
    hide RewriteQuote6to4;
    var h: Bytes := [129, 0, 0, 0] + ZERO_REPLY[4..8];
    assert h[0 := 0] == ZEROS;
  }

  /** And the other way, as long as the message still fits an IPv6 length. */
  lemma {:induction false} Msg4to6Moves(src: Bytes, dst: Bytes, msg: Bytes, a6: Bytes -> Option<Bytes>)
    requires |src| == |dst| == 16
    requires forall a :: a6(a).Some? ==> |a6(a).value| == 16
    requires L4Checksum(0, msg) == 0
    ensures var m := Msg4to6(src, dst, msg, a6);
            m.Some? && |m.value| <= 0xffff ==>
              var pseudo := Pseudo6(src, dst, ICMPV6, |m.value|);
              && |m.value| >= 8
              && Get16(m.value, 2) % ONES == L4Checksum(pseudo, Set16(m.value, 2, 0)) % ONES
              && L4Checksum(pseudo, m.value) == 0
  {
    hide Rewrite4to6, Applied, L4Checksum, WordSum;
    var r := Rewrite4to6(msg, a6);
    if r.Some? { AppliedTo6(src, dst, msg, r.value); }
  }

  lemma {:induction false} AppliedTo6(src: Bytes, dst: Bytes, msg: Bytes, r: Rewrite)
    requires |src| == |dst| == 16 && Fits(r, msg) && L4Checksum(0, msg) == 0
    ensures var len := |msg| - r.cut + |r.n|;
            var m := Applied(msg, r, WordSum(src + dst + Put32(len % 0x1_0000) + Put32(ICMPV6)));
            len <= 0xffff ==>
              var pseudo := Pseudo6(src, dst, ICMPV6, |m|);
              && Get16(m, 2) % ONES == L4Checksum(pseudo, Set16(m, 2, 0)) % ONES
              && L4Checksum(pseudo, m) == 0
  {
    hide Applied, L4Checksum, WordSum, Pseudo6;
    var len := |msg| - r.cut + |r.n|;
    if len <= 0xffff {
      PseudoPositive(src, dst, len);
      PseudoBytes(src, dst, len);
      AppliedMoves(0, msg, r, Pseudo6(src, dst, ICMPV6, len));
    }
  }

  lemma PseudoPositive(src: Bytes, dst: Bytes, len: nat)
    ensures Pseudo6(src, dst, ICMPV6, len) > 0
  {
  }

  // ---- A quote there and back

  /** Where Enc6 puts what Quote6 reads. */
  lemma {:induction false} QuoteReads(icmp: Bytes, h: Ip6, src: Bytes, dst: Bytes, l4: Bytes, tail: Bytes)
    requires |icmp| == 8 && |src| == |dst| == 16 && |l4| == 8
    requires h.len + 8 <= 0xffff && (h.frag.None? ==> h.next != FRAGMENT)
    requires h.frag.Some? ==> h.frag.value.off < 0x2000 && h.frag.value.id < 0x1_0000_0000
    ensures Quote6(icmp + Enc6(h, src, dst) + l4 + tail)
              == Some(Quoted(h, src, dst, l4, if h.frag.Some? then 64 else 56))
  {
    var e, m := Enc6(h, src, dst), icmp + Enc6(h, src, dst) + l4 + tail;
    Layout6(h, src, dst);
    assert forall i :: 0 <= i < |e| ==> m[8 + i] == e[i];
    assert m[16..32] == e[8..24] && m[32..48] == e[24..40];
    if h.frag.Some? {
      assert m[56..64] == l4;
    } else {
      assert m[48..56] == l4;
    }
  }

  lemma {:induction false} Layout6(h: Ip6, src: Bytes, dst: Bytes)
    requires |src| == |dst| == 16 && h.len + 8 <= 0xffff
    requires h.frag.Some? ==> h.frag.value.off < 0x2000 && h.frag.value.id < 0x1_0000_0000
    ensures var e := Enc6(h, src, dst);
            && e[0] / 16 == 6 && e[0] % 16 * 16 + e[1] / 16 == h.tc
            && Get16(e, 4) == h.len + (if h.frag.Some? then 8 else 0)
            && e[6] == (if h.frag.Some? then FRAGMENT else h.next) && e[7] == h.hop
            && e[8..24] == src && e[24..40] == dst
            && (h.frag.Some? ==>
                  && e[40] == h.next && Get32(e, 44) == h.frag.value.id
                  && Get16(e, 42) / 8 == h.frag.value.off && (Get16(e, 42) % 2 == 1 <==> h.frag.value.more))
  {
    var e := Enc6(h, src, dst);
    var len := h.len + if h.frag.Some? then 8 else 0;
    hide Put16, Put32, Get16, Get32;
    assert e[4..6] == Put16(len);
    Read16(e, 4, len);
    assert e[8..24] == src && e[24..40] == dst;
    if h.frag.Some? { FragLayout(h, src, dst); }
  }

  lemma {:induction false} FragLayout(h: Ip6, src: Bytes, dst: Bytes)
    requires |src| == |dst| == 16
    requires h.frag.Some? && h.frag.value.off < 0x2000 && h.frag.value.id < 0x1_0000_0000
    ensures var e, f := Enc6(h, src, dst), h.frag.value;
            && e[40] == h.next && Get32(e, 44) == f.id
            && Get16(e, 42) / 8 == f.off && (Get16(e, 42) % 2 == 1 <==> f.more)
  {
    var e, f := Enc6(h, src, dst), h.frag.value;
    FragSlices(h, src, dst);
    hide Enc6, Put16, Put32, Get16, Get32;
    FragField(f.off, f.more, f.id);
    GetSlices(e, 42, 44);
  }

  lemma FragField(off: nat, more: bool, id: nat)
    requires off < 0x2000 && id < 0x1_0000_0000
    ensures var fo := Get16(Put16(off * 8 + if more then 1 else 0), 0); fo / 8 == off && (fo % 2 == 1 <==> more)
    ensures Get32(Put32(id), 0) == id
  {
    hide Put16, Put32, Get16, Get32;
    var fo := off * 8 + if more then 1 else 0;
    Small(fo, id);
    PutGet16(fo);
    PutGet32(id);
    Eighth(off, more);
  }

  lemma Small(x: nat, y: nat)
    requires x < 0x1_0000 && y < 0x1_0000_0000
    ensures x % 0x1_0000 == x && y % 0x1_0000_0000 == y
  {
  }

  lemma Eighth(off: nat, more: bool)
    ensures var fo := off * 8 + if more then 1 else 0; fo / 8 == off && (fo % 2 == 1 <==> more)
  {
  }

  lemma FragSlices(h: Ip6, src: Bytes, dst: Bytes)
    requires |src| == |dst| == 16 && h.frag.Some?
    ensures var e, f := Enc6(h, src, dst), h.frag.value;
            |e| == 48 && e[40] == h.next && e[44..48] == Put32(f.id)
            && e[42..44] == Put16(f.off * 8 + if f.more then 1 else 0)
  {
    hide Put16, Put32;
  }

  lemma GetSlices(b: Bytes, i: nat, j: nat)
    requires i + 2 <= |b| && j + 4 <= |b|
    ensures Get16(b, i) == Get16(b[i..i + 2], 0) && Get32(b, j) == Get32(b[j..j + 4], 0)
  {
  }

  /** An error on its way to an IPv6 host and back quotes the same packet: the fields of its header as
      HeadFrom4AndBack keeps them, its addresses, source for source, and the bytes after it, but for an
      ICMP type that happens to be an echo's in ICMPv6. icmp and icmp' are whatever ICMP header it has
      by then, and tail is what it quotes beyond. */
  lemma {:induction false} QuoteThereAndBack(icmp: Bytes, icmp': Bytes, msg: Bytes, tail: Bytes,
                                             a6: Bytes -> Option<Bytes>, a4: Bytes -> Option<Bytes>)
    requires |icmp| == |icmp'| == 8 && icmp[2] == icmp[3] == icmp'[2] == icmp'[3] == 0 && |msg| >= 36
    requires forall a :: a4(a).Some? ==> |a4(a).value| == 4
    requires forall a :: a6(a).Some? ==> |a6(a).value| == 16 && (|a| == 4 ==> a4(a6(a).value) == Some(a))
    requires RewriteQuote4to6(icmp, msg, a6).Some?
    requires var ip := Dec4(msg[8..28]); 20 <= ip.tot <= 0xffff - 8 && (ip.proto == ICMP ==> msg[28] < 128)
    ensures RewriteQuote6to4(icmp', RewriteQuote4to6(icmp, msg, a6).value.n + tail, a4)
              == Some(Rewrite(|RewriteQuote4to6(icmp, msg, a6).value.n|,
                              icmp' + Enc4(Head6to4(Head4to6(Dec4(msg[8..28]))), msg[20..24], msg[24..28]) + msg[28..36]))
  {
    hide Quote6, Enc6, Enc4, Dec4, Head6to4;
    DecodedFits(msg[8..28]);
    var ip := Dec4(msg[8..28]);
    var h := Head4to6(ip);
    var s6, d6 := a6(msg[20..24]).value, a6(msg[24..28]).value;
    QuoteReads(icmp, h, s6, d6, L4To6(ip, msg[28..36]), tail);
    L4Back(ip, msg[28..36]);
  }

  /** The flags are the second and the third bit of the seventh byte, and the offset is what is left of it
      and the byte after. */
  lemma DecodedFits(b: Bytes)
    requires |b| == 20
    ensures var h := Dec4(b); h.proto == b[9] && h.off < 0x2000 && h.id <= 0xffff
    ensures var (h, k, m) := (Dec4(b), b[6] as nat, b[7] as nat);
            (h.df <==> k / 0x40 % 2 == 1) && (h.mf <==> k / 0x20 % 2 == 1) && h.off == k % 0x20 * 0x100 + m
  {
    var k, m := b[6] as nat, b[7] as nat;
    var q, o := k / 0x20, k % 0x20 * 0x100 + m;
    assert Get16(b, 6) == q * 0x2000 + o && o < 0x2000;
    assert Get16(b, 6) / 0x2000 == q;
  }

  lemma L4Back(ip: Ip4, l4: Bytes)
    requires |l4| == 8 && ip.tot >= 20 && Known4(ip.proto) && (ip.proto == ICMP ==> l4[0] < 128)
    ensures L4To4(Head4to6(ip), L4To6(ip, l4)) == l4
  {
    EchoTypes(l4);
  }

  lemma EchoTypes(l4: Bytes)
    requires |l4| == 8
    ensures l4[0] < 128 ==> Echo6to4(Echo4to6(l4)) == l4
  {
    assert Echo4to6(l4)[0 := l4[0]] == l4;
  }

  // ---- What an ICMP message says

  /** The fields of a header that a Parameter Problem can point to in either family. */
  datatype Field = Version | Traffic | Length | Protocol | Life | Source | Destination

  /** By the layout of the IPv4 header, */
  function Field4(p: nat): Option<Field> {
    if p == 0 then Some(Version) else if p == 1 then Some(Traffic) else if 2 <= p < 4 then Some(Length)
    else if p == 8 then Some(Life) else if p == 9 then Some(Protocol)
    else if 12 <= p < 16 then Some(Source) else if 16 <= p < 20 then Some(Destination) else None
  }

  /** and by that of the IPv6 header. */
  function Field6(p: nat): Option<Field> {
    if p == 0 then Some(Version) else if p == 1 then Some(Traffic) else if 4 <= p < 6 then Some(Length)
    else if p == 6 then Some(Protocol) else if p == 7 then Some(Life)
    else if 8 <= p < 24 then Some(Source) else if 24 <= p < 40 then Some(Destination) else None
  }

  /** A pointer is translated exactly when it is into a field that both headers have, and then to that field's
      first byte. */
  lemma PointersPoint(p: nat)
    ensures Pointer4to6(p).Some? <==> Field4(p).Some?
    ensures Pointer6to4(p).Some? <==> Field6(p).Some?
    ensures Pointer4to6(p).Some? ==>
              var q := Pointer4to6(p).value; Field6(q) == Field4(p) && (q > 0 ==> Field6(q - 1) != Field6(q))
    ensures Pointer6to4(p).Some? ==>
              var q := Pointer6to4(p).value; Field4(q) == Field6(p) && (q > 0 ==> Field4(q - 1) != Field4(q))
    ensures Pointer6to4(p).Some? ==> Pointer6to4(p).value < 20
    ensures Pointer4to6(p).Some? ==> Pointer4to6(p).value < 40
  {
  }

  /** What a message tells, whichever family it is of. */
  datatype Says =
    | Ping(code: Byte, rest: Bytes)
    | Pong(code: Byte, rest: Bytes)
    | NoRoute
    | Prohibited
    | NoPort
    | NoProtocol
    | TooBig(mtu: nat)
    | TooLate(code: Byte)
    | BadField(f: Field)

  /** In ICMP (RFC 792, RFC 1812), */
  function Says4(h: Bytes): Option<Says>
    requires |h| == 8
  {
    if h[0] == 8 then Some(Ping(h[1], h[4..8]))
    else if h[0] == 0 then Some(Pong(h[1], h[4..8]))
    else if h[0] == 11 then Some(TooLate(h[1]))
    else if h[0] == 12 && (h[1] == 0 || h[1] == 2) && Field4(h[4]).Some? then Some(BadField(Field4(h[4]).value))
    else if h[0] != 3 then None
    else if h[1] == 2 then Some(NoProtocol)
    else if h[1] == 3 then Some(NoPort)
    else if h[1] == 4 then Some(TooBig(Get16(h, 6)))
    else if h[1] in {9, 10, 13, 15} then Some(Prohibited)
    else if h[1] in {0, 1, 5, 6, 7, 8, 11, 12} then Some(NoRoute) else None
  }

  /** and in ICMPv6 (RFC 4443). */
  function Says6(h: Bytes): Option<Says>
    requires |h| == 8
  {
    if h[0] == 128 then Some(Ping(h[1], h[4..8]))
    else if h[0] == 129 then Some(Pong(h[1], h[4..8]))
    else if h[0] == 2 then Some(TooBig(Get32(h, 4)))
    else if h[0] == 3 then Some(TooLate(h[1]))
    else if h[0] == 4 && h[1] == 1 then Some(NoProtocol)
    else if h[0] == 4 && h[1] == 0 && Field6(Get32(h, 4)).Some? then Some(BadField(Field6(Get32(h, 4)).value))
    else if h[0] != 1 then None
    else if h[1] == 1 then Some(Prohibited)
    else if h[1] == 4 then Some(NoPort)
    else if h[1] in {0, 2, 3} then Some(NoRoute) else None
  }

  /** The same in the other family, where a packet is twenty bytes longer or shorter; IPv6 has no MTU below
      1280, and IPv4 none below 68 or beyond sixteen bits. */
  function Longer(s: Says): Says {
    if s.TooBig? && s.mtu < 1260 then TooBig(1280) else if s.TooBig? then TooBig(s.mtu + 20) else s
  }

  function Shorter(s: Says): Says {
    if s.TooBig? && s.mtu < 88 then TooBig(68)
    else if s.TooBig? && s.mtu > 65555 then TooBig(65535)
    else if s.TooBig? then TooBig(s.mtu - 20) else s
  }

  /** A message to IPv6 says there what it said, and is translated exactly when there is a way to say it. */
  lemma {:induction false} Icmp4to6Says(h: Bytes)
    requires |h| == 8 && h[2] == h[3] == 0
    ensures Icmp4to6(h).Some? <==> Says4(h).Some?
    ensures Icmp4to6(h).Some? ==>
              var to, s := Icmp4to6(h).value, Says4(h).value;
              && Says6(to.h) == Some(Longer(s)) && (to.quotes <==> !s.Ping? && !s.Pong?)
              // of the codes that say the same, the first
              && (s.NoRoute? ==> to.h[1] == 0)
  {
    hide Get16, Get32, Put16, Put32, Pointer4to6, Field4, Field6;
    PointersPoint(h[4]);
    var v := Get16(h, 6);
    var mtu := if v == 0 || v + 20 < 1280 then 1280 else v + 20;
    ReadBack(2, 0, mtu);
    if Pointer4to6(h[4]).Some? { ReadBack(4, 0, Pointer4to6(h[4]).value); }
  }

  /** And to IPv4. */
  lemma {:induction false} Icmp6to4Says(h: Bytes)
    requires |h| == 8 && h[2] == h[3] == 0
    ensures Icmp6to4(h).Some? <==> Says6(h).Some?
    ensures Icmp6to4(h).Some? ==>
              var to, s := Icmp6to4(h).value, Says6(h).value;
              && Says4(to.h) == Some(Shorter(s)) && (to.quotes <==> !s.Ping? && !s.Pong?)
              && (s.NoRoute? ==> to.h[1] == 1) && (s.Prohibited? ==> to.h[1] == 10)
  {
    hide Get16, Get32, Put16, Put32, Pointer6to4, Field4, Field6;
    var v := Get32(h, 4);
    PointersPoint(v);
    var floor := if v < 68 + 20 then 68 + 20 else v;
    var mtu := if floor - 20 > 0xffff then 0xffff else floor - 20;
    LowWord(3, 4, mtu);
    if Pointer6to4(v).Some? { TopByte(12, 0, Pointer6to4(v).value); }
  }

  lemma ReadBack(typ: Byte, code: Byte, v: nat)
    requires v < 0x1_0000_0000
    ensures Get32(Header8(typ, code, Put32(v)), 4) == v
  {
    hide Get32, Put32;
    PutGet32(v);
    GetAfter(Header8(typ, code, Put32(v)), Put32(v));
  }

  lemma LowWord(typ: Byte, code: Byte, v: nat)
    requires v < 0x1_0000
    ensures Get16(Header8(typ, code, Put32(v)), 6) == v
  {
    var b := Header8(typ, code, Put32(v));
    assert b[6..8] == Put16(v);
    Read16(b, 6, v);
  }

  lemma TopByte(typ: Byte, code: Byte, p: nat)
    requires p < 0x100
    ensures Header8(typ, code, Put32(p * 0x100_0000))[4] == p
  {
    assert p * 0x100_0000 / 0x1_0000 == p * 0x100;
  }

  /** The header of a message, its checksum left out. */
  function HeaderOf(msg: Bytes): (h: Bytes)
    requires |msg| >= 8
    ensures |h| == 8 && h[2] == h[3] == 0 && h[0] == msg[0] && h[1] == msg[1]
  {
    [msg[0], msg[1], 0, 0] + msg[4..8]
  }

  /** An ICMP message is translated if and only if what it says can be said in ICMPv6 and, if it is an error,
      it quotes a header without options, of a protocol that is known and with addresses that are mapped, and
      eight bytes after it. */
  lemma {:induction false} Rewrite4to6Iff(msg: Bytes, a6: Bytes -> Option<Bytes>)
    requires forall a :: a6(a).Some? ==> |a6(a).value| == 16
    ensures Rewrite4to6(msg, a6).Some? <==>
              && |msg| >= 8 && Says4(HeaderOf(msg)).Some?
              && (Says4(HeaderOf(msg)).value.Ping? || Says4(HeaderOf(msg)).value.Pong? ||
                  (|msg| >= 36 && msg[8] % 16 == 5 && msg[17] in {ICMP, TCP, UDP} && a6(msg[20..24]).Some? && a6(msg[24..28]).Some?))
    ensures Rewrite4to6(msg, a6).Some? ==>
              var r, s := Rewrite4to6(msg, a6).value, Says4(HeaderOf(msg)).value;
              && Says6(r.n[..8]) == Some(Longer(s))
              && (if s.Ping? || s.Pong? then r == Rewrite(8, r.n[..8])
                  else r.cut == 36 && exists h6: Ip6 ::
                         && SamePacket(Dec4(msg[8..28]).(tot := 20 + h6.len), h6) && (h6.len + 20 - Dec4(msg[8..28]).tot) % 0x1_0000 == 0
                         && r.n[8..] == Enc6(h6, a6(msg[20..24]).value, a6(msg[24..28]).value) + L4To6(Dec4(msg[8..28]), msg[28..36]))
  {
    hide Icmp4to6, Says4, Says6, Longer, Enc6, L4To6, SamePacket;
    if |msg| >= 8 {
      var h := HeaderOf(msg);
      Icmp4to6Says(h);
      if Rewrite4to6(msg, a6).Some? && !Icmp4to6(h).value.quotes {
        assert Icmp4to6(h).value.h[..8] == Icmp4to6(h).value.h;
      }
      if Rewrite4to6(msg, a6).Some? && Icmp4to6(h).value.quotes {
        var ip := Dec4(msg[8..28]);
        var h6 := Unchecked4to6(ip);
        QuoteSame(msg[8..28]);
        var r := Rewrite4to6(msg, a6).value;
        assert r.n[..8] == Icmp4to6(h).value.h;
        assert r.n[8..] == Enc6(h6, a6(msg[20..24]).value, a6(msg[24..28]).value) + L4To6(ip, msg[28..36]);
      }
    }
  }

  /** And the other way: an error quotes a header, the fragment header after it if there is one, and eight
      bytes. */
  lemma {:induction false} Rewrite6to4Iff(msg: Bytes, a4: Bytes -> Option<Bytes>)
    requires forall a :: a4(a).Some? ==> |a4(a).value| == 4
    ensures Rewrite6to4(msg, a4).Some? <==>
              && |msg| >= 8 && Says6(HeaderOf(msg)).Some?
              && (Says6(HeaderOf(msg)).value.Ping? || Says6(HeaderOf(msg)).value.Pong? ||
                  (Quotable6(msg) && a4(msg[16..32]).Some? && a4(msg[32..48]).Some?))
    ensures Rewrite6to4(msg, a4).Some? ==>
              var r, s := Rewrite6to4(msg, a4).value, Says6(HeaderOf(msg)).value;
              && Says4(r.n[..8]) == Some(Shorter(s))
              && (if s.Ping? || s.Pong? then r == Rewrite(8, r.n[..8])
                  else
                    var q := Quote6(msg).value;
                    && r.cut == (if msg[14] == FRAGMENT then 64 else 56) == q.size
                    && r.n[8..] == Enc4(Head6to4(q.ip), a4(msg[16..32]).value, a4(msg[32..48]).value) + L4To4(q.ip, q.l4))
  {
    hide Icmp6to4, Says4, Says6, Shorter, Enc4, L4To4, Head6to4;
    if |msg| >= 8 {
      var h := HeaderOf(msg);
      Icmp6to4Says(h);
      QuoteIff(msg);
      hide Quote6;
      if Rewrite6to4(msg, a4).Some? {
        var r := Rewrite6to4(msg, a4).value;
        assert r.n[..8] == Icmp6to4(h).value.h;
        if Icmp6to4(h).value.quotes {
          var q := Quote6(msg).value;
          assert r.n[8..] == Enc4(Head6to4(q.ip), a4(msg[16..32]).value, a4(msg[32..48]).value) + L4To4(q.ip, q.l4);
        }
      }
    }
  }

  /** There is enough of the packet quoted, and it is of a protocol that is known. */
  predicate Quotable6(msg: Bytes) {
    if |msg| >= 56 && msg[14] != FRAGMENT then msg[14] in {TCP, UDP, ICMPV6}
    else |msg| >= 64 && Get16(msg, 12) >= 8 && msg[48] in {TCP, UDP, ICMPV6}
  }

  lemma {:induction false} QuoteIff(msg: Bytes)
    requires |msg| >= 8
    ensures Quotable6(msg) <==> Quote6(msg).Some? && Known6(Quote6(msg).value.ip.next)
    ensures Quote6(msg).Some? ==>
              var q := Quote6(msg).value;
              && q.src == msg[16..32] && q.dst == msg[32..48] && q.size == (if msg[14] == FRAGMENT then 64 else 56)
              && q.l4 == msg[q.size - 8..q.size] && (q.ip.frag.Some? <==> msg[14] == FRAGMENT)
              && q.ip.len + (if msg[14] == FRAGMENT then 8 else 0) == Get16(msg, 12)
              && q.ip.hop == msg[15] && q.ip.tc == msg[8] % 16 * 16 + msg[9] / 16
  {
    hide Get16, Get32;
  }

  lemma QuoteSame(b: Bytes)
    requires |b| == 20 && b[9] != ICMPV6
    ensures var ip, h6 := Dec4(b), Unchecked4to6(Dec4(b));
            SamePacket(ip.(tot := 20 + h6.len), h6) && (h6.len + 20 - ip.tot) % 0x1_0000 == 0
  {
  }

  /** So an error comes back from IPv6 as it was, a code in a class of several as the class's own, and an MTU
      that both families have. */
  lemma {:induction false} IcmpThereAndBack(h: Bytes)
    requires |h| == 8 && h[2] == h[3] == 0 && Icmp4to6(h).Some?
    ensures var back, s := Icmp6to4(Icmp4to6(h).value.h), Says4(h).value;
            && back.Some? && back.value.h[0] == h[0] && back.value.quotes == Icmp4to6(h).value.quotes
            && Says4(back.value.h) == Some(if s.TooBig? && s.mtu < 1260 then TooBig(1260) else s)
            && (h[0] == 3 ==> back.value.h[1] == if h[1] in {9, 10, 13, 15} then 10 else if h[1] in {2, 3, 4} then h[1] else 1)
            && (h[0] == 11 ==> back.value.h[1] == h[1])
  {
    hide Icmp4to6, Icmp6to4, Says6, Field4;
    Icmp4to6Says(h);
    Icmp6to4Says(Icmp4to6(h).value.h);
  }

  /** What IPv4 is told a packet may be long never makes it too long for IPv6 again, nor less than IPv4 takes. */
  lemma TooBigFits(h: Bytes)
    requires |h| == 8 && h[2] == h[3] == 0 && h[0] == 2
    ensures Icmp6to4(h).Some?
    ensures var m, v := Get16(Icmp6to4(h).value.h, 6), Get32(h, 4);
            && 68 <= m <= 0xffff && m + 20 <= (if v < 88 then 88 else v)
            && (88 <= v <= 65555 ==> m + 20 == v)
  {
    hide Icmp6to4, Get16, Get32;
    Icmp6to4Says(h);
  }

  lemma GetAfter(b: Bytes, rest: Bytes)
    requires |b| == 8 && |rest| == 4 && b[4..] == rest
    ensures Get32(b, 4) == Get32(rest, 0)
  {
    assert forall i :: 0 <= i < 4 ==> b[4 + i] == b[4..][i];
  }
}
