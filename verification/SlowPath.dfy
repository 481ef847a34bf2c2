/** The slow path's own translation: a datagram whole, its checksum computed from nothing. */
module SlowPath {
  import opened Wire
  import opened Checksum
  import R = Refragment

  /** A header and the message after it, or neither. */
  datatype Translated = Refused | Datagram(h: Bytes, msg: Bytes)

  /** The IPv6 header for hdr's datagram, its length not yet there: the traffic class is the type of
      service, there is no flow, and the hop limit is the time to live. */
  predicate Head6(hdr: Bytes, proto: Byte, src: Bytes, dst: Bytes, h: Bytes)
    requires |hdr| == 20
  {
    && |h| == 40 && h[0] / 16 == 6 && h[0] % 16 * 16 + h[1] / 16 == hdr[1]
    && h[1] % 16 == h[2] == h[3] == 0 && Get16(h, 4) == 0
    && h[6] == proto && h[7] == hdr[8] && h[8..24] == src && h[24..40] == dst
  }

  predicate Head4(hdr: Bytes, src: Bytes, dst: Bytes, h: Bytes)
    requires |hdr| == 40
  {
    && |h| == 20 && h[0] == 0x45 && h[1] == hdr[0] % 16 * 16 + hdr[1] / 16
    && h[2..8] == [0, 0, 0, 0, 0, 0] && h[8] == hdr[7] && h[9] == ICMP && h[10..12] == [0, 0]
    && h[12..16] == src && h[16..20] == dst
  }

  /** msg is the payload with its type and its checksum exchanged, and verifies. */
  predicate Exchanged(payload: Bytes, typ: Byte, at: nat, pseudo: nat, msg: Bytes) {
    && at >= 2 && at + 2 <= |payload| == |msg| && msg[0] == typ
    && (forall i :: 1 <= i < |msg| && i != at && i != at + 1 ==> msg[i] == payload[i])
    && L4Checksum(pseudo, msg) == 0
  }

  predicate Echo4(proto: Byte, payload: Bytes) {
    proto == ICMP && |payload| >= 8 && (payload[0] == 8 || payload[0] == 0)
  }

  predicate Echo6(proto: Byte, payload: Bytes) {
    proto == ICMPV6 && |payload| >= 8 && (payload[0] == 128 || payload[0] == 129)
  }

  predicate Datagram4(proto: Byte, payload: Bytes) {
    proto == UDP && |payload| >= 8
  }

  /** to6: an echo, or UDP, which may come without a checksum and never leaves without one. src and
      dst are what the addresses map to. */
  method To6(hdr: Bytes, proto: Byte, payload: Bytes, src: Option<Bytes>, dst: Option<Bytes>) returns (t: Translated)
    requires |hdr| == 20 && |payload| <= ONES
    requires (src.Some? ==> |src.value| == 16) && (dst.Some? ==> |dst.value| == 16)
    ensures t.Datagram? <==> src.Some? && dst.Some? && (Echo4(proto, payload) || Datagram4(proto, payload))
    ensures t.Datagram? ==>
              var now := if proto == ICMP then ICMPV6 else proto;
              Head6(hdr, now, src.value, dst.value, t.h)
    ensures t.Datagram? && Echo4(proto, payload) ==>
              Exchanged(payload, if payload[0] == 8 then 128 else 129, 2,
                        Pseudo6(src.value, dst.value, ICMPV6, |payload|), t.msg)
    ensures t.Datagram? && proto == UDP ==>
              && Exchanged(payload, payload[0], 6, Pseudo6(src.value, dst.value, UDP, |payload|), t.msg)
              && Get16(t.msg, 6) != 0
  {
    hide L4Checksum, Pseudo6, Head6;
    if src.None? || dst.None? { return Refused; }
    var msg := payload;
    var now := proto;
    var csum := 6;
    if proto == ICMP && |msg| >= 8 && (msg[0] == 8 || msg[0] == 0) {
      msg := msg[0 := if msg[0] == 8 then 128 else 129];
      now, csum := ICMPV6, 2;
    } else if !(proto == UDP && |msg| >= 8) {
      return Refused;
    }
    msg := Set16(msg, csum, 0);
    var c := ComputeL4Checksum(Some((src.value, dst.value)), now, msg);
    var pseudo := Pseudo6(src.value, dst.value, now, |msg|);
    if c == 0 && now == UDP { c := ONES; }
    Stored(pseudo, msg, csum, c);
    msg := Set16(msg, csum, c);
    var h := [6 * 16 + hdr[1] / 16, hdr[1] % 16 * 16, 0, 0, 0, 0, now, hdr[8]] + src.value + dst.value;
    Built6(hdr, now, src.value, dst.value);
    t := Datagram(h, msg);
  }

  /** to4: an echo. */
  method To4(hdr: Bytes, proto: Byte, payload: Bytes, dst: Option<Bytes>, src: Option<Bytes>) returns (t: Translated)
    requires |hdr| == 40 && |payload| <= ONES
    requires (src.Some? ==> |src.value| == 4) && (dst.Some? ==> |dst.value| == 4)
    ensures t.Datagram? <==> src.Some? && dst.Some? && Echo6(proto, payload)
    ensures t.Datagram? ==>
              && Head4(hdr, src.value, dst.value, t.h)
              && Exchanged(payload, if payload[0] == 128 then 8 else 0, 2, 0, t.msg)
  {
    hide L4Checksum, Pseudo6, Head4;
    if proto != ICMPV6 || |payload| < 8 || (payload[0] != 128 && payload[0] != 129) { return Refused; }
    if dst.None? || src.None? { return Refused; }
    var msg := payload[0 := if payload[0] == 128 then 8 else 0];
    msg := Set16(msg, 2, 0);
    var c := ComputeL4Checksum(None, 0, msg);
    Stored(0, msg, 2, c);
    msg := Set16(msg, 2, c);
    var h := [0x45, hdr[0] % 16 * 16 + hdr[1] / 16, 0, 0, 0, 0, 0, 0, hdr[7], ICMP, 0, 0] + src.value + dst.value;
    Built4(hdr, src.value, dst.value);
    t := Datagram(h, msg);
  }

  lemma Built6(hdr: Bytes, proto: Byte, src: Bytes, dst: Bytes)
    requires |hdr| == 20 && |src| == |dst| == 16
    ensures var h := [6 * 16 + hdr[1] / 16, hdr[1] % 16 * 16, 0, 0, 0, 0, proto, hdr[8]] + src + dst;
            Head6(hdr, proto, src, dst, h)
  {
    var h := [6 * 16 + hdr[1] / 16, hdr[1] % 16 * 16, 0, 0, 0, 0, proto, hdr[8]] + src + dst;
    assert h[8..24] == src && h[24..40] == dst;
  }

  lemma Built4(hdr: Bytes, src: Bytes, dst: Bytes)
    requires |hdr| == 40 && |src| == |dst| == 4
    ensures var h := [0x45, hdr[0] % 16 * 16 + hdr[1] / 16, 0, 0, 0, 0, 0, 0, hdr[7], ICMP, 0, 0] + src + dst;
            Head4(hdr, src, dst, h)
  {
    var h := [0x45, hdr[0] % 16 * 16 + hdr[1] / 16, 0, 0, 0, 0, 0, 0, hdr[7], ICMP, 0, 0] + src + dst;
    assert h[12..16] == src && h[16..20] == dst;
    assert h[2..8] == [0, 0, 0, 0, 0, 0] && h[10..12] == [0, 0];
  }

  lemma {:induction false} Stored(pseudo: nat, msg: Bytes, at: nat, c: nat)
    requires at % 2 == 0 && at + 2 <= |msg| && Get16(msg, at) == 0
    requires c == L4Checksum(pseudo, msg) || (L4Checksum(pseudo, msg) == 0 && c == ONES)
    ensures c <= ONES && L4Checksum(pseudo, Set16(msg, at, c)) == 0 && Get16(Set16(msg, at, c), at) == c
  {
    StoredVerifies(pseudo, msg, at);
    VerifiesIff(pseudo, msg);
    var r := Set16(msg, at, c);
    assert r[at] as int * 256 + r[at + 1] as int == c by { assert c / 256 % 256 * 256 + c % 256 == c; }
  }

  /** Of two checksums under which the same words verify, one is the other, up to the two forms of zero. */
  lemma {:induction false} OneChecksum(pseudo: nat, a: Bytes, b: Bytes, at: nat)
    requires at % 2 == 0 && at + 2 <= |a| == |b| && forall i :: 0 <= i < |a| && i != at && i != at + 1 ==> a[i] == b[i]
    requires L4Checksum(pseudo, a) == 0 && L4Checksum(pseudo, b) == 0
    ensures Get16(a, at) % ONES == Get16(b, at) % ONES
  {
    var z := Set16(a, at, 0);
    assert z == Set16(b, at, 0);
    WordSumSet(a, at, 0);
    WordSumSet(b, at, 0);
    VerifiesIff(pseudo, a);
    VerifiesIff(pseudo, b);
    var s, x, y := pseudo + WordSum(z), Get16(a, at), Get16(b, at);
    ModDrop(x, 0);
    SameRest(s, x, y);
  }

  lemma SameRest(s: nat, x: nat, y: nat)
    requires (s + x) % ONES == 0 && (s + y) % ONES == 0
    ensures x % ONES == y % ONES
  {
    var i, j := (s + x) / ONES, (s + y) / ONES;
    assert x == y + ONES * (i - j);
    ModDrop(y, i - j);
  }

  /** An echo that verified, to IPv6 and back: the payload is what it was, its checksum up to the two
      forms of zero, and the header keeps its type of service and its time to live. */
  lemma {:induction false} EchoThereAndBack(hdr: Bytes, payload: Bytes, src6: Bytes, dst6: Bytes, h: Bytes, msg: Bytes,
                                            src4: Bytes, dst4: Bytes, h': Bytes, msg': Bytes)
    requires |hdr| == 20 && Echo4(ICMP, payload) && L4Checksum(0, payload) == 0
    // what To6 made of it, and To4 of that
    requires Head6(hdr, ICMPV6, src6, dst6, h)
    requires Exchanged(payload, if payload[0] == 8 then 128 else 129, 2, Pseudo6(src6, dst6, ICMPV6, |payload|), msg)
    requires Head4(h, src4, dst4, h')
    requires Exchanged(msg, if msg[0] == 128 then 8 else 0, 2, 0, msg')
    ensures h'[1] == hdr[1] && h'[8] == hdr[8]
    ensures |msg'| == |payload| && forall i :: 0 <= i < |msg'| && i != 2 && i != 3 ==> msg'[i] == payload[i]
    ensures Get16(msg', 2) % ONES == Get16(payload, 2) % ONES
  {
    hide L4Checksum;
    OneChecksum(0, msg', payload, 2);
  }

  /** A whole datagram on its way, as serve hands it on: what it becomes is sent, and nothing when it
      is refused. */
  method ForwardTo6(s: R.Sender, hdr: Bytes, proto: Byte, payload: Bytes, src: Option<Bytes>, dst: Option<Bytes>)
      returns (t: Translated, ok: bool)
    requires |hdr| == 20 && |payload| <= ONES && R.Chunk(s.mtu6, 48) > 0 && s.id < 0x1_0000_0000
    requires (src.Some? ==> |src.value| == 16) && (dst.Some? ==> |dst.value| == 16)
    modifies s
    ensures t.Refused? ==> s.sent == old(s.sent) && s.id == old(s.id) && !ok
    ensures t.Datagram? ==> |t.h| == 40 && 0 < |t.msg| <= ONES
    ensures t.Datagram? && 40 + |t.msg| > s.mtu6 ==> R.Sendable6(t.h, t.msg, s.mtu6, s.id)
    ensures t.Datagram? && ok ==>
              s.sent == old(s.sent) + if 40 + |t.msg| <= s.mtu6 then [Set16(t.h, 4, |t.msg|) + t.msg]
                                      else R.Packets6(t.h, t.msg, R.Chunk(s.mtu6, 48), s.id, 0)
  {
    hide R.Packets6, R.Chunk, L4Checksum, Pseudo6;
    t := To6(hdr, proto, payload, src, dst);
    ok := false;
    if t.Datagram? { ok := s.Send6(t.h, t.msg); }
  }

  method ForwardTo4(s: R.Sender, hdr: Bytes, proto: Byte, payload: Bytes, dst: Option<Bytes>, src: Option<Bytes>)
      returns (t: Translated, ok: bool)
    requires |hdr| == 40 && |payload| <= ONES && R.Chunk(s.mtu, 20) > 0
    requires (src.Some? ==> |src.value| == 4) && (dst.Some? ==> |dst.value| == 4)
    modifies s
    ensures t.Refused? ==> s.sent == old(s.sent) && s.id == old(s.id) && !ok
    ensures t.Datagram? ==> |t.h| == 20 && t.h[0] == 0x45 && 0 < |t.msg| <= ONES
    ensures t.Datagram? && ok ==> s.sent == old(s.sent) + R.Packets4(t.h, t.msg, R.Chunk(s.mtu, 20), s.id, 0)
  {
    hide R.Packets4, R.Chunk, L4Checksum;
    t := To4(hdr, proto, payload, dst, src);
    ok := false;
    if t.Datagram? { ok := s.Send4(t.h, t.msg); }
  }
}
