/** Cutting a datagram into fragments again where it is too large for the device, and what becomes of
the fragments where they are put together: exactly the datagram, once. */
module Refragment {
  import opened Arith
  import opened Wire
  import opened Checksum
  import opened Reassembly

  const MAX_MSG: nat := 0xffff

  // ---- Parsing a packet into a fragment

  datatype Parsed = Bad(why: string) | Of(p: Fragment)

  function Parse(pkt: Bytes): Parsed {
    if |pkt| >= 20 && pkt[0] / 16 == 4 then
      var tot := Get16(pkt, 2);
      if pkt[0] % 16 != 5 || tot < 20 || tot > |pkt| then Bad("malformed IPv4")
      else
        var fo := Get16(pkt, 6);
        Of(Piece(Key(pkt[12..16], pkt[16..20], Get16(pkt, 4), pkt[9]), pkt[..20],
                 fo % 0x2000 * 8, fo / 0x2000 % 2 == 1, pkt[20..tot]))
    else if |pkt| >= 40 && pkt[0] / 16 == 6 then
      var end := 40 + Get16(pkt, 4);
      if end > |pkt| then Bad("malformed IPv6")
      else
        var payload := pkt[40..end];
        if pkt[6] != FRAGMENT then
          Of(Piece(Key(pkt[8..24], pkt[24..40], 0, pkt[6]), pkt[..40], 0, false, payload))
        else if |payload| < 8 then Bad("malformed fragment header")
        else
          var fo := Get16(payload, 2);
          Of(Piece(Key(pkt[8..24], pkt[24..40], Get32(payload, 4), payload[0]), pkt[..40],
                   fo / 8 * 8, fo % 2 == 1, payload[8..]))
    else Bad("not IP")
  }

  // ---- Cutting

  /** The largest multiple of eight that fits behind headers of that many bytes. */
  function Chunk(mtu: nat, headers: nat): nat {
    if mtu < headers then 0 else (mtu - headers) / 8 * 8
  }

  function PartAt(msg: Bytes, c: nat, off: nat): (part: Bytes)
    requires off < |msg| && c > 0
    ensures 0 < |part| <= c && off + |part| <= |msg|
  {
    msg[off..if off + c < |msg| then off + c else |msg|]
  }

  /** The header of a part of len bytes at off, before its checksum. */
  function Unsummed4(h: Bytes, len: nat, more: bool, id: nat, off: nat): (b: Bytes)
    requires |h| == 20
    ensures |b| == 20
  {
    [h[0], h[1]] + Put16(20 + len) + Put16(id) + Put16(off / 8 + if more then 0x2000 else 0)
    + [h[8], h[9], 0, 0] + h[12..20]
  }

  function Head4(h: Bytes, len: nat, more: bool, id: nat, off: nat): (b: Bytes)
    requires |h| == 20
    ensures |b| == 20
  {
    var b := Unsummed4(h, len, more, id, off);
    Set16(b, 10, L4Checksum(0, b))
  }

  function Packet4(h: Bytes, msg: Bytes, c: nat, id: nat, off: nat): Bytes
    requires |h| == 20 && off < |msg| && c > 0
  {
    var part := PartAt(msg, c, off);
    Head4(h, |part|, off + |part| < |msg|, id, off) + part
  }

  /** send6's header, the fragment header that carries its protocol, and the part. */
  function Packet6(h: Bytes, msg: Bytes, c: nat, id: nat, off: nat): Bytes
    requires |h| == 40 && off < |msg| && c > 0
  {
    var part := PartAt(msg, c, off);
    Set16(h[6 := FRAGMENT], 4, 8 + |part|)
    + ([h[6], 0] + Put16(off + if off + |part| < |msg| then 1 else 0) + Put32(id)) + part
  }

  /** The packets of the fragments from off on. */
  function Packets4(h: Bytes, msg: Bytes, c: nat, id: nat, off: nat): seq<Bytes>
    requires |h| == 20 && c > 0
    decreases |msg| - off
  {
    if off >= |msg| then [] else [Packet4(h, msg, c, id, off)] + Packets4(h, msg, c, id, off + c)
  }

  function Packets6(h: Bytes, msg: Bytes, c: nat, id: nat, off: nat): seq<Bytes>
    requires |h| == 40 && c > 0
    decreases |msg| - off
  {
    if off >= |msg| then [] else [Packet6(h, msg, c, id, off)] + Packets6(h, msg, c, id, off + c)
  }

  lemma {:induction false} PacketsStep4(h: Bytes, msg: Bytes, c: nat, id: nat, off: nat)
    requires |h| == 20 && c > 0
    ensures Packets4(h, msg, c, id, off) ==
              if off >= |msg| then [] else [Packet4(h, msg, c, id, off)] + Packets4(h, msg, c, id, off + c)
  {
  }

  lemma {:induction false} PacketsStep6(h: Bytes, msg: Bytes, c: nat, id: nat, off: nat)
    requires |h| == 40 && c > 0
    ensures Packets6(h, msg, c, id, off) ==
              if off >= |msg| then [] else [Packet6(h, msg, c, id, off)] + Packets6(h, msg, c, id, off + c)
  {
  }

  /** Parts are as long as the device and the offsets' unit of eight bytes let them be, */
  lemma ChunkIs(mtu: nat, headers: nat)
    ensures Chunk(mtu, headers) % 8 == 0
    ensures mtu >= headers ==> headers + Chunk(mtu, headers) <= mtu < headers + Chunk(mtu, headers) + 8
  {
  }

  /** and so no packet is longer than the device takes. */
  lemma {:induction false} PacketsFit(h4: Bytes, h6: Bytes, msg: Bytes, mtu: nat, id: nat, off: nat)
    requires |h4| == 20 && |h6| == 40 && off < |msg|
    ensures mtu >= 20 && Chunk(mtu, 20) > 0 ==> |Packet4(h4, msg, Chunk(mtu, 20), id, off)| <= mtu
    ensures mtu >= 48 && Chunk(mtu, 48) > 0 ==> |Packet6(h6, msg, Chunk(mtu, 48), id, off)| <= mtu
  {
    ChunkIs(mtu, 20);
    ChunkIs(mtu, 48);
  }

  /** The slow path's sending side. The device may refuse any packet, which ends the datagram. */
  class Sender {
    const mtu: nat
    const mtu6: nat
    var id: nat
    var sent: seq<Bytes>

    constructor (mtu: nat, mtu6: nat)
      ensures this.mtu == mtu && this.mtu6 == mtu6 && id == 0 && sent == []
    {
      this.mtu, this.mtu6, id, sent := mtu, mtu6, 0, [];
    }

    method Transmit(pkt: Bytes) returns (ok: bool)
      modifies this`sent
      ensures sent == if ok then old(sent) + [pkt] else old(sent)
    {
      ok := *;
      if ok { sent := sent + [pkt]; }
    }

    /** The header is written over for each fragment, and every fragment has the whole of it right. */
    method Send4(h0: Bytes, msg: Bytes) returns (ok: bool)
      requires |h0| == 20 && Chunk(mtu, 20) > 0
      modifies this
      ensures id == (old(id) + 1) % 0x1_0000_0000
      ensures sent <= old(sent) + Packets4(h0, msg, Chunk(mtu, 20), id, 0)
      ensures ok ==> sent == old(sent) + Packets4(h0, msg, Chunk(mtu, 20), id, 0)
    {
      hide Packets4, Head4, Chunk, PartAt;
      id := (id + 1) % 0x1_0000_0000;
      var c := Chunk(mtu, 20);
      var h := Set16(h0, 4, id);
      var off := 0;
      ghost var all := old(sent) + Packets4(h0, msg, c, id, 0);
      while off < |msg|
        invariant id == (old(id) + 1) % 0x1_0000_0000
        invariant HeaderOf(h0, h, id)
        invariant sent + Packets4(h0, msg, c, id, off) == all
      {
        var part := PartAt(msg, c, off);
        h := Stamp4(h0, h, |part|, off + |part| < |msg|, off);
        PacketsStep4(h0, msg, c, id, off);
        AppendOne(sent, h + part, Packets4(h0, msg, c, id, off + c));
        ok := Transmit(h + part);
        if !ok { return; }
        off := off + c;
      }
      PacketsStep4(h0, msg, c, id, off);
      ok := true;
    }

    /** The fields of the next fragment, written over those of the one before. */
    method Stamp4(ghost h0: Bytes, h: Bytes, len: nat, more: bool, off: nat) returns (r: Bytes)
      requires HeaderOf(h0, h, id)
      ensures r == Head4(h0, len, more, id, off) && HeaderOf(h0, r, id)
    {
      Rewritten4(h0, h, len, more, id, off);
      r := Set16(h, 2, 20 + len);
      r := Set16(r, 6, off / 8 + if more then 0x2000 else 0);
      r := Set16(r, 10, 0);
      r := Set16(r, 10, L4Checksum(0, r));
    }

    /** The header with the length of the part at off, and the packet of it. */
    method Part6(ghost h0: Bytes, h: Bytes, proto: Byte, msg: Bytes, c: nat, off: nat) returns (r: Bytes, pkt: Bytes)
      requires |h0| == 40 && proto == h0[6] && c > 0 && off < |msg| && Header6Of(h0, h)
      ensures pkt == Packet6(h0, msg, c, id, off) && Header6Of(h0, r)
    {
      hide PartAt, Put16, Put32, Packet6;
      var part := PartAt(msg, c, off);
      var fh := [proto, 0] + Put16(off + if off + |part| < |msg| then 1 else 0) + Put32(id);
      NextHeader6(h0, h, msg, c, id, off);
      r := Set16(h, 4, 8 + |part|);
      pkt := r + fh + part;
    }

    method Send6(h0: Bytes, msg: Bytes) returns (ok: bool)
      requires |h0| == 40 && Chunk(mtu6, 48) > 0
      modifies this
      ensures id == if 40 + |msg| <= mtu6 then old(id) else (old(id) + 1) % 0x1_0000_0000
      ensures var all := if 40 + |msg| <= mtu6 then [Set16(h0, 4, |msg|) + msg]
                         else Packets6(h0, msg, Chunk(mtu6, 48), id, 0);
              sent <= old(sent) + all && (ok ==> sent == old(sent) + all)
    {
      hide Packets6, Packet6, Chunk, PartAt, Set16, Put16, Put32, Header6Of;
      if 40 + |msg| <= mtu6 {
        ok := Transmit(Set16(h0, 4, |msg|) + msg);
        return;
      }
      id := (id + 1) % 0x1_0000_0000;
      var h := h0[6 := FRAGMENT];
      FirstHeader6(h0);
      var c := Chunk(mtu6, 48);
      var off := 0;
      ghost var all := old(sent) + Packets6(h0, msg, c, id, 0);
      while off < |msg|
        invariant id == (old(id) + 1) % 0x1_0000_0000
        invariant Header6Of(h0, h)
        invariant sent + Packets6(h0, msg, c, id, off) == all
      {
        var pkt;
        h, pkt := Part6(h0, h, h0[6], msg, c, off);
        PacketsStep6(h0, msg, c, id, off);
        AppendOne(sent, pkt, Packets6(h0, msg, c, id, off + c));
        ok := Transmit(pkt);
        if !ok { return; }
        off := off + c;
      }
      PacketsStep6(h0, msg, c, id, off);
      ok := true;
    }
  }

  /** h is send6's header, whatever length it was written for. */
  predicate Header6Of(h0: Bytes, h: Bytes)
    requires |h0| == 40
  {
    |h| == 40 && forall i :: 0 <= i < 40 && i != 4 && i != 5 ==> h[i] == h0[6 := FRAGMENT][i]
  }

  lemma NextHeader6(h0: Bytes, h: Bytes, msg: Bytes, c: nat, id: nat, off: nat)
    requires |h0| == 40 && off < |msg| && c > 0 && Header6Of(h0, h)
    ensures var part := PartAt(msg, c, off);
            var now := Set16(h, 4, 8 + |part|);
            var fh := [h0[6], 0] + Put16(off + if off + |part| < |msg| then 1 else 0) + Put32(id);
            now + fh + part == Packet6(h0, msg, c, id, off) && Header6Of(h0, now)
  {
    var len := 8 + |PartAt(msg, c, off)|;
    assert Set16(h, 4, len) == Set16(h0[6 := FRAGMENT], 4, len);
  }

  lemma FirstHeader6(h0: Bytes)
    requires |h0| == 40
    ensures Header6Of(h0, h0[6 := FRAGMENT])
  {
  }

  lemma AppendOne(sent: seq<Bytes>, pkt: Bytes, rest: seq<Bytes>)
    ensures sent + ([pkt] + rest) == (sent + [pkt]) + rest
  {
  }

  /** h is h0 but for the fields send4 writes, the identification already there. */
  predicate HeaderOf(h0: Bytes, h: Bytes, id: nat) {
    && |h0| == |h| == 20
    && h[0] == h0[0] && h[1] == h0[1] && h[8] == h0[8] && h[9] == h0[9] && h[12..] == h0[12..]
    && h[4] == Put16(id)[0] && h[5] == Put16(id)[1]
  }

  lemma {:induction false} Rewritten4(h0: Bytes, h: Bytes, len: nat, more: bool, id: nat, off: nat)
    requires HeaderOf(h0, h, id)
    ensures var b := Set16(Set16(Set16(h, 2, 20 + len), 6, off / 8 + if more then 0x2000 else 0), 10, 0);
            Set16(b, 10, L4Checksum(0, b)) == Head4(h0, len, more, id, off)
    ensures HeaderOf(h0, Head4(h0, len, more, id, off), id)
  {
    hide L4Checksum;
    Overwritten(h0, h, len, more, id, off);
    assert Head4(h0, len, more, id, off)[12..] == h0[12..20];
  }

  lemma Overwritten(h0: Bytes, h: Bytes, len: nat, more: bool, id: nat, off: nat)
    requires HeaderOf(h0, h, id)
    ensures Set16(Set16(Set16(h, 2, 20 + len), 6, off / 8 + if more then 0x2000 else 0), 10, 0)
              == Unsummed4(h0, len, more, id, off)
  {
    assert h[12..20] == h0[12..20];
    var b := Set16(Set16(Set16(h, 2, 20 + len), 6, off / 8 + if more then 0x2000 else 0), 10, 0);
    assert b[12..20] == h[12..20];
  }

  // ---- What a fragment is parsed as

  lemma {:induction false} Parse4(h: Bytes, msg: Bytes, c: nat, id: nat, off: nat)
    requires |h| == 20 && h[0] == 0x45 && 0 < c && off < |msg| <= MAX_MSG && off % 8 == 0
    requires 20 + |PartAt(msg, c, off)| <= 0xffff
    ensures var part := PartAt(msg, c, off);
            var more := off + |part| < |msg|;
            Parse(Packet4(h, msg, c, id, off))
              == Of(Piece(Key(h[12..16], h[16..20], id % 0x1_0000, h[9]), Head4(h, |part|, more, id, off), off, more, part))
  {
    hide Parse, PartAt, Head4;
    var part := PartAt(msg, c, off);
    var more := off + |part| < |msg|;
    Fields4(h, |part|, more, id, off);
    ParseHead4(Head4(h, |part|, more, id, off), part);
    OffsetField(off, more);
  }

  lemma OffsetField(off: nat, more: bool)
    requires off % 8 == 0 && off <= 0xffff
    ensures var fo := off / 8 + if more then 0x2000 else 0;
            fo <= 0xffff && fo % 0x2000 * 8 == off && (fo / 0x2000 % 2 == 1 <==> more)
  {
  }

  lemma {:induction false} ParseHead4(b: Bytes, part: Bytes)
    requires |b| == 20 && b[0] == 0x45 && Get16(b, 2) == 20 + |part|
    ensures var fo := Get16(b, 6);
            Parse(b + part) == Of(Piece(Key(b[12..16], b[16..20], Get16(b, 4), b[9]), b,
                                        fo % 0x2000 * 8, fo / 0x2000 % 2 == 1, part))
  {
    var pkt := b + part;
    assert pkt[..20] == b && pkt[20..20 + |part|] == part && pkt[12..16] == b[12..16] && pkt[16..20] == b[16..20];
    assert Get16(pkt, 2) == Get16(b, 2) && Get16(pkt, 4) == Get16(b, 4) && Get16(pkt, 6) == Get16(b, 6);
  }

  lemma {:induction false} Fields4(h: Bytes, len: nat, more: bool, id: nat, off: nat)
    requires |h| == 20 && 20 + len <= 0xffff && off <= 0xffff
    ensures var b := Head4(h, len, more, id, off);
            && b[0] == h[0] && b[9] == h[9] && b[12..16] == h[12..16] && b[16..20] == h[16..20]
            && Get16(b, 2) == 20 + len && Get16(b, 4) == id % 0x1_0000
            && Get16(b, 6) == off / 8 + if more then 0x2000 else 0
    // and the header verifies
    ensures L4Checksum(0, Head4(h, len, more, id, off)) == 0
  {
    hide L4Checksum, Unsummed4;
    var u := Unsummed4(h, len, more, id, off);
    UnsummedFields(h, len, more, id, off);
    StoredVerifies(0, u, 10);
    SummedKeeps(u, L4Checksum(0, u));
  }

  lemma SummedKeeps(u: Bytes, sum: nat)
    requires |u| == 20
    ensures var b := Set16(u, 10, sum);
            && b[0] == u[0] && b[9] == u[9] && b[12..16] == u[12..16] && b[16..20] == u[16..20]
            && Get16(b, 2) == Get16(u, 2) && Get16(b, 4) == Get16(u, 4) && Get16(b, 6) == Get16(u, 6)
  {
  }

  lemma {:induction false} UnsummedFields(h: Bytes, len: nat, more: bool, id: nat, off: nat)
    requires |h| == 20 && 20 + len <= 0xffff && off <= 0xffff
    ensures var u := Unsummed4(h, len, more, id, off);
            && u[0] == h[0] && u[9] == h[9] && u[12..16] == h[12..16] && u[16..20] == h[16..20]
            && Get16(u, 2) == 20 + len && Get16(u, 4) == id % 0x1_0000
            && Get16(u, 6) == off / 8 + (if more then 0x2000 else 0)
            && Get16(u, 10) == 0
  {
    var fo := off / 8 + if more then 0x2000 else 0;
    var u := Unsummed4(h, len, more, id, off);
    hide Put16;
    assert u[2..4] == Put16(20 + len) && u[4..6] == Put16(id) && u[6..8] == Put16(fo);
    assert Get16(u, 10) == 0;
    hide Get16;
    Read16(u, 2, 20 + len);
    Pair16(u, 4, Put16(id));
    PutGet16(id);
    Read16(u, 6, fo);
    assert u[12..] == h[12..20];
    assert u[12..16] == u[12..][..4] && u[16..20] == u[12..][4..];
  }

  lemma {:induction false} Parse6(h: Bytes, msg: Bytes, c: nat, id: nat, off: nat)
    requires |h| == 40 && h[0] / 16 == 6 && 0 < c && off < |msg| <= MAX_MSG && off % 8 == 0 && id < 0x1_0000_0000
    requires 8 + |PartAt(msg, c, off)| <= 0xffff
    ensures var part := PartAt(msg, c, off);
            var more := off + |part| < |msg|;
            var p := Parse(Packet6(h, msg, c, id, off));
            && p.Of?
            && p.p == Piece(Key(h[8..24], h[24..40], id, h[6]), Set16(h[6 := FRAGMENT], 4, 8 + |part|), off, more, part)
            && Restored(p.p) == Set16(h, 4, 8 + |part|)
  {
    hide Parse, PartAt, Get16, Get32, Put16, Put32;
    var part := PartAt(msg, c, off);
    var fo := off + if off + |part| < |msg| then 1 else 0;
    var payload := [h[6], 0] + Put16(fo) + Put32(id) + part;
    Header6(h, 8 + |part|);
    assert Packet6(h, msg, c, id, off) == Set16(h[6 := FRAGMENT], 4, 8 + |part|) + payload;
    Fields6(h[6], fo, id, part);
    ParseFrag6(Set16(h[6 := FRAGMENT], 4, 8 + |part|), payload);
    hide Set16, Packet6;
    OffsetBit(off, off + |part| < |msg|);
  }

  lemma OffsetBit(off: nat, more: bool)
    requires off % 8 == 0
    ensures var fo := off + if more then 1 else 0; fo / 8 * 8 == off && (fo % 2 == 1 <==> more)
  {
  }

  /** The header of a fragment differs from the datagram's in its protocol alone. */
  lemma {:induction false} Header6(h: Bytes, len: nat)
    requires |h| == 40 && len <= 0xffff
    ensures var b := Set16(h[6 := FRAGMENT], 4, len);
            && b[0] == h[0] && b[6] == FRAGMENT && b[8..24] == h[8..24] && b[24..40] == h[24..40]
            && Get16(b, 4) == len && b[6 := h[6]] == Set16(h, 4, len)
  {
    assert len / 256 % 256 * 256 + len % 256 == len;
  }

  lemma {:induction false} ParseFrag6(b: Bytes, payload: Bytes)
    requires |b| == 40 && b[0] / 16 == 6 && b[6] == FRAGMENT && Get16(b, 4) == |payload| && |payload| >= 8
    ensures var fo := Get16(payload, 2);
            Parse(b + payload) == Of(Piece(Key(b[8..24], b[24..40], Get32(payload, 4), payload[0]), b,
                                           fo / 8 * 8, fo % 2 == 1, payload[8..]))
  {
    var pkt := b + payload;
    assert pkt[..40] == b && pkt[40..40 + |payload|] == payload && pkt[8..24] == b[8..24] && pkt[24..40] == b[24..40];
    assert Get16(pkt, 4) == Get16(b, 4);
  }

  lemma Fields6(proto: Byte, fo: nat, id: nat, part: Bytes)
    requires fo <= 0xffff && id < 0x1_0000_0000
    ensures var payload := [proto, 0] + Put16(fo) + Put32(id) + part;
            |payload| == 8 + |part| && payload[0] == proto && payload[8..] == part
            && Get16(payload, 2) == fo && Get32(payload, 4) == id
  {
    var payload := [proto, 0] + Put16(fo) + Put32(id) + part;
    PutGet16(fo);
    PutGet32(id);
    assert Get16(payload, 2) == Get16(Put16(fo), 0) && Get32(payload, 4) == Get32(Put32(id), 0);
  }

  // ---- Put together again

  /** The offsets a message is cut at. */
  function Cuts(msg: Bytes, c: nat, from: nat): set<nat>
    requires c > 0
  {
    set o: nat | o < |msg| && from <= o && o % c == 0
  }

  function PartsAt(msg: Bytes, c: nat, seen: set<nat>): map<nat, Bytes>
    requires c > 0 && forall o :: o in seen ==> o < |msg|
  {
    map o | o in seen :: PartAt(msg, c, o)
  }

  /** The cuts from p on are p and those from the next on. */
  lemma CutsFrom(msg: Bytes, c: nat, p: nat)
    requires c > 0 && p < |msg| && p % c == 0
    ensures var next := if p + c < |msg| then p + c else |msg|;
            && Cuts(msg, c, p) == Cuts(msg, c, next) + {p} && p !in Cuts(msg, c, next)
            && (next % c == 0 || next == |msg|)
  {
    NextMultiple(c, p, p);
    var next := if p + c < |msg| then p + c else |msg|;
    forall q | q in Cuts(msg, c, p) && q != p ensures q in Cuts(msg, c, next) {
      NextMultiple(c, p, q);
    }
  }

  /** One step of Join: it goes on exactly when a part begins where it stands, no part before that. */
  lemma {:induction false} JoinStep(parts: map<nat, Bytes>, head: Bytes)
    requires parts != map[] && forall o :: o in parts ==> |head| <= o
    ensures Join(parts, head) == if |head| in parts then Join(parts - {|head|}, head + parts[|head|]) else None
  {
    var o: nat := Least(parts.Keys);
  }

  lemma {:induction false} JoinNone(head: Bytes)
    ensures Join(map[], head) == Some(head)
  {
  }

  lemma SeenRest(msg: Bytes, c: nat, p: nat, seen: set<nat>)
    requires c > 0 && p < |msg| && p % c == 0 && seen <= Cuts(msg, c, p) && p in seen
    ensures var next := if p + c < |msg| then p + c else |msg|;
            && seen - {p} <= Cuts(msg, c, next) && (seen == Cuts(msg, c, p) <==> seen - {p} == Cuts(msg, c, next))
            && PartsAt(msg, c, seen - {p}) == PartsAt(msg, c, seen) - {p}
  {
    CutsFrom(msg, c, p);
    assert seen == (seen - {p}) + {p};
  }

  /** The parts from p on join up to the message when all of them are there, and not while one is
      missing before the last. */
  lemma {:induction false} JoinCuts(msg: Bytes, c: nat, p: nat, seen: set<nat>, last: nat)
    requires c > 0 && p <= |msg| && (p % c == 0 || p == |msg|) && seen <= Cuts(msg, c, p)
    requires p < |msg| ==> last in seen && last + c >= |msg|
    ensures Join(PartsAt(msg, c, seen), msg[..p]) == if seen == Cuts(msg, c, p) then Some(msg) else None
    decreases |msg| - p
  {
    hide Join;
    var parts := PartsAt(msg, c, seen);
    if p == |msg| {
      JoinNone(msg);
      assert seen == {} && parts == map[] && msg[..p] == msg;
    } else {
      assert last in parts;
      JoinStep(parts, msg[..p]);
      if p in seen {
        var next := if p + c < |msg| then p + c else |msg|;
        SeenRest(msg, c, p, seen);
        CutsFrom(msg, c, p);
        assert msg[..p] + PartAt(msg, c, p) == msg[..next];
        JoinCuts(msg, c, next, seen - {p}, last);
      } else {
        assert p in Cuts(msg, c, p);
      }
    }
  }

  /** A datagram on its way in fragments: the key they share, the message, the size of the cuts, and
      the header it has again in the end. */
  datatype Datagram = Datagram(key: Key, msg: Bytes, c: nat, first: Bytes)

  predicate Cuttable(d: Datagram) {
    d.c > 0 && d.c % 8 == 0 && 0 < |d.msg| <= MAX_MSG
  }

  /** p is the fragment of d at its offset. */
  predicate IsCut(d: Datagram, p: Fragment)
    requires d.c > 0
  {
    && p.key == d.key && p.off in Cuts(d.msg, d.c, 0) && p.data == PartAt(d.msg, d.c, p.off)
    && (p.more <==> p.off + |p.data| < |d.msg|)
    && (p.off == 0 ==> Restored(p) == d.first)
  }

  ghost predicate HasLast(d: Datagram, seen: set<nat>) {
    exists o :: o in seen && o + d.c >= |d.msg|
  }

  /** The group that holds the fragments at the offsets seen. */
  ghost function GroupFor(d: Datagram, seen: set<nat>, expires: int): Group
    requires d.c > 0 && seen <= Cuts(d.msg, d.c, 0)
  {
    Group(if 0 in seen then Some(d.first) else None, PartsAt(d.msg, d.c, seen),
          if HasLast(d, seen) then |d.msg| else -1, expires)
  }

  lemma {:induction false} CutsApart(d: Datagram, seen: set<nat>, p: Fragment)
    requires Cuttable(d) && IsCut(d, p) && seen <= Cuts(d.msg, d.c, 0) && p.off !in seen
    ensures !Overlaps(PartsAt(d.msg, d.c, seen), p.off, p.data)
  {
    forall o | o in seen ensures Apart(o, PartAt(d.msg, d.c, o), p.off, p.data) {
      NextMultiple(d.c, o, p.off);
      NextMultiple(d.c, p.off, o);
    }
  }

  lemma {:induction false} LastCome(d: Datagram, seen: set<nat>, p: Fragment)
    requires Cuttable(d) && IsCut(d, p)
    ensures HasLast(d, seen + {p.off}) <==> HasLast(d, seen) || !p.more
  {
    if HasLast(d, seen) {
      var o :| o in seen && o + d.c >= |d.msg|;
      assert o in seen + {p.off};
    }
    assert p.off in seen + {p.off};
  }

  lemma {:induction false} NextPart(d: Datagram, live: Table, now: int, p: Fragment, seen: set<nat>, expires: int)
    requires Cuttable(d) && IsCut(d, p) && seen <= Cuts(d.msg, d.c, 0) && p.off !in seen
    requires if seen == {} then d.key !in live && |live| < SLOW_GROUPS && expires == now + SLOW_TIMEOUT
             else d.key in live && live[d.key] == GroupFor(d, seen, expires)
    ensures Refusal(live, now, p).None? && Grown(live, now, p) == GroupFor(d, seen + {p.off}, expires)
  {
    NextNoted(d, live, now, p, seen, expires);
    CutsApart(d, seen, p);
    CutFits(d, p, GroupFor(d, seen + {p.off}, expires).total);
    PartsGrow(d, seen, p);
    hide Overlaps, Cuts, PartAt, PartsAt, Noted, HasLast, Malformed, Restored, IsCut, Cuttable;
  }

  lemma {:induction false} CutFits(d: Datagram, p: Fragment, total: int)
    requires Cuttable(d) && IsCut(d, p) && (total == -1 || total == |d.msg|)
    ensures forall g: Group :: g.total == total ==> !Malformed(g, p)
  {
  }

  lemma {:induction false} PartsGrow(d: Datagram, seen: set<nat>, p: Fragment)
    requires Cuttable(d) && IsCut(d, p) && seen <= Cuts(d.msg, d.c, 0)
    ensures PartsAt(d.msg, d.c, seen)[p.off := p.data] == PartsAt(d.msg, d.c, seen + {p.off})
  {
  }

  lemma {:induction false} NextNoted(d: Datagram, live: Table, now: int, p: Fragment, seen: set<nat>, expires: int)
    requires Cuttable(d) && IsCut(d, p) && seen <= Cuts(d.msg, d.c, 0)
    requires if seen == {} then d.key !in live && expires == now + SLOW_TIMEOUT
             else d.key in live && live[d.key] == GroupFor(d, seen, expires)
    ensures Noted(live, now, p) == GroupFor(d, seen + {p.off}, expires).(parts := PartsAt(d.msg, d.c, seen))
  {
    LastCome(d, seen, p);
    assert seen == {} ==> Open(now) == GroupFor(d, seen, expires);
  }

  lemma {:induction false} WholeFor(d: Datagram, seen: set<nat>, expires: int)
    requires Cuttable(d) && seen <= Cuts(d.msg, d.c, 0)
    ensures Whole(GroupFor(d, seen, expires)) == if seen == Cuts(d.msg, d.c, 0) then Some(d.msg) else None
  {
    LastCut(d);
    assert 0 in Cuts(d.msg, d.c, 0);
    if HasLast(d, seen) && 0 in seen {
      var last :| last in seen && last + d.c >= |d.msg|;
      JoinCuts(d.msg, d.c, 0, seen, last);
      assert d.msg[..0] == [];
    }
  }

  lemma LastCut(d: Datagram)
    requires Cuttable(d)
    ensures HasLast(d, Cuts(d.msg, d.c, 0))
  {
    var last := d.c * ((|d.msg| - 1) / d.c);
    LastMultiple(d.c, |d.msg| - 1);
    assert last in Cuts(d.msg, d.c, 0) && last + d.c >= |d.msg|;
  }

  function Seen(d: Datagram, arrivals: seq<Arrival>): set<nat> {
    set i | 0 <= i < |arrivals| && arrivals[i].p.key == d.key :: arrivals[i].p.off
  }

  /** Nothing of d has come before the i-th arrival, which is of d. */
  predicate Begins(d: Datagram, arrivals: seq<Arrival>, i: nat)
    requires i < |arrivals|
  {
    arrivals[i].p.key == d.key && forall j :: 0 <= j < i ==> arrivals[j].p.key != d.key
  }

  /** When the first fragment of d comes, the table is not full of datagrams that are still waited for. */
  ghost predicate Room(d: Datagram, t: Table, arrivals: seq<Arrival>) {
    forall i :: 0 <= i < |arrivals| && Begins(d, arrivals, i) ==>
      |Purged(After(t, arrivals[..i]), arrivals[i].now)| < SLOW_GROUPS
  }

  /** No two arrivals of d are further apart than a group lives. */
  predicate Prompt(d: Datagram, arrivals: seq<Arrival>) {
    forall i, j :: 0 <= i < j < |arrivals| && arrivals[i].p.key == d.key && arrivals[j].p.key == d.key ==>
      arrivals[j].now <= arrivals[i].now + SLOW_TIMEOUT
  }

  /** No fragment of d comes twice. */
  predicate Once(d: Datagram, arrivals: seq<Arrival>) {
    forall i, j :: 0 <= i < j < |arrivals| && arrivals[i].p.key == d.key && arrivals[j].p.key == d.key ==>
      arrivals[i].p.off != arrivals[j].p.off
  }

  /** Fragments of d among any others, none of d's twice, d's within the time a group lives, and room for
      d when the first of them comes. */
  ghost predicate Delivery(d: Datagram, t: Table, arrivals: seq<Arrival>) {
    && Cuttable(d) && d.key !in t && InTime(arrivals)
    && (forall i :: 0 <= i < |arrivals| && arrivals[i].p.key == d.key ==> IsCut(d, arrivals[i].p))
    && Once(d, arrivals) && Prompt(d, arrivals) && Room(d, t, arrivals)
  }

  /** What the table has of d when the offsets seen have come; the group lives until then at least. */
  ghost predicate Progress(d: Datagram, t: Table, seen: set<nat>, until: int)
    requires d.c > 0 && seen <= Cuts(d.msg, d.c, 0)
  {
    if seen == {} || seen == Cuts(d.msg, d.c, 0) then d.key !in t
    else d.key in t && t[d.key].expires >= until && t[d.key] == GroupFor(d, seen, t[d.key].expires)
  }

  lemma {:induction false} ProgressAside(d: Datagram, t: Table, a: Arrival, seen: set<nat>, until: int)
    requires d.c > 0 && seen <= Cuts(d.msg, d.c, 0) && Progress(d, t, seen, until)
    requires a.now <= until && a.p.key != d.key
    ensures Progress(d, Offer(t, a.now, a.p).0, seen, until)
  {
    hide Cuts, GroupFor, Refusal, Whole, Grown;
  }

  lemma {:induction false} ProgressStep(d: Datagram, t: Table, a: Arrival, seen: set<nat>, until: int)
    requires Cuttable(d) && seen <= Cuts(d.msg, d.c, 0) && Progress(d, t, seen, until)
    requires a.now <= until <= a.now + SLOW_TIMEOUT && IsCut(d, a.p) && a.p.off !in seen
    requires seen == {} ==> |Purged(t, a.now)| < SLOW_GROUPS
    ensures seen + {a.p.off} <= Cuts(d.msg, d.c, 0) && Progress(d, Offer(t, a.now, a.p).0, seen + {a.p.off}, until)
    ensures Offer(t, a.now, a.p).1 ==
              if seen + {a.p.off} == Cuts(d.msg, d.c, 0) then Complete(d.first, d.key.proto, d.msg) else Waiting
  {
    hide GroupFor, Refusal, Whole, Grown;
    var live := Purged(t, a.now);
    assert 0 in Cuts(d.msg, d.c, 0);
    assert seen != Cuts(d.msg, d.c, 0);
    hide Cuts;
    assert seen != {} ==> d.key in live && live[d.key] == t[d.key];
    var expires := if seen == {} then a.now + SLOW_TIMEOUT else live[d.key].expires;
    assert seen == {} ==> d.key !in live;
    NextPart(d, live, a.now, a.p, seen, expires);
    WholeFor(d, seen + {a.p.off}, expires);
    GroupForIs(d, seen + {a.p.off}, expires);
  }

  lemma GroupForIs(d: Datagram, seen: set<nat>, expires: int)
    requires d.c > 0 && seen <= Cuts(d.msg, d.c, 0)
    ensures GroupFor(d, seen, expires).expires == expires
    ensures seen == Cuts(d.msg, d.c, 0) && 0 in seen ==> GroupFor(d, seen, expires).hdr == Some(d.first)
  {
  }

  lemma {:induction false} SeenSnoc(d: Datagram, before: seq<Arrival>, a: Arrival)
    ensures Seen(d, before + [a]) == Seen(d, before) + if a.p.key == d.key then {a.p.off} else {}
  {
    var all := before + [a];
    assert forall i :: 0 <= i < |before| ==> all[i] == before[i];
    assert all[|before|] == a;
    forall o | o in Seen(d, before) ensures o in Seen(d, all) {
      var i :| 0 <= i < |before| && before[i].p.key == d.key && before[i].p.off == o;
      assert all[i].p.off == o;
    }
  }

  lemma {:induction false} DeliveryPrefix(d: Datagram, t: Table, arrivals: seq<Arrival>, n: nat)
    requires Delivery(d, t, arrivals) && n <= |arrivals|
    ensures Delivery(d, t, arrivals[..n])
  {
    var some := arrivals[..n];
    assert forall i :: 0 <= i < n ==> some[i] == arrivals[i];
    forall i | 0 <= i < n && Begins(d, some, i) ensures |Purged(After(t, some[..i]), some[i].now)| < SLOW_GROUPS {
      assert some[..i] == arrivals[..i] && Begins(d, arrivals, i);
    }
  }

  /** Nothing has come after until, nor so long before it that d's group would be gone. */
  predicate Timely(d: Datagram, arrivals: seq<Arrival>, until: int) {
    forall i :: 0 <= i < |arrivals| ==>
      arrivals[i].now <= until && (arrivals[i].p.key == d.key ==> until <= arrivals[i].now + SLOW_TIMEOUT)
  }

  /** The table holds what it should of d when the arrivals have come. */
  ghost predicate Along(d: Datagram, now: Table, arrivals: seq<Arrival>, until: int) {
    d.c > 0 && Seen(d, arrivals) <= Cuts(d.msg, d.c, 0) && Progress(d, now, Seen(d, arrivals), until)
  }

  lemma {:induction false} ProgressRun(d: Datagram, t: Table, arrivals: seq<Arrival>, until: int)
    requires Delivery(d, t, arrivals) && Timely(d, arrivals, until)
    ensures Along(d, After(t, arrivals), arrivals, until)
    decreases |arrivals|
  {
    hide Along, Offer, Delivery;
    if arrivals == [] {
      ProgressNone(d, t, until);
    } else {
      var n := |arrivals| - 1;
      var before, a := arrivals[..n], arrivals[n];
      assert arrivals == before + [a];
      DeliveryPrefix(d, t, arrivals, n);
      ProgressRun(d, t, before, until);
      ProgressSnoc(d, t, before, a, until);
    }
  }

  lemma ProgressNone(d: Datagram, t: Table, until: int)
    requires Delivery(d, t, [])
    ensures Along(d, t, [], until)
  {
  }

  lemma {:induction false} ProgressSnoc(d: Datagram, t: Table, before: seq<Arrival>, a: Arrival, until: int)
    requires Delivery(d, t, before + [a]) && Timely(d, before + [a], until) && Along(d, After(t, before), before, until)
    ensures Along(d, Offer(After(t, before), a.now, a.p).0, before + [a], until)
    ensures a.p.key == d.key ==>
              Offer(After(t, before), a.now, a.p).1 ==
                if Seen(d, before + [a]) == Cuts(d.msg, d.c, 0) then Complete(d.first, d.key.proto, d.msg) else Waiting
  {
    hide Progress, Offer, Cuts, Seen, IsCut, Cuttable, Delivery, After, Purged;
    Expected(d, t, before, a);
    assert (before + [a])[|before|] == a;
    SeenSnoc(d, before, a);
    if a.p.key == d.key {
      ProgressStep(d, After(t, before), a, Seen(d, before), until);
    } else {
      ProgressAside(d, After(t, before), a, Seen(d, before), until);
      assert Seen(d, before + [a]) == Seen(d, before);
    }
  }

  /** The next of a delivery is a fragment still missing, if one of d's, and has room if it is the first. */
  lemma {:induction false} Expected(d: Datagram, t: Table, before: seq<Arrival>, a: Arrival)
    requires Delivery(d, t, before + [a])
    ensures Cuttable(d)
    ensures a.p.key == d.key ==> IsCut(d, a.p) && a.p.off !in Seen(d, before)
    ensures a.p.key == d.key && Seen(d, before) == {} ==> |Purged(After(t, before), a.now)| < SLOW_GROUPS
  {
    hide IsCut, Cuttable, Purged, After;
    var all, n := before + [a], |before|;
    assert all[n] == a && all[..n] == before && forall i :: 0 <= i < n ==> all[i] == before[i];
    assert forall j :: 0 <= j < n && before[j].p.key == d.key ==> before[j].p.off in Seen(d, before);
    if a.p.key == d.key && Seen(d, before) == {} {
      assert Begins(d, all, n);
    }
  }

  /** The fragments of a datagram, in any order and among any others, complete it once, when the last
      of them is in, and give back exactly the message, its protocol and its header. */
  lemma {:induction false} FragmentsComeTogether(d: Datagram, t: Table, before: seq<Arrival>, a: Arrival)
    requires Delivery(d, t, before + [a]) && a.p.key == d.key
    ensures Offer(After(t, before), a.now, a.p).1 ==
              if Seen(d, before + [a]) == Cuts(d.msg, d.c, 0) then Complete(d.first, d.key.proto, d.msg) else Waiting
  {
    hide Along, Offer, Seen, Cuts, IsCut, Cuttable, Room, Once, After;
    var all := before + [a];
    assert all[|before|] == a && all[..|before|] == before && forall i :: 0 <= i < |before| ==> all[i] == before[i];
    DeliveryPrefix(d, t, all, |before|);
    ProgressRun(d, t, before, a.now);
    ProgressSnoc(d, t, before, a, a.now);
  }

  /** What the i-th arrival completes. */
  ghost function Out(t: Table, arrivals: seq<Arrival>, i: nat): Outcome
    requires i < |arrivals|
  {
    Offer(After(t, arrivals[..i]), arrivals[i].now, arrivals[i].p).1
  }

  lemma {:induction false} OutIs(d: Datagram, t: Table, arrivals: seq<Arrival>, i: nat)
    requires Delivery(d, t, arrivals) && i < |arrivals| && arrivals[i].p.key == d.key
    ensures Out(t, arrivals, i) == if Seen(d, arrivals[..i + 1]) == Cuts(d.msg, d.c, 0)
                                   then Complete(d.first, d.key.proto, d.msg) else Waiting
  {
    hide Delivery, Offer, After, Seen, Cuts;
    assert arrivals[..i + 1] == arrivals[..i] + [arrivals[i]];
    DeliveryPrefix(d, t, arrivals, i + 1);
    FragmentsComeTogether(d, t, arrivals[..i], arrivals[i]);
  }

  /** When all have come, the message has been given back exactly once: at the last of them. */
  lemma {:induction false} ExactlyOnce(d: Datagram, t: Table, arrivals: seq<Arrival>, last: nat)
    requires Delivery(d, t, arrivals) && Seen(d, arrivals) == Cuts(d.msg, d.c, 0)
    requires last < |arrivals| && arrivals[last].p.key == d.key
    requires forall i :: last < i < |arrivals| ==> arrivals[i].p.key != d.key
    ensures Out(t, arrivals, last) == Complete(d.first, d.key.proto, d.msg)
    ensures forall i :: 0 <= i < last && arrivals[i].p.key == d.key ==> Out(t, arrivals, i) == Waiting
  {
    AllSeen(d, arrivals, last);
    OutIs(d, t, arrivals, last);
    forall i | 0 <= i < last && arrivals[i].p.key == d.key ensures Out(t, arrivals, i) == Waiting {
      OneMissing(d, arrivals, i, last);
      OutIs(d, t, arrivals, i);
    }
  }

  lemma AllSeen(d: Datagram, arrivals: seq<Arrival>, last: nat)
    requires last < |arrivals| && forall i :: last < i < |arrivals| ==> arrivals[i].p.key != d.key
    ensures Seen(d, arrivals[..last + 1]) == Seen(d, arrivals)
  {
    forall o | o in Seen(d, arrivals) ensures o in Seen(d, arrivals[..last + 1]) {
      var i :| 0 <= i < |arrivals| && arrivals[i].p.key == d.key && arrivals[i].p.off == o;
      assert arrivals[..last + 1][i].p.off == o;
    }
  }

  lemma OneMissing(d: Datagram, arrivals: seq<Arrival>, i: nat, last: nat)
    requires i < last < |arrivals| && arrivals[last].p.key == d.key && Once(d, arrivals)
    ensures arrivals[last].p.off in Seen(d, arrivals) && arrivals[last].p.off !in Seen(d, arrivals[..i + 1])
  {
  }

  // ---- What send4 and send6 emit is such a delivery

  /** The datagram the packets of send6 carry. */
  function Sent6(h: Bytes, msg: Bytes, mtu: nat, id: nat): Datagram
    requires |h| == 40 && msg != [] && Chunk(mtu, 48) > 0
  {
    Datagram(Key(h[8..24], h[24..40], id, h[6]), msg, Chunk(mtu, 48),
             Set16(h, 4, 8 + |PartAt(msg, Chunk(mtu, 48), 0)|))
  }

  function Sent4(h: Bytes, msg: Bytes, mtu: nat, id: nat): Datagram
    requires |h| == 20 && msg != [] && Chunk(mtu, 20) > 0
  {
    var c := Chunk(mtu, 20);
    var part := PartAt(msg, c, 0);
    Datagram(Key(h[12..16], h[16..20], id % 0x1_0000, h[9]), msg, c, Head4(h, |part|, |part| < |msg|, id, 0))
  }

  lemma EightDivides(c: nat, off: nat)
    requires c > 0 && c % 8 == 0 && off % c == 0
    ensures off % 8 == 0
  {
    var i, j := off / c, c / 8;
    assert off == c * i && c == 8 * j;
    assert off == 8 * (j * i) by { assert (8 * j) * i == 8 * (j * i); }
    MultipleIs(8, j * i);
  }

  /** Every one of the packets is a fragment of d. */
  ghost predicate CutsOf(d: Datagram, pkts: seq<Bytes>)
    requires d.c > 0
  {
    forall pkt :: pkt in pkts ==> Parse(pkt).Of? && IsCut(d, Parse(pkt).p)
  }

  lemma {:induction false} Piece6IsCut(h: Bytes, msg: Bytes, mtu: nat, id: nat, off: nat, p: Fragment)
    requires |h| == 40 && off < |msg| && 0 < Chunk(mtu, 48) && off % Chunk(mtu, 48) == 0
    requires var part := PartAt(msg, Chunk(mtu, 48), off);
             && p.key == Key(h[8..24], h[24..40], id, h[6]) && p.off == off && p.data == part
             && (p.more <==> off + |part| < |msg|) && Restored(p) == Set16(h, 4, 8 + |part|)
    ensures IsCut(Sent6(h, msg, mtu, id), p)
  {
  }

  lemma {:induction false} Piece4IsCut(h: Bytes, msg: Bytes, mtu: nat, id: nat, off: nat, p: Fragment)
    requires |h| == 20 && h[0] == 0x45 && off < |msg| <= MAX_MSG
    requires 0 < Chunk(mtu, 20) && off % Chunk(mtu, 20) == 0 && 20 + |PartAt(msg, Chunk(mtu, 20), off)| <= 0xffff
    requires var part := PartAt(msg, Chunk(mtu, 20), off);
             var more := off + |part| < |msg|;
             p == Piece(Key(h[12..16], h[16..20], id % 0x1_0000, h[9]), Head4(h, |part|, more, id, off), off, more, part)
    ensures IsCut(Sent4(h, msg, mtu, id), p)
  {
    Fields4(h, |PartAt(msg, Chunk(mtu, 20), off)|, p.more, id, off);
  }

  /** What the translators hand to send6 that has to be cut: a header, a message that is some bytes and fits
      a length field, and a device that takes less. */
  predicate Sendable6(h: Bytes, msg: Bytes, mtu: nat, id: nat) {
    && |h| == 40 && h[0] / 16 == 6 && 0 < |msg| <= MAX_MSG && id < 0x1_0000_0000
    && 0 < Chunk(mtu, 48) && 40 + |msg| > mtu
  }

  predicate Sendable4(h: Bytes, msg: Bytes, mtu: nat) {
    |h| == 20 && h[0] == 0x45 && 0 < |msg| <= MAX_MSG && 0 < Chunk(mtu, 20) && Tellable4(msg, mtu)
  }

  /** Every part and the header before it fit the length field, as they do whenever the device takes no
      more than 65535 bytes. */
  predicate Tellable4(msg: Bytes, mtu: nat) {
    Chunk(mtu, 20) <= 0xffff - 20 || |msg| <= 0xffff - 20
  }

  /** What has to be cut is cut short enough. */
  lemma Part6Fits(msg: Bytes, mtu: nat, off: nat)
    requires off < |msg| <= MAX_MSG && 0 < Chunk(mtu, 48) && 40 + |msg| > mtu
    ensures 8 + |PartAt(msg, Chunk(mtu, 48), off)| <= 0xffff
  {
  }

  lemma {:induction false} Packet6IsCut(h: Bytes, msg: Bytes, mtu: nat, id: nat, off: nat)
    requires Sendable6(h, msg, mtu, id) && off < |msg| && off % Chunk(mtu, 48) == 0
    ensures var p := Parse(Packet6(h, msg, Chunk(mtu, 48), id, off)); p.Of? && IsCut(Sent6(h, msg, mtu, id), p.p)
  {
    EightDivides(Chunk(mtu, 48), off);
    Part6Fits(msg, mtu, off);
    Parse6(h, msg, Chunk(mtu, 48), id, off);
    Piece6IsCut(h, msg, mtu, id, off, Parse(Packet6(h, msg, Chunk(mtu, 48), id, off)).p);
  }

  lemma {:induction false} Packet4IsCut(h: Bytes, msg: Bytes, mtu: nat, id: nat, off: nat)
    requires Sendable4(h, msg, mtu) && off < |msg| && off % Chunk(mtu, 20) == 0
    ensures var p := Parse(Packet4(h, msg, Chunk(mtu, 20), id, off)); p.Of? && IsCut(Sent4(h, msg, mtu, id), p.p)
  {
    EightDivides(Chunk(mtu, 20), off);
    Parse4(h, msg, Chunk(mtu, 20), id, off);
    Piece4IsCut(h, msg, mtu, id, off, Parse(Packet4(h, msg, Chunk(mtu, 20), id, off)).p);
  }

  lemma CutsOfCons(d: Datagram, pkt: Bytes, rest: seq<Bytes>)
    requires d.c > 0 && Parse(pkt).Of? && IsCut(d, Parse(pkt).p)
    ensures CutsOf(d, rest) ==> CutsOf(d, [pkt] + rest)
  {
  }

  lemma NoCuts(d: Datagram)
    ensures d.c > 0 ==> CutsOf(d, [])
  {
  }

  /** send6 emits the fragments of its datagram, as long as none outgrows the length field. */
  lemma {:induction false} Packets6AreCuts(h: Bytes, msg: Bytes, mtu: nat, id: nat, from: nat)
    requires Sendable6(h, msg, mtu, id) && from % Chunk(mtu, 48) == 0
    ensures CutsOf(Sent6(h, msg, mtu, id), Packets6(h, msg, Chunk(mtu, 48), id, from))
    decreases |msg| - from
  {
    hide CutsOf, Chunk, PartAt, Packet6, Set16;
    var c := Chunk(mtu, 48);
    if from < |msg| {
      NextMultiple(c, from, from);
      Packets6AreCuts(h, msg, mtu, id, from + c);
      Packet6Joins(h, msg, mtu, id, from);
    } else {
      NoCuts(Sent6(h, msg, mtu, id));
    }
  }

  lemma {:induction false} Packet6Joins(h: Bytes, msg: Bytes, mtu: nat, id: nat, from: nat)
    requires Sendable6(h, msg, mtu, id) && from % Chunk(mtu, 48) == 0 && from < |msg|
    ensures var c := Chunk(mtu, 48);
            CutsOf(Sent6(h, msg, mtu, id), Packets6(h, msg, c, id, from + c)) ==>
              CutsOf(Sent6(h, msg, mtu, id), Packets6(h, msg, c, id, from))
  {
    hide CutsOf, IsCut, Parse, Packet6, Packets6, Chunk, PartAt;
    var c, d := Chunk(mtu, 48), Sent6(h, msg, mtu, id);
    assert d.c == c;
    Packet6IsCut(h, msg, mtu, id, from);
    hide Sent6, Sendable6;
    PacketsStep6(h, msg, c, id, from);
    CutsOfCons(d, Packet6(h, msg, c, id, from), Packets6(h, msg, c, id, from + c));
  }

  lemma {:induction false} Packets4AreCuts(h: Bytes, msg: Bytes, mtu: nat, id: nat, from: nat)
    requires Sendable4(h, msg, mtu) && from % Chunk(mtu, 20) == 0
    ensures CutsOf(Sent4(h, msg, mtu, id), Packets4(h, msg, Chunk(mtu, 20), id, from))
    decreases |msg| - from
  {
    hide CutsOf, Chunk, PartAt, Packet4, Head4;
    var c := Chunk(mtu, 20);
    if from < |msg| {
      NextMultiple(c, from, from);
      Packets4AreCuts(h, msg, mtu, id, from + c);
      Packet4Joins(h, msg, mtu, id, from);
    } else {
      NoCuts(Sent4(h, msg, mtu, id));
    }
  }

  lemma {:induction false} Packet4Joins(h: Bytes, msg: Bytes, mtu: nat, id: nat, from: nat)
    requires Sendable4(h, msg, mtu) && from % Chunk(mtu, 20) == 0 && from < |msg|
    ensures var c := Chunk(mtu, 20);
            CutsOf(Sent4(h, msg, mtu, id), Packets4(h, msg, c, id, from + c)) ==>
              CutsOf(Sent4(h, msg, mtu, id), Packets4(h, msg, c, id, from))
  {
    hide CutsOf, IsCut, Parse, Packet4, Packets4, Chunk, PartAt, Head4;
    var c, d := Chunk(mtu, 20), Sent4(h, msg, mtu, id);
    assert d.c == c;
    Packet4IsCut(h, msg, mtu, id, from);
    hide Sent4, Sendable4;
    PacketsStep4(h, msg, c, id, from);
    CutsOfCons(d, Packet4(h, msg, c, id, from), Packets4(h, msg, c, id, from + c));
  }

  lemma {:induction false} EveryCutSent(h4: Bytes, h6: Bytes, msg: Bytes, c: nat, id: nat, from: nat, off: nat)
    requires |h4| == 20 && |h6| == 40 && c > 0 && from % c == 0 && off in Cuts(msg, c, from)
    ensures Packet4(h4, msg, c, id, off) in Packets4(h4, msg, c, id, from)
    ensures Packet6(h6, msg, c, id, off) in Packets6(h6, msg, c, id, from)
    decreases off - from
  {
    hide Packet4, Packet6, Packets4, Packets6;
    PacketsStep4(h4, msg, c, id, from);
    PacketsStep6(h6, msg, c, id, from);
    if off != from {
      NextMultiple(c, from, off);
      EveryCutSent(h4, h6, msg, c, id, from + c, off);
    }
  }

  /** send6 sends what fits the device as it is: it is parsed whole, and not put together. */
  lemma {:induction false} WholePacket6(h: Bytes, msg: Bytes)
    requires |h| == 40 && h[0] / 16 == 6 && h[6] != FRAGMENT && |msg| <= MAX_MSG
    ensures Parse(Set16(h, 4, |msg|) + msg)
              == Of(Piece(Key(h[8..24], h[24..40], 0, h[6]), Set16(h, 4, |msg|), 0, false, msg))
  {
    var b := Set16(h, 4, |msg|);
    var pkt := b + msg;
    assert b[8..24] == h[8..24] && b[24..40] == h[24..40];
    assert pkt[..40] == b && pkt[40..40 + |msg|] == msg && pkt[8..24] == b[8..24] && pkt[24..40] == b[24..40];
    assert Get16(pkt, 4) == |msg| by { assert |msg| / 256 % 256 * 256 + |msg| % 256 == |msg|; }
  }

  /** And so does send4, in one fragment that is the last. */
  lemma {:induction false} WholePacket4(h: Bytes, msg: Bytes, mtu: nat, id: nat)
    requires Sendable4(h, msg, mtu) && |msg| <= Chunk(mtu, 20)
    ensures var pkt := Packet4(h, msg, Chunk(mtu, 20), id, 0);
            && Packets4(h, msg, Chunk(mtu, 20), id, 0) == [pkt]
            && Parse(pkt).Of? && Parse(pkt).p.off == 0 && !Parse(pkt).p.more && Parse(pkt).p.data == msg
  {
    hide Parse, Packet4, Chunk;
    PacketsStep4(h, msg, Chunk(mtu, 20), id, 0);
    Parse4(h, msg, Chunk(mtu, 20), id, 0);
  }

  /** A part too long for the length field is refused where it arrives, and no other is. */
  lemma {:induction false} ParsedIff(h: Bytes, msg: Bytes, c: nat, id: nat, off: nat)
    requires |h| == 20 && h[0] == 0x45 && |msg| <= MAX_MSG && c > 0 && c % 8 == 0 && off in Cuts(msg, c, 0)
    ensures Parse(Packet4(h, msg, c, id, off)).Of? <==> 20 + |PartAt(msg, c, off)| <= 0xffff
  {
    var part := PartAt(msg, c, off);
    if 20 + |part| <= 0xffff {
      hide Parse, Packet4;
      EightDivides(c, off);
      Parse4(h, msg, c, id, off);
    } else {
      var b := Head4(h, |part|, off + |part| < |msg|, id, off);
      LengthWraps(h, |part|, off + |part| < |msg|, id, off);
      var pkt := b + part;
      assert Get16(pkt, 2) == Get16(b, 2) && pkt[0] == b[0];
      hide Head4, PartAt;
    }
  }

  /** So every packet of send4 is parsed where it arrives exactly when every part fits. */
  lemma {:induction false} OverlongRefused(h: Bytes, msg: Bytes, mtu: nat, id: nat)
    requires |h| == 20 && h[0] == 0x45 && 0 < |msg| <= MAX_MSG && 0 < Chunk(mtu, 20)
    ensures (forall pkt :: pkt in Packets4(h, msg, Chunk(mtu, 20), id, 0) ==> Parse(pkt).Of?) <==> Tellable4(msg, mtu)
  {
    hide Parse, Packet4, Packets4, IsCut;
    var c := Chunk(mtu, 20);
    if Tellable4(msg, mtu) {
      Packets4AreCuts(h, msg, mtu, id, 0);
    } else {
      EveryCutSent(h, h + h, msg, c, id, 0, 0);
      ParsedIff(h, msg, c, id, 0);
    }
  }

  lemma {:induction false} LengthWraps(h: Bytes, len: nat, more: bool, id: nat, off: nat)
    requires |h| == 20 && 0xffff - 20 < len <= MAX_MSG
    ensures var b := Head4(h, len, more, id, off); b[0] == h[0] && Get16(b, 2) < 20
  {
    hide L4Checksum;
    var u := Unsummed4(h, len, more, id, off);
    assert u[2..4] == Put16(20 + len) && Get16(u, 2) == Get16(u[2..4], 0);
    PutGet16(20 + len);
    SummedKeeps(u, L4Checksum(0, u));
  }

  /** The arrivals under d's key are packets of pkts, and no packet comes twice. */
  ghost predicate Carried(pkts: seq<Bytes>, d: Datagram, arrivals: seq<Arrival>) {
    && (forall i :: 0 <= i < |arrivals| && arrivals[i].p.key == d.key ==>
          exists pkt :: pkt in pkts && Parse(pkt) == Of(arrivals[i].p))
    && Once(d, arrivals)
  }

  /** They come no further apart than a group lives, and the traffic around them leaves room for the first. */
  ghost predicate Undisturbed(d: Datagram, t: Table, arrivals: seq<Arrival>) {
    d.key !in t && InTime(arrivals) && Prompt(d, arrivals) && Room(d, t, arrivals)
  }

  lemma {:induction false} CarriedDelivers(d: Datagram, pkts: seq<Bytes>, t: Table, arrivals: seq<Arrival>)
    requires Cuttable(d) && CutsOf(d, pkts) && Carried(pkts, d, arrivals) && Undisturbed(d, t, arrivals)
    ensures Delivery(d, t, arrivals)
  {
    forall i | 0 <= i < |arrivals| && arrivals[i].p.key == d.key ensures IsCut(d, arrivals[i].p) {
      var pkt :| pkt in pkts && Parse(pkt) == Of(arrivals[i].p);
    }
  }

  /** What the i-th arrival gives back of d: the message, its header and its protocol, when with it all
      have come, and nothing before. */
  ghost predicate GivesBack(d: Datagram, t: Table, arrivals: seq<Arrival>, i: nat)
    requires d.c > 0 && i < |arrivals|
  {
    arrivals[i].p.key == d.key ==>
      Out(t, arrivals, i) == if Seen(d, arrivals[..i + 1]) == Cuts(d.msg, d.c, 0)
                             then Complete(d.first, d.key.proto, d.msg) else Waiting
  }

  lemma {:induction false} CarriedBack(d: Datagram, pkts: seq<Bytes>, t: Table, arrivals: seq<Arrival>, i: nat)
    requires Cuttable(d) && CutsOf(d, pkts) && Carried(pkts, d, arrivals) && Undisturbed(d, t, arrivals)
    requires i < |arrivals|
    ensures GivesBack(d, t, arrivals, i)
  {
    CarriedDelivers(d, pkts, t, arrivals);
    if arrivals[i].p.key == d.key { OutIs(d, t, arrivals, i); }
  }

  /** Fragmenting over IPv6 and putting together is the identity: whatever order the packets of send6
      come in, the last of them gives the message back, with its protocol, and none before it anything. */
  lemma {:induction false} RoundTrip6(h: Bytes, msg: Bytes, mtu: nat, id: nat, t: Table, arrivals: seq<Arrival>, i: nat)
    requires Sendable6(h, msg, mtu, id) && i < |arrivals|
    requires Carried(Packets6(h, msg, Chunk(mtu, 48), id, 0), Sent6(h, msg, mtu, id), arrivals)
    requires Undisturbed(Sent6(h, msg, mtu, id), t, arrivals)
    ensures GivesBack(Sent6(h, msg, mtu, id), t, arrivals, i)
  {
    hide Carried, Undisturbed, CutsOf, GivesBack, Packets6, PartAt;
    Packets6AreCuts(h, msg, mtu, id, 0);
    CarriedBack(Sent6(h, msg, mtu, id), Packets6(h, msg, Chunk(mtu, 48), id, 0), t, arrivals, i);
  }

  /** And over IPv4. */
  lemma {:induction false} RoundTrip4(h: Bytes, msg: Bytes, mtu: nat, id: nat, t: Table, arrivals: seq<Arrival>, i: nat)
    requires Sendable4(h, msg, mtu) && i < |arrivals|
    requires Carried(Packets4(h, msg, Chunk(mtu, 20), id, 0), Sent4(h, msg, mtu, id), arrivals)
    requires Undisturbed(Sent4(h, msg, mtu, id), t, arrivals)
    ensures GivesBack(Sent4(h, msg, mtu, id), t, arrivals, i)
  {
    hide Carried, Undisturbed, CutsOf, GivesBack, Packets4, PartAt, Head4;
    Packets4AreCuts(h, msg, mtu, id, 0);
    CarriedBack(Sent4(h, msg, mtu, id), Packets4(h, msg, Chunk(mtu, 20), id, 0), t, arrivals, i);
  }
}
