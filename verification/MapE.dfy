/** MAP-E (RFC 7597): the IPv4 address and the ports an end-user prefix stands for, by the rules of a
DHCPv6 option and by the table of the Japanese providers. */
module MapE {
  import opened Arith
  import opened Wire
  import opened Prefixes
  import opened Ports

  // ---- Bits

  /** Bit i of an address, from the left. */
  function Bit(a: nat, i: nat): (b: nat)
    requires i < 128
    ensures b < 2
  {
    a / Pow2(127 - i) % 2
  }

  /** The n bits from start on, as a number. */
  function Field(a: nat, start: nat, n: nat): (v: nat)
    requires start + n <= 128
    ensures v < Pow2(n)
  {
    a / Pow2(128 - start - n) % Pow2(n)
  }

  lemma {:induction false} FieldStep(a: nat, start: nat, n: nat)
    requires start + n < 128
    ensures Field(a, start, n + 1) == 2 * Field(a, start, n) + Bit(a, start + n)
  {
    var c := Pow2(127 - start - n);
    assert Pow2(128 - start - n) == 2 * c;
    DivDiv(a, c, 2);
    ModTwice(a / c, Pow2(n));
  }

  lemma ModTwice(x: nat, m: nat)
    requires m > 0
    ensures x % (2 * m) == 2 * (x / 2 % m) + x % 2
  {
    var y := x / 2;
    LastMultiple(m, y);
    var q, r := y / m, y - m * (y / m);
    assert (2 * m) * q == 2 * (m * q);
    assert (2 * m) * (q + 1) == 2 * (m * q) + 2 * m;
    QuotientIs(x, 2 * m, q);
  }

  /** bitsAt. */
  method BitsAt(a: nat, start: nat, n: nat) returns (v: nat)
    requires start + n <= 128 && n <= 64
    ensures v == Field(a, start, n)
  {
    hide Bit, Field;
    v := 0;
    FieldNone(a, start);
    for i := 0 to n
      invariant v == Field(a, start, i)
    {
      FieldStep(a, start, i);
      v := 2 * v + Bit(a, start + i);
    }
  }

  lemma FieldNone(a: nat, start: nat)
    requires start <= 128
    ensures Field(a, start, 0) == 0
  {
  }

  /** Two addresses have the same number there exactly when they have the same bits. */
  lemma {:induction false} FieldIffBits(a: nat, b: nat, start: nat, n: nat)
    requires start + n <= 128
    ensures Field(a, start, n) == Field(b, start, n) <==>
              forall i :: start <= i < start + n ==> Bit(a, i) == Bit(b, i)
  {
    if n == 0 {
      FieldNone(a, start);
      FieldNone(b, start);
    } else {
      hide Bit, Field;
      FieldStep(a, start, n - 1);
      FieldStep(b, start, n - 1);
      FieldIffBits(a, b, start, n - 1);
    }
  }

  /** Bitwise or. */
  function Or(x: nat, y: nat): nat {
    if x == 0 && y == 0 then 0 else (if x % 2 == 1 || y % 2 == 1 then 1 else 0) + 2 * Or(x / 2, y / 2)
  }

  lemma {:induction false} OrStep(x: nat, y: nat)
    ensures Or(x, y) == (if x % 2 == 1 || y % 2 == 1 then 1 else 0) + 2 * Or(x / 2, y / 2)
  {
  }

  lemma {:induction false} OrZero(y: nat)
    ensures Or(0, y) == y
  {
    if y > 0 { OrZero(y / 2); }
  }

  /** Numbers with no bit in common add up. */
  lemma {:induction false} OrApart(h: nat, y: nat, n: nat)
    requires y < Pow2(n)
    ensures Or(h * Pow2(n), y) == h * Pow2(n) + y
  {
    if n == 0 {
      OrZeroRight(h);
    } else {
      var x := h * Pow2(n - 1);
      assert h * Pow2(n) == 2 * x;
      OrApart(h, y / 2, n - 1);
      if x == 0 && y == 0 { assert h * Pow2(n) == 0; }
    }
  }

  lemma {:induction false} OrZeroRight(x: nat)
    ensures Or(x, 0) == x
  {
    if x > 0 { OrZeroRight(x / 2); }
  }

  // ---- Port sets

  /** x shifted left in thirty-two bits; a shift count that is negative is a huge one. */
  function Shl32(x: nat, n: int): nat {
    if n < 0 || n >= 32 then 0 else x * Pow2(n) % 0x1_0000_0000
  }

  /** The a-th span. */
  function SpanAt(offset: nat, psidLen: nat, psid: nat, a: nat): Span {
    var block := Shl32(1, 16 - offset - psidLen);
    var start := Or(Shl32(a, 16 - offset), Shl32(psid, 16 - offset - psidLen));
    Span(start % 0x1_0000, (start + block - 1) % 0x1_0000)
  }

  function SpansFrom(offset: nat, psidLen: nat, psid: nat, a: nat, end: nat): seq<Span>
    decreases end - a
  {
    if a >= end then [] else [SpanAt(offset, psidLen, psid, a)] + SpansFrom(offset, psidLen, psid, a + 1, end)
  }

  /** The ports a PSID owns; the guard adds in eight bits. */
  function Spans(offset: nat, psidLen: nat, psid: nat): seq<Span> {
    if (offset + psidLen) % 256 > 16 then []
    else if offset == 0 then
      var start, block := Shl32(psid, 16 - psidLen), Shl32(1, 16 - psidLen);
      [Span(start % 0x1_0000, (start + block - 1) % 0x1_0000)]
    else SpansFrom(offset, psidLen, psid, 1, Shl32(1, offset))
  }

  method PortSpans(offset: nat, psidLen: nat, psid: nat) returns (out: seq<Span>)
    requires offset < 256 && psidLen < 256
    ensures out == Spans(offset, psidLen, psid)
  {
    hide SpanAt, Shl32;
    if (offset + psidLen) % 256 > 16 { return []; }
    if offset == 0 {
      var start: int, block: int := Shl32(psid, 16 - psidLen), Shl32(1, 16 - psidLen);
      return [Span(start % 0x1_0000, (start + block - 1) % 0x1_0000)];
    }
    out := [];
    var a, end := 1, Shl32(1, offset);
    while a < end
      invariant out + SpansFrom(offset, psidLen, psid, a, end) == SpansFrom(offset, psidLen, psid, 1, end)
    {
      out := out + [SpanAt(offset, psidLen, psid, a)];
      a := a + 1;
    }
  }

  /** A port set that fits sixteen bits, and a PSID of its own length. */
  predicate Fits(offset: nat, psidLen: nat, psid: nat) {
    offset + psidLen <= 16 && psid < Pow2(psidLen)
  }

  /** Section 5.1 of RFC 7597: the port's PSID field is the PSID, and its first bits are not all zero,
      if it has any. */
  predicate Owns(offset: nat, psidLen: nat, psid: nat, port: nat)
    requires offset + psidLen <= 16
  {
    && port <= 0xffff
    && port / Pow2(16 - offset - psidLen) % Pow2(psidLen) == psid
    && (offset > 0 ==> port / Pow2(16 - offset) > 0)
  }

  lemma {:induction false} Pow2Mono(a: nat, b: nat)
    requires a <= b
    ensures Pow2(a) <= Pow2(b)
  {
    if a < b { Pow2Mono(a, b - 1); }
  }

  lemma ShlIs(x: nat, n: nat)
    requires n < 32 && x * Pow2(n) < 0x1_0000_0000
    ensures Shl32(x, n) == x * Pow2(n)
  {
  }

  function BlockStart(offset: nat, psidLen: nat, psid: nat, a: nat): nat
    requires offset + psidLen <= 16
  {
    MulNonNeg(Pow2(psidLen), a);
    MulNonNeg(Pow2(16 - offset - psidLen), Pow2(psidLen) * a + psid);
    Pow2(16 - offset - psidLen) * (Pow2(psidLen) * a + psid)
  }

  /** a fields of c ports, of which each block takes b: where block y of field x ends. */
  lemma Below(x: nat, y: nat, b: nat, c: nat, n: nat)
    requires x < n && y < b
    ensures x * (b * c) + y * c + c <= n * (b * c) && y * c + c <= b * c
    ensures x * (b * c) + y * c == c * (b * x + y)
  {
    MulMono(c, y + 1, b);
    MulMono(b * c, x + 1, n);
    assert x * (b * c) == c * (b * x);
  }

  lemma {:induction false} SpanParts(offset: nat, psidLen: nat, psid: nat, a: nat)
    requires Fits(offset, psidLen, psid) && a < Pow2(offset)
    ensures var m := 16 - offset - psidLen;
            var x, y := Shl32(a, 16 - offset), Shl32(psid, m);
            && Or(x, y) == x + y == BlockStart(offset, psidLen, psid, a)
            && x + y + Pow2(m) <= 0x1_0000 && Shl32(1, m) == Pow2(m)
  {
    hide Pow2, Or, Shl32;
    var m := 16 - offset - psidLen;
    var b, c := Pow2(psidLen), Pow2(m);
    Pow2Add(psidLen, m);
    Pow2Add(offset, 16 - offset);
    Pow2Known();
    Below(a, psid, b, c, Pow2(offset));
    assert Pow2(16 - offset) == b * c;
    assert Pow2(offset) * (b * c) == 0x1_0000;
    ShlIs(a, 16 - offset);
    ShlIs(psid, m);
    ShlIs(1, m);
    OrApart(a, psid * c, 16 - offset);
  }

  /** The span of a is the ports whose first bits are a and whose PSID field is psid. */
  lemma {:induction false} SpanIs(offset: nat, psidLen: nat, psid: nat, a: nat)
    requires Fits(offset, psidLen, psid) && a < Pow2(offset)
    ensures var c, start := Pow2(16 - offset - psidLen), BlockStart(offset, psidLen, psid, a);
            SpanAt(offset, psidLen, psid, a) == Span(start, start + c - 1) && start + c <= 0x1_0000
  {
    hide Pow2, Or, Shl32, BlockStart;
    SpanParts(offset, psidLen, psid, a);
  }

  /** A port is in the span of a exactly when that is what its fields say. */
  lemma {:induction false} SpanOwns(offset: nat, psidLen: nat, psid: nat, a: nat, port: nat)
    requires Fits(offset, psidLen, psid) && a < Pow2(offset)
    ensures In(SpanAt(offset, psidLen, psid, a), port) <==>
              port / Pow2(16 - offset - psidLen) % Pow2(psidLen) == psid && port / Pow2(16 - offset) == a
  {
    hide Pow2, SpanAt;
    var b, c := Pow2(psidLen), Pow2(16 - offset - psidLen);
    SpanIs(offset, psidLen, psid, a);
    Pow2Add(16 - offset - psidLen, psidLen);
    Located(c, b, a, psid, port, Pow2(16 - offset), BlockStart(offset, psidLen, psid, a));
    hide BlockStart;
  }

  lemma Located(c: nat, b: nat, a: nat, psid: nat, port: nat, d: nat, start: nat)
    requires c > 0 && psid < b && d == c * b && start == c * (b * a + psid)
    ensures d > 0 && (start <= port < start + c <==> port / c % b == psid && port / d == a)
  {
    DivDiv(port, c, b);
    InBlock(c, b * a + psid, port);
    PairIs(b, a, psid, port / c);
  }

  lemma {:induction false} SpansFromHas(offset: nat, psidLen: nat, psid: nat, a: nat, end: nat, s: Span)
    ensures s in SpansFrom(offset, psidLen, psid, a, end) <==>
              exists x :: a <= x < end && s == SpanAt(offset, psidLen, psid, x)
    decreases end - a
  {
    hide SpanAt;
    if a < end { SpansFromHas(offset, psidLen, psid, a + 1, end, s); }
  }

  /** portSpans lists exactly the ports the PSID owns. */
  lemma {:induction false} SpansOwn(offset: nat, psidLen: nat, psid: nat, port: nat)
    requires Fits(offset, psidLen, psid)
    ensures Has(Spans(offset, psidLen, psid), port) <==> Owns(offset, psidLen, psid, port)
  {
    hide Has, Spans, Owns;
    if offset == 0 { WholeOwns(psidLen, psid, port); } else { FieldsOwn(offset, psidLen, psid, port); }
  }

  lemma {:induction false} WholeOwns(psidLen: nat, psid: nat, port: nat)
    requires Fits(0, psidLen, psid)
    ensures Has(Spans(0, psidLen, psid), port) <==> Owns(0, psidLen, psid, port)
  {
    hide Pow2, SpanAt, Spans;
    Pow2Known();
    WholeSpan(psidLen, psid);
    SpanOwns(0, psidLen, psid, 0, port);
    TopBits(0, port);
    OnlyOne(SpanAt(0, psidLen, psid, 0), port);
  }

  lemma OnlyOne(s: Span, port: nat)
    ensures Has([s], port) <==> In(s, port)
  {
    assert s in [s];
  }

  lemma {:induction false} FieldsOwn(offset: nat, psidLen: nat, psid: nat, port: nat)
    requires Fits(offset, psidLen, psid) && offset > 0
    ensures Has(Spans(offset, psidLen, psid), port) <==> Owns(offset, psidLen, psid, port)
  {
    hide SpanAt, Pow2, SpansFrom, Shl32;
    var spans := Spans(offset, psidLen, psid);
    TopBits(offset, port);
    ShlOne(offset);
    var a := port / Pow2(16 - offset);
    if Owns(offset, psidLen, psid, port) {
      SpanOwns(offset, psidLen, psid, a, port);
      SpansFromHas(offset, psidLen, psid, 1, Pow2(offset), SpanAt(offset, psidLen, psid, a));
    }
    if Has(spans, port) {
      var s :| s in spans && In(s, port);
      SpansFromHas(offset, psidLen, psid, 1, Pow2(offset), s);
      var x :| 1 <= x < Pow2(offset) && s == SpanAt(offset, psidLen, psid, x);
      SpanOwns(offset, psidLen, psid, x, port);
    }
  }

  lemma {:induction false} ShlOne(offset: nat)
    requires 0 < offset <= 16
    ensures Shl32(1, offset) == Pow2(offset)
  {
    Pow2Mono(offset, 16);
    Pow2Known();
  }

  lemma {:induction false} TopBits(offset: nat, port: nat)
    requires offset <= 16
    ensures port <= 0xffff <==> port / Pow2(16 - offset) < Pow2(offset)
    ensures Pow2(0) == 1
  {
    hide Pow2;
    var c, n := Pow2(16 - offset), Pow2(offset);
    Pow2Known();
    Pow2Add(offset, 16 - offset);
    LastMultiple(c, port);
    MulMono(c, port / c + 1, n);
    MulMono(c, n, port / c);
    assert c * n == 0x1_0000 by { assert c * n == n * c; }
  }

  lemma {:induction false} WholeSpan(psidLen: nat, psid: nat)
    requires Fits(0, psidLen, psid)
    ensures Spans(0, psidLen, psid) == [SpanAt(0, psidLen, psid, 0)]
  {
    hide Pow2, Shl32, Or, Fits, SpansFrom;
    FitsWhole(psidLen, psid);
    ShlZero(16);
    OrZero(Shl32(psid, 16 - psidLen));
  }

  lemma FitsWhole(psidLen: nat, psid: nat)
    requires Fits(0, psidLen, psid)
    ensures psidLen <= 16 && psidLen % 256 == psidLen
  {
  }

  lemma ShlZero(n: nat)
    requires n < 32
    ensures Shl32(0, n) == 0
  {
    hide Pow2;
  }

  /** The PSIDs of one length share out the ports with first bits that are not all zero, or all ports
      when there are none: every such port is one's, and one's only, and the others are nobody's. */
  lemma {:induction false} PortsPartition(offset: nat, psidLen: nat, port: nat)
    requires offset + psidLen <= 16
    ensures var p := port / Pow2(16 - offset - psidLen) % Pow2(psidLen);
            Fits(offset, psidLen, p)
            && (Has(Spans(offset, psidLen, p), port) <==>
                  port <= 0xffff && (offset > 0 ==> port / Pow2(16 - offset) > 0))
    ensures forall psid :: Fits(offset, psidLen, psid) && Has(Spans(offset, psidLen, psid), port) ==>
              psid == port / Pow2(16 - offset - psidLen) % Pow2(psidLen)
  {
    hide Pow2, Spans, Has;
    var p := port / Pow2(16 - offset - psidLen) % Pow2(psidLen);
    SpansOwn(offset, psidLen, p, port);
    forall psid | Fits(offset, psidLen, psid) && Has(Spans(offset, psidLen, psid), port) ensures psid == p {
      SpansOwn(offset, psidLen, psid, port);
    }
  }

  /** Where the guard's eight bits wrap around, the shifts come to nothing, and no port is listed. */
  lemma {:induction false} WrappedGuard(offset: nat, psidLen: nat, psid: nat)
    requires 16 < offset < 256 && psidLen <= 16
    ensures Spans(offset, psidLen, psid) == []
  {
    if (offset + psidLen) % 256 <= 16 {
      assert offset >= 240;
      assert Shl32(1, offset) == 0;
    }
  }

  // ---- Rules

  datatype Net4 = Net4(addr: nat, bits: nat)

  /** A rule of the DHCPv6 option, what it leaves out being none. */
  datatype Rule = Rule(ip6: Option<Prefix>, ip4: Option<Net4>, eaLen: nat, psidLen: Option<nat>, offset: Option<nat>,
                       psid: Option<nat>)

  datatype Result = Result(ipv4: nat, rule4: Net4, rule6: Prefix, eaLen: nat, psidLen: nat, offset: nat, psid: nat,
                           ports: seq<Span>, ce: nat)

  predicate Sound(rule: Rule) {
    && (rule.ip6.Some? ==> rule.ip6.value.bits <= 128)
    && (rule.ip4.Some? ==> rule.ip4.value.bits <= 32 && rule.ip4.value.addr < 0x1_0000_0000)
    && (rule.offset.Some? ==> rule.offset.value < 256) && (rule.psid.Some? ==> rule.psid.value < 0x1_0000)
  }

  predicate Matches(rule: Rule, pd: Prefix)
    requires Sound(rule)
  {
    rule.ip6.Some? && Contains(rule.ip6.value, pd.addr)
  }

  /** bmrFor: the most specific rule the prefix is in, the first of several. */
  method BmrFor(rules: seq<Rule>, pd: Prefix) returns (best: Option<Rule>)
    requires forall r :: r in rules ==> Sound(r)
    ensures best.None? ==> forall r :: r in rules ==> !Matches(r, pd)
    ensures best.Some? ==> exists i: nat :: BestAt(rules, pd, i) && rules[i] == best.value
  {
    best := None;
    ghost var at := 0;
    for i := 0 to |rules|
      invariant best.None? ==> forall j :: 0 <= j < i ==> !Matches(rules[j], pd)
      invariant best.Some? ==> at < i && rules[at] == best.value && Matches(rules[at], pd)
                               && (forall j :: 0 <= j < i && Matches(rules[j], pd) ==>
                                  rules[j].ip6.value.bits <= rules[at].ip6.value.bits)
                               && (forall j :: 0 <= j < at && Matches(rules[j], pd) ==>
                                  rules[j].ip6.value.bits < rules[at].ip6.value.bits)
    {
      if Matches(rules[i], pd) && (best.None? || rules[i].ip6.value.bits > best.value.ip6.value.bits) {
        best := Some(rules[i]);
        at := i;
      }
    }
    if best.Some? { assert BestAt(rules, pd, at); }
  }

  ghost predicate BestAt(rules: seq<Rule>, pd: Prefix, i: nat)
    requires forall r :: r in rules ==> Sound(r)
  {
    && i < |rules| && Matches(rules[i], pd)
    && (forall j :: 0 <= j < |rules| && Matches(rules[j], pd) ==> rules[j].ip6.value.bits <= rules[i].ip6.value.bits)
    && (forall j :: 0 <= j < i && Matches(rules[j], pd) ==> rules[j].ip6.value.bits < rules[i].ip6.value.bits)
  }

  function Base4(n: Net4): nat
    requires n.bits <= 32
  {
    RoundDown(n.addr, Pow2(32 - n.bits))
  }

  function PsidLen(rule: Rule): int
    requires rule.ip4.Some? && rule.ip4.value.bits <= 32
  {
    if rule.psidLen.Some? then rule.psidLen.value else rule.eaLen - (32 - rule.ip4.value.bits)
  }

  function Offset(rule: Rule): nat {
    if rule.offset.Some? then rule.offset.value else 6
  }

  /** The rule can be applied to the prefix. */
  predicate Applies(rule: Rule, pd: Prefix)
    requires Sound(rule)
  {
    && rule.ip4.Some? && Matches(rule, pd)
    && rule.ip6.value.bits + rule.eaLen <= pd.bits <= 128 && rule.eaLen <= 64
    && 0 <= PsidLen(rule) <= 16 && PsidLen(rule) + (32 - rule.ip4.value.bits) <= rule.eaLen
  }

  /** The EA bits, of the prefix without what is past its length. */
  function Ea(rule: Rule, pd: Prefix): nat
    requires Sound(rule) && Applies(rule, pd)
  {
    Field(Masked(pd).addr, rule.ip6.value.bits, rule.eaLen)
  }

  /** mapeFromS46, once the rule is picked. */
  function FromRule(rule: Rule, pd: Prefix): Option<Result>
    requires Sound(rule)
  {
    if !Applies(rule, pd) then None else
    var psidLen: nat := PsidLen(rule);
    var offset := Offset(rule);
    var ea := Ea(rule, pd);
    var psid := if rule.eaLen == 0 && rule.psid.Some? then rule.psid.value else ea % Pow2(psidLen);
    var v4 := Or(Base4(rule.ip4.value), ea / Pow2(psidLen) % 0x1_0000_0000);
    Some(Result(v4, Net4(Base4(rule.ip4.value), rule.ip4.value.bits), Masked(rule.ip6.value),
                rule.eaLen, psidLen, offset, psid, Spans(offset, psidLen, psid),
                CeAddress(pd, v4, psid)))
  }

  /** Section 6 of RFC 7597: the prefix's first half, and an identifier of sixteen zeros, the address and
      the PSID. */
  function CeAddress(pd: Prefix, v4: nat, psid: nat): nat
    requires pd.bits <= 128
  {
    Masked(pd).addr / TWO_64 * TWO_64 + v4 * 0x1_0000 + psid
  }

  /** mapeFromS46. */
  method FromS46(rules: seq<Rule>, hasRelay: bool, pd: Prefix) returns (r: Option<Result>)
    requires forall x :: x in rules ==> Sound(x)
    ensures r.Some? ==> hasRelay && exists i: nat :: BestAt(rules, pd, i) && r == FromRule(rules[i], pd)
    ensures hasRelay && (exists x :: x in rules && Matches(x, pd)) ==>
              exists i: nat :: BestAt(rules, pd, i) && r == FromRule(rules[i], pd)
  {
    hide FromRule;
    if !hasRelay { return None; }
    var best := BmrFor(rules, pd);
    if best.None? { return None; }
    r := FromRule(best.value, pd);
  }

  /** The rule can be applied to some prefix. */
  predicate Shaped(rule: Rule)
    requires Sound(rule)
  {
    && rule.ip4.Some? && rule.ip6.Some? && rule.ip6.value.bits + rule.eaLen <= 128 && rule.eaLen <= 64
    && 0 <= PsidLen(rule) <= 16 && PsidLen(rule) + (32 - rule.ip4.value.bits) <= rule.eaLen
  }

  /** The EA bits of the address, which may be more than the rule's IPv4 prefix leaves. */
  function HighLen(rule: Rule): nat
    requires Sound(rule) && Shaped(rule)
  {
    rule.eaLen - PsidLen(rule)
  }

  /** They are no more than an address has, and where they go the rule's IPv4 prefix is zero. */
  predicate Clear(rule: Rule)
    requires Sound(rule) && Shaped(rule)
  {
    HighLen(rule) <= 32 && Base4(rule.ip4.value) % Pow2(HighLen(rule)) == 0
  }

  /** So it is when they are all that the rule's IPv4 prefix leaves. */
  lemma ExactIsClear(rule: Rule)
    requires Sound(rule) && Shaped(rule) && HighLen(rule) == 32 - rule.ip4.value.bits
    ensures Clear(rule)
  {
  }

  /** And there are EA bits, and a port set. */
  predicate Telling(rule: Rule)
    requires Sound(rule)
  {
    Shaped(rule) && Clear(rule) && rule.eaLen > 0 && Offset(rule) + PsidLen(rule) <= 16
  }

  /** Masking keeps the bits before it. */
  lemma {:induction false} FieldMasked(p: Prefix, start: nat, n: nat)
    requires start + n <= p.bits <= 128
    ensures Field(Masked(p).addr, start, n) == Field(p.addr, start, n)
  {
    hide Pow2, Masked;
    var t := Pow2(p.bits - start - n);
    Pow2Add(128 - p.bits, p.bits - start - n);
    DivDiv(p.addr, Size(p), t);
    DivDiv(Masked(p).addr, Size(p), t);
    MaskedIs(p);
    assert Contains(p, Masked(p).addr);
  }

  /** When a rule can be applied: the EA bits are in the prefix, no more than sixty-four, and what the
      rule's IPv4 prefix leaves of an address is among them, with the PSID where a length is given for it;
      where none is, the PSID is all the others. */
  lemma {:induction false} AppliesIff(rule: Rule, pd: Prefix)
    requires Sound(rule)
    ensures FromRule(rule, pd).Some? <==>
              && rule.ip4.Some? && rule.ip6.Some? && Contains(rule.ip6.value, pd.addr)
              && rule.ip6.value.bits + rule.eaLen <= pd.bits <= 128 && rule.eaLen <= 64
              && (if rule.psidLen.Some? then
                    rule.psidLen.value <= 16 && 32 + rule.psidLen.value <= rule.ip4.value.bits + rule.eaLen
                  else 32 <= rule.ip4.value.bits + rule.eaLen <= 48)
    ensures FromRule(rule, pd).Some? ==> Shaped(rule)
    ensures FromRule(rule, pd).Some? ==>
              var r := FromRule(rule, pd).value;
              && (rule.psidLen.Some? ==> r.psidLen == rule.psidLen.value)
              && (rule.psidLen.None? ==> 32 - rule.ip4.value.bits + r.psidLen == rule.eaLen)
              && r.eaLen == rule.eaLen && r.rule4.bits == rule.ip4.value.bits && r.rule6 == Masked(rule.ip6.value)
              && r.offset == (if rule.offset.Some? then rule.offset.value else 6)
              && (rule.eaLen == 0 && rule.psid.Some? ==> r.psid == rule.psid.value)
              && (rule.eaLen == 0 && rule.psid.None? ==> r.psid == 0)
  {
    hide Or, Spans, Masked, CeAddress, Base4, Contains;
    if Applies(rule, pd) && rule.eaLen == 0 { assert Ea(rule, pd) < Pow2(0) == 1; }
  }

  /** The address and the PSID are the two parts of the EA bits. */
  lemma {:induction false} SplitIs(rule: Rule, pd: Prefix)
    requires Sound(rule) && Telling(rule) && Applies(rule, pd)
    ensures var r, ea := FromRule(rule, pd).value, Ea(rule, pd);
            && r.psid == ea % Pow2(r.psidLen) && Fits(r.offset, r.psidLen, r.psid)
            && r.ipv4 == Base4(rule.ip4.value) + ea / Pow2(r.psidLen)
            && 0 <= ea / Pow2(r.psidLen) < Pow2(HighLen(rule))
            && r.psidLen == PsidLen(rule)
  {
    hide Pow2, Or, Spans, Masked, Field, CeAddress, Ea, Base4, Matches;
    var ea, l := Ea(rule, pd), PsidLen(rule);
    EaBelow(rule, pd);
    OrClear(Base4(rule.ip4.value), ea / Pow2(l), HighLen(rule));
  }

  lemma {:induction false} EaBelow(rule: Rule, pd: Prefix)
    requires Sound(rule) && Telling(rule) && Applies(rule, pd)
    ensures 0 <= Ea(rule, pd) / Pow2(PsidLen(rule)) < Pow2(HighLen(rule)) <= 0x1_0000_0000
  {
    hide Pow2;
    var v := HighLen(rule);
    Pow2Add(PsidLen(rule), v);
    Pow2Mono(v, 32);
    Pow2Known();
    QuotientBelow(Ea(rule, pd), Pow2(PsidLen(rule)), Pow2(v));
  }

  lemma QuotientBelow(x: nat, c: nat, n: nat)
    requires c > 0 && x < c * n
    ensures 0 <= x / c < n
  {
    LastMultiple(c, x);
    MulMono(c, n, x / c);
    MulMono(c, x / c, -1);
  }

  lemma {:induction false} OrClear(base: nat, y: nat, n: nat)
    requires base % Pow2(n) == 0 && y < Pow2(n)
    ensures Or(base, y) == base + y
  {
    hide Pow2, Or;
    var c := Pow2(n);
    LastMultiple(c, base);
    MulMono(c, base / c, -1);
    var i: nat := base / c;
    assert c * i == i * c && base == c * i;
    OrApart(i, y, n);
  }

  /** The prefix has the port, of the rule's suffix-th address. */
  predicate Meets(rule: Rule, pd: Prefix, suffix: nat, port: nat)
    requires Sound(rule) && Applies(rule, pd)
  {
    var r := FromRule(rule, pd).value;
    r.ipv4 == Base4(rule.ip4.value) + suffix && Has(r.ports, port)
  }

  /** The EA bits that make up an address and a port. */
  function EaFor(rule: Rule, suffix: nat, port: nat): int
    requires Sound(rule) && Telling(rule)
  {
    Pow2(PsidLen(rule)) * suffix + port / Pow2(16 - Offset(rule) - PsidLen(rule)) % Pow2(PsidLen(rule))
  }

  predicate GivenOut(offset: nat, port: nat)
    requires offset <= 16
  {
    port <= 0xffff && (offset > 0 ==> port / Pow2(16 - offset) > 0)
  }

  /** An end-user prefix has a port of an address of the rule's exactly when its EA bits are the ones
      that make them up, and the port is one that is given out: none is without an owner. */
  lemma {:induction false} PairIff(rule: Rule, pd: Prefix, suffix: nat, port: nat)
    requires Sound(rule) && Telling(rule) && Applies(rule, pd) && suffix < Pow2(HighLen(rule))
    ensures Meets(rule, pd, suffix, port) <==> Ea(rule, pd) == EaFor(rule, suffix, port) && GivenOut(Offset(rule), port)
  {
    hide Pow2, Or, Spans, Has, Masked, Field, Ea, Base4, CeAddress;
    var r := FromRule(rule, pd).value;
    SplitIs(rule, pd);
    SpansOwn(r.offset, r.psidLen, r.psid, port);
    var p := port / Pow2(16 - r.offset - r.psidLen) % Pow2(r.psidLen);
    PairIs(Pow2(r.psidLen), suffix, p, Ea(rule, pd));
  }

  lemma {:induction false} EaIs(rule: Rule, pd: Prefix)
    requires Sound(rule) && Applies(rule, pd)
    ensures Ea(rule, pd) == Field(pd.addr, rule.ip6.value.bits, rule.eaLen)
  {
    hide Field, Masked, Pow2;
    FieldMasked(pd, rule.ip6.value.bits, rule.eaLen);
  }

  lemma {:induction false} AddressOf(rule: Rule, pd: Prefix) returns (suffix: nat)
    requires Sound(rule) && Telling(rule) && Applies(rule, pd)
    ensures suffix < Pow2(HighLen(rule)) && FromRule(rule, pd).value.ipv4 == Base4(rule.ip4.value) + suffix
  {
    hide Pow2, FromRule, Base4, Ea, Applies, HighLen, Clear, PsidLen;
    SplitIs(rule, pd);
    suffix := Ea(rule, pd) / Pow2(PsidLen(rule));
  }

  /** p and q have the same address, and the port of it. */
  predicate Shares(rule: Rule, p: Prefix, q: Prefix, port: nat)
    requires Sound(rule) && Applies(rule, p) && Applies(rule, q)
  {
    && FromRule(rule, p).value.ipv4 == FromRule(rule, q).value.ipv4
    && Has(FromRule(rule, p).value.ports, port) && Has(FromRule(rule, q).value.ports, port)
  }

  predicate SameEa(rule: Rule, p: Prefix, q: Prefix)
    requires Sound(rule) && Shaped(rule)
  {
    Field(p.addr, rule.ip6.value.bits, rule.eaLen) == Field(q.addr, rule.ip6.value.bits, rule.eaLen)
  }

  /** Two end-user prefixes under one rule that differ in their EA bits share no port of any address. */
  lemma {:induction false} NoneShared(rule: Rule, p: Prefix, q: Prefix, port: nat)
    requires Sound(rule) && Shaped(rule) && (Clear(rule) || Offset(rule) + PsidLen(rule) > 16)
    requires Applies(rule, p) && Applies(rule, q) && Shares(rule, p, q, port)
    ensures SameEa(rule, p, q)
  {
    hide Pow2, Or, Spans, Has, Masked, Field, Base4, Ea, CeAddress, EaFor, GivenOut;
    if rule.eaLen == 0 {
      FieldNone(p.addr, rule.ip6.value.bits);
      FieldNone(q.addr, rule.ip6.value.bits);
    } else if Offset(rule) + PsidLen(rule) > 16 {
      NoSpans(Offset(rule), PsidLen(rule), FromRule(rule, p).value.psid, port);
    } else {
      var suffix := AddressOf(rule, p);
      PairIff(rule, p, suffix, port);
      PairIff(rule, q, suffix, port);
      EaIs(rule, p);
      EaIs(rule, q);
    }
  }

  /** Of a port set that does not fit sixteen bits nothing is listed, whether the guard wraps or not. */
  lemma {:induction false} Spanless(offset: nat, psidLen: nat, psid: nat)
    requires offset < 256 && psidLen <= 16 && offset + psidLen > 16
    ensures Spans(offset, psidLen, psid) == []
  {
    hide SpansFrom, Shl32, Or;
    if offset > 16 {
      WrappedGuard(offset, psidLen, psid);
    } else {
      assert (offset + psidLen) % 256 == offset + psidLen;
    }
  }

  lemma {:induction false} NoSpans(offset: nat, psidLen: nat, psid: nat, port: nat)
    requires offset < 256 && psidLen <= 16 && offset + psidLen > 16
    ensures !Has(Spans(offset, psidLen, psid), port)
  {
    Spanless(offset, psidLen, psid);
  }

  /** An end-user prefix with the EA bits wanted. */
  lemma {:induction false} PrefixFor(rule: Rule, ea: nat) returns (pd: Prefix)
    requires Sound(rule) && Shaped(rule) && ea < Pow2(rule.eaLen)
    ensures Applies(rule, pd) && Ea(rule, pd) == ea == Field(pd.addr, rule.ip6.value.bits, rule.eaLen)
  {
    hide Pow2, Masked;
    var p, n := rule.ip6.value, rule.eaLen;
    var b, t, i := Pow2(n), Pow2(128 - p.bits - n), p.addr / Size(p);
    Pow2Add(128 - p.bits - n, n);
    MulMono(b, 0, i);
    MulMono(t, 0, b * i + ea);
    pd := Prefix(t * (b * i + ea), p.bits + n);
    MultipleIs(t, b * i + ea);
    PairIs(b, i, ea, b * i + ea);
    DivDiv(pd.addr, t, b);
    assert Contains(p, pd.addr);
    EaIs(rule, pd);
  }

  lemma {:induction false} OrSetBit(x: nat, j: nat)
    requires x / Pow2(j) % 2 == 1
    ensures Or(x, Pow2(j)) == x
  {
    hide Or;
    OrStep(x, Pow2(j));
    if j == 0 {
      OrZeroRight(x / 2);
    } else {
      var p := Pow2(j - 1);
      assert Pow2(j) == 2 * p;
      hide Pow2;
      DivDiv(x, 2, p);
      OrSetBit(x / 2, j - 1);
    }
  }

  lemma {:induction false} LowBit(x: nat, n: nat) returns (j: nat)
    requires x % Pow2(n) != 0
    ensures j < n && x / Pow2(j) % 2 == 1
  {
    if n == 0 {
      assert false;
    } else if x % 2 == 1 {
      j := 0;
    } else {
      ModTwice(x, Pow2(n - 1));
      j := LowBit(x / 2, n - 1);
      DivDiv(x, 2, Pow2(j));
      j := j + 1;
    }
  }

  /** Address bits that add nothing to the rule's IPv4 prefix. */
  lemma {:induction false} Unseen(rule: Rule) returns (y: nat)
    requires Sound(rule) && Shaped(rule) && !Clear(rule)
    ensures 0 < y < Pow2(HighLen(rule)) && Or(Base4(rule.ip4.value), y % 0x1_0000_0000) == Base4(rule.ip4.value)
  {
    hide Or, Pow2, Base4;
    var base, n := Base4(rule.ip4.value), HighLen(rule);
    Pow2Known();
    if n > 32 {
      y := Pow2(32);
      Pow2Less(32, n);
      OrZeroRight(base);
    } else {
      var j := LowBit(base, n);
      OrSetBit(base, j);
      Pow2Less(j, n);
      Pow2Mono(n, 32);
      y := Pow2(j);
    }
  }

  lemma {:induction false} Pow2Less(a: nat, b: nat)
    requires a < b
    ensures Pow2(a) < Pow2(b)
  {
    Pow2Mono(a + 1, b);
  }

  lemma {:induction false} SomePort(offset: nat, psidLen: nat) returns (port: nat)
    requires offset + psidLen <= 16
    ensures Has(Spans(offset, psidLen, 0), port)
  {
    hide Pow2, Spans, Has;
    port := if offset == 0 then 0 else Pow2(16 - offset);
    var b, c := Pow2(psidLen), Pow2(16 - offset - psidLen);
    Pow2Add(16 - offset - psidLen, psidLen);
    MultipleIs(c, b);
    MultipleIs(b, 1);
    MultipleIs(c, 0);
    MultipleIs(b, 0);
    Pow2Known();
    if offset > 0 {
      Pow2Less(16 - offset, 16);
      MultipleIs(Pow2(16 - offset), 1);
    }
    SpansOwn(offset, psidLen, 0, port);
  }

  lemma {:induction false} EaTells(rule: Rule, pd: Prefix, y: nat)
    requires Sound(rule) && Applies(rule, pd) && rule.eaLen > 0 && Ea(rule, pd) == Pow2(PsidLen(rule)) * y
    ensures var r := FromRule(rule, pd).value;
            && r.ipv4 == Or(Base4(rule.ip4.value), y % 0x1_0000_0000)
            && r.ports == Spans(Offset(rule), PsidLen(rule), 0)
  {
    hide Pow2, Or, Spans, Masked, Field, CeAddress, Ea, Base4, Matches;
    MultipleIs(Pow2(PsidLen(rule)), y);
  }

  lemma {:induction false} SomeShared(rule: Rule) returns (p: Prefix, q: Prefix, port: nat)
    requires Sound(rule) && Shaped(rule) && !Clear(rule) && Offset(rule) + PsidLen(rule) <= 16
    ensures Applies(rule, p) && Applies(rule, q) && Shares(rule, p, q, port) && !SameEa(rule, p, q)
  {
    hide Pow2, Or, Spans, Has, Masked, Field, CeAddress, Ea, Base4, FromRule;
    var y := Unseen(rule);
    var c := Pow2(PsidLen(rule));
    Pow2Add(PsidLen(rule), HighLen(rule));
    MulMono(c, y + 1, Pow2(HighLen(rule)));
    MulMono(c, 1, y);
    assert c * (y + 1) == c * y + c;
    p := PrefixFor(rule, 0);
    q := PrefixFor(rule, c * y);
    assert rule.eaLen > 0 by { NotNone(rule); }
    EaTells(rule, p, 0);
    EaTells(rule, q, y);
    OrZeroRight(Base4(rule.ip4.value));
    port := SomePort(Offset(rule), PsidLen(rule));
  }

  lemma NotNone(rule: Rule)
    requires Sound(rule) && Shaped(rule) && !Clear(rule)
    ensures rule.eaLen > 0
  {
  }

  /** Whether two prefixes that differ in their EA bits can share a port is told by the rule alone: they
      can exactly when there are ports, and EA bits of the address fall on bits the rule's IPv4 prefix has
      set, or off the end of it. */
  lemma {:induction false} NoneSharedIff(rule: Rule)
    requires Sound(rule) && Shaped(rule)
    ensures (forall p, q, port :: Applies(rule, p) && Applies(rule, q) && Shares(rule, p, q, port) ==> SameEa(rule, p, q))
              <==> Clear(rule) || Offset(rule) + PsidLen(rule) > 16
  {
    hide Applies, Shares, SameEa, Clear, Offset, PsidLen;
    if Clear(rule) || Offset(rule) + PsidLen(rule) > 16 {
      forall p, q, port | Applies(rule, p) && Applies(rule, q) && Shares(rule, p, q, port) ensures SameEa(rule, p, q) {
        NoneShared(rule, p, q, port);
      }
    } else {
      var p, q, port := SomeShared(rule);
    }
  }

  /** Such a rule: 192.0.2.0/24 with twenty-four EA bits, eight of them the PSID's, so that eight fall on the
      third byte of the address, which is not zero. */
  lemma {:induction false} SharingRule() returns (rule: Rule, p: Prefix, q: Prefix, port: nat)
    ensures rule == Rule(Some(Prefix(0x2001_0db8_0000_0000_0000_0000_0000_0000, 32)), Some(Net4(0xc000_0200, 24)),
                         24, Some(8), Some(6), None)
    ensures Sound(rule) && Shaped(rule) && !Clear(rule)
    ensures Applies(rule, p) && Applies(rule, q) && Shares(rule, p, q, port) && !SameEa(rule, p, q)
  {
    rule := Rule(Some(Prefix(0x2001_0db8_0000_0000_0000_0000_0000_0000, 32)), Some(Net4(0xc000_0200, 24)),
                 24, Some(8), Some(6), None);
    assert Pow2(8) == 0x100;
    hide Pow2;
    Pow2Known();
    MultipleIs(0x100, 0xc000_02);
    QuotientIs(0xc000_0200, 0x1_0000, 0xc000);
    assert Base4(rule.ip4.value) == 0xc000_0200;
    hide Applies, Shares, SameEa;
    p, q, port := SomeShared(rule);
  }

  // ---- What is listed is a set of ports

  lemma {:induction false} SpansFromAt(offset: nat, psidLen: nat, psid: nat, a: nat, end: nat)
    requires a <= end
    ensures var spans := SpansFrom(offset, psidLen, psid, a, end);
            |spans| == end - a && forall i :: 0 <= i < end - a ==> spans[i] == SpanAt(offset, psidLen, psid, a + i)
    decreases end - a
  {
    hide SpanAt;
    if a < end { SpansFromAt(offset, psidLen, psid, a + 1, end); }
  }

  /** x is span number n of those of c ports each. */
  predicate NthBlock(s: Span, c: nat, n: nat) {
    s.start == c * n && s.end == c * n + c - 1
  }

  lemma BlocksApart(s: Span, t: Span, c: nat, m: nat, n: nat)
    requires c > 0 && NthBlock(s, c, m) && NthBlock(t, c, n)
    ensures m < n ==> Apart(s, t)
    ensures m == n ==> !Apart(s, t)
  {
    MulMono(c, m + 1, n);
    assert c * (m + 1) == c * m + c;
  }

  /** The spans of a PSID of its own length are proper, and no two of them overlap. */
  lemma {:induction false} SpansApart(offset: nat, psidLen: nat, psid: nat)
    requires Fits(offset, psidLen, psid)
    ensures Proper(Spans(offset, psidLen, psid)) && Disjoint(Spans(offset, psidLen, psid))
  {
    hide Pow2, SpanAt, Shl32, Or, SpansFrom;
    var b, c := Pow2(psidLen), Pow2(16 - offset - psidLen);
    if offset == 0 {
      Pow2Known();
      WholeSpan(psidLen, psid);
      SpanIs(0, psidLen, psid, 0);
    } else {
      var spans := Spans(offset, psidLen, psid);
      ShlOne(offset);
      SpansFromAt(offset, psidLen, psid, 1, Pow2(offset));
      forall i | 0 <= i < |spans| ensures NthBlock(spans[i], c, b * (i + 1) + psid) && spans[i].end <= 0xffff {
        SpanIs(offset, psidLen, psid, i + 1);
      }
      forall i, j | 0 <= i < j < |spans| ensures Apart(spans[i], spans[j]) {
        MulMono(b, i + 2, j + 1);
        assert b * (i + 2) == b * (i + 1) + b;
        BlocksApart(spans[i], spans[j], c, b * (i + 1) + psid, b * (j + 1) + psid);
      }
      AllProper(spans, c);
    }
  }

  lemma AllProper(spans: seq<Span>, c: nat)
    requires c > 0 && forall i :: 0 <= i < |spans| ==> spans[i].end == spans[i].start + c - 1 && spans[i].end <= 0xffff
    ensures Proper(spans)
  {
  }

  // A PSID without a length, as a rule without EA bits may give it

  lemma {:induction false} OrScale(x: nat, y: nat, n: nat)
    ensures Or(x * Pow2(n), y * Pow2(n)) == Or(x, y) * Pow2(n)
  {
    if n > 0 {
      var p := Pow2(n - 1);
      assert Pow2(n) == 2 * p;
      hide Pow2, Or;
      OrScale(x, y, n - 1);
      Twice(x, p);
      Twice(y, p);
      Twice(Or(x, y), p);
      OrTwice(x * p, y * p);
    }
  }

  lemma Twice(x: nat, p: nat)
    ensures x * (2 * p) == 2 * (x * p) && x * p >= 0
  {
  }

  lemma OrTwice(u: nat, v: nat)
    ensures Or(2 * u, 2 * v) == 2 * Or(u, v)
  {
  }

  lemma {:induction false} OrSwap(x: nat, y: nat)
    ensures Or(x, y) == Or(y, x)
    decreases x + y
  {
    if x > 0 || y > 0 { OrSwap(x / 2, y / 2); }
  }

  lemma ModMul(x: nat, m: nat, c: nat)
    requires m > 0 && c > 0
    ensures m * c > 0 && (x * c) % (m * c) == x % m * c && 0 <= x % m * c <= m * c - c
    ensures x * c == (m * c) * (x / m) + x % m * c
  {
    var q, r, d := x / m, x % m, m * c;
    assert x == m * q + r;
    Spread(m, q, r, c);
    Product(c, r, m);
    Commutes(c, r);
    Commutes(c, m);
    MulNonNeg(c, r);
    Spread(1, q, 1, d);
    QuotientIs(x * c, d, q);
  }

  lemma Spread(m: nat, q: nat, r: nat, c: nat)
    ensures (m * q + r) * c == (m * c) * q + r * c && c * (m * q + r) == (m * c) * q + r * c
  {
    assert (m * q) * c == (m * c) * q;
  }

  lemma Commutes(a: nat, b: nat)
    ensures a * b == b * a
  {
  }

  /** Span a of such a set: the PSID's bits are ored into the first ones. */
  lemma {:induction false} LooseSpan(offset: nat, psid: nat, a: nat)
    requires 0 < offset <= 16 && psid < 0x1_0000 && a < Pow2(offset)
    ensures var c, n := Pow2(16 - offset), Or(a, psid) % Pow2(offset);
            NthBlock(SpanAt(offset, 0, psid, a), c, n) && SpanAt(offset, 0, psid, a).end <= 0xffff
  {
    hide Pow2, Or, Shl32;
    var k := 16 - offset;
    var c, m := Pow2(k), Pow2(offset);
    Pow2Add(offset, k);
    Pow2Known();
    Pow2Mono(k, 15);
    Pow2Fifteen();
    Shifted(a, k, m);
    Shifted(psid, k, 0x1_0000);
    Shifted(1, k, 2);
    OrScale(a, psid, k);
    LooseEnds(Or(a, psid), m, c);
  }

  lemma LooseEnds(x: nat, m: nat, c: nat)
    requires m > 0 && c > 0 && m * c == 0x1_0000
    ensures var n := x % m;
            && (x * c) % 0x1_0000 == c * n && (x * c + c - 1) % 0x1_0000 == c * n + c - 1 <= 0xffff
  {
    ModMul(x, m, c);
    var n, q := x % m, x / m;
    assert n * c == c * n;
    QuotientIs(x * c + c - 1, 0x1_0000, q);
  }

  lemma Pow2Fifteen()
    ensures Pow2(15) == 0x8000
  {
    Pow2Known();
    assert Pow2(16) == 2 * Pow2(15);
  }

  lemma Shifted(x: nat, k: nat, m: nat)
    requires k < 32 && x < m && m * Pow2(k) <= 0x8000_0000
    ensures Shl32(x, k) == x * Pow2(k)
  {
    hide Pow2;
    MulMono(Pow2(k), x, m);
    assert Pow2(k) * x == x * Pow2(k) && Pow2(k) * m == m * Pow2(k);
    ShlIs(x, k);
  }

  lemma {:induction false} OrAbsorbs(x: nat, y: nat, j: nat)
    requires y / Pow2(j) % 2 == 1 && x / Pow2(j) % 2 == 0
    ensures Or(x + Pow2(j), y) == Or(x, y)
  {
    hide Or;
    OrStep(x, y);
    OrStep(x + Pow2(j), y);
    if j > 0 {
      var p := Pow2(j - 1);
      assert Pow2(j) == 2 * p;
      hide Pow2;
      DivDiv(x, 2, p);
      DivDiv(y, 2, p);
      OrAbsorbs(x / 2, y / 2, j - 1);
    }
  }

  /** Two numbers below 2^n, none of them zero, that the PSID's bits make the same. */
  lemma {:induction false} Confused(psid: nat, n: nat) returns (x: nat, y: nat)
    requires n >= 2 && psid % Pow2(n) != 0
    ensures 0 < x < y < Pow2(n) && Or(x, psid) == Or(y, psid)
  {
    hide Or;
    var j := LowBit(psid, n);
    if j == 0 {
      x, y := 2, 3;
      Pow2Mono(2, n);
    } else {
      x, y := 1, 1 + Pow2(j);
      Pow2Mono(j + 1, n);
      Pow2Mono(1, j);
      QuotientIs(1, Pow2(j), 0);
    }
    OrAbsorbs(x, psid, j);
  }

  lemma {:induction false} Unmoved(psid: nat, n: nat, a: nat)
    requires psid % Pow2(n) == 0 && a < Pow2(n)
    ensures Or(a, psid) % Pow2(n) == a
  {
    hide Pow2, Or;
    OrSwap(a, psid);
    OrClear(psid, a, n);
    var q := psid / Pow2(n);
    LastMultiple(Pow2(n), psid);
    assert Pow2(n) * (q + 1) == Pow2(n) * q + Pow2(n);
    QuotientIs(psid + a, Pow2(n), q);
  }

  /** They are proper, and overlap exactly when there are several and the PSID has a bit there. */
  lemma {:induction false} LooseSpans(offset: nat, psid: nat)
    requires offset <= 16 && psid < 0x1_0000
    ensures Proper(Spans(offset, 0, psid))
    ensures Disjoint(Spans(offset, 0, psid)) <==> offset <= 1 || psid % Pow2(offset) == 0
  {
    hide Pow2, SpanAt, Or, SpansFrom;
    if offset == 0 {
      LooseWhole(psid);
    } else {
      hide Shl32;
      var spans, c := Spans(offset, 0, psid), Pow2(16 - offset);
      ShlOne(offset);
      SpansFromAt(offset, 0, psid, 1, Pow2(offset));
      forall i | 0 <= i < |spans|
        ensures NthBlock(spans[i], c, Or(i + 1, psid) % Pow2(offset)) && spans[i].end <= 0xffff
      {
        LooseSpan(offset, psid, i + 1);
      }
      AllProper(spans, c);
      if offset == 1 {
        Pow2One();
      } else if psid % Pow2(offset) == 0 {
        forall i, j | 0 <= i < j < |spans| ensures Apart(spans[i], spans[j]) {
          Unmoved(psid, offset, i + 1);
          Unmoved(psid, offset, j + 1);
          BlocksApart(spans[i], spans[j], c, i + 1, j + 1);
        }
      } else {
        var x, y := Confused(psid, offset);
        BlocksApart(spans[x - 1], spans[y - 1], c, Or(x, psid) % Pow2(offset), Or(y, psid) % Pow2(offset));
      }
    }
  }

  lemma Pow2One()
    ensures Pow2(1) == 2
  {
  }

  lemma LooseWhole(psid: nat)
    requires psid < 0x1_0000
    ensures Spans(0, 0, psid) == [Span(0, 0xffff)]
  {
    Pow2Known();
    hide Pow2;
  }

  /** Whatever rule is applied, what it lists is proper; its spans overlap exactly when the rule has no EA
      bits, gives a PSID all the same, and that has bits where the port's first ones are. */
  lemma {:induction false} RulePorts(rule: Rule, pd: Prefix)
    requires Sound(rule) && Applies(rule, pd)
    ensures var ports := FromRule(rule, pd).value.ports;
            Proper(ports) && (Disjoint(ports) <==>
              rule.eaLen > 0 || rule.psid.None? || Offset(rule) <= 1 || Offset(rule) > 16
              || rule.psid.value % Pow2(Offset(rule)) == 0)
  {
    hide Pow2, Or, Spans, Masked, Field, CeAddress, Ea, Base4, Matches;
    var offset, l, psid := Offset(rule), PsidLen(rule), FromRule(rule, pd).value.psid;
    if offset + l > 16 {
      Spanless(offset, l, psid);
    } else if rule.eaLen > 0 || rule.psid.None? {
      SpansApart(offset, l, psid);
    } else {
      LooseSpans(offset, psid);
    }
  }

  /** Such a rule: one address, 192.0.2.1, with PSID 1 and no EA bits. */
  lemma {:induction false} OverlappingRule() returns (rule: Rule, pd: Prefix)
    ensures rule == Rule(Some(Prefix(0x2001_0db8_0000_0000_0000_0000_0000_0000, 32)), Some(Net4(0xc000_0201, 32)),
                         0, Some(0), Some(6), Some(1))
    ensures Sound(rule) && Applies(rule, pd) && !Disjoint(FromRule(rule, pd).value.ports)
  {
    rule := Rule(Some(Prefix(0x2001_0db8_0000_0000_0000_0000_0000_0000, 32)), Some(Net4(0xc000_0201, 32)),
                 0, Some(0), Some(6), Some(1));
    assert Pow2(6) == 64;
    hide Disjoint, FromRule, Applies;
    pd := PrefixFor(rule, 0);
    RulePorts(rule, pd);
  }

  // ---- The table

  /** The rules by the leading bits of a prefix, with the leading bytes of the IPv4 address they give. */
  datatype Tables = Tables(rule38: map<nat, (Byte, Byte, Byte)>, rule31: map<nat, (Byte, Byte)>,
                           rule38x20: map<nat, (Byte, Byte, Byte)>)

  /** What the table gives is zero where the EA bits go. */
  ghost predicate Aligned(t: Tables) {
    && (forall k :: k in t.rule38 ==> t.rule38[k].2 % 4 == 0)
    && (forall k :: k in t.rule31 ==> t.rule31[k].1 % 2 == 0)
    && (forall k :: k in t.rule38x20 ==> t.rule38x20[k].2 % 16 == 0)
  }

  function Quad(a: nat, b: nat, c: nat, d: nat): nat {
    a * 0x100_0000 + b * 0x1_0000 + c * 0x100 + d
  }

  /** The four groups of sixteen bits a prefix is looked up by. */
  function Group(pd: Prefix, i: nat): nat
    requires pd.bits <= 128 && i < 4
  {
    Field(Masked(pd).addr, 16 * i, 16)
  }

  predicate KnownProvider(h0: nat, h1: nat) {
    h0 == 0x240b || (h0 == 0x2404 && 0x7a80 <= h1 < 0x7a88) || h0 == 0x2400 || h0 == 0x240d
  }

  /** calcMAPE. The provider's border relay is not part of the result here. */
  function Calc(t: Tables, pd: Prefix): Option<Result> {
    if !(56 <= pd.bits <= 128) then None else
    var h0, h1, h2, h3 := Group(pd, 0), Group(pd, 1), Group(pd, 2), Group(pd, 3);
    var key38 := h0 * 0x100_0000 + h1 * 0x100 + h2 / 0x400 * 4;
    var key31 := h0 * 0x1_0000 + h1 / 2 * 2;
    if !KnownProvider(h0, h1) then None
    else if key38 in t.rule38 then
      var o := t.rule38[key38];
      Some(Tabled(pd, Quad(o.0, o.1, o.2, 0), Quad(o.0, o.1, Or(o.2, h2 / 0x100 % 4), h2 % 0x100), 38, 8, 4, h3 / 0x100))
    else if key31 in t.rule31 then
      var o := t.rule31[key31];
      Some(Tabled(pd, Quad(o.0, o.1, 0, 0), Quad(o.0, Or(o.1, h1 % 2), h2 / 0x100, h2 % 0x100), 31, 8, 4, h3 / 0x100))
    else if key38 in t.rule38x20 then
      var o := t.rule38x20[key38];
      Some(Tabled(pd, Quad(o.0, o.1, o.2, 0), Quad(o.0, o.1, Or(o.2, h2 / 0x40 % 16), Or(h2 % 0x40 * 4, h3 / 0x4000)),
                  38, 6, 6, h3 / 0x100 % 0x40))
    else None
  }

  /** The rest of the result: the lengths follow from the rule's, and the interface identifier is one
      octet to the left of the RFC's. */
  function Tabled(pd: Prefix, rule4: nat, v4: nat, rule6Len: nat, psidLen: nat, offset: nat, psid: nat): Result
    requires 56 <= pd.bits <= 128 && rule6Len <= 56 && psidLen <= 56 - rule6Len <= 32 + psidLen
  {
    var eaLen := 56 - rule6Len;
    var rule4Len := 32 - (eaLen - psidLen);
    Result(v4, Net4(Base4(Net4(rule4, rule4Len)), rule4Len), Masked(Prefix(pd.addr, rule6Len)),
           eaLen, psidLen, offset, psid, Spans(offset, psidLen, psid),
           Field(Masked(pd).addr, 0, 56) * 256 * TWO_64 + v4 * 0x100_0000 + psid * 0x100)
  }

  /** s46. */
  function AsRule(r: Result): Rule {
    Rule(Some(r.rule6), Some(r.rule4), r.eaLen, Some(r.psidLen), Some(r.offset), Some(r.psid))
  }

  // ---- The table refines the rules

  /** The keys of the table are the prefix's leading bits: thirty-eight of them, or thirty-one; and by the
      first twenty-nine a provider can be told. */
  lemma {:induction false} KeysAre(pd: Prefix)
    requires 56 <= pd.bits <= 128
    ensures var h0, h1, h2 := Group(pd, 0), Group(pd, 1), Group(pd, 2);
            && h0 * 0x100_0000 + h1 * 0x100 + h2 / 0x400 * 4 == Field(Masked(pd).addr, 0, 38) * 4
            && h0 * 0x1_0000 + h1 / 2 * 2 == Field(Masked(pd).addr, 0, 31) * 2
            && h0 * 0x2000 + h1 / 8 == Field(Masked(pd).addr, 0, 29)
  {
    hide Pow2, Field, Masked;
    var a := Masked(pd).addr;
    Pow2Small();
    Pow2More();
    Pow2Keys();
    HalfField(a, 0, 16);
    HalfField(a, 16, 16);
    HalfField(a, 32, 16);
    HalfField(a, 0, 38);
    HalfField(a, 0, 31);
    HalfField(a, 0, 29);
    WordKeys(a / TWO_64);
  }

  /** Which prefixes are given a result: those of /56 and longer, of a provider that is known by the first
      sixteen bits or the first twenty-nine, that a table has the leading bits of. */
  lemma {:induction false} CalcIff(t: Tables, pd: Prefix)
    requires pd.bits <= 128
    ensures var a := Masked(pd).addr;
            Calc(t, pd).Some? <==>
              && 56 <= pd.bits
              && (Field(a, 0, 16) in {0x240b, 0x2400, 0x240d} || Field(a, 0, 29) == 0x2404_7a80 / 8)
              && (Field(a, 0, 38) * 4 in t.rule38 || Field(a, 0, 31) * 2 in t.rule31 || Field(a, 0, 38) * 4 in t.rule38x20)
  {
    hide Field, Masked, Tabled, Quad, Or, Pow2;
    if pd.bits >= 56 {
      KeysAre(pd);
      Pow2More();
      FirstBits(Group(pd, 0), Group(pd, 1));
    }
  }

  lemma FirstBits(h0: nat, h1: nat)
    requires h1 < 0x1_0000
    ensures KnownProvider(h0, h1) <==> h0 in {0x240b, 0x2400, 0x240d} || h0 * 0x2000 + h1 / 8 == 0x2404_7a80 / 8
  {
  }

  lemma QuadEven(a: Byte, b: Byte, c: Byte)
    ensures c % 4 == 0 ==> Quad(a, b, c, 0) % 0x400 == 0
    ensures c % 16 == 0 ==> Quad(a, b, c, 0) % 0x1000 == 0
    ensures b % 2 == 0 ==> Quad(a, b, 0, 0) % 0x2_0000 == 0
  {
  }

  lemma TabledIs(pd: Prefix, rule4: nat, v4: nat, n: nat, psidLen: nat, offset: nat, psid: nat, c: nat)
    requires 56 <= pd.bits <= 128 && n <= 56 && psidLen <= 56 - n <= 32 + psidLen
    requires Pow2(56 - n - psidLen) == c && rule4 % c == 0
    ensures var r := Tabled(pd, rule4, v4, n, psidLen, offset, psid);
            Of(r, pd, n, offset, psidLen) && r.rule4 == Net4(rule4, 32 - (56 - n - psidLen))
  {
    hide Pow2, Base4;
    BaseIs(rule4, 32 - (56 - n - psidLen), c);
  }

  /** The rule is the one of the first table that has one: its IPv4 prefix is what the table gives. */
  lemma {:induction false} EntryIs(t: Tables, pd: Prefix)
    requires Aligned(t) && Calc(t, pd).Some?
    ensures var (a, r) := (Masked(pd).addr, Calc(t, pd).value);
            var k, l := Field(a, 0, 38) * 4, Field(a, 0, 31) * 2;
            if k in t.rule38 then
              Of(r, pd, 38, 4, 8) && r.rule4 == Net4(Quad(t.rule38[k].0, t.rule38[k].1, t.rule38[k].2, 0), 22)
            else if l in t.rule31 then
              Of(r, pd, 31, 4, 8) && r.rule4 == Net4(Quad(t.rule31[l].0, t.rule31[l].1, 0, 0), 15)
            else
              && k in t.rule38x20 && Of(r, pd, 38, 6, 6)
              && r.rule4 == Net4(Quad(t.rule38x20[k].0, t.rule38x20[k].1, t.rule38x20[k].2, 0), 20)
  {
    hide Pow2, Field, Masked, Or, Tabled, Of, Group, Quad, KnownProvider;
    KeysAre(pd);
    Pow2Small();
    Pow2More();
    var k, l := Field(Masked(pd).addr, 0, 38) * 4, Field(Masked(pd).addr, 0, 31) * 2;
    var h1, h2, h3 := Group(pd, 1), Group(pd, 2), Group(pd, 3);
    if k in t.rule38 {
      var o := t.rule38[k];
      QuadEven(o.0, o.1, o.2);
      TabledIs(pd, Quad(o.0, o.1, o.2, 0), Quad(o.0, o.1, Or(o.2, h2 / 0x100 % 4), h2 % 0x100), 38, 8, 4, h3 / 0x100, 0x400);
    } else if l in t.rule31 {
      var o := t.rule31[l];
      QuadEven(o.0, o.1, 0);
      TabledIs(pd, Quad(o.0, o.1, 0, 0), Quad(o.0, Or(o.1, h1 % 2), h2 / 0x100, h2 % 0x100), 31, 8, 4, h3 / 0x100, 0x2_0000);
    } else {
      var o := t.rule38x20[k];
      QuadEven(o.0, o.1, o.2);
      TabledIs(pd, Quad(o.0, o.1, o.2, 0), Quad(o.0, o.1, Or(o.2, h2 / 0x40 % 16), Or(h2 % 0x40 * 4, h3 / 0x4000)),
               38, 6, 6, h3 / 0x100 % 0x40, 0x1000);
    }
  }

  /** The result is of the first n bits of the prefix, with the PSID as long and where it is said. */
  predicate Of(r: Result, pd: Prefix, n: nat, offset: nat, psidLen: nat)
    requires n <= 56
  {
    r.rule6 == Masked(Prefix(pd.addr, n)) && r.eaLen == 56 - n && r.offset == offset && r.psidLen == psidLen
  }

  /** A Quad is the four bytes of an address. */
  lemma QuadIs(b: seq<Byte>)
    requires |b| == 4
    ensures var v := Quad(b[0], b[1], b[2], b[3]);
            v / 0x100_0000 == b[0] && v / 0x1_0000 % 0x100 == b[1] && v / 0x100 % 0x100 == b[2] && v % 0x100 == b[3]
  {
    var v := Quad(b[0], b[1], b[2], b[3]);
    var x: nat := 0x100 * (b[0] as nat) + b[1];
    var y: nat := x * 0x100 + b[2];
    assert v == y * 0x100 + b[3];
    hide Quad;
    QuotientIs(v, 0x100, y);
    QuotientIs(v, 0x1_0000, x);
    QuotientIs(v, 0x100_0000, b[0]);
    LastByte(b[0], b[1]);
    LastByte(x, b[2]);
    LastByte(y, b[3]);
  }

  lemma LastByte(x: nat, b: Byte)
    ensures (x * 0x100 + b) % 0x100 == b
  {
  }

  lemma Pow2Keys()
    ensures Pow2(26) == 0x400_0000 && Pow2(33) == 0x2_0000_0000 && Pow2(38) == 0x40_0000_0000 && Pow2(31) == 0x8000_0000
            && Pow2(35) == 0x8_0000_0000 && Pow2(29) == 0x2000_0000
  {
    Pow2More();
    Pow2Small();
    assert Pow2(3) == 8 && Pow2(5) == 32 && Pow2(15) == 0x8000 && Pow2(25) == 0x200_0000 by { Pow2Fifteen(); }
    hide Pow2;
    Pow2Add(25, 1);
    Pow2Add(32, 1);
    Pow2Add(32, 6);
    Pow2Add(16, 15);
    Pow2Add(32, 3);
    Pow2Add(25, 4);
  }

  lemma WordKeys(w: nat)
    ensures var h0, h1, h2 := w / 0x1_0000_0000_0000 % 0x1_0000, w / 0x1_0000_0000 % 0x1_0000, w / 0x1_0000 % 0x1_0000;
            && h0 * 0x100_0000 + h1 * 0x100 + h2 / 0x400 * 4 == w / 0x400_0000 % 0x40_0000_0000 * 4
            && h0 * 0x1_0000 + h1 / 2 * 2 == w / 0x2_0000_0000 % 0x8000_0000 * 2
            && h0 * 0x2000 + h1 / 8 == w / 0x8_0000_0000 % 0x2000_0000
  {
    var x, l := w / 0x1_0000, w % 0x1_0000;
    var y, h2 := x / 0x1_0000, x % 0x1_0000;
    var z, h1 := y / 0x1_0000, y % 0x1_0000;
    var q, h0 := z / 0x1_0000, z % 0x1_0000;
    DivDiv(w, 0x1_0000, 0x1_0000);
    DivDiv(w, 0x1_0000_0000, 0x1_0000);
    DivDiv(w, 0x1_0000, 0x400);
    DivDiv(w, 0x1_0000_0000, 2);
    DivDiv(w, 0x1_0000_0000, 8);
    KeyParts(q, h0, h1, h2, x, y, z);
  }

  lemma KeyParts(q: nat, h0: nat, h1: nat, h2: nat, x: nat, y: nat, z: nat)
    requires x == 0x1_0000 * y + h2 && y == 0x1_0000 * z + h1 && z == 0x1_0000 * q + h0
    requires h0 < 0x1_0000 && h1 < 0x1_0000 && h2 < 0x1_0000
    ensures x / 0x400 % 0x40_0000_0000 * 4 == h0 * 0x100_0000 + h1 * 0x100 + h2 / 0x400 * 4
    ensures y / 2 % 0x8000_0000 * 2 == h0 * 0x1_0000 + h1 / 2 * 2
    ensures y / 8 % 0x2000_0000 == h0 * 0x2000 + h1 / 8
  {
    QuotientIs(x, 0x400, 0x40 * y + h2 / 0x400);
    QuotientIs(0x40 * y + h2 / 0x400, 0x40_0000_0000, q);
    QuotientIs(y, 2, 0x8000 * z + h1 / 2);
    QuotientIs(0x8000 * z + h1 / 2, 0x8000_0000, q);
    QuotientIs(y, 8, 0x2000 * z + h1 / 8);
    QuotientIs(0x2000 * z + h1 / 8, 0x2000_0000, q);
  }

  lemma {:induction false} HalfField(a: nat, start: nat, n: nat)
    requires start + n <= 64
    ensures Field(a, start, n) == a / TWO_64 / Pow2(64 - start - n) % Pow2(n)
  {
    hide Pow2;
    Pow2Known();
    Pow2Add(64, 64 - start - n);
    DivDiv(a, Pow2(64), Pow2(64 - start - n));
  }

  lemma {:induction false} Pow2Small()
    ensures Pow2(0) == 1 && Pow2(1) == 2 && Pow2(2) == 4 && Pow2(4) == 16 && Pow2(6) == 0x40 && Pow2(8) == 0x100
    ensures Pow2(10) == 0x400 && Pow2(12) == 0x1000
  {
  }

  lemma {:induction false} Pow2More()
    ensures Pow2(16) == 0x1_0000 && Pow2(17) == 0x2_0000 && Pow2(18) == 0x4_0000 && Pow2(25) == 0x200_0000
    ensures Pow2(32) == 0x1_0000_0000 && Pow2(48) == 0x1_0000_0000_0000
  {
    Pow2Small();
    Pow2Known();
    hide Pow2;
    Pow2Add(16, 1);
    Pow2Add(16, 2);
    Pow2Add(17, 8);
    Pow2Add(32, 16);
  }

  /** The EA bits of the table's rules, out of the groups. */
  lemma {:induction false} EaOfGroups(pd: Prefix)
    requires 56 <= pd.bits <= 128
    ensures var a, h1, h2, h3 := Masked(pd).addr, Group(pd, 1), Group(pd, 2), Group(pd, 3);
            && h1 < 0x1_0000 && h2 < 0x1_0000 && h3 < 0x1_0000
            && Field(a, 38, 18) == h2 % 0x400 * 0x100 + h3 / 0x100
            && Field(a, 31, 25) == h1 % 2 * 0x100_0000 + h2 * 0x100 + h3 / 0x100
  {
    hide Pow2, Field, Masked;
    var a := Masked(pd).addr;
    Pow2Small();
    Pow2More();
    HalfField(a, 16, 16);
    HalfField(a, 32, 16);
    HalfField(a, 48, 16);
    HalfField(a, 38, 18);
    HalfField(a, 31, 25);
    WordEa(a / TWO_64);
  }

  lemma WordEa(w: nat)
    ensures var h1, h2, h3 := w / 0x1_0000_0000 % 0x1_0000, w / 0x1_0000 % 0x1_0000, w % 0x1_0000;
            && w / 0x100 % 0x4_0000 == h2 % 0x400 * 0x100 + h3 / 0x100
            && w / 0x100 % 0x200_0000 == h1 % 2 * 0x100_0000 + h2 * 0x100 + h3 / 0x100
  {
    var a, r := w / 0x1_0000, w % 0x1_0000 / 0x100;
    BytesOf(w);
    DivDiv(w, 0x1_0000, 0x1_0000);
    ModScale(a, r, 0x400);
    ModScale(a, r, 0x2_0000);
    LowBits(a);
  }

  lemma BytesOf(w: nat)
    ensures w / 0x100 == w / 0x1_0000 * 0x100 + w % 0x1_0000 / 0x100 && w % 0x1_0000 / 0x100 < 0x100
  {
  }

  lemma LowBits(a: nat)
    ensures a % 0x400 == a % 0x1_0000 % 0x400
    ensures a % 0x2_0000 == a / 0x1_0000 % 0x1_0000 % 2 * 0x1_0000 + a % 0x1_0000
  {
    var b, l := a / 0x1_0000, a % 0x1_0000;
    QuotientIs(a, 0x400, 0x40 * b + l / 0x400);
    QuotientIs(b, 2, 0x8000 * (b / 0x1_0000) + b % 0x1_0000 / 2);
    QuotientIs(a, 0x2_0000, b / 2);
  }

  lemma ModScale(a: nat, r: nat, m: nat)
    requires r < 0x100 && m > 0
    ensures (a * 0x100 + r) % (m * 0x100) == a % m * 0x100 + r
  {
    var i, j := a / m, a % m;
    LastMultiple(m, a);
    assert a == m * i + j;
    assert (m * 0x100) * i == 0x100 * (m * i);
    assert (m * 0x100) * (i + 1) == 0x100 * (m * i) + m * 0x100;
    QuotientIs(a * 0x100 + r, m * 0x100, i);
  }

  lemma {:induction false} Base4Again(n: Net4)
    requires n.bits <= 32
    ensures Base4(Net4(Base4(n), n.bits)) == Base4(n)
  {
    hide Pow2;
    var c := Pow2(32 - n.bits);
    MultipleIs(c, n.addr / c);
    assert Base4(n) == c * (n.addr / c);
  }

  /** A result of the table is what its rule, in the option's form, makes of the prefix, as soon as its
      address and its PSID are the parts of the EA bits. */
  lemma {:induction false} TabledRefines(pd: Prefix, rule4: nat, v4: nat, rule6Len: nat, psidLen: nat, offset: nat, psid: nat)
    requires 56 <= pd.bits <= 128 && rule6Len < 56 && psidLen <= 56 - rule6Len <= 32 + psidLen
    requires rule4 < 0x1_0000_0000 && offset + psidLen <= 16
    requires var ea := Field(Masked(pd).addr, rule6Len, 56 - rule6Len);
             psid == ea % Pow2(psidLen) && v4 == Base4(Net4(rule4, rule6Len - 24 + psidLen)) + ea / Pow2(psidLen)
    ensures var r := Tabled(pd, rule4, v4, rule6Len, psidLen, offset, psid);
            Sound(AsRule(r)) && FromRule(AsRule(r), pd) == Some(r.(ce := CeAddress(pd, v4, psid)))
  {
    hide Pow2, Field, Or, Spans, Base4, CeAddress, Masked;
    var r := Tabled(pd, rule4, v4, rule6Len, psidLen, offset, psid);
    var rule := AsRule(r);
    var p6 := Prefix(pd.addr, rule6Len);
    Base4Again(Net4(rule4, rule6Len - 24 + psidLen));
    Base4Below(Net4(rule4, rule6Len - 24 + psidLen));
    MaskedIs(p6);
    MaskedContains(p6);
    Pow2Mono(psidLen, 16);
    Pow2Known();
    ExactIsClear(rule);
    SplitIs(rule, pd);
  }

  lemma {:induction false} Base4Below(n: Net4)
    requires n.bits <= 32
    ensures Base4(n) <= n.addr
  {
    hide Pow2;
    LastMultiple(Pow2(32 - n.bits), n.addr);
  }

  lemma {:induction false} MaskedContains(p: Prefix)
    requires p.bits <= 128
    ensures Contains(Masked(p), p.addr)
  {
    MaskedIs(p);
    MaskedIs(Masked(p));
  }

  lemma {:induction false} OrByte(o: nat, x: nat, n: nat)
    requires n <= 4 && o % Pow2(n) == 0 && x < Pow2(n)
    ensures Or(o, x) == o + x
  {
    hide Pow2, Or;
    var i := o / Pow2(n);
    LastMultiple(Pow2(n), o);
    assert o == i * Pow2(n);
    OrApart(i, x, n);
  }

  lemma {:induction false} BaseIs(a: nat, bits: nat, c: nat)
    requires bits <= 32 && Pow2(32 - bits) == c && a % c == 0
    ensures Base4(Net4(a, bits)) == a
  {
    hide Pow2;
    LastMultiple(c, a);
  }

  /** Both parts of eighteen EA bits, eight of them the PSID's. */
  lemma EaParts(h2: nat, h3: nat)
    requires h2 < 0x1_0000 && h3 < 0x1_0000
    ensures var ea := h2 % 0x400 * 0x100 + h3 / 0x100;
            ea % 0x100 == h3 / 0x100 && ea / 0x100 == h2 % 0x400 == h2 / 0x100 % 4 * 0x100 + h2 % 0x100
  {
  }

  /** And six. */
  lemma EaParts6(h2: nat, h3: nat)
    requires h2 < 0x1_0000 && h3 < 0x1_0000
    ensures var ea := h2 % 0x400 * 0x100 + h3 / 0x100;
            && ea % 0x40 == h3 / 0x100 % 0x40
            && ea / 0x40 == h2 / 0x40 % 16 * 0x100 + (h2 % 0x40 * 4 + h3 / 0x4000)
  {
    var ea, x := h2 % 0x400 * 0x100 + h3 / 0x100, h3 / 0x100;
    DivDiv(h3, 0x100, 0x40);
    QuotientIs(ea, 0x40, h2 % 0x400 * 4 + x / 0x40);
    assert h2 % 0x400 == h2 / 0x40 % 16 * 0x40 + h2 % 0x40 by {
      QuotientIs(h2, 0x400, h2 / 0x40 / 16);
    }
  }

  /** And of twenty-five, with the address the EA bits are added to. */
  lemma Quad31(a: Byte, b: Byte, h1: nat, h2: nat, h3: nat)
    requires b % 2 == 0 && h2 < 0x1_0000 && h3 < 0x1_0000
    ensures var ea := h1 % 2 * 0x100_0000 + h2 * 0x100 + h3 / 0x100;
            && ea % 0x100 == h3 / 0x100
            && Quad(a, b + h1 % 2, h2 / 0x100, h2 % 0x100) == Quad(a, b, 0, 0) + ea / 0x100
    ensures Quad(a, b, 0, 0) % 0x2_0000 == 0 && Quad(a, b, 0, 0) < 0x1_0000_0000
  {
    var n, low := h1 % 2 * 0x1_0000 + h2, h3 / 0x100;
    assert h1 % 2 * 0x100_0000 + h2 * 0x100 + low == 0x100 * n + low;
    QuotientIs(0x100 * n + low, 0x100, n);
    QuotientIs(h2, 0x100, h2 / 0x100);
    assert Quad(a, b, 0, 0) == 0x2_0000 * (a * 0x80 + b / 2);
    MultipleIs(0x2_0000, a * 0x80 + b / 2);
  }

  /** The address the table's bytes and the EA bits add up to, and what the bytes are without them. */
  lemma Quad38(a: Byte, b: Byte, c: Byte, h2: nat)
    requires c % 4 == 0
    ensures Quad(a, b, c + h2 / 0x100 % 4, h2 % 0x100) == Quad(a, b, c, 0) + (h2 / 0x100 % 4 * 0x100 + h2 % 0x100)
    ensures Quad(a, b, c, 0) % 0x400 == 0 && Quad(a, b, c, 0) < 0x1_0000_0000
  {
    assert Quad(a, b, c, 0) == 0x400 * (a * 0x4000 + b * 0x40 + c / 4);
    MultipleIs(0x400, a * 0x4000 + b * 0x40 + c / 4);
  }

  lemma Quad38x20(a: Byte, b: Byte, c: Byte, h2: nat, x: nat)
    requires c % 16 == 0
    ensures Quad(a, b, c + h2 / 0x40 % 16, h2 % 0x40 * 4 + x)
              == Quad(a, b, c, 0) + (h2 / 0x40 % 16 * 0x100 + (h2 % 0x40 * 4 + x))
    ensures Quad(a, b, c, 0) % 0x1000 == 0 && Quad(a, b, c, 0) < 0x1_0000_0000
  {
    assert Quad(a, b, c, 0) == 0x1000 * (a * 0x1000 + b * 0x10 + c / 16);
    MultipleIs(0x1000, a * 0x1000 + b * 0x10 + c / 16);
  }

  lemma {:induction false} Rule38(pd: Prefix, o: (Byte, Byte, Byte))
    requires 56 <= pd.bits <= 128 && o.2 % 4 == 0
    ensures var h2, h3 := Group(pd, 2), Group(pd, 3);
            var v4 := Quad(o.0, o.1, Or(o.2, h2 / 0x100 % 4), h2 % 0x100);
            var r := Tabled(pd, Quad(o.0, o.1, o.2, 0), v4, 38, 8, 4, h3 / 0x100);
            Sound(AsRule(r)) && FromRule(AsRule(r), pd) == Some(r.(ce := CeAddress(pd, v4, r.psid)))
  {
    hide Pow2, Field, Or, Spans, Base4, CeAddress, Masked, FromRule, Quad;
    var h2, h3 := Group(pd, 2), Group(pd, 3);
    EaOfGroups(pd);
    hide Group;
    Pow2Small();
    EaParts(h2, h3);
    Quad38(o.0, o.1, o.2, h2);
    OrByte(o.2, h2 / 0x100 % 4, 2);
    BaseIs(Quad(o.0, o.1, o.2, 0), 22, 0x400);
    TabledRefines(pd, Quad(o.0, o.1, o.2, 0), Quad(o.0, o.1, Or(o.2, h2 / 0x100 % 4), h2 % 0x100), 38, 8, 4, h3 / 0x100);
  }

  lemma {:induction false} Rule31(pd: Prefix, o: (Byte, Byte))
    requires 56 <= pd.bits <= 128 && o.1 % 2 == 0
    ensures var h1, h2, h3 := Group(pd, 1), Group(pd, 2), Group(pd, 3);
            var v4 := Quad(o.0, Or(o.1, h1 % 2), h2 / 0x100, h2 % 0x100);
            var r := Tabled(pd, Quad(o.0, o.1, 0, 0), v4, 31, 8, 4, h3 / 0x100);
            Sound(AsRule(r)) && FromRule(AsRule(r), pd) == Some(r.(ce := CeAddress(pd, v4, r.psid)))
  {
    hide Pow2, Field, Or, Spans, Base4, CeAddress, Masked, FromRule, Quad;
    var h1, h2, h3 := Group(pd, 1), Group(pd, 2), Group(pd, 3);
    EaOfGroups(pd);
    hide Group;
    Pow2Small();
    Pow2More();
    OrByte(o.1, h1 % 2, 1);
    Quad31(o.0, o.1, h1, h2, h3);
    BaseIs(Quad(o.0, o.1, 0, 0), 15, 0x2_0000);
    TabledRefines(pd, Quad(o.0, o.1, 0, 0), Quad(o.0, Or(o.1, h1 % 2), h2 / 0x100, h2 % 0x100), 31, 8, 4, h3 / 0x100);
  }

  lemma {:induction false} Rule38x20(pd: Prefix, o: (Byte, Byte, Byte))
    requires 56 <= pd.bits <= 128 && o.2 % 16 == 0
    ensures var h2, h3 := Group(pd, 2), Group(pd, 3);
            var v4 := Quad(o.0, o.1, Or(o.2, h2 / 0x40 % 16), Or(h2 % 0x40 * 4, h3 / 0x4000));
            var r := Tabled(pd, Quad(o.0, o.1, o.2, 0), v4, 38, 6, 6, h3 / 0x100 % 0x40);
            Sound(AsRule(r)) && FromRule(AsRule(r), pd) == Some(r.(ce := CeAddress(pd, v4, r.psid)))
  {
    hide Pow2, Field, Or, Spans, Base4, CeAddress, Masked, FromRule, Quad;
    var h2, h3 := Group(pd, 2), Group(pd, 3);
    EaOfGroups(pd);
    hide Group;
    Pow2Small();
    EaParts6(h2, h3);
    Quad38x20(o.0, o.1, o.2, h2, h3 / 0x4000);
    OrByte(o.2, h2 / 0x40 % 16, 4);
    OrByte(h2 % 0x40 * 4, h3 / 0x4000, 2);
    BaseIs(Quad(o.0, o.1, o.2, 0), 20, 0x1000);
    TabledRefines(pd, Quad(o.0, o.1, o.2, 0), Quad(o.0, o.1, Or(o.2, h2 / 0x40 % 16), Or(h2 % 0x40 * 4, h3 / 0x4000)),
                  38, 6, 6, h3 / 0x100 % 0x40);
  }

  /** Whatever prefix the table matches, the option's algorithm applied to the table's own rule gives the
      same address, PSID and ports: all of the result but the CE's address, whose identifier the table
      has one octet to the left. */
  lemma {:induction false} CalcRefines(t: Tables, pd: Prefix)
    requires Aligned(t) && Calc(t, pd).Some?
    ensures var r := Calc(t, pd).value;
            Sound(AsRule(r)) && FromRule(AsRule(r), pd) == Some(r.(ce := CeAddress(pd, r.ipv4, r.psid)))
  {
    hide Pow2, Field, Or, Spans, Base4, CeAddress, Masked, FromRule, Group, Quad;
    var h0, h1, h2 := Group(pd, 0), Group(pd, 1), Group(pd, 2);
    var key38 := h0 * 0x100_0000 + h1 * 0x100 + h2 / 0x400 * 4;
    var key31 := h0 * 0x1_0000 + h1 / 2 * 2;
    if key38 in t.rule38 {
      Rule38(pd, t.rule38[key38]);
    } else if key31 in t.rule31 {
      Rule31(pd, t.rule31[key31]);
    } else {
      Rule38x20(pd, t.rule38x20[key38]);
    }
  }

  /** The two forms of the identifier are one octet apart, and either tells the address and the PSID. */
  lemma {:induction false} CeTells(pd: Prefix, v4: nat, psid: nat)
    requires 56 <= pd.bits <= 128 && v4 < 0x1_0000_0000 && psid < 0x1_0000
    ensures var ce := CeAddress(pd, v4, psid);
            && ce / 0x1_0000 % 0x1_0000_0000 == v4 && ce % 0x1_0000 == psid
            && Tabled(pd, 0, v4, 38, 8, 4, psid).ce % TWO_64 == 0x100 * (ce % TWO_64)
  {
    hide Pow2, Field, Base4, Spans, Masked;
    var i, j := Masked(pd).addr / TWO_64, Field(Masked(pd).addr, 0, 56);
    InBlock(TWO_64, i, CeAddress(pd, v4, psid));
    InBlock(TWO_64, j * 256, Tabled(pd, 0, v4, 38, 8, 4, psid).ce);
    LowHalf(i, v4, psid);
  }

  lemma LowHalf(i: nat, v4: nat, psid: nat)
    requires v4 < 0x1_0000_0000 && psid < 0x1_0000
    ensures var ce := i * TWO_64 + v4 * 0x1_0000 + psid; ce / 0x1_0000 % 0x1_0000_0000 == v4 && ce % 0x1_0000 == psid
  {
    var x := i * 0x1_0000_0000_0000 + v4;
    PairIs(0x1_0000, x, psid, i * TWO_64 + v4 * 0x1_0000 + psid);
    PairIs(0x1_0000_0000, i * 0x1_0000, v4, x);
  }
}
