/** Delegating prefixes to downstream routers out of the upstream delegation (section 18.3 of RFC 8415).

The clock, the hash a search starts from and the snapshot of the prefixes are given. */
module PrefixPool {
  import opened Arith
  import opened Wire
  import opened Prefixes

  const MAX_PROBES: nat := 4096

  datatype Source = Delegation | Advertised | Local

  /** What of a prefix of the snapshot is read here. */
  datatype Upstream = Upstream(prefix: Prefix, source: Source, deprecated: bool, exclude: Option<Prefix>,
                               preferred: int, valid: int)

  datatype Snapshot = Snapshot(lan: seq<Prefix>, wan: seq<Upstream>, ula: seq<Upstream>)

  datatype Key = Key(duid: string, iaid: nat, ula: bool)

  datatype Lease = Lease(prefix: Prefix, iface: string, peer: nat, expires: int)

  type Leases = map<Key, Lease>

  predicate Sound(s: Snapshot) {
    && (forall p :: p in s.lan ==> p.bits <= 128)
    && (forall u :: u in s.wan + s.ula ==>
          Valid(u.prefix) && (u.exclude.Some? ==> u.exclude.value.bits <= 128))
  }

  // ---- What may be delegated

  predicate Delegable(u: Upstream, ula: bool) {
    (ula || u.source.Delegation?) && !u.deprecated && u.prefix.bits < 64
  }

  function Delegables(us: seq<Upstream>, ula: bool): (r: seq<Upstream>)
    ensures forall u :: u in r <==> u in us && Delegable(u, ula)
  {
    if us == [] then []
    else (if Delegable(us[0], ula) then [us[0]] else []) + Delegables(us[1..], ula)
  }

  function Upstreams(s: Snapshot, ula: bool): (r: seq<Upstream>)
    ensures forall u :: u in r <==> u in (if ula then s.ula else s.wan) && Delegable(u, ula)
  {
    Delegables(if ula then s.ula else s.wan, ula)
  }

  /** The shortest length out of a delegation of length up. */
  function Shortest(plen: nat, up: nat): (n: nat)
    ensures plen == 0 && up < 64 ==> up < n <= 64
  {
    if plen > 0 then plen else if up < 48 then 48 else if up < 56 then 56 else if up < 60 then 60 else 64
  }

  /** pf is clear of the LANs, of the WAN link and of what the ISP keeps for it. */
  predicate Unused(s: Snapshot, pf: Prefix)
    requires Sound(s) && pf.bits <= 128
  {
    && (forall l :: l in s.lan ==> !Overlaps(l, pf))
    && (forall w :: w in s.wan ==>
          && !(w.source.Advertised? && Overlaps(w.prefix, pf))
          && !(w.exclude.Some? && Overlaps(w.exclude.value, pf)))
  }

  predicate Free(s: Snapshot, leases: Leases, now: int, pf: Prefix, key: Key)
    requires Sound(s) && pf.bits <= 128 && Carved(leases)
  {
    && Unused(s, pf)
    && forall k :: k in leases && k != key && now < leases[k].expires ==> !Overlaps(leases[k].prefix, pf)
  }

  predicate Carved(leases: Leases) {
    forall k :: k in leases ==> Part(leases[k].prefix)
  }

  predicate Part(pf: Prefix) {
    pf.bits <= 64 && Masked(pf) == pf
  }

  /** pf may be key's: part of u, of a length that is delegated, and free. */
  predicate Fit(plen: nat, s: Snapshot, leases: Leases, now: int, u: Upstream, pf: Prefix, key: Key)
    requires Sound(s) && pf.bits <= 128 && Carved(leases) && u.prefix.bits <= 128
  {
    Inside(pf, u.prefix) && Shortest(plen, u.prefix.bits) <= pf.bits <= 64 && Free(s, leases, now, pf, key)
  }

  /** The upstream delegation looked at for pf, the first it lies in. */
  function Around(ups: seq<Upstream>, pf: Prefix): (r: Option<Upstream>)
    requires forall u :: u in ups ==> u.prefix.bits <= 128
    ensures r.Some? ==> r.value in ups && Inside(pf, r.value.prefix)
    ensures r.None? ==> forall u :: u in ups ==> !Inside(pf, u.prefix)
  {
    if ups == [] then None else if Inside(pf, ups[0].prefix) then Some(ups[0]) else Around(ups[1..], pf)
  }

  predicate Usable(plen: nat, s: Snapshot, leases: Leases, now: int, ula: bool, pf: Prefix, key: Key)
    requires Sound(s) && pf.bits <= 128 && Carved(leases)
  {
    var u := Around(Upstreams(s, ula), pf);
    u.Some? && Fit(plen, s, leases, now, u.value, pf, key)
  }

  /** The length a search for a block in u begins with: the hint's, when that is allowed. */
  function FirstLength(plen: nat, u: Upstream, want: Option<Prefix>): (n: nat)
    ensures u.prefix.bits < n && Shortest(plen, u.prefix.bits) <= n
  {
    var hint := if want.None? then 0 else if want.value.bits > 64 then 64 else want.value.bits;
    var least := if Shortest(plen, u.prefix.bits) > hint then Shortest(plen, u.prefix.bits) else hint;
    if least > u.prefix.bits then least else u.prefix.bits + 1
  }

  /** The search begins with the longest of what the hint asks for, what is delegated by default, and what is
      inside the delegation at all; a hint beyond a /64 counts as one. */
  lemma FirstLengthIs(plen: nat, u: Upstream, want: Option<Prefix>)
    ensures var n, hint := FirstLength(plen, u, want), if want.None? then 0 else want.value.bits;
            && n >= Shortest(plen, u.prefix.bits) && n >= u.prefix.bits + 1 && (n >= hint || n >= 64)
            && (n == Shortest(plen, u.prefix.bits) || n == u.prefix.bits + 1 || n == hint || (n == 64 && hint > 64))
  {
  }

  /** A grant: pf out of u. */
  datatype Grant = Grant(pf: Prefix, u: Upstream)

  predicate Granted(plen: nat, s: Snapshot, leases: Leases, now: int, ula: bool, key: Key, g: Grant)
    requires Sound(s) && Carved(leases)
  {
    Part(g.pf) && g.u in Upstreams(s, ula) && Fit(plen, s, leases, now, g.u, g.pf, key)
  }

  /** A site's, and what is delegated in one. */
  const SIZES: set<nat> := {48, 56, 60, 64}

  /** By default a delegation is cut into the next of the usual sizes, which leaves each level room; a
      configured size is used as it is. */
  lemma ShortestIs(plen: nat, up: nat)
    ensures plen > 0 ==> Shortest(plen, up) == plen
    ensures plen == 0 ==> Shortest(plen, up) in SIZES
    ensures plen == 0 && up < 64 ==> Shortest(plen, up) > up && forall n :: n in SIZES && up < n ==> Shortest(plen, up) <= n
  {
  }

  /** Another key has a, by a delegation in force. */
  predicate Delegated(leases: Leases, now: int, key: Key, a: nat)
    requires Carved(leases)
  {
    exists k :: k in leases && k != key && now < leases[k].expires && Contains(leases[k].prefix, a)
  }

  predicate OnLan(s: Snapshot, a: nat)
    requires Sound(s)
  {
    exists l :: l in s.lan && Contains(l, a)
  }

  predicate OnAnyWan(s: Snapshot, a: nat)
    requires Sound(s)
  {
    exists w :: w in s.wan && OnWan(w, a)
  }

  lemma WanSound(s: Snapshot, w: Upstream)
    requires Sound(s) && w in s.wan
    ensures w.prefix.bits <= 128 && (w.exclude.Some? ==> w.exclude.value.bits <= 128)
  {
    assert w in s.wan + s.ula;
  }

  /** A prefix is free for a key if and only if none of its addresses is a LAN's, the WAN link's, kept for it
      by the ISP, or another key's. */
  lemma {:induction false} FreeIff(s: Snapshot, leases: Leases, now: int, pf: Prefix, key: Key)
    requires Sound(s) && pf.bits <= 128 && Carved(leases)
    ensures Free(s, leases, now, pf, key) <==>
              forall a: nat :: Contains(pf, a) ==> !OnLan(s, a) && !OnAnyWan(s, a) && !Delegated(leases, now, key, a)
  {
    if Free(s, leases, now, pf, key) {
      forall a: nat | Contains(pf, a) ensures !OnLan(s, a) && !OnAnyWan(s, a) && !Delegated(leases, now, key, a) {
        FreeOf(s, leases, now, pf, key, a);
      }
    }
    if forall a: nat :: Contains(pf, a) ==> !OnLan(s, a) && !OnAnyWan(s, a) && !Delegated(leases, now, key, a) {
      ClearIsFree(s, leases, now, pf, key);
    }
  }

  lemma {:induction false} FreeOf(s: Snapshot, leases: Leases, now: int, pf: Prefix, key: Key, a: nat)
    requires Sound(s) && pf.bits <= 128 && Carved(leases) && Free(s, leases, now, pf, key) && Contains(pf, a)
    ensures !OnLan(s, a) && !OnAnyWan(s, a) && !Delegated(leases, now, key, a)
  {
    hide Overlaps, Contains;
    forall l | l in s.lan ensures !Contains(l, a) { OverlapsIff(l, pf); }
    forall w | w in s.wan ensures !OnWan(w, a) {
      WanSound(s, w);
      OverlapsIff(w.prefix, pf);
      if w.exclude.Some? { OverlapsIff(w.exclude.value, pf); }
    }
    forall k | k in leases && k != key && now < leases[k].expires ensures !Contains(leases[k].prefix, a) {
      OverlapsIff(leases[k].prefix, pf);
    }
  }

  lemma {:induction false} ClearIsFree(s: Snapshot, leases: Leases, now: int, pf: Prefix, key: Key)
    requires Sound(s) && pf.bits <= 128 && Carved(leases)
    requires forall a: nat :: Contains(pf, a) ==> !OnLan(s, a) && !OnAnyWan(s, a) && !Delegated(leases, now, key, a)
    ensures Free(s, leases, now, pf, key)
  {
    hide Overlaps, Contains;
    forall l | l in s.lan ensures !Overlaps(l, pf) {
      OverlapsIff(l, pf);
      assert forall a: nat :: Contains(l, a) ==> OnLan(s, a);
    }
    forall w | w in s.wan
      ensures !(w.source.Advertised? && Overlaps(w.prefix, pf)) && !(w.exclude.Some? && Overlaps(w.exclude.value, pf))
    {
      WanSound(s, w);
      OverlapsIff(w.prefix, pf);
      if w.exclude.Some? { OverlapsIff(w.exclude.value, pf); }
      assert forall a: nat :: OnWan(w, a) ==> OnAnyWan(s, a);
    }
    forall k | k in leases && k != key && now < leases[k].expires ensures !Overlaps(leases[k].prefix, pf) {
      OverlapsIff(leases[k].prefix, pf);
      assert forall a: nat :: Contains(leases[k].prefix, a) ==> Delegated(leases, now, key, a);
    }
  }

  /** What is delegated from: a delegation of the upstream's, or the ULA, that is not deprecated and not a /64. */
  lemma UpstreamsAre(s: Snapshot, ula: bool, u: Upstream)
    ensures u in Upstreams(s, false) <==> u in s.wan && u.source.Delegation? && !u.deprecated && u.prefix.bits < 64
    ensures u in Upstreams(s, true) <==> u in s.ula && !u.deprecated && u.prefix.bits < 64
  {
  }

  // ---- The blocks of one length

  function Slots(up: Prefix, n: nat): (count: nat)
    requires up.bits < n
    ensures count > 0
  {
    Pow2(n - up.bits)
  }

  /** There is a count of them that fits sixty-four bits, by which the code divides. */
  predicate Countable(up: Prefix, n: nat)
    requires up.bits < n
  {
    Slots(up, n) % TWO_64 != 0
  }

  lemma {:induction false} CountableIff(up: Prefix, n: nat)
    requires up.bits < n <= 64
    ensures Countable(up, n) <==> up.bits > 0 || n < 64
    ensures Countable(up, n) ==> Slots(up, n) < TWO_64
  {
    Pow2Known();
    hide Pow2;
    if n - up.bits < 64 {
      var d := 64 - (n - up.bits);
      Pow2Add(n - up.bits, d);
      AtLeastTwo(d);
      MulMono(Slots(up, n), 2, Pow2(d));
    }
  }

  lemma AtLeastTwo(d: nat)
    requires d > 0
    ensures Pow2(d) >= 2
  {
  }

  /** The slot-th /n of up. */
  function Slot(up: Prefix, n: nat, slot: nat): (p: Prefix)
    requires up.bits < n <= 64
    ensures p.bits == n
  {
    MulNonNeg(slot, Pow2(128 - n));
    Prefix(Masked(up).addr + slot * Pow2(128 - n), n)
  }

  lemma {:induction false} SlotAddr(up: Prefix, n: nat, slot: nat)
    requires up.bits < n <= 64
    ensures Slot(up, n, slot).addr == Pow2(128 - n) * (Slots(up, n) * (up.addr / Size(up)) + slot)
  {
    hide Pow2;
    var i, c, x := up.addr / Size(up), Slots(up, n), Pow2(128 - n);
    Pow2Add(n - up.bits, 128 - n);
    assert Size(up) == c * x;
    assert Slot(up, n, slot).addr == i * Size(up) + slot * x;
    Scale(i, c, x, slot);
  }

  lemma Scale(i: nat, c: nat, x: nat, slot: nat)
    ensures i * (c * x) + slot * x == x * (c * i + slot)
  {
    assert i * (c * x) == (c * i) * x;
  }

  /** Every slot is a part of up of its own, and every /n in up is a slot. */
  lemma {:induction false} SlotInside(up: Prefix, n: nat, slot: nat)
    requires up.bits < n <= 64 && slot < Slots(up, n)
    ensures Inside(Slot(up, n, slot), up) && Masked(Slot(up, n, slot)) == Slot(up, n, slot)
  {
    var p, c, s := Slot(up, n, slot), Slots(up, n), Pow2(128 - n);
    var i := up.addr / Size(up);
    SlotAddr(up, n, slot);
    hide Pow2, Slot;
    MultipleIs(s, c * i + slot);
    PairIs(c, i, slot, c * i + slot);
    Coarser(up, p, p.addr);
    assert (c * i + slot) * s == s * (c * i + slot);
  }

  lemma {:induction false} EverySlot(up: Prefix, pf: Prefix)
    requires up.bits < pf.bits <= 64 && Inside(pf, up) && Masked(pf) == pf
    ensures exists slot: nat :: slot < Slots(up, pf.bits) && Slot(up, pf.bits, slot) == pf
  {
    var n := pf.bits;
    var c, s, j := Slots(up, n), Size(pf), pf.addr / Size(pf);
    Coarser(up, pf, pf.addr);
    LastMultiple(c, j);
    assert j / c == up.addr / Size(up);
    var slot := j - c * (j / c);
    SlotAddr(up, n, slot);
    assert Slot(up, n, slot) == pf;
  }

  // ---- The pool

  class Pool {
    const plen: nat
    var leases: Leases

    constructor (plen: nat)
      ensures this.plen == plen && leases == map[]
    {
      this.plen, leases := plen, map[];
    }

    /** A free /n in up: it fails only when none of the slots it looks at is free, which are all of
        them when there are no more than MAX_PROBES. */
    method Block(s: Snapshot, up: Prefix, n: nat, key: Key, hash: nat, now: int) returns (r: Option<Prefix>)
      requires Sound(s) && Carved(leases) && up.bits < n <= 64 && Countable(up, n)
      ensures r.Some? ==> r.value.bits == n && Inside(r.value, up) && Masked(r.value) == r.value
                          && Free(s, leases, now, r.value, key)
      ensures r.None? && Slots(up, n) <= MAX_PROBES ==> NoneFree(s, leases, now, up, n, key)
    {
      hide Free, Inside, Slot, Slots;
      var count := Slots(up, n);
      var start := hash % count;
      var i := 0;
      while i < count && i < MAX_PROBES
        invariant i <= count
        invariant forall j :: 0 <= j < i ==> !Free(s, leases, now, Slot(up, n, Probe(start, j, count)), key)
      {
        var pf := Slot(up, n, Probe(start, i, count));
        SlotInside(up, n, Probe(start, i, count));
        if Free(s, leases, now, pf, key) { return Some(pf); }
        i := i + 1;
      }
      r := None;
      if count <= MAX_PROBES { AllProbed(s, leases, now, up, n, key, start); }
    }

    /** The prefix key holds while it is usable, else the one asked for, else the first free block. None
        is found only when every block of every length from the hint's on is taken, in each delegation
        with no more of them than are looked at. It panics where it comes to the /64s of a delegation of
        length 0, and divides by their number. */
    method Pick(s: Snapshot, key: Key, want: Option<Prefix>, ula: bool, hash: nat, now: int)
        returns (r: Option<Grant>, panics: bool)
      requires Sound(s) && Carved(leases) && (want.Some? ==> want.value.bits <= 128)
      ensures r.Some? ==> Granted(plen, s, leases, now, ula, key, r.value)
      ensures key in leases && Usable(plen, s, leases, now, ula, leases[key].prefix, key) ==>
                r.Some? && r.value.pf == leases[key].prefix
      ensures !Held(plen, s, leases, now, ula, key) && Asked(plen, s, leases, now, ula, want, key) ==>
                r.Some? && r.value.pf == Masked(want.value)
      ensures Held(plen, s, leases, now, ula, key) || Asked(plen, s, leases, now, ula, want, key) ==> !panics
      ensures r.Some? && !Held(plen, s, leases, now, ula, key) && !Asked(plen, s, leases, now, ula, want, key) ==>
                Largest(plen, s, leases, now, Upstreams(s, ula), want, key, r.value)
      ensures r.None? && !panics ==> forall u :: u in Upstreams(s, ula) ==> Full(plen, s, leases, now, u, want, key)
      ensures panics ==> r.None? && Stuck(plen, s, leases, now, Upstreams(s, ula), want, key)
    {
      hide Free, Full, Masked, Shortest, Unused, Largest, Stuck;
      var ups := Upstreams(s, ula);
      if key in leases && Usable(plen, s, leases, now, ula, leases[key].prefix, key) {
        return Some(Grant(leases[key].prefix, Around(ups, leases[key].prefix).value)), false;
      }
      if want.Some? && want.value.addr != 0 {
        var pf := Masked(want.value);
        MaskedIs(want.value);
        if Usable(plen, s, leases, now, ula, pf, key) {
          return Some(Grant(pf, Around(ups, pf).value)), false;
        }
      }
      r, panics := Search(s, ups, key, want, hash, now);
    }

    method Search(s: Snapshot, ups: seq<Upstream>, key: Key, want: Option<Prefix>, hash: nat, now: int)
        returns (r: Option<Grant>, panics: bool)
      requires Sound(s) && Carved(leases) && forall u :: u in ups ==> u.prefix.bits < 64
      ensures r.Some? ==> r.value.u in ups && Part(r.value.pf) && Fit(plen, s, leases, now, r.value.u, r.value.pf, key)
      ensures r.Some? ==> Largest(plen, s, leases, now, ups, want, key, r.value)
      ensures r.None? && !panics ==> forall u :: u in ups ==> Full(plen, s, leases, now, u, want, key)
      ensures panics ==> r.None? && Stuck(plen, s, leases, now, ups, want, key)
    {
      hide Free, Slots, NoneFree, Masked, Shortest, Unused, Sound;
      for i := 0 to |ups|
        invariant forall j :: 0 <= j < i ==> Full(plen, s, leases, now, ups[j], want, key)
      {
        var u := ups[i];
        assert u in ups;
        var n := FirstLength(plen, u, want);
        while n <= 64
          invariant FirstLength(plen, u, want) <= n
          invariant forall x :: FirstLength(plen, u, want) <= x <= 64 && x < n ==> Tried(s, leases, now, u, x, key)
        {
          CountableIff(u.prefix, n);
          if u.prefix.bits == 0 && n == 64 {
            assert Full63(plen, s, leases, now, u, want, key);
            return None, true;
          }
          var pf := Block(s, u.prefix, n, key, hash, now);
          if pf.Some? { return Some(Grant(pf.value, u)), false; }
          n := n + 1;
        }
      }
      r, panics := None, false;
    }

    /** One IA_PD answered, with a prefix of the delegation and one of the ULA, each when there is one.
        held is what the router says it has or would have; what of it it does not get is returned too,
        with no lifetime left. Nothing changes unless the answer commits. */
    method Delegate(s: Snapshot, duid: string, iaid: nat, held: seq<Prefix>, hash: Key -> nat, now: int, clock: int,
                    preferred: nat, valid: nat, iface: string, peer: nat, commit: bool)
        returns (got: Option<Grant>, gotUla: Option<Grant>, t1: nat, t2: nat, gone: seq<Prefix>, panics: bool)
      requires Sound(s) && Carved(leases) && forall h :: h in held ==> h.bits <= 128
      modifies this
      ensures Carved(leases)
      ensures var k := Key(duid, iaid, false);
              var mid := if commit then With(old(leases), k, got, iface, peer, now, valid) else old(leases);
              && (Answered(plen, s, old(leases), k, Wanted(held, false), clock, got, false)
                  || (panics && Answered(plen, s, old(leases), k, Wanted(held, false), clock, got, true)))
              && (panics ==> leases == mid)
              && (!panics ==>
                    && Answered(plen, s, mid, Key(duid, iaid, true), Wanted(held, true), clock, gotUla, false)
                    && leases == if commit then With(mid, Key(duid, iaid, true), gotUla, iface, peer, now, valid) else old(leases))
      ensures !panics ==> (t1, t2) == Renewals(got, gotUla, now, preferred, valid)
      ensures !panics ==> forall p :: p in gone <==>
                && (exists h :: h in held && h.addr != 0 && p == Masked(h))
                && !(got.Some? && got.value.pf == p) && !(gotUla.Some? && gotUla.value.pf == p)
      ensures panics ==> exists u :: u in s.wan + s.ula && u.prefix.bits == 0
    {
      hide Fit, Usable, Upstreams, Full, Masked, Answered, Wanted;
      gotUla, t1, t2, gone := None, 0, 0, [];
      got, panics := DelegateOne(s, Key(duid, iaid, false), Wanted(held, false), hash, now, clock, valid, iface, peer, commit);
      if panics { return; }
      gotUla, panics := DelegateOne(s, Key(duid, iaid, true), Wanted(held, true), hash, now, clock, valid, iface, peer, commit);
      if panics { return; }
      if got.Some? {
        var pref := Preferred(got.value.u, now, preferred, valid);
        t1, t2 := pref / 2, pref * 8 / 10;
      }
      if gotUla.Some? {
        var pref := Preferred(gotUla.value.u, now, preferred, valid);
        if got.None? || pref / 2 < t1 { t1, t2 := pref / 2, pref * 8 / 10; }
      }
      for i := 0 to |held|
        invariant forall p :: p in gone <==> exists j :: 0 <= j < i && Returned(held[j], got, gotUla) && p == Masked(held[j])
      {
        if Returned(held[i], got, gotUla) { gone := gone + [Masked(held[i])]; }
      }
    }

    /** Of one of the two. The lease ends with what it was cut from. clock is read again for what is free. */
    method DelegateOne(s: Snapshot, key: Key, want: Option<Prefix>, hash: Key -> nat, now: int, clock: int, valid: nat,
                       iface: string, peer: nat, commit: bool) returns (r: Option<Grant>, panics: bool)
      requires Sound(s) && Carved(leases) && (want.Some? ==> want.value.bits <= 128)
      modifies this
      ensures Carved(leases)
      ensures Answered(plen, s, old(leases), key, want, clock, r, panics)
      ensures panics ==> r.None? && exists u :: u in s.wan + s.ula && u.prefix.bits == 0
      ensures leases == if commit then With(old(leases), key, r, iface, peer, now, valid) else old(leases)
    {
      hide Fit, Usable, Upstreams, Full, Held, Asked, Largest, Masked, Free, Stuck;
      r, panics := Pick(s, key, want, key.ula, hash(key), clock);
      if panics { StuckAt(plen, s, leases, clock, key.ula, want, key); }
      assert Answered(plen, s, leases, key, want, clock, r, panics) && (r.Some? ==> Part(r.value.pf));
      hide Answered, Granted, Part;
      if r.Some? && commit {
        leases := leases[key := Lease(r.value.pf, iface, peer, Until(r.value.u, now, valid))];
      }
    }

    /** undelegate: a router gives back what it has of an IA, of the delegation and of the ULA. */
    method Undelegate(duid: string, iaid: nat)
      modifies this
      ensures leases == old(leases) - {Key(duid, iaid, false), Key(duid, iaid, true)}
    {
      leases := leases - {Key(duid, iaid, false)};
      leases := leases - {Key(duid, iaid, true)};
    }

    /** What has expired on an interface goes. */
    method DropExpired(iface: string, now: int)
      modifies this
      ensures leases == map k | k in old(leases) && !(old(leases)[k].iface == iface && now > old(leases)[k].expires)
                          :: old(leases)[k]
    {
      var todo := leases.Keys;
      while todo != {}
        invariant leases == map k | k in old(leases)
                              && (k in todo || !(old(leases)[k].iface == iface && now > old(leases)[k].expires))
                              :: old(leases)[k]
        invariant todo <= old(leases).Keys
      {
        var k :| k in todo;
        todo := todo - {k};
        if leases[k].iface == iface && now > leases[k].expires { leases := leases - {k}; }
      }
    }

    /** onPrefixChange: what the new prefixes no longer leave room for goes, one by one, each looked at
        in the table the ones before it have left. Whatever stays would be granted again as it is, and
        nothing goes that would have been before any did. */
    method DropUnusable(iface: string, s: Snapshot, hash: Key -> nat, now: int) returns (panics: bool)
      requires Sound(s) && Carved(leases)
      modifies this
      ensures leases.Keys <= old(leases).Keys && forall k :: k in leases ==> leases[k] == old(leases)[k]
      ensures Carved(leases)
      ensures forall k :: k in old(leases) && old(leases)[k].iface != iface ==> k in leases
      ensures !panics ==>
                forall k :: k in leases && leases[k].iface == iface ==> Stays(plen, s, leases, now, k, leases[k].prefix)
      ensures panics ==> exists u :: u in s.wan + s.ula && u.prefix.bits == 0
      ensures forall k :: k in old(leases) && WouldStay(plen, s, old(leases), now, k) ==> k in leases
    {
      hide Fit, Usable, Upstreams, Full, Private, Free, Sound, Masked, Stuck;
      panics := false;
      var todo := leases.Keys;
      while todo != {}
        invariant leases.Keys <= old(leases).Keys && todo <= leases.Keys
        invariant forall k :: k in leases ==> leases[k] == old(leases)[k]
        invariant Carved(leases)
        invariant forall k :: k in old(leases) && old(leases)[k].iface != iface ==> k in leases
        invariant forall k :: k in leases && k !in todo && leases[k].iface == iface ==>
                    Stays(plen, s, leases, now, k, leases[k].prefix)
        invariant forall k :: k in old(leases) && WouldStay(plen, s, old(leases), now, k) ==> k in leases
      {
        var k :| k in todo;
        todo := todo - {k};
        var l := leases[k];
        if l.iface == iface {
          var own := Key(k.duid, k.iaid, Private(l.prefix));
          var g;
          g, panics := Pick(s, own, None, own.ula, hash(own), now);
          if panics {
            StuckAt(plen, s, leases, now, own.ula, None, own);
            return;
          }
          assert l == old(leases)[k];
          UsableFewer(plen, s, old(leases), leases, now, own.ula, l.prefix, own);
          if g.None? || g.value.pf != l.prefix {
            StaysFewer(plen, s, leases, leases - {k}, now);
            leases := leases - {k};
          }
        }
      }
    }
  }

  /** The hint for the delegation or for the ULA: the first that names no address, or one of its kind. */
  function Wanted(held: seq<Prefix>, ula: bool): (w: Option<Prefix>)
    ensures w.Some? ==> w.value in held
  {
    if held == [] then None
    else if held[0].addr == 0 || Private(held[0]) == ula then Some(held[0])
    else Wanted(held[1..], ula)
  }

  predicate HintFor(h: Prefix, ula: bool) {
    h.addr == 0 || Private(h) == ula
  }

  /** The hint is the first of what is held that names no address, or one of its kind. */
  lemma {:induction false} WantedIs(held: seq<Prefix>, ula: bool) returns (i: nat)
    ensures if Wanted(held, ula).None? then forall h :: h in held ==> !HintFor(h, ula)
            else i < |held| && Wanted(held, ula) == Some(held[i]) && HintFor(held[i], ula)
                 && forall j :: 0 <= j < i ==> !HintFor(held[j], ula)
  {
    hide Private;
    i := 0;
    if held != [] && !HintFor(held[0], ula) {
      i := WantedIs(held[1..], ula);
      assert held == [held[0]] + held[1..];
      i := i + 1;
    }
  }

  /** fc00::/7 is the addresses that begin with its seven bits. */
  lemma PrivateIs(p: Prefix)
    ensures Private(p) <==> Contains(Prefix(0xfc00_0000_0000_0000_0000_0000_0000_0000, 7), p.addr)
  {
    var u := Prefix(0xfc00_0000_0000_0000_0000_0000_0000_0000, 7);
    Size7();
    QuotientIs(u.addr, Size(u), 0x7e);
  }

  lemma Size7()
    ensures Size(Prefix(0, 7)) == 0x200_0000_0000_0000_0000_0000_0000_0000
  {
    assert Pow2(9) == 0x200 && Pow2(16) == 0x1_0000;
    hide Pow2;
    Pow2Known();
    Pow2Add(64, 32);
    Pow2Add(96, 16);
    Pow2Add(112, 9);
  }

  /** The key has a prefix that it can keep. */
  predicate Held(plen: nat, s: Snapshot, leases: Leases, now: int, ula: bool, key: Key)
    requires Sound(s) && Carved(leases)
  {
    key in leases && Usable(plen, s, leases, now, ula, leases[key].prefix, key)
  }

  /** It asks for one, not for a length alone, and can have it. */
  predicate Asked(plen: nat, s: Snapshot, leases: Leases, now: int, ula: bool, want: Option<Prefix>, key: Key)
    requires Sound(s) && Carved(leases)
  {
    && want.Some? && want.value.addr != 0 && want.value.bits <= 128
    && Usable(plen, s, leases, now, ula, Masked(want.value), key)
  }

  /** The search comes to the /64s of a delegation of length 0: none before it has a block left, nor does it
      have one of a shorter length from the hint's on. */
  ghost predicate Stuck(plen: nat, s: Snapshot, leases: Leases, now: int, ups: seq<Upstream>, want: Option<Prefix>, key: Key)
    requires Sound(s) && Carved(leases)
  {
    exists i :: 0 <= i < |ups| && ups[i].prefix.bits == 0
      && (forall j :: 0 <= j < i ==> Full(plen, s, leases, now, ups[j], want, key))
      && Full63(plen, s, leases, now, ups[i], want, key)
  }

  ghost predicate Full63(plen: nat, s: Snapshot, leases: Leases, now: int, u: Upstream, want: Option<Prefix>, key: Key)
    requires Sound(s) && Carved(leases)
  {
    forall n :: FirstLength(plen, u, want) <= n < 64 ==> Tried(s, leases, now, u, n, key)
  }

  lemma StuckAt(plen: nat, s: Snapshot, leases: Leases, now: int, ula: bool, want: Option<Prefix>, key: Key)
    requires Sound(s) && Carved(leases) && Stuck(plen, s, leases, now, Upstreams(s, ula), want, key)
    ensures exists u :: u in s.wan + s.ula && u.prefix.bits == 0
  {
    hide Full, Full63;
    var ups := Upstreams(s, ula);
    var i :| 0 <= i < |ups| && ups[i].prefix.bits == 0
      && (forall j :: 0 <= j < i ==> Full(plen, s, leases, now, ups[j], want, key))
      && Full63(plen, s, leases, now, ups[i], want, key);
    assert ups[i] in ups;
    assert ups[i] in s.wan + s.ula;
  }

  /** g is out of the first delegation with a block left, and of the shortest length, from the hint's or the
      shortest delegated on, of which there is one. */
  ghost predicate Largest(plen: nat, s: Snapshot, leases: Leases, now: int, ups: seq<Upstream>, want: Option<Prefix>,
                          key: Key, g: Grant)
    requires Sound(s) && Carved(leases)
  {
    exists i :: 0 <= i < |ups| && ups[i] == g.u
      && (forall j :: 0 <= j < i ==> Full(plen, s, leases, now, ups[j], want, key))
      && Shorter(plen, s, leases, now, g.u, want, key, g.pf.bits)
  }

  ghost predicate Shorter(plen: nat, s: Snapshot, leases: Leases, now: int, u: Upstream, want: Option<Prefix>, key: Key, n: nat)
    requires Sound(s) && Carved(leases)
  {
    FirstLength(plen, u, want) <= n <= 64 && forall x :: FirstLength(plen, u, want) <= x < n ==> Tried(s, leases, now, u, x, key)
  }

  /** The preferred lifetime of a grant out of u. */
  function Preferred(u: Upstream, now: int, preferred: nat, valid: nat): (pref: nat)
    ensures pref <= Until(u, now, valid) - now && pref <= preferred
    ensures u.deprecated || now >= u.preferred ==> pref == 0
    ensures now <= u.preferred ==> now + pref <= u.preferred
  {
    var left := if u.deprecated || now > u.preferred then 0 else u.preferred - now;
    var pref := if preferred < left then preferred else left;
    if pref < Until(u, now, valid) - now then pref else Until(u, now, valid) - now
  }

  /** T1 and T2: half and eight tenths of the grant's preferred lifetime, of two the one with less. */
  function Renewals(got: Option<Grant>, gotUla: Option<Grant>, now: int, preferred: nat, valid: nat): (nat, nat) {
    var p := if got.Some? then Preferred(got.value.u, now, preferred, valid) else 0;
    var q := if gotUla.Some? then Preferred(gotUla.value.u, now, preferred, valid) else 0;
    if gotUla.Some? && (got.None? || q / 2 < p / 2) then (q / 2, q * 8 / 10) else (p / 2, p * 8 / 10)
  }

  /** Both lifetimes are the configured ones, or what is left of the upstream's where that is less; the
      preferred one is none of a prefix that is deprecated, and no longer than the valid one. */
  lemma LifetimesAre(u: Upstream, now: int, preferred: nat, valid: nat)
    ensures var v, p := Until(u, now, valid) - now, Preferred(u, now, preferred, valid);
            && (v == valid || v == u.valid - now || (v == 0 && now > u.valid))
            && 0 <= v <= valid && (now <= u.valid ==> v <= u.valid - now)
            && 0 <= p <= v && p <= preferred
            && (!u.deprecated && now <= u.preferred ==> p <= u.preferred - now)
            && (if u.deprecated || now > u.preferred then p == 0 else p == v || p == preferred || p == u.preferred - now)
  {
  }

  /** A router that keeps to T1 and T2 comes back before anything it has been granted is deprecated. */
  lemma RenewsInTime(got: Option<Grant>, gotUla: Option<Grant>, now: int, preferred: nat, valid: nat, g: Grant)
    requires got == Some(g) || gotUla == Some(g)
    ensures var (t1, t2) := Renewals(got, gotUla, now, preferred, valid);
            t1 <= t2 <= Preferred(g.u, now, preferred, valid) && t1 <= Preferred(g.u, now, preferred, valid) / 2
    ensures exists o: Grant :: (got == Some(o) || gotUla == Some(o))
              && (var p := Preferred(o.u, now, preferred, valid); Renewals(got, gotUla, now, preferred, valid) == (p / 2, p * 4 / 5))
  {
    var p := if got.Some? then Preferred(got.value.u, now, preferred, valid) else 0;
    var q := if gotUla.Some? then Preferred(gotUla.value.u, now, preferred, valid) else 0;
    var o := if gotUla.Some? && (got.None? || q / 2 < p / 2) then gotUla.value else got.value;
    assert got == Some(o) || gotUla == Some(o);
  }

  /** What a key is answered: what it has while that is usable, else what it asks for when that is, else the
      first block there is from the length it hints at on, and nothing only when there is none. */
  ghost predicate Answered(plen: nat, s: Snapshot, leases: Leases, key: Key, want: Option<Prefix>, clock: int, r: Option<Grant>,
                           panics: bool)
    requires Sound(s) && Carved(leases)
  {
    && (r.Some? ==> Granted(plen, s, leases, clock, key.ula, key, r.value))
    && (key in leases && Usable(plen, s, leases, clock, key.ula, leases[key].prefix, key) ==>
          r.Some? && r.value.pf == leases[key].prefix)
    && (!Held(plen, s, leases, clock, key.ula, key) && Asked(plen, s, leases, clock, key.ula, want, key) ==>
          r.Some? && r.value.pf == Masked(want.value))
    && (r.Some? && !Held(plen, s, leases, clock, key.ula, key) && !Asked(plen, s, leases, clock, key.ula, want, key) ==>
          Largest(plen, s, leases, clock, Upstreams(s, key.ula), want, key, r.value))
    && (r.None? && !panics ==> forall u :: u in Upstreams(s, key.ula) ==> Full(plen, s, leases, clock, u, want, key))
    && (panics ==> r.None? && Stuck(plen, s, leases, clock, Upstreams(s, key.ula), want, key))
  }

  function With(leases: Leases, key: Key, g: Option<Grant>, iface: string, peer: nat, now: int, valid: nat): Leases {
    if g.None? then leases else leases[key := Lease(g.value.pf, iface, peer, Until(g.value.u, now, valid))]
  }

  /** The router named h, and does not get it. */
  predicate Returned(h: Prefix, got: Option<Grant>, gotUla: Option<Grant>)
    requires h.bits <= 128
  {
    && h.addr != 0
    && !(got.Some? && got.value.pf == Masked(h)) && !(gotUla.Some? && gotUla.value.pf == Masked(h))
  }

  /** When a lease out of u ends, at the latest with u. */
  function Until(u: Upstream, now: int, valid: nat): (e: int)
    ensures now <= e <= now + valid && (now <= u.valid ==> e <= u.valid)
  {
    var left := if now > u.valid then 0 else u.valid - now;
    now + if valid < left then valid else left
  }

  /** fc00::/7. */
  predicate Private(p: Prefix) {
    p.addr / Size(Prefix(0, 7)) == 0x7e
  }

  /** Someone would be granted the prefix of k now as the one k has. */
  ghost predicate Stays(plen: nat, s: Snapshot, leases: Leases, now: int, k: Key, pf: Prefix)
    requires Sound(s) && Carved(leases)
  {
    exists u :: Granted(plen, s, leases, now, Private(pf), Key(k.duid, k.iaid, Private(pf)), Grant(pf, u))
  }

  predicate WouldStay(plen: nat, s: Snapshot, leases: Leases, now: int, k: Key)
    requires Sound(s) && Carved(leases) && k in leases
  {
    k.ula == Private(leases[k].prefix) && Usable(plen, s, leases, now, k.ula, leases[k].prefix, k)
  }

  /** No /n of u is free, when all of them are looked at. */
  ghost predicate Tried(s: Snapshot, leases: Leases, now: int, u: Upstream, n: nat, key: Key)
    requires Sound(s) && Carved(leases) && u.prefix.bits < n <= 64
  {
    Slots(u.prefix, n) <= MAX_PROBES ==> NoneFree(s, leases, now, u.prefix, n, key)
  }

  /** Nor of any length a search in u comes to, up to a /64. */
  ghost predicate Full(plen: nat, s: Snapshot, leases: Leases, now: int, u: Upstream, want: Option<Prefix>, key: Key)
    requires Sound(s) && Carved(leases)
  {
    forall n :: FirstLength(plen, u, want) <= n <= 64 ==> Tried(s, leases, now, u, n, key)
  }

  /** What is usable stays so as others leave. */
  lemma {:induction false} UsableFewer(plen: nat, s: Snapshot, was: Leases, leases: Leases, now: int, ula: bool,
                                       pf: Prefix, key: Key)
    requires Sound(s) && Carved(was) && Carved(leases) && pf.bits <= 128
    requires leases.Keys <= was.Keys && forall k :: k in leases ==> leases[k] == was[k]
    ensures Usable(plen, s, was, now, ula, pf, key) ==> Usable(plen, s, leases, now, ula, pf, key)
  {
    hide Around, Upstreams, Inside, Shortest, Unused;
  }

  lemma {:induction false} StaysFewer(plen: nat, s: Snapshot, was: Leases, leases: Leases, now: int)
    requires Sound(s) && Carved(was) && Carved(leases)
    requires leases.Keys <= was.Keys && forall k :: k in leases ==> leases[k] == was[k]
    ensures forall k, pf :: Stays(plen, s, was, now, k, pf) ==> Stays(plen, s, leases, now, k, pf)
  {
    hide Upstreams, Inside, Shortest, Unused, Private;
    forall k, pf | Stays(plen, s, was, now, k, pf) ensures Stays(plen, s, leases, now, k, pf) {
      var u :| Granted(plen, s, was, now, Private(pf), Key(k.duid, k.iaid, Private(pf)), Grant(pf, u));
      assert Granted(plen, s, leases, now, Private(pf), Key(k.duid, k.iaid, Private(pf)), Grant(pf, u));
    }
  }

  ghost predicate NoneFree(s: Snapshot, leases: Leases, now: int, up: Prefix, n: nat, key: Key)
    requires Sound(s) && Carved(leases) && up.bits < n <= 64
  {
    forall pf: Prefix :: pf.bits == n && Inside(pf, up) && Masked(pf) == pf ==> !Free(s, leases, now, pf, key)
  }

  lemma {:induction false} AllProbed(s: Snapshot, leases: Leases, now: int, up: Prefix, n: nat, key: Key, start: nat)
    requires Sound(s) && Carved(leases) && up.bits < n <= 64 && start < Slots(up, n)
    requires forall j :: 0 <= j < Slots(up, n) ==>
               !Free(s, leases, now, Slot(up, n, Probe(start, j, Slots(up, n))), key)
    ensures NoneFree(s, leases, now, up, n, key)
  {
    hide Free, Slot, Slots, Inside;
    var count := Slots(up, n);
    forall pf: Prefix | pf.bits == n && Inside(pf, up) && Masked(pf) == pf ensures !Free(s, leases, now, pf, key) {
      EverySlot(up, pf);
      var slot: nat :| slot < count && Slot(up, n, slot) == pf;
      var j := ProbesReach(start, slot, count);
    }
  }

  // ---- Whole runs

  /** A grant as Delegate commits it, or leases that end: given back, expired, or dropped as the
      prefixes change. */
  datatype Event =
    | Commits(at: int, s: Snapshot, key: Key, g: Grant, lease: Lease)
    | Ends(at: int, keys: set<Key>)

  /** A run from the leases a file had, say, at some time. */
  datatype Trace = Start(leases: Leases, at: int) | Then(before: Trace, e: Event)

  function At(tr: Trace): int {
    match tr case Start(_, at) => at case Then(_, e) => e.at
  }

  function After(tr: Trace): Leases {
    match tr
    case Start(leases, _) => leases
    case Then(before, Commits(_, _, key, _, lease)) => After(before)[key := lease]
    case Then(before, Ends(_, keys)) => After(before) - keys
  }

  ghost predicate Legal(plen: nat, tr: Trace) {
    match tr
    case Start(leases, at) => Carved(leases) && Apart(leases, at)
    case Then(before, e) =>
      && Legal(plen, before) && At(before) <= e.at
      && (e.Commits? ==>
            && Sound(e.s) && Carved(After(before)) && e.lease.prefix == e.g.pf
            && Granted(plen, e.s, After(before), e.at, e.key.ula, e.key, e.g))
  }

  /** No two leases under different keys that are both in force at t overlap. */
  ghost predicate Apart(leases: Leases, t: int)
    requires Carved(leases)
  {
    forall j, k :: j in leases && k in leases && j != k && t < leases[j].expires && t < leases[k].expires ==>
      !Overlaps(leases[j].prefix, leases[k].prefix)
  }

  lemma {:induction false} CommitKeeps(leases: Leases, s: Snapshot, plen: nat, at: int, key: Key, g: Grant, lease: Lease)
    requires Carved(leases) && Sound(s) && Granted(plen, s, leases, at, key.ula, key, g) && lease.prefix == g.pf
    ensures Carved(leases[key := lease]) && (Apart(leases, at) ==> Apart(leases[key := lease], at))
  {
    hide Inside, Shortest, Unused, Upstreams;
    forall j | j in leases && j != key && at < leases[j].expires
      ensures !Overlaps(leases[j].prefix, lease.prefix) && !Overlaps(lease.prefix, leases[j].prefix)
    {
      Symmetric(leases[j].prefix, lease.prefix);
    }
  }

  lemma Symmetric(p: Prefix, q: Prefix)
    requires p.bits <= 128 && q.bits <= 128
    ensures Overlaps(p, q) <==> Overlaps(q, p)
  {
  }

  /** Over any run, from the last event on, delegations in force under different keys are disjoint. */
  lemma {:induction false} RunApart(plen: nat, tr: Trace, t: int)
    requires Legal(plen, tr) && At(tr) <= t
    ensures Carved(After(tr)) && Apart(After(tr), t)
  {
    hide Granted, Overlaps, Part;
    if tr.Then? {
      RunApart(plen, tr.before, tr.e.at);
      if tr.e.Commits? {
        CommitKeeps(After(tr.before), tr.e.s, plen, tr.e.at, tr.e.key, tr.e.g, tr.e.lease);
      }
    }
  }

  /** So no address is ever routed to two routers at once. */
  lemma {:induction false} OneRouter(plen: nat, tr: Trace, t: int, j: Key, k: Key, a: nat)
    requires Legal(plen, tr) && At(tr) <= t
    requires Carved(After(tr)) && j in After(tr) && k in After(tr)
    requires t < After(tr)[j].expires && t < After(tr)[k].expires
    requires Contains(After(tr)[j].prefix, a) && Contains(After(tr)[k].prefix, a)
    ensures j == k
  {
    RunApart(plen, tr, t);
    OverlapsIff(After(tr)[j].prefix, After(tr)[k].prefix);
  }

  /** The WAN link has a, or the ISP keeps it for it. */
  predicate OnWan(w: Upstream, a: nat)
    requires w.prefix.bits <= 128 && (w.exclude.Some? ==> w.exclude.value.bits <= 128)
  {
    || (w.source.Advertised? && Contains(w.prefix, a))
    || (w.exclude.Some? && Contains(w.exclude.value, a))
  }

  /** And none that a LAN has, or the WAN link, at the time it is granted. */
  lemma {:induction false} ClearOfLans(plen: nat, s: Snapshot, leases: Leases, now: int, key: Key, g: Grant, a: nat)
    requires Sound(s) && Carved(leases) && Granted(plen, s, leases, now, key.ula, key, g) && Contains(g.pf, a)
    ensures Contains(g.u.prefix, a) && g.u.prefix.bits < g.pf.bits
    ensures forall l :: l in s.lan ==> !Contains(l, a)
    ensures forall w :: w in s.wan ==> !OnWan(w, a)
  {
    OverlapsIff(g.u.prefix, g.pf);
    forall l | l in s.lan ensures !Contains(l, a) { OverlapsIff(l, g.pf); }
    forall w | w in s.wan ensures !OnWan(w, a) {
      OverlapsIff(w.prefix, g.pf);
      if w.exclude.Some? { OverlapsIff(w.exclude.value, g.pf); }
    }
  }
}
