/** The addresses a DHCPv6 server leases on one interface (section 18.3 of RFC 8415), without static
bindings. The clock, the hash an allocation starts from and the prefix in use are given. */
module Leases {
  import opened Arith
  import opened Wire
  import opened Prefixes

  const DECLINE_HOLD: nat := 3600
  const IDS: nat := TWO_64  // interface identifiers

  datatype Key = Key(duid: string, iaid: nat)

  /** cut is the prefix the address is from; reachable, whether the client can be told of a change. */
  datatype Lease = Lease(addr: nat, cut: Prefix, expires: int, reachable: bool)

  datatype State = State(leases: map<Key, Lease>, declined: map<nat, int>)

  /** The identifiers that are leased, from first to last. */
  datatype Range = Range(first: nat, last: nat)

  predicate Usable(r: Range) {
    r.first <= r.last < IDS && r.last - r.first + 1 < IDS
  }

  function Count(r: Range): (n: nat)
    requires Usable(r)
    ensures 0 < n < IDS
  {
    r.last - r.first + 1
  }

  function Address(p: Prefix, id: nat): nat
    requires p.bits <= 64
  {
    Masked(p).addr / IDS * IDS + id
  }

  /** An address of the pool, cut from p. */
  predicate Pooled(r: Range, p: Prefix, a: nat) {
    p.bits <= 64 && exists id: nat :: r.first <= id <= r.last && a == Address(p, id)
  }

  predicate Leased(st: State, a: nat) {
    exists k :: k in st.leases && st.leases[k].addr == a
  }

  /** What an allocation passes over. */
  predicate Used(st: State, now: int, a: nat) {
    Leased(st, a) || (a in st.declined && now < st.declined[a])
  }

  function Addresses(leases: map<Key, Lease>): (s: set<nat>)
    ensures forall a :: a in s <==> exists k :: k in leases && leases[k].addr == a
  {
    set k | k in leases :: leases[k].addr
  }

  /** The identifier looked at in the i-th place, in the sixty-four bits the sum has. */
  function Identifier(r: Range, start: nat, i: nat): nat
    requires Usable(r)
  {
    r.first + (start + i) % IDS % Count(r)
  }

  /** The i-th block of c subnets, and an identifier in the first of them. */
  lemma InBlockOf(i: nat, c: nat, masked: nat, id: nat)
    requires c > 0 && id < IDS && masked == i * (c * IDS)
    ensures c * IDS > 0 && (masked / IDS * IDS + id) / (c * IDS) == i
  {
    var n := i * c;
    Scale(i, c);
    MultipleIs(IDS, n);
    assert masked / IDS * IDS == IDS * n;
    Quotients(i, c, n, id, IDS * n + id);
    Swapped(c);
  }

  lemma Swapped(c: nat)
    ensures c * IDS == IDS * c
  {
  }

  lemma Scale(i: nat, c: nat)
    ensures i * (c * IDS) == IDS * (i * c)
  {
  }

  lemma Quotients(i: nat, c: nat, n: nat, id: nat, a: nat)
    requires c > 0 && id < IDS && a == IDS * n + id && n == i * c
    ensures IDS * c > 0 && a / (IDS * c) == i
  {
    QuotientIs(a, IDS, n);
    DivDiv(a, IDS, c);
    assert n == c * i;
    MultipleIs(c, i);
  }

  /** A pool address is in the prefix it was cut from. */
  lemma {:induction false} PooledInside(r: Range, p: Prefix, a: nat)
    requires Usable(r) && Pooled(r, p, a)
    ensures Contains(p, a)
  {
    hide Pow2;
    var id: nat :| r.first <= id <= r.last && a == Address(p, id);
    var c := Pow2(64 - p.bits);
    hide Pooled;
    Pow2Known();
    Pow2Add(64 - p.bits, 64);
    var i := p.addr / Size(p);
    MaskedAt(p, i);
    hide Masked;
    InBlockOf(i, c, Masked(p).addr, id);
  }

  lemma MaskedAt(p: Prefix, i: nat)
    requires p.bits <= 128 && i == p.addr / Size(p)
    ensures Masked(p).addr == i * Size(p)
  {
    hide Pow2;
  }

  /** The pool is the identifiers of the range in the prefix's first /64. */
  lemma {:induction false} PooledIff(r: Range, p: Prefix, a: nat)
    requires Usable(r) && p.bits <= 64
    ensures Pooled(r, p, a) <==> a / IDS == Masked(p).addr / IDS && r.first <= a % IDS <= r.last
  {
    hide Masked;
    var n := Masked(p).addr / IDS;
    assert n * IDS == IDS * n;
    forall id: nat | id < IDS ensures Address(p, id) / IDS == n && Address(p, id) % IDS == id {
      QuotientIs(IDS * n + id, IDS, n);
    }
    if a / IDS == n && r.first <= a % IDS <= r.last {
      assert a == Address(p, a % IDS);
    }
  }

  datatype Reply = NoPrefix | NoBinding | Exhausted | Offers(addr: nat)

  class Server {
    const range: Range
    var leases: map<Key, Lease>
    var declined: map<nat, int>

    ghost function St(): State
      reads this
    {
      State(leases, declined)
    }

    constructor (range: Range, leases: map<Key, Lease>, declined: map<nat, int>)
      ensures this.range == range && St() == State(leases, declined)
    {
      this.range, this.leases, this.declined := range, leases, declined;
    }

    /** The declined addresses whose hold is over come back. */
    method Purge(now: int)
      modifies this`declined
      ensures declined == map a | a in old(declined) && now < old(declined)[a] :: old(declined)[a]
    {
      var todo := declined.Keys;
      while todo != {}
        invariant todo <= old(declined).Keys
        invariant declined == map a | a in old(declined) && (a in todo || now < old(declined)[a]) :: old(declined)[a]
      {
        var a :| a in todo;
        todo := todo - {a};
        if !(now < declined[a]) { declined := declined - {a}; }
      }
    }

    /** A pool address nobody has. It fails only when every identifier is taken, as long as the sums
        stay within sixty-four bits. */
    method Allocate(p: Prefix, hash: nat, now: int) returns (r: Option<nat>)
      requires p.bits <= 64 && Usable(range)
      modifies this`declined
      ensures St() == Purged(old(St()), now)
      ensures r.Some? ==> Pooled(range, p, r.value) && !Used(old(St()), now, r.value)
      ensures r.None? && Count(range) <= IDS / 2 ==>
                forall id: nat :: range.first <= id <= range.last ==> Used(old(St()), now, Address(p, id))
    {
      hide Address, Used, Identifier;
      Purge(now);
      var used := Addresses(leases) + declined.Keys;
      UsedIs(old(St()), now);
      assert used == TakenIn(old(St()), now);
      var size := Count(range);
      var start := hash % size;
      var i := 0;
      while i < size
        invariant i <= size && St() == Purged(old(St()), now)
        invariant forall j :: 0 <= j < i ==> Used(old(St()), now, Address(p, Identifier(range, start, j)))
      {
        var a := Address(p, Identifier(range, start, i));
        IdentifierIn(range, start, i);
        if a !in used { return Some(a); }
        i := i + 1;
      }
      r := None;
      if size <= IDS / 2 { AllUsed(old(St()), now, range, p, start); }
    }

    /** assign, for one IA_NA: the binding a client has while its prefix is the one in use, else a new
        one unless it only meant to renew. */
    method Assign(key: Key, p: Option<Prefix>, renew: bool, commit: bool, hash: nat, now: int, clock: int,
                  valid: nat, reachable: bool) returns (r: Reply)
      requires Usable(range) && (p.Some? ==> p.value.bits <= 64)
      modifies this
      ensures r.NoPrefix? <==> p.None?
      ensures p.Some? ==>
                var bound := key in old(leases) && Contains(p.value, old(leases)[key].addr);
                && (r.NoBinding? <==> renew && !bound)
                && (bound ==> r == Offers(old(leases)[key].addr))
                && (r.Offers? && !bound ==>
                      Pooled(range, p.value, r.addr) && !Used(old(St()), clock, r.addr))
      ensures !commit || !r.Offers? ==> leases == old(leases)
      ensures commit && r.Offers? ==>
                leases == old(leases)[key := Lease(r.addr, CutFrom(old(leases), key, p.value, r.addr), now + valid, reachable)]
      ensures commit && r.Offers? ==> Bindable(range, old(St()), clock, p.value, key, leases[key])
      ensures declined == old(declined) || declined == Purged(old(St()), clock).declined
    {
      hide Pooled, Used;
      if p.None? { return NoPrefix; }
      var bound := key in leases && Contains(p.value, leases[key].addr);
      if renew && !bound { return NoBinding; }
      var addr: nat;
      if bound {
        addr := leases[key].addr;
      } else {
        var a := Allocate(p.value, hash, clock);
        if a.None? { return Exhausted; }
        addr := a.value;
      }
      r := Offers(addr);
      if commit {
        leases := leases[key := Lease(addr, CutFrom(leases, key, p.value, addr), now + valid, reachable)];
      }
    }

    /** Release, and Decline, which keeps the client's own address out of the pool for a while. */
    method GiveUp(key: Key, decline: bool, addrs: set<nat>, now: int) returns (bound: bool)
      modifies this
      ensures bound == (key in old(leases))
      ensures St() == Given(old(St()), key, decline, addrs, now)
    {
      bound := key in leases;
      if bound && decline && leases[key].addr in addrs {
        declined := declined[leases[key].addr := now + DECLINE_HOLD];
      }
      leases := leases - {key};
    }

    /** expireLeases. */
    method Expire(now: int)
      modifies this`leases
      ensures leases == map k | k in old(leases) && !(now > old(leases)[k].expires) :: old(leases)[k]
    {
      var todo := leases.Keys;
      while todo != {}
        invariant todo <= old(leases).Keys
        invariant leases == map k | k in old(leases) && (k in todo || !(now > old(leases)[k].expires)) :: old(leases)[k]
      {
        var k :| k in todo;
        todo := todo - {k};
        if now > leases[k].expires { leases := leases - {k}; }
      }
    }

    /** onPrefixChange: leases outside the prefix in use go, except those whose clients are told. */
    method PrefixChanged(p: Option<Prefix>)
      requires p.Some? ==> p.value.bits <= 64
      modifies this`leases
      ensures forall k :: k in leases <==>
                k in old(leases) && (old(leases)[k].reachable || (p.Some? && Contains(p.value, old(leases)[k].addr)))
      ensures forall k :: k in leases ==> leases[k] == old(leases)[k]
    {
      var todo := leases.Keys;
      while todo != {}
        invariant todo <= old(leases).Keys
        invariant leases == map k | k in old(leases) && (k in todo || Keeps(p, old(leases)[k])) :: old(leases)[k]
      {
        var k :| k in todo;
        todo := todo - {k};
        if p.Some? && Contains(p.value, leases[k].addr) { continue; }
        if !leases[k].reachable { leases := leases - {k}; }
      }
    }
  }

  predicate Keeps(p: Option<Prefix>, l: Lease)
    requires p.Some? ==> p.value.bits <= 64
  {
    (p.Some? && Contains(p.value, l.addr)) || l.reachable
  }

  /** The prefix recorded with a binding: the one it was made in. */
  function CutFrom(leases: map<Key, Lease>, key: Key, p: Prefix, addr: nat): Prefix {
    if key in leases && leases[key].addr == addr then leases[key].cut else p
  }

  function Purged(st: State, now: int): State {
    st.(declined := map a | a in st.declined && now < st.declined[a] :: st.declined[a])
  }

  function Given(st: State, key: Key, decline: bool, addrs: set<nat>, now: int): State {
    var held := decline && key in st.leases && st.leases[key].addr in addrs;
    State(st.leases - {key}, if held then st.declined[st.leases[key].addr := now + DECLINE_HOLD] else st.declined)
  }

  ghost function TakenIn(st: State, now: int): set<nat> {
    Addresses(st.leases) + Purged(st, now).declined.Keys
  }

  lemma UsedIs(st: State, now: int)
    ensures forall a :: a in TakenIn(st, now) <==> Used(st, now, a)
  {
  }

  lemma IdentifierIn(r: Range, start: nat, i: nat)
    requires Usable(r)
    ensures r.first <= Identifier(r, start, i) <= r.last
  {
  }

  /** With at most half of the sums there are, the identifiers looked at are all of them. */
  lemma IdentifiersReach(r: Range, start: nat, id: nat) returns (i: nat)
    requires Usable(r) && Count(r) <= IDS / 2 && start < Count(r) && r.first <= id <= r.last
    ensures i < Count(r) && Identifier(r, start, i) == id
  {
    i := ProbesReach(start, id - r.first, Count(r));
    assert (start + i) % IDS == start + i;
  }

  lemma {:induction false} AllUsed(st: State, now: int, r: Range, p: Prefix, start: nat)
    requires Usable(r) && Count(r) <= IDS / 2 && start < Count(r) && p.bits <= 64
    requires forall j :: 0 <= j < Count(r) ==> Used(st, now, Address(p, Identifier(r, start, j)))
    ensures forall id: nat :: r.first <= id <= r.last ==> Used(st, now, Address(p, id))
  {
    hide Used, Address;
    forall id: nat | r.first <= id <= r.last ensures Used(st, now, Address(p, id)) {
      var i := IdentifiersReach(r, start, id);
    }
  }

  // ---- Whole runs

  datatype Event =
    | Binds(at: int, p: Prefix, key: Key, lease: Lease)  // what Assign commits
    | GivesUp(at: int, key: Key, decline: bool, addrs: set<nat>)
    | Ends(at: int, keys: set<Key>)                      // expired, or dropped as the prefix changes
    | Frees(at: int)                                     // the declined whose hold is over

  /** A run from the leases a file had, say, at some time. */
  datatype Trace = Start(st: State, at: int) | Then(before: Trace, e: Event)

  function At(tr: Trace): int {
    match tr case Start(_, at) => at case Then(_, e) => e.at
  }

  function After(tr: Trace): State {
    match tr
    case Start(st, _) => st
    case Then(before, Binds(_, _, key, lease)) =>
      After(before).(leases := After(before).leases[key := lease])
    case Then(before, GivesUp(at, key, decline, addrs)) => Given(After(before), key, decline, addrs, at)
    case Then(before, Ends(_, keys)) => After(before).(leases := After(before).leases - keys)
    case Then(before, Frees(at)) => Purged(After(before), at)
  }

  /** A binding is made as Assign makes it, and the clock does not go back. */
  predicate Bindable(r: Range, st: State, at: int, p: Prefix, key: Key, lease: Lease) {
    if key in st.leases && st.leases[key].addr == lease.addr then lease.cut == st.leases[key].cut
    else lease.cut == p && Pooled(r, p, lease.addr) && !Used(st, at, lease.addr)
  }

  ghost predicate Legal(r: Range, tr: Trace) {
    match tr
    case Start(st, at) => Inv(r, st, at)
    case Then(before, e) =>
      && Legal(r, before) && At(before) <= e.at
      && (e.Binds? ==> Bindable(r, After(before), e.at, e.p, e.key, e.lease))
  }

  /** Leases under different keys are of different addresses, all of the pool, and none of them is of an
      address declined that is still held back at t. */
  ghost predicate Inv(r: Range, st: State, t: int) {
    && (forall j, k :: j in st.leases && k in st.leases && j != k ==> st.leases[j].addr != st.leases[k].addr)
    && (forall k :: k in st.leases ==> Pooled(r, st.leases[k].cut, st.leases[k].addr))
    && (forall k :: k in st.leases && st.leases[k].addr in st.declined ==> st.declined[st.leases[k].addr] <= t)
  }

  lemma {:induction false} BindKeeps(r: Range, st: State, at: int, p: Prefix, key: Key, lease: Lease)
    requires Inv(r, st, at) && Bindable(r, st, at, p, key, lease)
    ensures Inv(r, st.(leases := st.leases[key := lease]), at)
  {
    hide Pooled;
  }

  lemma {:induction false} GiveUpKeeps(r: Range, st: State, at: int, key: Key, decline: bool, addrs: set<nat>)
    requires Inv(r, st, at)
    ensures Inv(r, Given(st, key, decline, addrs, at), at)
  {
    hide Pooled;
  }

  lemma {:induction false} RunKeeps(r: Range, tr: Trace, t: int)
    requires Legal(r, tr) && At(tr) <= t
    ensures Inv(r, After(tr), t)
  {
    hide Pooled;
    if tr.Then? {
      RunKeeps(r, tr.before, tr.e.at);
      match tr.e {
        case Binds(at, p, key, lease) => BindKeeps(r, After(tr.before), at, p, key, lease);
        case GivesUp(at, key, decline, addrs) => GiveUpKeeps(r, After(tr.before), at, key, decline, addrs);
        case Ends(_, _) =>
        case Frees(_) =>
      }
    }
  }

  /** Over any run no address is leased twice, every one is of the pool and inside the prefix it was cut
      from, and an address a client found in use is not leased again while it is held back. */
  lemma {:induction false} RunSafe(r: Range, tr: Trace, t: int, k: Key)
    requires Usable(r) && Legal(r, tr) && At(tr) <= t && k in After(tr).leases
    ensures var st := After(tr);
            var l := st.leases[k];
            && (forall j :: j in st.leases && st.leases[j].addr == l.addr ==> j == k)
            && Pooled(r, l.cut, l.addr) && Contains(l.cut, l.addr)
            && !(l.addr in st.declined && t < st.declined[l.addr])
  {
    RunKeeps(r, tr, t);
    PooledInside(r, After(tr).leases[k].cut, After(tr).leases[k].addr);
  }

  predicate Follows(tr: Trace, base: Trace) {
    tr == base || (tr.Then? && Follows(tr.before, base))
  }

  lemma {:induction false} NobodyHas(r: Range, tr: Trace, a: nat, until: int, t: int)
    requires Legal(r, tr) && At(tr) <= t < until && a in After(tr).declined && After(tr).declined[a] == until
    ensures forall k :: k in After(tr).leases ==> After(tr).leases[k].addr != a
  {
    hide Pooled;
    RunKeeps(r, tr, t);
  }

  /** Declining one's own address holds it back for the whole of the hold: whatever follows, and whoever
      asks, nobody is leased it and it counts as used. */
  lemma {:induction false} DeclinedHeld(r: Range, base: Trace, d: int, key: Key, addrs: set<nat>, tr: Trace, t: int)
    requires key in After(base).leases && After(base).leases[key].addr in addrs
    requires Legal(r, tr) && Follows(tr, Then(base, GivesUp(d, key, true, addrs)))
    requires At(tr) <= t < d + DECLINE_HOLD
    ensures var a, st := After(base).leases[key].addr, After(tr);
            && a in st.declined && st.declined[a] == d + DECLINE_HOLD && Used(st, t, a)
            && forall k :: k in st.leases ==> st.leases[k].addr != a
  {
    hide Inv, Bindable;
    var a := After(base).leases[key].addr;
    if tr != Then(base, GivesUp(d, key, true, addrs)) {
      DeclinedHeld(r, base, d, key, addrs, tr.before, tr.e.at);
    }
    NobodyHas(r, tr, a, d + DECLINE_HOLD, t);
  }
}
