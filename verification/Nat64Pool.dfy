/** The NAT64 address mapping: two hash maps that several CPUs and the slow path fill at once.

Every map call is atomic and is one step of the thread that makes it, or of the sweep that removes idle
mappings. Nothing orders the steps of different threads, so a run is any sequence of steps, and a thread
or the sweep stands between two calls in the meantime. `Pool` is the same code as one thread runs it,
proved to be a run of the machine. */
module Nat64Pool {
  import opened Arith
  import opened Wire
  import Rfc6052

  type Addr6 = a: Bytes | |a| == 16 witness seq(16, _ => 0)
  type Addr4 = nat
  type Tid = nat

  const PROBES: nat := 8
  const POOL_RESERVED: nat := 2
  const IDLE_SWEEPS: nat := 2

  /** The pool: `size` addresses from `base`, the first POOL_RESERVED of them nobody's. And the NAT64 prefix,
      which carries IPv4 addresses. */
  datatype Setup = Setup(base: Addr4, size: nat, prefix: Bytes, bits: nat)

  predicate Sound(c: Setup) {
    c.size > 0 && c.base + c.size <= 0x1_0000_0000 && |c.prefix| == 16 && Rfc6052.Allowed(c.bits)
  }

  type Config = c: Setup | Sound(c) witness Setup(0, 1, seq(16, _ => 0), 96)

  /** in_pref64. */
  predicate InPref(c: Config, a: Addr6) {
    Rfc6052.InPrefix(c.prefix, c.bits, a)
  }

  /** extract4 and embed4, the IPv4 address as a number. */
  function Extract(c: Config, a: Addr6): Addr4 {
    Get32(Rfc6052.Carried(c.bits, a), 0)
  }

  function Embed(c: Config, p: Addr4): Addr6 {
    Rfc6052.Layout(c.prefix, c.bits, Put32(p))
  }

  predicate InPool(c: Config, p: Addr4) {
    c.base + POOL_RESERVED <= p < c.base + c.size
  }

  /** in_pool by its masks: a pool that is aligned to its size, a power of two, is the addresses whose
      upper bits are base's, and the reserved ones those whose lower bits are too small. */
  lemma InPoolByMask(c: Config, p: Addr4)
    requires c.size > POOL_RESERVED && c.base % c.size == 0
    ensures InPool(c, p) <==> p / c.size * c.size == c.base && p % c.size >= POOL_RESERVED
  {
    LastMultiple(c.size, p);
    LastMultiple(c.size, c.base);
    if InPool(c, p) {
      assert c.size * (c.base / c.size + 1) == c.base + c.size;
      QuotientIs(p, c.size, c.base / c.size);
    }
  }

  /** The slot the i-th probe of a source with hash h looks at. */
  function Slot(c: Config, h: nat, i: nat): Addr4
  {
    c.base + (h + i) % c.size
  }

  /** Where a thread stands: the map call it makes next, or what it returned. Of an address in the NAT64
      prefix it returns what that carries, and makes none. */
  datatype Pc =
    | Idle
    | Look(a: Addr6, h: nat, alloc: bool)          // look a up in v4_of
    | Probe(a: Addr6, h: nat, i: nat)              // put slot i into v6_of unless it is there
    | Pair(a: Addr6, p: Addr4)                     // v6_of[p] is in; put a into v4_of unless it is there
    | Undo(a: Addr6, p: Addr4)                     // a was mapped meanwhile; take p out of v6_of again
    | Relook(a: Addr6)                             // and look a up once more
    | Done(a: Addr6, out: Option<Addr4>)

  /** Where the sweep stands: not running, about to visit its next key, or at one of the three calls by
      which it removes one. */
  datatype Visit =
    | Asleep
    | Between
    | Look6(p: Addr4)                              // look p up in v6_of
    | Del4(p: Addr4, a: Addr6)                     // a was there; delete it from v4_of
    | Del6(p: Addr4)                               // delete p from v6_of, whether it was there or not

  /** todo are the keys of v6_of, as they were, that are still to be visited; active the addresses with a
      flow; idle the sweeps in a row that have found none, address by address. */
  datatype Sweeper = Sweeper(todo: set<Addr4>, active: set<Addr4>, at: Visit, idle: map<Addr4, nat>)

  datatype State = State(v4of: map<Addr6, Addr4>, v6of: map<Addr4, Addr6>, pcs: map<Tid, Pc>, sw: Sweeper)

  datatype Event =
    | Begin(t: Tid, a: Addr6, h: nat, alloc: bool)
    // refused: the kernel turns an insert down although the key is absent, as when the map is full
    | Advance(t: Tid, refused: bool)
    | SweepBegin(active: set<Addr4>)
    | SweepCall(next: Addr4)                       // next is the key visited, where one is

  function Find<K, V>(m: map<K, V>, k: K): Option<V> {
    if k in m then Some(m[k]) else None
  }

  function PcOf(s: State, t: Tid): Pc {
    if t in s.pcs then s.pcs[t] else Idle
  }

  /** The thread has put p into v6_of and not yet either paired it or taken it out. */
  predicate Holds(pc: Pc, a: Addr6, p: Addr4) {
    pc == Pair(a, p) || pc == Undo(a, p)
  }

  predicate Holding(pc: Pc) {
    pc.Pair? || pc.Undo?
  }

  /** The maps, and where one thread stands. */
  datatype View = View(v4of: map<Addr6, Addr4>, v6of: map<Addr4, Addr6>, pc: Pc)

  /** One atomic map call of a thread, and where that takes it. */
  function Step(c: Config, v: View, refused: bool): View
  {
    match v.pc
    case Look(a, h, alloc) =>
      if a in v.v4of then v.(pc := Done(a, Some(v.v4of[a])))
      else if !alloc then v.(pc := Done(a, None))
      else v.(pc := Probe(a, h, 0))
    case Probe(a, h, i) =>
      var p := Slot(c, h, i);
      if i >= PROBES then v.(pc := Done(a, None))
      else if p < c.base + POOL_RESERVED || p in v.v6of || refused then v.(pc := Probe(a, h, i + 1))
      else v.(v6of := v.v6of[p := a], pc := Pair(a, p))
    case Pair(a, p) =>
      if a in v.v4of || refused then v.(pc := Undo(a, p))
      else v.(v4of := v.v4of[a := p], pc := Done(a, Some(p)))
    case Undo(a, p) => v.(v6of := v.v6of - {p}, pc := Relook(a))
    case Relook(a) => v.(pc := Done(a, Find(v.v4of, a)))
    case Idle => v
    case Done(_, _) => v
  }

  function Call(c: Config, s: State, t: Tid, refused: bool): State
  {
    var v := Step(c, View(s.v4of, s.v6of, PcOf(s, t)), refused);
    State(v.v4of, v.v6of, s.pcs[t := v.pc], s.sw)
  }

  function Count(idle: map<Addr4, nat>, p: Addr4): nat {
    if p in idle then idle[p] else 0
  }

  /** The sweep's counters once it has visited p, and whether p is to go. */
  function Visited(sw: Sweeper, p: Addr4): Sweeper {
    var rest := sw.(todo := sw.todo - {p});
    if p in sw.active then rest.(idle := sw.idle - {p})
    else if Count(sw.idle, p) + 1 >= IDLE_SWEEPS then rest.(idle := sw.idle - {p}, at := Look6(p))
    else rest.(idle := sw.idle[p := Count(sw.idle, p) + 1])
  }

  /** One step of the sweep: a visit, which is its own business, or one atomic map call. */
  function Swept(s: State, next: Addr4): State {
    match s.sw.at
    case Asleep => s
    case Between => s.(sw := if s.sw.todo == {} then Sweeper({}, {}, Asleep, s.sw.idle) else Visited(s.sw, next))
    case Look6(p) => s.(sw := s.sw.(at := if p in s.v6of then Del4(p, s.v6of[p]) else Del6(p)))
    case Del4(p, a) => s.(v4of := s.v4of - {a}, sw := s.sw.(at := Del6(p)))
    case Del6(p) => s.(v6of := s.v6of - {p}, sw := s.sw.(at := Between))
  }

  /** A thread begins when it runs nothing, the sweep when it sleeps, and it visits what it has to. */
  predicate Enabled(s: State, e: Event) {
    match e
    case Begin(t, _, _, _) => PcOf(s, t).Idle? || PcOf(s, t).Done?
    case Advance(_, _) => true
    case SweepBegin(_) => s.sw.at.Asleep?
    case SweepCall(next) => !s.sw.at.Asleep? && (s.sw.at.Between? && s.sw.todo != {} ==> next in s.sw.todo)
  }

  function Next(c: Config, s: State, e: Event): State
  {
    match e
    case Begin(t, a, h, alloc) => s.(pcs := s.pcs[t := if InPref(c, a) then Done(a, Some(Extract(c, a))) else Look(a, h, alloc)])
    case Advance(t, refused) => Call(c, s, t, refused)
    case SweepBegin(active) => s.(sw := Sweeper(s.v6of.Keys, active, Between, s.sw.idle))
    case SweepCall(next) => Swept(s, next)
  }

  /** The events of a run, in the order they happened. */
  datatype Trace = Start | Then(before: Trace, e: Event)

  function Run(c: Config, s: State, tr: Trace): State
  {
    match tr
    case Start => s
    case Then(before, e) => Next(c, Run(c, s, before), e)
  }

  predicate Legal(c: Config, s: State, tr: Trace)
  {
    match tr
    case Start => true
    case Then(before, e) => Legal(c, s, before) && Enabled(Run(c, s, before), e)
  }

  // ---- What is kept

  predicate Paired(s: State, p: Addr4)
    requires p in s.v6of
  {
    s.v6of[p] in s.v4of && s.v4of[s.v6of[p]] == p
  }

  /** Thread t is allocating p and has it in v6_of alone. */
  ghost predicate InFlight(s: State, t: Tid, p: Addr4) {
    && p in s.v6of && !Paired(s, p)
    && t in s.pcs && Holds(s.pcs[t], s.v6of[p], p)
  }

  /** v4_of is inverted by v6_of, into the unreserved part of the pool. */
  ghost predicate Inverted(c: Config, s: State) {
    forall a :: a in s.v4of ==> s.v4of[a] in s.v6of && s.v6of[s.v4of[a]] == a && InPool(c, s.v4of[a])
  }

  /** And what a thread holds between its two inserts is there, is not paired, and is no other thread's. */
  ghost predicate Core(c: Config, s: State) {
    && Inverted(c, s)
    && (forall p :: p in s.v6of ==> InPool(c, p))
    && (forall t :: t in s.pcs && Holding(s.pcs[t]) ==> InFlight(s, t, s.pcs[t].p))
    && (forall t, u, p :: InFlight(s, t, p) && InFlight(s, u, p) ==> t == u)
  }

  /** The sweep is about to take p out of v6_of, having taken its source out of v4_of. */
  predicate Taking(s: State, p: Addr4) {
    s.sw.at == Del6(p)
  }

  /** An entry of v6_of without its partner is some thread's that is between the two inserts, or the
      sweep's that is between its two deletes. */
  ghost predicate Tidy(s: State) {
    forall p :: p in s.v6of && !Paired(s, p) && !Taking(s, p) ==> exists t :: InFlight(s, t, p)
  }

  ghost predicate Inv(c: Config, s: State) {
    Core(c, s) && Tidy(s)
  }

  lemma ProbeKeeps(c: Config, s: State, t: Tid, refused: bool)
    requires Core(c, s) && PcOf(s, t).Probe?
    ensures Core(c, Call(c, s, t, refused)) && (Tidy(s) ==> Tidy(Call(c, s, t, refused)))
  {
    hide InPref, Extract;
    var s' := Call(c, s, t, refused);
    var p := Slot(c, s.pcs[t].h, s.pcs[t].i);
    if s'.v6of == s.v6of {
      SameMaps(c, s, s', t);
    } else {
      assert InFlight(s', t, p);
      forall u, q | q != p ensures InFlight(s', u, q) <==> InFlight(s, u, q) {
      }
      forall q | Tidy(s) && q in s'.v6of && !Paired(s', q) && !Taking(s', q) ensures exists u :: InFlight(s', u, q) {
        if q != p {
          var u :| InFlight(s, u, q);
          assert InFlight(s', u, q);
        }
      }
      forall u | u in s'.pcs && Holding(s'.pcs[u]) ensures InFlight(s', u, s'.pcs[u].p) {
        if u != t { assert InFlight(s, u, s.pcs[u].p); }
      }
    }
  }

  lemma PairKeeps(c: Config, s: State, t: Tid, refused: bool)
    requires Core(c, s) && PcOf(s, t).Pair?
    ensures Core(c, Call(c, s, t, refused)) && (Tidy(s) ==> Tidy(Call(c, s, t, refused)))
  {
    hide InPref, Extract;
    var s' := Call(c, s, t, refused);
    var Pair(a, p) := s.pcs[t];
    assert InFlight(s, t, p);
    forall u, q | q != p ensures InFlight(s', u, q) <==> InFlight(s, u, q) {
    }
    forall q | Tidy(s) && q in s'.v6of && !Paired(s', q) && !Taking(s', q) ensures exists u :: InFlight(s', u, q) {
      assert !Paired(s, q);
      var u :| InFlight(s, u, q);
      assert InFlight(s', u, q);
    }
    forall u | u in s'.pcs && Holding(s'.pcs[u]) ensures InFlight(s', u, s'.pcs[u].p) {
      assert InFlight(s, u, s.pcs[u].p);
    }
  }

  lemma UndoKeeps(c: Config, s: State, t: Tid, refused: bool)
    requires Core(c, s) && PcOf(s, t).Undo?
    ensures Core(c, Call(c, s, t, refused)) && (Tidy(s) ==> Tidy(Call(c, s, t, refused)))
  {
    var s' := Call(c, s, t, refused);
    assert InFlight(s, t, s.pcs[t].p);
    GoneKeeps(c, s, s', s.pcs[t].p);
  }

  /** Taking p out of v6_of keeps it all when p is not paired and no one, from then on, holds it. */
  lemma GoneKeeps(c: Config, s: State, s': State, p: Addr4)
    requires Core(c, s) && !(p in s.v6of && Paired(s, p)) && s'.v4of == s.v4of && s'.v6of == s.v6of - {p}
    requires s'.pcs.Keys == s.pcs.Keys && forall t :: t in s'.pcs ==>
               if Holding(s'.pcs[t]) then s'.pcs[t] == s.pcs[t] && s'.pcs[t].p != p else Holding(s.pcs[t]) ==> s.pcs[t].p == p
    requires forall q :: Taking(s, q) && !Taking(s', q) ==> q == p
    ensures Core(c, s') && (Tidy(s) ==> Tidy(s'))
  {
    forall u, q | q != p ensures InFlight(s', u, q) <==> InFlight(s, u, q) {
    }
    forall q | Tidy(s) && q in s'.v6of && !Paired(s', q) && !Taking(s', q) ensures exists u :: InFlight(s', u, q) {
      var u :| InFlight(s, u, q);
      assert InFlight(s', u, q);
    }
    forall u | u in s'.pcs && Holding(s'.pcs[u]) ensures InFlight(s', u, s'.pcs[u].p) {
      assert InFlight(s, u, s.pcs[u].p);
    }
  }

  /** Every map call of every thread keeps the invariant. */
  lemma CallKeeps(c: Config, s: State, t: Tid, refused: bool)
    requires Core(c, s)
    ensures Core(c, Call(c, s, t, refused)) && (Tidy(s) ==> Tidy(Call(c, s, t, refused)))
  {
    var pc := PcOf(s, t);
    if pc.Probe? {
      ProbeKeeps(c, s, t, refused);
    } else if pc.Pair? {
      PairKeeps(c, s, t, refused);
    } else if pc.Undo? {
      UndoKeeps(c, s, t, refused);
    } else {
      SameMaps(c, s, Call(c, s, t, refused), t);
    }
  }

  /** A step that touches no map and leaves the thread holding nothing, as it held nothing before. */
  lemma SameMaps(c: Config, s: State, s': State, t: Tid)
    requires Core(c, s) && s'.v4of == s.v4of && s'.v6of == s.v6of && s'.sw == s.sw && !Holding(PcOf(s, t))
    requires t in s'.pcs && s'.pcs == s.pcs[t := s'.pcs[t]] && !Holding(s'.pcs[t])
    ensures Core(c, s') && (Tidy(s) ==> Tidy(s'))
  {
    forall u, p ensures InFlight(s, u, p) <==> InFlight(s', u, p) {
    }
    forall p | Tidy(s) && p in s'.v6of && !Paired(s', p) && !Taking(s', p) ensures exists u :: InFlight(s', u, p) {
      var u :| InFlight(s, u, p);
      assert InFlight(s', u, p);
    }
  }

  // ---- The sweep

  /** A step that touches neither a map nor a thread. */
  lemma SweeperMoves(c: Config, s: State, s': State)
    requires Core(c, s) && s' == s.(sw := s'.sw) && forall q :: !Taking(s, q)
    ensures Core(c, s') && (Tidy(s) ==> Tidy(s'))
  {
    forall u, q ensures InFlight(s', u, q) <==> InFlight(s, u, q) {
    }
    forall q | Tidy(s) && q in s'.v6of && !Paired(s', q) && !Taking(s', q) ensures exists u :: InFlight(s', u, q) {
      var u :| InFlight(s, u, q);
      assert InFlight(s', u, q);
    }
  }

  predicate HeldBy(s: State, t: Tid, p: Addr4) {
    t in s.pcs && Holding(s.pcs[t]) && s.pcs[t].p == p
  }

  /** Nobody has p, and no allocation has it half done. */
  ghost predicate Unclaimed(s: State, p: Addr4) {
    !(p in s.v6of && Paired(s, p)) && forall t :: !HeldBy(s, t, p)
  }

  /** What the sweep's next call asks of the moment it is made: that the source it deletes from v4_of has
      no other address, and that the address it deletes from v6_of is unclaimed. */
  ghost predicate Clear(s: State) {
    match s.sw.at
    case Del4(p, a) => a in s.v4of ==> s.v4of[a] == p
    case Del6(p) => Unclaimed(s, p)
    case _ => true
  }

  lemma Del4Keeps(c: Config, s: State)
    requires Core(c, s) && s.sw.at.Del4?
    ensures var s' := Swept(s, 0); Core(c, s') && (Tidy(s) ==> (Tidy(s') <==> Clear(s)))
  {
    var Del4(p, a) := s.sw.at;
    var s' := Swept(s, 0);
    forall q | q in s.v6of && (a in s.v4of ==> s.v4of[a] != q) ensures Paired(s', q) <==> Paired(s, q) {
    }
    forall u, q ensures InFlight(s', u, q) <==> InFlight(s, u, q) {
    }
    if Tidy(s) && Clear(s) {
      forall q | q in s'.v6of && !Paired(s', q) && !Taking(s', q) ensures exists u :: InFlight(s', u, q) {
        var u :| InFlight(s, u, q);
        assert InFlight(s', u, q);
      }
    }
    if !Clear(s) {
      var q := s.v4of[a];
      assert q in s'.v6of && !Paired(s', q) && !Taking(s', q) && Paired(s, q);
    }
  }

  lemma Del6Keeps(c: Config, s: State)
    requires Core(c, s) && s.sw.at.Del6?
    ensures var s' := Swept(s, 0); (Core(c, s') <==> Clear(s)) && (Clear(s) && Tidy(s) ==> Tidy(s'))
  {
    var p := s.sw.at.p;
    var s' := Swept(s, 0);
    if Clear(s) {
      forall t | t in s.pcs && Holding(s.pcs[t]) ensures s.pcs[t].p != p {
        assert !HeldBy(s, t, p);
      }
      GoneKeeps(c, s, s', p);
    } else if forall t :: !HeldBy(s, t, p) {
      assert s.v6of[p] in s'.v4of;
    } else {
      var t :| HeldBy(s, t, p);
      assert !InFlight(s', t, p);
    }
  }

  /** A call of the sweep keeps the invariant exactly when it is clear. */
  lemma SweepKeeps(c: Config, s: State, next: Addr4)
    requires Inv(c, s)
    ensures Inv(c, Swept(s, next)) <==> Clear(s)
  {
    match s.sw.at
    case Del4(_, _) => Del4Keeps(c, s);
    case Del6(_) => Del6Keeps(c, s);
    case _ => if !s.sw.at.Asleep? { SweeperMoves(c, s, Swept(s, next)); }
  }

  /** Every call the sweep makes in the run is clear. */
  ghost predicate Cleared(c: Config, s: State, tr: Trace)
  {
    tr.Then? ==> Cleared(c, s, tr.before) && (tr.e.SweepCall? ==> Clear(Run(c, s, tr.before)))
  }

  lemma NextKeeps(c: Config, s: State, e: Event)
    requires Inv(c, s) && Enabled(s, e) && (e.SweepCall? ==> Clear(s))
    ensures Inv(c, Next(c, s, e))
  {
    match e
    case Begin(t, a, h, alloc) => SameMaps(c, s, Next(c, s, e), t);
    case Advance(t, refused) => CallKeeps(c, s, t, refused);
    case SweepBegin(active) => SweeperMoves(c, s, Next(c, s, e));
    case SweepCall(next) => SweepKeeps(c, s, next);
  }

  /** Every state any interleaving reaches keeps the invariant, as long as the sweep's calls are clear. */
  lemma {:induction false} RunKeeps(c: Config, s: State, tr: Trace)
    requires Inv(c, s) && Legal(c, s, tr) && Cleared(c, s, tr)
    ensures Inv(c, Run(c, s, tr))
  {
    if tr.Then? {
      RunKeeps(c, s, tr.before);
      NextKeeps(c, Run(c, s, tr.before), tr.e);
    }
  }

  // ---- What that gives the threads

  /** In a reachable state no two sources share a pool address, and what is not paired is exactly what the
      allocations in flight hold, each its own, and the address the sweep is taking. */
  lemma NoSharing(c: Config, s: State)
    requires Inv(c, s)
    ensures !Shared(s)
    ensures forall p :: p in s.v6of && !Paired(s, p) && !Taking(s, p) ==>
              exists t :: InFlight(s, t, p) && forall u :: InFlight(s, u, p) ==> u == t
  {
    NoneShared(c, s);
    forall p | p in s.v6of && !Paired(s, p) && !Taking(s, p)
      ensures exists t :: InFlight(s, t, p) && forall u :: InFlight(s, u, p) ==> u == t
    {
      var t :| InFlight(s, t, p);
    }
  }

  ghost predicate Shared(s: State) {
    exists a, b :: a != b && a in s.v4of && b in s.v4of && s.v4of[a] == s.v4of[b]
  }

  lemma NoneShared(c: Config, s: State)
    requires Inverted(c, s)
    ensures !Shared(s)
  {
    forall a, b | a in s.v4of && b in s.v4of && s.v4of[a] == s.v4of[b] ensures a == b {
      assert s.v6of[s.v4of[a]] == a;
    }
  }

  // ---- What an allocation by itself comes to

  /** The i-th place looked at is no use: it is reserved, or somebody's. */
  predicate Passed(c: Config, v6of: map<Addr4, Addr6>, h: nat, i: nat) {
    var at := (h + i) % c.size;
    at < POOL_RESERVED || c.base + at in v6of
  }

  /** p is the first of the places looked at that is of use. */
  predicate FirstFree(c: Config, v6of: map<Addr4, Addr6>, h: nat, p: Addr4) {
    exists i :: 0 <= i < PROBES && p == c.base + (h + i) % c.size && !Passed(c, v6of, h, i)
                && forall j :: 0 <= j < i ==> Passed(c, v6of, h, j)
  }

  /** In a pool of no fewer addresses than there are probes, each of them looks at another. */
  lemma ProbesDiffer(c: Config, h: nat, i: nat, j: nat)
    requires c.size >= PROBES && i < j < PROBES
    ensures (h + i) % c.size != (h + j) % c.size
  {
    var q := (h + i) / c.size;
    LastMultiple(c.size, h + i);
    assert c.size * (q + 1) == c.size * q + c.size && c.size * (q + 2) == c.size * q + 2 * c.size;
    QuotientIs(h + i, c.size, q);
    if h + j < c.size * (q + 1) {
      QuotientIs(h + j, c.size, q);
    } else {
      QuotientIs(h + j, c.size, q + 1);
    }
  }

  /** n steps of a thread, nothing else running and no insert turned down. */
  function Alone(c: Config, v: View, n: nat): View
    decreases n
  {
    if n == 0 then v else Alone(c, Step(c, v, false), n - 1)
  }

  /** The source given its i-th place, in both maps. */
  function Given(c: Config, v: View, a: Addr6, h: nat, i: nat): View {
    var p := c.base + (h + i) % c.size;
    View(v.v4of[a := p], v.v6of[p := a], Done(a, Some(p)))
  }

  /** A probe by itself: the place is passed over, or taken, and paired by the next step. */
  lemma ProbeIs(c: Config, v: View, a: Addr6, h: nat, i: nat)
    requires v.pc == Probe(a, h, i) && i <= PROBES && a !in v.v4of
    ensures var next := Step(c, v, false);
            if i == PROBES then next == v.(pc := Done(a, None))
            else if Passed(c, v.v6of, h, i) then next == v.(pc := Probe(a, h, i + 1))
            else Step(c, next, false) == Given(c, v, a, h, i)
  {
  }

  /** From its i-th probe on a thread by itself is given the first address of use there is, and none if and only
      if all of the places left are of no use. */
  lemma {:induction false} ProbesAlone(c: Config, v: View, a: Addr6, h: nat, i: nat) returns (n: nat, k: nat)
    requires v.pc == Probe(a, h, i) && i <= PROBES && a !in v.v4of
    ensures i <= k <= PROBES && forall j :: i <= j < k ==> Passed(c, v.v6of, h, j)
    ensures k < PROBES ==> !Passed(c, v.v6of, h, k)
    ensures Alone(c, v, n) == if k == PROBES then v.(pc := Done(a, None)) else Given(c, v, a, h, k)
    decreases PROBES - i
  {
    ProbeIs(c, v, a, h, i);
    hide Step, Passed, Given;
    var next := Step(c, v, false);
    if i == PROBES {
      n, k := 1, i;
      assert Alone(c, v, 1) == Alone(c, next, 0);
    } else if Passed(c, v.v6of, h, i) {
      n, k := ProbesAlone(c, next, a, h, i + 1);
      GivenOn(c, v, a, h, i, k);
      assert Alone(c, v, n + 1) == Alone(c, next, n);
      n := n + 1;
    } else {
      n, k := 2, i;
      assert Alone(c, v, 2) == Alone(c, next, 1) == Alone(c, Step(c, next, false), 0);
    }
  }

  lemma GivenOn(c: Config, v: View, a: Addr6, h: nat, i: nat, k: nat)
    ensures Given(c, v.(pc := Probe(a, h, i + 1)), a, h, k) == Given(c, v, a, h, k)
  {
  }

  /** A source's first packet: what an allocation by itself returns. */
  lemma {:induction false} AllocatesAlone(c: Config, v: View, a: Addr6, h: nat) returns (n: nat)
    requires v.pc == Look(a, h, true) && a !in v.v4of
    ensures var to := Alone(c, v, n);
            && to.pc.Done? && to.pc.a == a
            && (to.pc.out.None? <==> forall i :: 0 <= i < PROBES ==> Passed(c, v.v6of, h, i))
            && (to.pc.out.None? ==> to.v4of == v.v4of && to.v6of == v.v6of)
            && (to.pc.out.Some? ==>
                  var p := to.pc.out.value;
                  FirstFree(c, v.v6of, h, p) && to.v4of == v.v4of[a := p] && to.v6of == v.v6of[p := a])
  {
    hide Passed;
    var probing := v.(pc := Probe(a, h, 0));
    assert Step(c, v, false) == probing;
    var k: nat;
    n, k := ProbesAlone(c, probing, a, h, 0);
    assert Alone(c, v, n + 1) == Alone(c, probing, n);
    n := n + 1;
  }

  // ---- The way out and the way back

  /** What map6to4 gives for an address when it does not allocate. */
  function MapOut(c: Config, v4of: map<Addr6, Addr4>, a: Addr6): Option<Addr4> {
    if InPref(c, a) then Some(Extract(c, a)) else Find(v4of, a)
  }

  /** map4to6: the source a pool address stands for, and any other address behind the prefix. */
  function MapBack(c: Config, v6of: map<Addr4, Addr6>, p: Addr4): Option<Addr6> {
    if InPool(c, p) then Find(v6of, p) else Some(Embed(c, p))
  }

  /** A call that goes on to the maps. */
  predicate Working(pc: Pc) {
    !pc.Idle? && !pc.Done?
  }

  /** No address in the NAT64 prefix is in the maps, or on its way there. */
  predicate Outside(c: Config, s: State) {
    && (forall a :: a in s.v4of ==> !InPref(c, a))
    && (forall p :: p in s.v6of ==> !InPref(c, s.v6of[p]))
    && (forall t :: t in s.pcs && Working(s.pcs[t]) ==> !InPref(c, s.pcs[t].a))
  }

  lemma OutsideKeeps(c: Config, s: State, e: Event)
    requires Outside(c, s)
    ensures Outside(c, Next(c, s, e))
  {
    hide InPref, Extract;
    match e
    case Begin(_, _, _, _) =>
    case Advance(t, refused) => CallOutside(c, s, t, refused);
    case SweepBegin(_) =>
    case SweepCall(_) => hide Visited;
  }

  lemma CallOutside(c: Config, s: State, t: Tid, refused: bool)
    requires Outside(c, s)
    ensures Outside(c, Call(c, s, t, refused))
  {
    hide InPref, Extract, Step;
    StepOutside(c, View(s.v4of, s.v6of, PcOf(s, t)), refused);
  }

  predicate Clean(c: Config, v: View) {
    && (forall a :: a in v.v4of ==> !InPref(c, a))
    && (forall p :: p in v.v6of ==> !InPref(c, v.v6of[p]))
    && (Working(v.pc) ==> !InPref(c, v.pc.a))
  }

  lemma StepOutside(c: Config, v: View, refused: bool)
    requires Clean(c, v)
    ensures Clean(c, Step(c, v, refused))
  {
    hide InPref, Extract, Slot;
  }

  /** Every call on an address in the prefix ends where it begins, so none is ever put in. */
  lemma {:induction false} OutsideRuns(c: Config, s: State, tr: Trace)
    requires Outside(c, s)
    ensures Outside(c, Run(c, s, tr))
  {
    hide Outside;
    if tr.Then? {
      OutsideRuns(c, s, tr.before);
      OutsideKeeps(c, Run(c, s, tr.before), tr.e);
    }
  }

  /** An address in the prefix that is the one embedding what it carries. */
  predicate Canonical(c: Config, a: Addr6) {
    Rfc6052.RestZero(c.bits, a)
  }

  lemma ExtractEmbeds(c: Config, a: Addr6)
    requires InPref(c, a)
    ensures Extract(c, a) < 0x1_0000_0000
    ensures Embed(c, Extract(c, a)) == a <==> Canonical(c, a)
  {
    var v4 := Rfc6052.Carried(c.bits, a);
    GetPut32(v4);
    Rfc6052.ExtractEmbed(c.prefix, c.bits, a);
  }

  lemma EmbedExtracts(c: Config, p: Addr4)
    requires p < 0x1_0000_0000
    ensures InPref(c, Embed(c, p)) && Extract(c, Embed(c, p)) == p && Canonical(c, Embed(c, p))
  {
    hide Rfc6052.Layout, Rfc6052.Carried, Rfc6052.RestZero, Rfc6052.InPrefix, Put32, Get32;
    Rfc6052.EmbedExtract(c.prefix, c.bits, Put32(p));
    PutGet32(p);
    ExtractEmbeds(c, Embed(c, p));
  }

  /** What goes out comes back as the same address exactly when it is a source outside the prefix, or one in
      it that carries no pool address and is zero everywhere else. */
  lemma OutAndBack(c: Config, s: State, a: Addr6)
    requires Inverted(c, s) && Outside(c, s) && MapOut(c, s.v4of, a).Some?
    ensures MapBack(c, s.v6of, MapOut(c, s.v4of, a).value) == Some(a) <==>
              !InPref(c, a) || (!InPool(c, Extract(c, a)) && Canonical(c, a))
  {
    hide InPref, Extract, Embed, Canonical;
    if InPref(c, a) { ExtractEmbeds(c, a); }
  }

  /** And the other way: what comes in goes out again as the same address, from outside the pool, and from
      the pool once its source has it in both maps. */
  lemma BackAndOut(c: Config, s: State, p: Addr4)
    requires Inverted(c, s) && Outside(c, s) && p < 0x1_0000_0000 && MapBack(c, s.v6of, p).Some?
    ensures MapOut(c, s.v4of, MapBack(c, s.v6of, p).value) == Some(p) <==> !InPool(c, p) || Paired(s, p)
  {
    hide InPref, Extract, Embed, Canonical;
    EmbedExtracts(c, p);
  }

  predicate OfThread(e: Event, t: Tid) {
    (e.Begin? || e.Advance?) && e.t == t
  }

  /** A call that returns an address to its caller, by that step, returns one that leads back to the source
      under just that condition, at that very moment; and what it returns is what the maps then say. */
  lemma CallOutAndBack(c: Config, s: State, e: Event, t: Tid)
    requires Core(c, s) && Outside(c, s) && Enabled(s, e) && OfThread(e, t) && (e.Advance? ==> !PcOf(s, t).Done?)
    ensures var s' := Next(c, s, e);
            PcOf(s', t).Done? && PcOf(s', t).out.Some? ==>
              var a, p := PcOf(s', t).a, PcOf(s', t).out.value;
              && MapOut(c, s'.v4of, a) == Some(p)
              && (MapBack(c, s'.v6of, p) == Some(a) <==>
                    !InPref(c, a) || (!InPool(c, Extract(c, a)) && Canonical(c, a)))
  {
    hide InPref, Extract, Embed, Canonical, Core;
    var s' := Next(c, s, e);
    EventKeepsCore(c, s, e);
    OutsideKeeps(c, s, e);
    CoreInverts(c, s');
    if PcOf(s', t).Done? && PcOf(s', t).out.Some? { OutAndBack(c, s', PcOf(s', t).a); }
  }

  lemma CoreInverts(c: Config, s: State)
    requires Core(c, s)
    ensures Inverted(c, s)
  {
  }

  /** Every source is shared with an address in the prefix: the one that carries its pool address. That one
      meets the condition of embedding, and does not come back. */
  lemma Impersonated(c: Config, s: State, b: Addr6)
    requires Inverted(c, s) && Outside(c, s) && b in s.v4of
    ensures var a := Embed(c, s.v4of[b]);
            && a != b && InPref(c, a) && Canonical(c, a)
            && MapOut(c, s.v4of, a) == MapOut(c, s.v4of, b) == Some(s.v4of[b])
            && MapBack(c, s.v6of, s.v4of[b]) == Some(b)
  {
    hide InPref, Extract, Embed, Canonical;
    EmbedExtracts(c, s.v4of[b]);
  }

  /** Two addresses go out as one exactly when both are in the prefix and carry the same, or one is and
      carries the pool address the other has. */
  lemma SharesIff(c: Config, s: State, a: Addr6, b: Addr6)
    requires Inverted(c, s) && Outside(c, s) && a != b
    requires MapOut(c, s.v4of, a).Some? && MapOut(c, s.v4of, b).Some?
    ensures MapOut(c, s.v4of, a) == MapOut(c, s.v4of, b) <==>
              || (InPref(c, a) && InPref(c, b) && Extract(c, a) == Extract(c, b))
              || (InPref(c, a) && b in s.v4of && Extract(c, a) == s.v4of[b])
              || (InPref(c, b) && a in s.v4of && Extract(c, b) == s.v4of[a])
  {
    hide InPref, Extract;
    NoneShared(c, s);
  }

  /** The sweep does not come to take p's source out of v4_of. */
  predicate Spares(c: Config, s: State, tr: Trace, p: Addr4)
  {
    tr.Then? ==>
      && Spares(c, s, tr.before, p)
      && (tr.e.SweepCall? ==> var at := Run(c, s, tr.before).sw.at; at.Del4? ==> at.p != p)
  }

  lemma StepKeepsMapping(c: Config, s: State, e: Event, a: Addr6)
    requires Inv(c, s) && a in s.v4of
    requires e.SweepCall? ==> s.sw.at.Del4? ==> s.sw.at.p != s.v4of[a] && Clear(s)
    ensures var s' := Next(c, s, e); a in s'.v4of && s'.v4of[a] == s.v4of[a]
  {
  }

  /** And goes on leading back, whatever else happens, until the sweep comes to take that very address. */
  lemma {:induction false} MappingStays(c: Config, s: State, tr: Trace, a: Addr6)
    requires Inv(c, s) && Legal(c, s, tr) && Cleared(c, s, tr)
    requires a in s.v4of && Spares(c, s, tr, s.v4of[a])
    ensures var s' := Run(c, s, tr);
            a in s'.v4of && s'.v4of[a] == s.v4of[a] && MapBack(c, s'.v6of, s.v4of[a]) == Some(a)
  {
    RunKeeps(c, s, tr);
    if tr.Then? {
      MappingStays(c, s, tr.before, a);
      RunKeeps(c, s, tr.before);
      StepKeepsMapping(c, Run(c, s, tr.before), tr.e, a);
    }
  }

  // ---- Runs, one step after another

  predicate ByThreads(tr: Trace) {
    tr.Then? ==> ByThreads(tr.before) && (tr.e.Begin? || tr.e.Advance?)
  }

  /** s' comes after s, and if so wanted by steps of the threads alone. */
  ghost predicate Reaches(c: Config, s: State, s': State, threads: bool)
  {
    exists tr :: Legal(c, s, tr) && (threads ==> ByThreads(tr)) && Run(c, s, tr) == s'
  }

  lemma ReachesSelf(c: Config, s: State)
    ensures Reaches(c, s, s, true) && Reaches(c, s, s, false)
  {
    assert Legal(c, s, Start) && ByThreads(Start);
  }

  lemma StepReaches(c: Config, s0: State, s: State, e: Event, threads: bool)
    requires Reaches(c, s0, s, threads) && Enabled(s, e) && (threads ==> e.Begin? || e.Advance?)
    ensures Reaches(c, s0, Next(c, s, e), threads)
  {
    var tr :| Legal(c, s0, tr) && (threads ==> ByThreads(tr)) && Run(c, s0, tr) == s;
    assert Legal(c, s0, Then(tr, e));
  }

  /** A step of t taken from where it stands in v, the other threads standing as in pcs. */
  lemma Moves(c: Config, s0: State, v: View, t: Tid, pcs: map<Tid, Pc>, sw: Sweeper, refused: bool, threads: bool)
    requires Reaches(c, s0, State(v.v4of, v.v6of, pcs[t := v.pc], sw), threads)
    ensures var v' := Step(c, v, refused); Reaches(c, s0, State(v'.v4of, v'.v6of, pcs[t := v'.pc], sw), threads)
  {
    hide Reaches;
    StepReaches(c, s0, State(v.v4of, v.v6of, pcs[t := v.pc], sw), Advance(t, refused), threads);
    var v' := Step(c, v, refused);
    assert pcs[t := v.pc][t := v'.pc] == pcs[t := v'.pc];
  }

  /** A thread that begins and makes its first lookup. */
  lemma LookedUp(c: Config, s0: State, s: State, t: Tid, a: Addr6, h: nat, alloc: bool, threads: bool)
    requires Reaches(c, s0, s, threads) && (PcOf(s, t).Idle? || PcOf(s, t).Done?) && !InPref(c, a)
    ensures Reaches(c, s0, s.(pcs := s.pcs[t :=
              if a in s.v4of then Done(a, Some(s.v4of[a])) else if alloc then Probe(a, h, 0) else Done(a, None)]), threads)
  {
    StepReaches(c, s0, s, Begin(t, a, h, alloc), threads);
    Moves(c, s0, View(s.v4of, s.v6of, Look(a, h, alloc)), t, s.pcs, s.sw, false, threads);
  }

  /** A thread that runs nothing can put any free address of the pool into v6_of. */
  lemma Puts(c: Config, s0: State, s: State, t: Tid, a: Addr6, p: Addr4, threads: bool)
    requires Reaches(c, s0, s, threads) && (PcOf(s, t).Idle? || PcOf(s, t).Done?)
    requires InPool(c, p) && p !in s.v6of && a !in s.v4of && !InPref(c, a)
    ensures Reaches(c, s0, s.(v6of := s.v6of[p := a], pcs := s.pcs[t := Pair(a, p)]), threads)
  {
    hide Reaches;
    var h := p - c.base;
    LookedUp(c, s0, s, t, a, h, true, threads);
    QuotientIs(h, c.size, 0);
    assert Slot(c, h, 0) == p;
    Moves(c, s0, View(s.v4of, s.v6of, Probe(a, h, 0)), t, s.pcs, s.sw, false, threads);
  }

  /** And can be given it. */
  lemma Gets(c: Config, s0: State, s: State, t: Tid, a: Addr6, p: Addr4, threads: bool)
    requires Reaches(c, s0, s, threads) && (PcOf(s, t).Idle? || PcOf(s, t).Done?)
    requires InPool(c, p) && p !in s.v6of && a !in s.v4of && !InPref(c, a)
    ensures Reaches(c, s0, State(s.v4of[a := p], s.v6of[p := a], s.pcs[t := Done(a, Some(p))], s.sw), threads)
  {
    hide Reaches;
    Puts(c, s0, s, t, a, p, threads);
    Moves(c, s0, View(s.v4of, s.v6of[p := a], Pair(a, p)), t, s.pcs, s.sw, false, threads);
  }

  /** What a thread holds it can take out of v6_of again, whoever has it there by then. */
  lemma TakesOut(c: Config, s0: State, s: State, t: Tid, p: Addr4, threads: bool) returns (pc: Pc)
    requires Reaches(c, s0, s, threads) && HeldBy(s, t, p)
    ensures Reaches(c, s0, s.(v6of := s.v6of - {p}, pcs := s.pcs[t := pc]), threads)
  {
    hide Reaches;
    var a := s.pcs[t].a;
    assert s.pcs == s.pcs[t := s.pcs[t]];
    if s.pcs[t].Pair? {
      Moves(c, s0, View(s.v4of, s.v6of, Pair(a, p)), t, s.pcs, s.sw, true, threads);
    }
    Moves(c, s0, View(s.v4of, s.v6of, Undo(a, p)), t, s.pcs, s.sw, false, threads);
    pc := Relook(a);
  }

  lemma {:induction false} Above(ns: set<nat>) returns (n: nat)
    ensures forall m :: m in ns ==> m < n
  {
    if ns == {} {
      n := 0;
    } else {
      var k :| k in ns;
      var below := Above(ns - {k});
      n := below + k + 1;
      assert forall m :: m in ns ==> m == k || m in ns - {k};
    }
  }

  /** A host's address outside the prefix, for each number of thirty-two bits. */
  function Host(c: Config, n: nat): Addr6 {
    [if c.prefix[0] == 0x20 then 0x21 else 0x20] + seq(11, _ => 0) + Put32(n)
  }

  lemma HostsApart(c: Config, m: nat, n: nat)
    requires m < n < 0x1_0000_0000
    ensures Host(c, m) != Host(c, n)
  {
    hide Put32, Get32;
    PutGet32(m);
    PutGet32(n);
    assert Host(c, m)[12..] == Put32(m) && Host(c, n)[12..] == Put32(n);
  }

  lemma HostOutside(c: Config, n: nat)
    ensures !InPref(c, Host(c, n))
  {
    var a := Host(c, n);
    assert a[..c.bits / 8][0] == a[0] && c.prefix[..c.bits / 8][0] == c.prefix[0];
  }

  lemma {:induction false} UnusedBelow(c: Config, used: set<Addr6>, n: nat) returns (m: nat)
    requires |used| < n <= 0x1_0000_0000
    ensures m < n && Host(c, m) !in used
  {
    hide Host;
    m := n - 1;
    if Host(c, m) in used {
      m := UnusedBelow(c, used - {Host(c, n - 1)}, n - 1);
      HostsApart(c, m, n - 1);
    }
  }

  lemma Unused(c: Config, used: set<Addr6>) returns (b: Addr6)
    requires |used| < 0x1_0000_0000
    ensures b !in used && !InPref(c, b)
  {
    hide Host, InPref;
    var m := UnusedBelow(c, used, 0x1_0000_0000);
    b := Host(c, m);
    HostOutside(c, m);
  }

  /** As many addresses as are in v4_of fit the pool. */
  lemma {:induction false} Injects(m: map<Addr6, Addr4>, lo: nat, n: nat)
    requires forall a :: a in m ==> lo <= m[a] < lo + n
    requires forall a, b :: a in m && b in m && m[a] == m[b] ==> a == b
    ensures |m| <= n
  {
    if n == 0 {
      assert forall a :: a !in m;
      assert m == map[];
    } else if a :| a in m && m[a] == lo + n - 1 {
      var rest := m - {a};
      assert m.Keys == rest.Keys + {a};
      Injects(rest, lo, n - 1);
    } else {
      Injects(m, lo, n - 1);
    }
  }

  /** Two hosts that have no address yet. */
  lemma FreshHosts(c: Config, s: State) returns (b: Addr6, d: Addr6)
    requires Inverted(c, s) && c.size > POOL_RESERVED
    ensures b !in s.v4of && d !in s.v4of && b != d && !InPref(c, b) && !InPref(c, d)
  {
    hide InPref;
    NoneShared(c, s);
    Injects(s.v4of, c.base + POOL_RESERVED, c.size - POOL_RESERVED);
    b := Unused(c, s.v4of.Keys);
    d := Unused(c, s.v4of.Keys + {b});
  }

  /** A pool address that a source has, and that is not in v6_of, can be given to another source. */
  lemma GivenAgain(c: Config, s0: State, s: State, a: Addr6, b: Addr6, threads: bool)
    requires Reaches(c, s0, s, threads)
    requires a in s.v4of && s.v4of[a] !in s.v6of && InPool(c, s.v4of[a])
    requires b !in s.v4of && !InPref(c, b)
    ensures exists s' :: Reaches(c, s0, s', threads) && Shared(s')
  {
    hide Reaches, InPref;
    var t := Above(s.pcs.Keys);
    var p := s.v4of[a];
    assert t !in s.pcs.Keys;
    Gets(c, s0, s, t, b, p, threads);
    var s' := State(s.v4of[b := p], s.v6of[p := b], s.pcs[t := Done(b, Some(p))], s.sw);
    assert s'.v4of[a] == s'.v4of[b] && a != b;
  }

  /** sixup's own pool, 198.18.0.0/15, and the well-known prefix. */
  const SIXUP: Config := Setup(0xc612_0000, 0x2_0000, [0, 0x64, 0xff, 0x9b, 0, 0, 0, 0, 0, 0, 0, 0, 0, 0, 0, 0], 96)

  /** 64:ff9b::198.18.0.5. */
  const CARRIER: Addr6 := [0, 0x64, 0xff, 0x9b, 0, 0, 0, 0, 0, 0, 0, 0, 198, 18, 0, 5]

  /** A host is given 198.18.0.5. From then on 64:ff9b::198.18.0.5 goes out as that too, and what comes back is
      the host's. */
  lemma CarrierShares(b: Addr6) returns (s: State)
    requires !InPref(SIXUP, b)
    ensures Reaches(SIXUP, EMPTY, s, true) && Inverted(SIXUP, s) && Outside(SIXUP, s)
    ensures CARRIER != b && InPref(SIXUP, CARRIER) && Canonical(SIXUP, CARRIER)
    ensures MapOut(SIXUP, s.v4of, CARRIER) == MapOut(SIXUP, s.v4of, b) == Some(0xc612_0005)
    ensures MapBack(SIXUP, s.v6of, 0xc612_0005) == Some(b)
  {
    hide Reaches, Extract, Canonical;
    var p := 0xc612_0005;
    ReachesSelf(SIXUP, EMPTY);
    Gets(SIXUP, EMPTY, EMPTY, 1, b, p, true);
    s := State(map[b := p], map[p := b], map[1 := Done(b, Some(p))], EMPTY.sw);
    assert EMPTY.v4of[b := p] == s.v4of && EMPTY.v6of[p := b] == s.v6of && EMPTY.pcs[1 := Done(b, Some(p))] == s.pcs;
    CarrierIs();
  }

  lemma CarrierIs()
    ensures InPref(SIXUP, CARRIER) && Canonical(SIXUP, CARRIER) && Extract(SIXUP, CARRIER) == 0xc612_0005
  {
    Rfc6052.OthersLost(SIXUP.prefix, 96, [0, 0, 0, 0], CARRIER);
    assert Rfc6052.Carried(96, CARRIER) == [198, 18, 0, 5];
    assert CARRIER[..12] == SIXUP.prefix[..12];
  }

  // ---- When the sweep is safe

  /** Whatever the threads do from here on, v4_of stays inverted. */
  ghost predicate SafeFrom(c: Config, s: State)
  {
    forall s' :: Reaches(c, s, s', true) ==> Inverted(c, s')
  }

  lemma {:induction false} ThreadsKeep(c: Config, s: State, tr: Trace)
    requires Core(c, s) && Legal(c, s, tr) && ByThreads(tr)
    ensures Core(c, Run(c, s, tr))
  {
    if tr.Then? {
      ThreadsKeep(c, s, tr.before);
      var s' := Run(c, s, tr.before);
      match tr.e
      case Begin(t, a, h, alloc) => SameMaps(c, s', Next(c, s', tr.e), t);
      case Advance(t, refused) => CallKeeps(c, s', t, refused);
    }
  }

  lemma CoreIsSafe(c: Config, s: State)
    requires Core(c, s)
    ensures SafeFrom(c, s)
  {
    forall s' | Reaches(c, s, s', true) ensures Inverted(c, s') {
      var tr :| Legal(c, s, tr) && ByThreads(tr) && Run(c, s, tr) == s';
      ThreadsKeep(c, s, tr);
    }
  }

  /** The sweep's last call, on an address that somebody has or has half allocated, lets the threads alone
      bring two sources to share it. */
  lemma ClaimedIsUnsafe(c: Config, s: State)
    requires Core(c, s) && s.sw.at.Del6? && !Unclaimed(s, s.sw.at.p)
    ensures exists s' :: Reaches(c, Swept(s, 0), s', true) && Shared(s')
  {
    hide InPref;
    var p := s.sw.at.p;
    var s0 := Swept(s, 0);
    ReachesSelf(c, s0);
    assert InPool(c, p) by {
      if !(p in s.v6of && Paired(s, p)) {
        var t :| HeldBy(s, t, p);
        assert InFlight(s, t, p);
      }
    }
    var b, d := FreshHosts(c, s);
    if p in s.v6of && Paired(s, p) {
      GivenAgain(c, s0, s0, s.v6of[p], b, true);
    } else {
      var t :| HeldBy(s, t, p);
      var u := Above(s.pcs.Keys);
      assert u !in s.pcs.Keys && InFlight(s, t, p);
      Gets(c, s0, s0, u, b, p, true);
      var s1 := State(s0.v4of[b := p], s0.v6of[p := b], s0.pcs[u := Done(b, Some(p))], s0.sw);
      var pc := TakesOut(c, s0, s1, t, p, true);
      GivenAgain(c, s0, s1.(v6of := s1.v6of - {p}, pcs := s1.pcs[t := pc]), b, d, true);
    }
  }

  /** The sweep's calls in the run that delete from v6_of find the address unclaimed. */
  ghost predicate OnlyUnclaimed(c: Config, s: State, tr: Trace)
  {
    tr.Then? ==>
      && OnlyUnclaimed(c, s, tr.before)
      && var at := Run(c, s, tr.before).sw.at;
         tr.e.SweepCall? && at.Del6? ==> Unclaimed(Run(c, s, tr.before), at.p)
  }

  /** At no point of the run can the threads break what v4_of and v6_of say of each other. */
  ghost predicate SafeThroughout(c: Config, s: State, tr: Trace)
  {
    SafeFrom(c, Run(c, s, tr)) && (tr.Then? ==> SafeThroughout(c, s, tr.before))
  }

  lemma EventKeepsCore(c: Config, s: State, e: Event)
    requires Core(c, s) && Enabled(s, e)
    requires e.SweepCall? && s.sw.at.Del6? ==> Unclaimed(s, s.sw.at.p)
    ensures Core(c, Next(c, s, e))
  {
    match e
    case Begin(t, a, h, alloc) => SameMaps(c, s, Next(c, s, e), t);
    case Advance(t, refused) => CallKeeps(c, s, t, refused);
    case SweepBegin(active) => SweeperMoves(c, s, Next(c, s, e));
    case SweepCall(next) =>
      match s.sw.at
      case Del4(_, _) => Del4Keeps(c, s);
      case Del6(_) => Del6Keeps(c, s);
      case _ => SweeperMoves(c, s, Swept(s, next));
  }

  /** The sweep does no harm, at any point of any run, exactly when every address it deletes from v6_of
      is unclaimed at the moment it does so; otherwise two sources come to share one. */
  lemma {:induction false} SafeIff(c: Config, s: State, tr: Trace)
    requires Core(c, s) && Legal(c, s, tr)
    ensures SafeThroughout(c, s, tr) <==> OnlyUnclaimed(c, s, tr)
    ensures OnlyUnclaimed(c, s, tr) ==> Core(c, Run(c, s, tr))
    ensures !OnlyUnclaimed(c, s, tr) ==> exists s' :: Reaches(c, s, s', false) && Shared(s')
  {
    if tr.Start? {
      CoreIsSafe(c, s);
    } else {
      SafeIff(c, s, tr.before);
      var s' := Run(c, s, tr.before);
      if OnlyUnclaimed(c, s, tr) {
        EventKeepsCore(c, s', tr.e);
        CoreIsSafe(c, Run(c, s, tr));
      } else if OnlyUnclaimed(c, s, tr.before) {
        ClaimedIsUnsafe(c, s');
        var s2 :| Reaches(c, Swept(s', 0), s2, true) && Shared(s2);
        if Inverted(c, s2) { NoneShared(c, s2); }
        assert Run(c, s, tr) == Swept(s', 0);
        var more :| Legal(c, Swept(s', 0), more) && ByThreads(more) && Run(c, Swept(s', 0), more) == s2;
        Joined(c, s, tr, more);
        assert Reaches(c, s, s2, false);
      }
    }
  }

  function Append(tr: Trace, more: Trace): Trace {
    match more
    case Start => tr
    case Then(before, e) => Then(Append(tr, before), e)
  }

  lemma {:induction false} Joined(c: Config, s: State, tr: Trace, more: Trace)
    requires Legal(c, s, tr) && Legal(c, Run(c, s, tr), more)
    ensures Legal(c, s, Append(tr, more)) && Run(c, s, Append(tr, more)) == Run(c, Run(c, s, tr), more)
  {
    if more.Then? {
      Joined(c, s, tr, more.before);
    }
  }

  // ---- The race

  const EMPTY: State := State(map[], map[], map[], Sweeper({}, {}, Asleep, map[]))

  /** A pool of sixteen addresses, and the well-known prefix. */
  const SIXTEEN: Config := Setup(0, 16, [0, 0x64, 0xff, 0x9b, 0, 0, 0, 0, 0, 0, 0, 0, 0, 0, 0, 0], 96)

  /** A sweep that finds p without a flow, the only key there is, for the first time. */
  lemma Counted(c: Config, s0: State, s: State, p: Addr4)
    requires Reaches(c, s0, s, false)
    requires s.sw == EMPTY.sw && s.v6of.Keys == {p}
    ensures Reaches(c, s0, s.(sw := s.sw.(idle := map[p := 1])), false)
  {
    hide Reaches;
    var s1 := Next(c, s, SweepBegin({}));
    StepReaches(c, s0, s, SweepBegin({}), false);
    StepReaches(c, s0, s1, SweepCall(p), false);
    var s2 := Next(c, s1, SweepCall(p));
    assert s2.sw == Sweeper({}, {}, Between, map[p := 1]);
    StepReaches(c, s0, s2, SweepCall(p), false);
  }

  /** And the sweep after it, which decides to take p. */
  lemma Doomed(c: Config, s0: State, s: State, p: Addr4)
    requires Reaches(c, s0, s, false)
    requires s.sw == EMPTY.sw.(idle := map[p := 1]) && s.v6of.Keys == {p}
    ensures Reaches(c, s0, s.(sw := Sweeper({}, {}, Look6(p), map[])), false)
  {
    hide Reaches;
    var s1 := Next(c, s, SweepBegin({}));
    StepReaches(c, s0, s, SweepBegin({}), false);
    StepReaches(c, s0, s1, SweepCall(p), false);
    assert Next(c, s1, SweepCall(p)).sw == Sweeper({}, {}, Look6(p), map[]);
  }

  /** Thread 1 holds address 5 for source a when a first sweep counts it and a second visits it. */
  lemma HeldAndDoomed(a: Addr6, undone: bool)
    requires !InPref(SIXTEEN, a)
    ensures Reaches(SIXTEEN, EMPTY, State(map[], map[5 := a],
              map[1 := if undone then Undo(a, 5) else Pair(a, 5)], Sweeper({}, {}, Look6(5), map[])), false)
  {
    hide Reaches, InPref;
    var c := SIXTEEN;
    ReachesSelf(c, EMPTY);
    Puts(c, EMPTY, EMPTY, 1, a, 5, false);
    var s := EMPTY.(v6of := map[5 := a], pcs := map[1 := Pair(a, 5)]);
    assert EMPTY.v6of[5 := a] == s.v6of && EMPTY.pcs[1 := Pair(a, 5)] == s.pcs;
    if undone {
      StepReaches(c, EMPTY, s, Advance(1, true), false);
      s := Next(c, s, Advance(1, true));
      assert s.pcs == map[1 := Undo(a, 5)];
    }
    Counted(c, EMPTY, s, 5);
    Doomed(c, EMPTY, s.(sw := s.sw.(idle := map[5 := 1])), 5);
  }

  /** The sweep takes an address that thread 1 has in v6_of alone; thread 1 pairs it all the same, and
      a third is given it. */
  lemma SweepRace(a: Addr6, b: Addr6)
    requires a != b && !InPref(SIXTEEN, a) && !InPref(SIXTEEN, b)
    ensures exists s :: Reaches(SIXTEEN, EMPTY, s, false) && Shared(s)
  {
    hide Reaches, InPref;
    var c := SIXTEEN;
    HeldAndDoomed(a, false);
    var s0 := State(map[], map[5 := a], map[1 := Pair(a, 5)], Sweeper({}, {}, Look6(5), map[]));
    StepReaches(c, EMPTY, s0, SweepCall(0), false);
    var s1 := s0.(sw := Sweeper({}, {}, Del4(5, a), map[]));
    StepReaches(c, EMPTY, s1, SweepCall(0), false);
    var s2 := s0.(sw := Sweeper({}, {}, Del6(5), map[]));
    assert Next(c, s1, SweepCall(0)) == s2;
    StepReaches(c, EMPTY, s2, SweepCall(0), false);
    var s3 := s0.(v6of := map[], sw := Sweeper({}, {}, Between, map[]));
    assert Next(c, s2, SweepCall(0)) == s3;
    StepReaches(c, EMPTY, s3, Advance(1, false), false);
    var s4 := Next(c, s3, Advance(1, false));
    assert s4.v4of == map[a := 5] && s4.v6of == map[];
    GivenAgain(c, EMPTY, s4, a, b, false);
  }

  /** The sweep looks an address up just after thread 1 has taken it out, finds nothing, and so leaves
      v4_of alone; source b is given the address before the sweep deletes it from v6_of ... */
  lemma DeletesLate(a: Addr6, b: Addr6)
    requires !InPref(SIXTEEN, a) && !InPref(SIXTEEN, b)
    ensures Reaches(SIXTEEN, EMPTY, State(map[b := 5], map[5 := b],
              map[1 := Relook(a), 2 := Done(b, Some(5))], Sweeper({}, {}, Del6(5), map[])), false)
  {
    hide Reaches, InPref;
    var c := SIXTEEN;
    HeldAndDoomed(a, true);
    var s0 := State(map[], map[5 := a], map[1 := Undo(a, 5)], Sweeper({}, {}, Look6(5), map[]));
    StepReaches(c, EMPTY, s0, Advance(1, false), false);
    var s1 := s0.(v6of := map[], pcs := map[1 := Relook(a)]);
    assert Next(c, s0, Advance(1, false)) == s1;
    StepReaches(c, EMPTY, s1, SweepCall(0), false);
    var s2 := s1.(sw := Sweeper({}, {}, Del6(5), map[]));
    assert Next(c, s1, SweepCall(0)) == s2;
    Gets(c, EMPTY, s2, 2, b, 5, false);
    assert s2.v4of[b := 5] == map[b := 5] && s2.v6of[5 := b] == map[5 := b];
  }

  /** ... and a third is given it after. */
  lemma LateDelete(a: Addr6, b: Addr6, d: Addr6)
    requires b != d && !InPref(SIXTEEN, a) && !InPref(SIXTEEN, b) && !InPref(SIXTEEN, d)
    ensures exists s :: Reaches(SIXTEEN, EMPTY, s, false) && Shared(s)
              && b in s.v4of && s.v4of[b] == 5 && MapBack(SIXTEEN, s.v6of, 5) != Some(b)
  {
    hide Reaches, InPref;
    var c := SIXTEEN;
    DeletesLate(a, b);
    var s3 := State(map[b := 5], map[5 := b], map[1 := Relook(a), 2 := Done(b, Some(5))], Sweeper({}, {}, Del6(5), map[]));
    StepReaches(c, EMPTY, s3, SweepCall(0), false);
    var s4 := s3.(v6of := map[], sw := s3.sw.(at := Between));
    assert Next(c, s3, SweepCall(0)) == s4;
    Gets(c, EMPTY, s4, 3, d, 5, false);
    var s5 := State(s4.v4of[d := 5], s4.v6of[5 := d], s4.pcs[3 := Done(d, Some(5))], s4.sw);
    assert s5.v4of[b] == s5.v4of[d];
  }

  // ---- A sweep that nothing comes between

  /** What a sweep that takes the addresses gone makes of the maps. */
  function Removed(s: State, gone: set<Addr4>): State {
    s.(v6of := s.v6of - gone,
       v4of := s.v4of - set p | p in gone && p in s.v6of :: s.v6of[p])
  }

  /** The calls that take p, nothing coming between them, remove it in one go ... */
  function Taken(s: State, p: Addr4): State {
    Removed(s, {p}).(sw := s.sw.(at := Between))
  }

  lemma CallsTake(s: State, p: Addr4)
    requires s.sw.at == Look6(p)
    ensures p in s.v6of ==> Swept(Swept(Swept(s, 0), 0), 0) == Taken(s, p)
    ensures p !in s.v6of ==> Swept(Swept(s, 0), 0) == Taken(s, p)
  {
  }

  lemma InOneGo(c: Config, s0: State, s: State, p: Addr4)
    requires Reaches(c, s0, s, false) && s.sw.at == Look6(p)
    ensures Reaches(c, s0, Taken(s, p), false)
  {
    hide Reaches, Taken;
    CallsTake(s, p);
    StepReaches(c, s0, s, SweepCall(0), false);
    StepReaches(c, s0, Swept(s, 0), SweepCall(0), false);
    if p in s.v6of {
      StepReaches(c, s0, Swept(Swept(s, 0), 0), SweepCall(0), false);
    }
  }

  lemma PairedOrHeld(s: State, p: Addr4)
    requires Tidy(s) && p in s.v6of && !Taking(s, p)
    ensures Paired(s, p) || exists t :: HeldBy(s, t, p)
  {
    if !Paired(s, p) {
      var t :| InFlight(s, t, p);
      assert HeldBy(s, t, p);
    }
  }

  /** ... and keep the invariant exactly when no allocation has p half done. */
  lemma OneGoKeeps(c: Config, s: State, p: Addr4)
    requires Inv(c, s) && s.sw.at == Look6(p)
    ensures Inv(c, Taken(s, p)) <==> forall t :: !HeldBy(s, t, p)
  {
    hide Core, Tidy, Taken;
    CallsTake(s, p);
    var s1 := Swept(s, 0);
    SweeperMoves(c, s, s1);
    if p in s.v6of {
      var s2 := Swept(s1, 0);
      assert !(p in s2.v6of && Paired(s2, p));
      PairedOrHeld(s, p);
      Del4Keeps(c, s1);
      Del6Keeps(c, s2);
      assert forall t :: HeldBy(s2, t, p) <==> HeldBy(s, t, p);
    } else {
      Del6Keeps(c, s1);
      assert forall t :: HeldBy(s1, t, p) <==> HeldBy(s, t, p);
    }
  }

  /** One key of the sweep. */
  function AfterKey(s: State, p: Addr4): State {
    var sw := Visited(s.sw, p);
    (if sw.at.Look6? then Removed(s, {p}) else s).(sw := sw.(at := Between))
  }

  lemma KeySwept(c: Config, s0: State, s: State, p: Addr4)
    requires Reaches(c, s0, s, false) && s.sw.at.Between? && p in s.sw.todo
    ensures Reaches(c, s0, AfterKey(s, p), false)
  {
    hide Reaches;
    StepReaches(c, s0, s, SweepCall(p), false);
    var s1 := s.(sw := Visited(s.sw, p));
    if s1.sw.at.Look6? {
      InOneGo(c, s0, s1, p);
      assert Taken(s1, p) == AfterKey(s, p);
    }
  }

  function Resting(idle: map<Addr4, nat>): Sweeper {
    Sweeper({}, {}, Asleep, idle)
  }

  /** A sweep that began in s0 and has the keys todo before it. */
  ghost predicate Midway(c: Config, s0: State, active: set<Addr4>, s: State)
  {
    var done := s0.v6of.Keys - s.sw.todo;
    && s.sw.todo <= s0.v6of.Keys
    && s == Removed(s0, Expired(done, active, s0.sw.idle)).(sw := s.sw)
    && s.sw == Sweeper(s.sw.todo, active, Between, IdleAfter(s0.sw.idle, done, active))
    && Reaches(c, s0, s, false)
  }

  lemma MidwayBegins(c: Config, s0: State, active: set<Addr4>)
    requires s0.sw.at.Asleep?
    ensures Midway(c, s0, active, s0.(sw := Sweeper(s0.v6of.Keys, active, Between, s0.sw.idle)))
  {
    ReachesSelf(c, s0);
    StepReaches(c, s0, s0, SweepBegin(active), false);
    assert s0.v6of.Keys - s0.v6of.Keys == {} && Removed(s0, {}) == s0 && Expired({}, active, s0.sw.idle) == {};
  }

  lemma MidwayOn(c: Config, s0: State, active: set<Addr4>, s: State, p: Addr4)
    requires Midway(c, s0, active, s) && p in s.sw.todo
    ensures Midway(c, s0, active, AfterKey(s, p))
  {
    hide Reaches, Removed, Expired, IdleAfter;
    KeySwept(c, s0, s, p);
    var done := s0.v6of.Keys - s.sw.todo;
    assert s0.v6of.Keys - (s.sw.todo - {p}) == done + {p};
    SweepOne(s0, s0.sw.idle, done, active, p);
    RemoveOne(s0, Expired(done, active, s0.sw.idle), p, s.sw);
  }

  lemma MidwayEnds(c: Config, s0: State, active: set<Addr4>, s: State)
    requires Midway(c, s0, active, s) && s.sw.todo == {}
    ensures s == Removed(s0, Expired(s0.v6of.Keys, active, s0.sw.idle)).(sw := s.sw)
    ensures s.sw.idle == IdleAfter(s0.sw.idle, s0.v6of.Keys, active)
    ensures Reaches(c, s0, s.(sw := Resting(s.sw.idle)), false)
  {
    assert s0.v6of.Keys - {} == s0.v6of.Keys;
    StepReaches(c, s0, s, SweepCall(0), false);
  }

  /** The maps as one thread works on them, no other thread running meanwhile. */
  class Pool {
    const c: Config
    var v4of: map<Addr6, Addr4>
    var v6of: map<Addr4, Addr6>
    var idle: map<Addr4, nat>

    constructor (c: Config)
      ensures this.c == c && v4of == map[] && v6of == map[] && idle == map[]
    {
      this.c, v4of, v6of, idle := c, map[], map[], map[];
    }

    ghost function St(pcs: map<Tid, Pc>, sw: Sweeper): State
      reads this
    {
      State(v4of, v6of, pcs, sw)
    }

    /** map6to4, call by call, as thread t: the state it leaves is one the machine reaches, so all that is
        proved of the machine's runs holds of it. refusing tells that the kernel may turn an insert down
        although the key is absent. */
    method Map6to4(a: Addr6, h: nat, alloc: bool, refusing: bool, ghost t: Tid, ghost pcs: map<Tid, Pc>,
      ghost sw: Sweeper) returns (out: Option<Addr4>)
      requires PcOf(St(pcs, sw), t).Idle?
      modifies this`v4of, this`v6of
      ensures Reaches(c, old(St(pcs, sw)), St(pcs[t := Done(a, out)], sw), true)
      ensures out == MapOut(c, v4of, a)
      ensures (v4of == old(v4of) && v6of == old(v6of)) ||
              (out.Some? && v4of == old(v4of)[a := out.value] && v6of == old(v6of)[out.value := a])
      ensures InPref(c, a) || a in old(v4of) || !alloc || out.None? ==> v4of == old(v4of) && v6of == old(v6of)
      // and with nothing turned down, the first slot there is
      ensures !InPref(c, a) && a !in old(v4of) && alloc && !refusing ==>
                if out.None? then forall i :: 0 <= i < PROBES ==> Passed(c, old(v6of), h, i)
                else FirstFree(c, old(v6of), h, out.value)
    {
      hide Reaches, InPref, Extract;
      ghost var s0 := St(pcs, sw);
      ReachesSelf(c, s0);
      if InPref(c, a) {
        StepReaches(c, s0, s0, Begin(t, a, h, alloc), true);
        return Some(Extract(c, a));
      }
      LookedUp(c, s0, s0, t, a, h, alloc, true);
      if a in v4of { return Some(v4of[a]); }
      if !alloc { return None; }
      var i := 0;
      while i < PROBES
        invariant 0 <= i <= PROBES
        invariant v4of == old(v4of) && v6of == old(v6of)
        invariant Reaches(c, s0, State(v4of, v6of, pcs[t := Probe(a, h, i)], sw), true)
        invariant !refusing ==> forall j :: 0 <= j < i ==> Passed(c, v6of, h, j)
      {
        var settled, got := ProbeSlot(a, h, i, refusing, s0, t, pcs, sw);
        if settled { return got; }
        i := i + 1;
      }
      Moves(c, s0, View(v4of, v6of, Probe(a, h, i)), t, pcs, sw, false, true);
      out := None;
    }

    /** map4to6. */
    method Map4to6(p: Addr4) returns (out: Option<Addr6>)
      ensures out == MapBack(c, v6of, p)
    {
      if !InPool(c, p) { return Some(Embed(c, p)); }
      return Find(v6of, p);
    }

    /** One turn of the loop: the slot is passed over, or the allocation is settled either way. */
    method ProbeSlot(a: Addr6, h: nat, i: nat, refusing: bool, ghost s0: State, ghost t: Tid, ghost pcs: map<Tid, Pc>,
      ghost sw: Sweeper) returns (settled: bool, out: Option<Addr4>)
      requires i < PROBES && a !in v4of
      requires Reaches(c, s0, State(v4of, v6of, pcs[t := Probe(a, h, i)], sw), true)
      modifies this`v4of, this`v6of
      ensures !settled ==> v4of == old(v4of) && v6of == old(v6of)
      ensures !settled && !refusing ==> Passed(c, old(v6of), h, i)
      ensures settled && !refusing ==> out == Some(c.base + (h + i) % c.size) && !Passed(c, old(v6of), h, i)
      ensures settled ==>
                if out.None? then v4of == old(v4of) && v6of == old(v6of)
                else v4of == old(v4of)[a := out.value] && v6of == old(v6of)[out.value := a]
      ensures !settled ==> Reaches(c, s0, State(v4of, v6of, pcs[t := Probe(a, h, i + 1)], sw), true)
      ensures settled ==> Reaches(c, s0, State(v4of, v6of, pcs[t := Done(a, out)], sw), true)
      ensures settled ==> out == Find(v4of, a)
    {
      hide Reaches;
      var p := Slot(c, h, i);
      var refused: bool := *;
      refused := refused && refusing;
      Moves(c, s0, View(v4of, v6of, Probe(a, h, i)), t, pcs, sw, refused, true);
      if p < c.base + POOL_RESERVED || p in v6of || refused {
        return false, None;
      }
      v6of := v6of[p := a];
      out := PairUp(a, p, refusing, s0, t, pcs, sw);
      settled := true;
    }

    /** The second insert, and the undoing of the first when it is turned down. */
    method PairUp(a: Addr6, p: Addr4, refusing: bool, ghost s0: State, ghost t: Tid, ghost pcs: map<Tid, Pc>,
      ghost sw: Sweeper) returns (out: Option<Addr4>)
      requires a !in v4of
      requires Reaches(c, s0, State(v4of, v6of, pcs[t := Pair(a, p)], sw), true)
      modifies this`v4of, this`v6of
      ensures Reaches(c, s0, State(v4of, v6of, pcs[t := Done(a, out)], sw), true)
      ensures out == Find(v4of, a)
      ensures (out == Some(p) && v4of == old(v4of)[a := p] && v6of == old(v6of)) ||
              (refusing && out.None? && v4of == old(v4of) && v6of == old(v6of) - {p})
    {
      hide Reaches;
      var refused: bool := *;
      refused := refused && refusing;
      Moves(c, s0, View(v4of, v6of, Pair(a, p)), t, pcs, sw, refused, true);
      if !refused {
        v4of := v4of[a := p];
        return Some(p);
      }
      Moves(c, s0, View(v4of, v6of, Undo(a, p)), t, pcs, sw, false, true);
      v6of := v6of - {p};
      Moves(c, s0, View(v4of, v6of, Relook(a)), t, pcs, sw, false, true);
      return Find(v4of, a);
    }

    /** One sweep over the keys v6_of held when it began, nothing coming between its calls. */
    method SweepIdle(active: set<Addr4>, ghost pcs: map<Tid, Pc>)
      modifies this`v4of, this`v6of, this`idle
      ensures Reaches(c, old(St(pcs, Resting(idle))), St(pcs, Resting(idle)), false)
      ensures var gone := Expired(old(v6of.Keys), active, old(idle));
              St(pcs, Resting(idle)) == Removed(old(St(pcs, Resting(idle))), gone).(sw := Resting(idle))
      ensures idle == IdleAfter(old(idle), old(v6of.Keys), active)
    {
      hide Midway, Reaches, Removed, Expired, IdleAfter, AfterKey;
      var keys := v6of.Keys;
      ghost var s0 := St(pcs, Resting(idle));
      MidwayBegins(c, s0, active);
      while keys != {}
        invariant Midway(c, s0, active, St(pcs, Sweeper(keys, active, Between, idle)))
      {
        var p :| p in keys;
        MidwayOn(c, s0, active, St(pcs, Sweeper(keys, active, Between, idle)), p);
        SweepKey(p, keys, active, pcs);
        keys := keys - {p};
      }
      MidwayEnds(c, s0, active, St(pcs, Sweeper(keys, active, Between, idle)));
    }

    /** The key p: its counter, and the removal. */
    method SweepKey(p: Addr4, ghost todo: set<Addr4>, active: set<Addr4>, ghost pcs: map<Tid, Pc>)
      modifies this`v4of, this`v6of, this`idle
      ensures St(pcs, Sweeper(todo - {p}, active, Between, idle))
           == AfterKey(old(St(pcs, Sweeper(todo, active, Between, idle))), p)
    {
      hide Removed;
      OneRemoved(St(pcs, Sweeper(todo, active, Between, idle)), p);
      if p in active {
        idle := idle - {p};
      } else {
        var n := Count(idle, p) + 1;
        idle := idle[p := n];
        if idle[p] >= IDLE_SWEEPS {
          if p in v6of { v4of := v4of - {v6of[p]}; }
          v6of := v6of - {p};
          idle := idle - {p};
        }
      }
      assert p !in active && Count(old(idle), p) + 1 >= IDLE_SWEEPS ==> idle == old(idle) - {p};
    }
  }

  lemma OneRemoved(s: State, p: Addr4)
    ensures Removed(s, {p}) == s.(v6of := s.v6of - {p},
                                  v4of := if p in s.v6of then s.v4of - {s.v6of[p]} else s.v4of)
  {
  }

  /** One key more: what it adds to the addresses taken, and what becomes of the counters. */
  lemma SweepOne(s: State, idle: map<Addr4, nat>, done: set<Addr4>, active: set<Addr4>, p: Addr4)
    requires p in s.v6of && p !in done
    ensures p !in Expired(done, active, idle)
    ensures Count(IdleAfter(idle, done, active), p) == Count(idle, p)
    ensures var taken := p !in active && Count(idle, p) + 1 >= IDLE_SWEEPS;
            && Expired(done + {p}, active, idle) == Expired(done, active, idle) + (if taken then {p} else {})
            && IdleAfter(idle, done + {p}, active) ==
                 var now := IdleAfter(idle, done, active);
                 if p in active || taken then now - {p} else now[p := Count(idle, p) + 1]
  {
  }

  lemma RemoveOne(s: State, gone: set<Addr4>, p: Addr4, sw: Sweeper)
    requires p in s.v6of && p !in gone
    ensures Removed(s, gone + {p}) == Removed(Removed(s, gone).(sw := sw), {p}).(sw := s.sw)
    ensures gone + {} == gone
  {
  }

  /** The counters after a sweep over keys: an address with a flow, or taken, loses its counter. */
  function IdleAfter(idle: map<Addr4, nat>, keys: set<Addr4>, active: set<Addr4>): map<Addr4, nat> {
    map p | p in idle.Keys + keys && (p in keys ==> p !in active && p !in Expired(keys, active, idle)) ::
      Count(idle, p) + if p in keys then 1 else 0
  }

  /** An address newly counted goes in the second of two sweeps that find it, if neither finds a flow of it,
      and only then; never in the first. */
  lemma IdleTwice(idle: map<Addr4, nat>, keys1: set<Addr4>, active1: set<Addr4>, keys2: set<Addr4>, active2: set<Addr4>, p: Addr4)
    requires p !in idle && p in keys1 && p in keys2
    ensures p !in Expired(keys1, active1, idle)
    ensures p in Expired(keys2, active2, IdleAfter(idle, keys1, active1)) <==> p !in active1 && p !in active2
  {
  }

  /** The addresses a sweep takes: without a flow now, and at the sweeps before it as often as
      makes IDLE_SWEEPS in a row. */
  function Expired(keys: set<Addr4>, active: set<Addr4>, idle: map<Addr4, nat>): set<Addr4> {
    set p | p in keys && p !in active && Count(idle, p) + 1 >= IDLE_SWEEPS
  }
}
