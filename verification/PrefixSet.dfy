/** A set of prefixes made fit for an interval set: sorted, none inside another, and every one an
interval of addresses. */
module PrefixSet {
  import opened Arith
  import opened Prefixes

  function Low(p: Prefix): nat
    requires p.bits <= 128
  {
    Masked(p).addr
  }

  /** The address after its last. */
  function High(p: Prefix): (h: nat)
    requires p.bits <= 128
    ensures h > 0
  {
    Low(p) + Size(p)
  }

  predicate Sound(ps: seq<Prefix>) {
    forall p :: p in ps ==> p.bits <= 128
  }

  lemma {:induction false} Bounds(p: Prefix, a: nat)
    requires p.bits <= 128
    ensures Low(p) < High(p) && (Contains(p, a) <==> Low(p) <= a < High(p))
  {
    MaskedIs(p);
  }

  lemma {:induction false} MaskedLow(p: Prefix)
    requires p.bits <= 128
    ensures Masked(Masked(p)) == Masked(p) && Low(Masked(p)) == Low(p) && High(Masked(p)) == High(p)
  {
    MaskedIs(p);
  }

  // ---- Sorting

  /** The order: by the first address, then the larger prefix first. */
  predicate Before(p: Prefix, q: Prefix)
    requires p.bits <= 128 && q.bits <= 128
  {
    Low(p) < Low(q) || (Low(p) == Low(q) && p.bits <= q.bits)
  }

  predicate Sorted(ps: seq<Prefix>)
    requires Sound(ps)
  {
    forall i, j :: 0 <= i < j < |ps| ==> Before(ps[i], ps[j])
  }

  lemma {:induction false} SortedInsert(ps: seq<Prefix>, k: nat, p: Prefix)
    requires Sound(ps) && Sorted(ps) && k <= |ps| && p.bits <= 128
    requires k > 0 ==> Before(ps[k - 1], p)
    requires k < |ps| ==> Before(p, ps[k])
    ensures var to := ps[..k] + [p] + ps[k..]; Sound(to) && Sorted(to)
  {
    var to := ps[..k] + [p] + ps[k..];
    forall i | 0 <= i < k ensures Before(ps[i], p) { Through(ps[i], ps[k - 1], p); }
    forall j | k <= j < |ps| ensures Before(p, ps[j]) { Through(p, ps[k], ps[j]); }
    hide Before;
    Inserted(ps, k, p);
  }

  lemma Inserted(ps: seq<Prefix>, k: nat, p: Prefix)
    requires k <= |ps|
    ensures var to := ps[..k] + [p] + ps[k..];
            |to| == |ps| + 1
            && forall i :: 0 <= i < |to| ==> to[i] == if i < k then ps[i] else if i == k then p else ps[i - 1]
  {
  }

  lemma Through(p: Prefix, q: Prefix, r: Prefix)
    requires p.bits <= 128 && q.bits <= 128 && r.bits <= 128
    ensures Before(p, q) && Before(q, r) ==> Before(p, r)
    ensures p == q ==> Before(p, q)
  {
    hide Low;
  }

  lemma SortedNone()
    ensures Sorted([])
  {
  }

  lemma EitherWay(p: Prefix, q: Prefix)
    requires p.bits <= 128 && q.bits <= 128
    ensures Before(p, q) || Before(q, p)
  {
    hide Low;
  }

  /** slices.SortFunc. */
  method Sort(ps: seq<Prefix>) returns (r: seq<Prefix>)
    requires Sound(ps)
    ensures multiset(r) == multiset(ps) && Sound(r) && Sorted(r)
  {
    hide Before, Sorted;
    r := [];
    SortedNone();
    for i := 0 to |ps|
      invariant multiset(r) == multiset(ps[..i]) && Sound(r) && Sorted(r)
    {
      assert ps[..i + 1] == ps[..i] + [ps[i]];
      r := Insert(r, ps[i]);
    }
    assert ps[..|ps|] == ps;
  }

  method Insert(ps: seq<Prefix>, p: Prefix) returns (r: seq<Prefix>)
    requires Sound(ps) && Sorted(ps) && p.bits <= 128
    ensures multiset(r) == multiset(ps) + multiset{p} && Sound(r) && Sorted(r)
  {
    hide Before, Sorted;
    var k := |ps|;
    while k > 0 && !Before(ps[k - 1], p)
      invariant 0 <= k <= |ps| && (k < |ps| ==> Before(p, ps[k]))
    {
      EitherWay(ps[k - 1], p);
      k := k - 1;
    }
    SortedInsert(ps, k, p);
    assert ps == ps[..k] + ps[k..];
    r := ps[..k] + [p] + ps[k..];
  }

  // ---- What the last one kept tells

  /** q has all of p's addresses. */
  predicate Within(p: Prefix, q: Prefix)
    requires p.bits <= 128 && q.bits <= 128
  {
    Low(q) <= Low(p) && High(p) <= High(q)
  }

  /** An address of both puts the smaller prefix in the larger. */
  lemma {:induction false} NestedAt(l: Prefix, p: Prefix, a: nat)
    requires l.bits <= p.bits <= 128 && Contains(p, a)
    ensures Contains(l, a) <==> Contains(l, p.addr)
  {
    Coarser(l, p, a);
    Coarser(l, p, p.addr);
  }

  lemma {:induction false} NestedWithin(l: Prefix, p: Prefix)
    requires l.bits <= p.bits <= 128 && Contains(l, p.addr)
    ensures Within(p, l)
  {
    hide Low, High, Contains;
    Bounds(p, Low(p));
    Bounds(p, High(p) - 1);
    NestedAt(l, p, Low(p));
    NestedAt(l, p, High(p) - 1);
    Bounds(l, Low(p));
    Bounds(l, High(p) - 1);
  }

  /** Of a prefix that comes later in the order, the earlier one has all or nothing. */
  lemma {:induction false} LastTells(l: Prefix, p: Prefix)
    requires l.bits <= 128 && p.bits <= 128 && Before(l, p)
    ensures if Contains(l, p.addr) then Within(p, l) else High(l) <= Low(p)
  {
    hide Low, High, Contains;
    Bounds(p, p.addr);
    Bounds(l, p.addr);
    Bounds(l, Low(p));
    Bounds(p, Low(p));
    Own(p);
    if l.bits <= p.bits {
      NestedAt(l, p, Low(p));
      if Contains(l, p.addr) { NestedWithin(l, p); }
    } else {
      // the larger, coming later, would have begun no later
      Own(l);
      NestedAt(p, l, l.addr);
      Bounds(l, l.addr);
      Bounds(p, Low(l));
      Bounds(l, Low(l));
      NestedAt(p, l, Low(l));
      if Contains(l, p.addr) { NestedAt(p, l, p.addr); }
      if Contains(l, Low(p)) { NestedAt(p, l, Low(p)); }
    }
  }

  lemma Own(p: Prefix)
    requires p.bits <= 128
    ensures Contains(p, p.addr)
  {
  }

  // ---- disjoint

  predicate Covers(ps: seq<Prefix>, a: nat)
    requires Sound(ps)
  {
    exists p :: p in ps && Contains(p, a)
  }

  ghost predicate SameCover(ps: seq<Prefix>, qs: seq<Prefix>)
    requires Sound(ps) && Sound(qs)
  {
    forall a: nat :: Covers(ps, a) <==> Covers(qs, a)
  }

  /** Masked, apart from each other, and in order. */
  predicate Apart(out: seq<Prefix>)
    requires Sound(out)
  {
    && (forall q :: q in out ==> Masked(q) == q)
    && (forall i, j :: 0 <= i < j < |out| ==> High(out[i]) <= Low(out[j]))
  }

  lemma {:induction false} CoversSnoc(ps: seq<Prefix>, p: Prefix, a: nat)
    requires Sound(ps) && p.bits <= 128
    ensures Covers(ps + [p], a) <==> Covers(ps, a) || Contains(p, a)
  {
    hide Contains;
    if Contains(p, a) { assert p in ps + [p]; }
    if Covers(ps, a) {
      var q :| q in ps && Contains(q, a);
      assert q in ps + [p];
    }
  }

  lemma {:induction false} CoverKeep(out: seq<Prefix>, ps: seq<Prefix>, p: Prefix)
    requires Sound(out) && Sound(ps) && p.bits <= 128 && SameCover(out, ps)
    ensures SameCover(out + [Masked(p)], ps + [p])
  {
    hide Contains, Covers, Masked, Low, High;
    forall a: nat ensures Covers(out + [Masked(p)], a) <==> Covers(ps + [p], a) {
      CoversSnoc(out, Masked(p), a);
      CoversSnoc(ps, p, a);
      MaskedLow(p);
      Bounds(p, a);
      Bounds(Masked(p), a);
    }
  }

  lemma {:induction false} CoverSkip(out: seq<Prefix>, ps: seq<Prefix>, p: Prefix, l: Prefix)
    requires Sound(out) && Sound(ps) && p.bits <= 128 && SameCover(out, ps) && l in out && Within(p, l)
    ensures SameCover(out, ps + [p])
  {
    hide Contains, Low, High;
    forall a: nat ensures Covers(out, a) <==> Covers(ps + [p], a) {
      CoversSnoc(ps, p, a);
      Bounds(p, a);
      Bounds(l, a);
    }
  }

  lemma {:induction false} ApartNext(out: seq<Prefix>, p: Prefix)
    requires Sound(out) && Apart(out) && p.bits <= 128 && (out != [] ==> High(out[|out| - 1]) <= Low(p))
    ensures Apart(out + [Masked(p)])
  {
    hide Masked, Low, High;
    MaskedLow(p);
    var n, to := |out|, out + [Masked(p)];
    if n > 0 {
      Bounds(out[n - 1], 0);
      forall i | 0 <= i < n ensures High(out[i]) <= Low(to[n]) {
        if i < n - 1 { assert High(out[i]) <= Low(out[n - 1]); }
      }
    }
  }

  lemma {:induction false} BeforeMasked(p: Prefix, q: Prefix)
    requires p.bits <= 128 && q.bits <= 128 && Before(p, q)
    ensures Before(Masked(p), q)
  {
    hide Low;
    MaskedLow(p);
  }

  /** disjoint: sorted, so that looking at the last one kept is enough. */
  method Disjoint(ps: seq<Prefix>) returns (out: seq<Prefix>)
    requires Sound(ps)
    ensures Sound(out) && Apart(out) && SameCover(out, ps)
    ensures forall q :: q in out ==> exists p :: p in ps && q == Masked(p)
  {
    hide Before, Contains, Masked, Low, High, Covers, Apart, SameCover, Within;
    var s := Sort(ps);
    InOrder(ps, s);
    out := [];
    ghost var from: seq<nat> := [];
    Nothing(s[..0]);
    for i := 0 to |s|
      invariant Sound(out) && Apart(out) && SameCover(out, s[..i])
      invariant |from| == |out| && (out == [] ==> i == 0)
      invariant forall k :: 0 <= k < |out| ==> from[k] < i && out[k] == Masked(s[from[k]])
    {
      assert s[..i + 1] == s[..i] + [s[i]];
      if out != [] {
        BeforeMasked(s[from[|out| - 1]], s[i]);
        LastTells(out[|out| - 1], s[i]);
      }
      if out == [] || !Contains(out[|out| - 1], s[i].addr) {
        CoverKeep(out, s[..i], s[i]);
        ApartNext(out, s[i]);
        out := out + [Masked(s[i])];
        from := from + [i];
      } else {
        CoverSkip(out, s[..i], s[i], out[|out| - 1]);
      }
    }
    assert s[..|s|] == s;
    SameElements(s, ps, out);
  }

  lemma Nothing(none: seq<Prefix>)
    requires none == []
    ensures SameCover([], none) && Apart([])
  {
  }

  lemma {:induction false} InOrder(ps: seq<Prefix>, s: seq<Prefix>)
    requires Sound(ps) && Sound(s) && Sorted(s) && multiset(s) == multiset(ps)
    ensures forall i, j :: 0 <= i < j < |s| ==> Before(s[i], s[j])
    ensures forall p :: p in s <==> p in ps
  {
    assert forall p :: p in s <==> p in multiset(s);
    assert forall p :: p in ps <==> p in multiset(ps);
  }

  lemma {:induction false} SameElements(s: seq<Prefix>, ps: seq<Prefix>, out: seq<Prefix>)
    requires Sound(s) && Sound(ps) && Sound(out) && (forall p :: p in s <==> p in ps) && SameCover(out, s)
    ensures SameCover(out, ps)
  {
    hide Contains;
    forall a: nat ensures Covers(s, a) <==> Covers(ps, a) {
    }
  }

  // ---- delegationElements

  /** The boundaries of an interval; end is not of it. */
  datatype Interval = Interval(first: nat, end: nat)

  function SetBit(x: nat, i: nat): nat
    requires i < 128
  {
    if x / Pow2(127 - i) % 2 == 1 then x else x + Pow2(127 - i)
  }

  /** The address after a, or none of them: then sixteen zero bytes stand for it. */
  function NextAddress(a: nat): nat {
    if a + 1 < Size(Prefix(0, 0)) then a + 1 else 0
  }

  /** The bits past the prefix, set one by one. */
  method LastAddress(p: Prefix) returns (last: nat)
    requires p.bits <= 128
    ensures last == High(p) - 1
  {
    hide SetBit, Pow2, Low;
    last := Low(p);
    Pow2Known();
    for i := p.bits to 128
      invariant last + Pow2(128 - i) == High(p)
    {
      BitClear(p, i, last);
      last := SetBit(last, i);
    }
  }

  lemma {:induction false} BitClear(p: Prefix, i: nat, last: nat)
    requires p.bits <= i < 128 && last + Pow2(128 - i) == High(p)
    ensures SetBit(last, i) + Pow2(127 - i) == High(p)
  {
    var c := Pow2(127 - i);
    assert Pow2(128 - i) == 2 * c;
    hide Pow2, Contains;
    var q, n := p.addr / Size(p), Pow2(i - p.bits);
    Pow2Add(i - p.bits, 128 - i);
    assert Size(p) == n * (2 * c);
    Even(q, n, c, last);
  }

  lemma Even(q: nat, n: nat, c: nat, last: nat)
    requires c > 0 && last + 2 * c == (n * (2 * c)) * q + n * (2 * c)
    ensures last / c % 2 == 0
  {
    var m := q * n + n - 1;
    Factor(q, n, 2 * c);
    assert last == c * (2 * m) by { assert (2 * c) * m == c * (2 * m); }
    MultipleIs(c, 2 * m);
  }

  lemma Factor(q: nat, n: nat, d: nat)
    ensures (n * d) * q + n * d - d == d * (q * n + n - 1)
  {
    var x := q * n;
    assert (n * d) * q == x * d;
    assert d * (x + n - 1) == x * d + n * d - d;
  }

  method DelegationElements(ps: seq<Prefix>) returns (out: seq<Interval>)
    requires Sound(ps)
    ensures |out| == |ps|
    ensures forall i :: 0 <= i < |ps| ==> out[i] == Interval(Low(ps[i]), NextAddress(High(ps[i]) - 1))
  {
    hide Low, High, NextAddress;
    out := [];
    for i := 0 to |ps|
      invariant |out| == i
      invariant forall j :: 0 <= j < i ==> out[j] == Interval(Low(ps[j]), NextAddress(High(ps[j]) - 1))
    {
      var last := LastAddress(ps[i]);
      Bounds(ps[i], 0);
      out := out + [Interval(Low(ps[i]), NextAddress(last))];
    }
  }

  /** An interval has the addresses of its prefix, every one, exactly when the prefix does not end with
      the last address there is; then it has none. */
  lemma {:induction false} IntervalIff(p: Prefix)
    requires Valid(p)
    ensures High(p) <= Size(Prefix(0, 0))
    ensures (forall a: nat :: Low(p) <= a < NextAddress(High(p) - 1) <==> Contains(p, a)) <==> High(p) < Size(Prefix(0, 0))
    ensures High(p) == Size(Prefix(0, 0)) ==> NextAddress(High(p) - 1) == 0
  {
    hide Low, High, Contains;
    var all := Prefix(0, 0);
    Bounds(all, p.addr);
    WholeSpace();
    NestedAt(all, p, p.addr);
    Own(p);
    NestedWithin(all, p);
    forall a: nat ensures Contains(p, a) <==> Low(p) <= a < High(p) { Bounds(p, a); }
    Bounds(p, Low(p));
    assert Contains(p, Low(p));
  }

  lemma {:induction false} WholeSpace()
    ensures var all := Prefix(0, 0);
            Low(all) == 0 && High(all) == Size(all) && forall a: nat :: a < Size(all) ==> Contains(all, a)
  {
    hide Pow2;
    var all := Prefix(0, 0);
    MaskedIs(all);
  }

  /** The intervals of disjoint's prefixes follow one another, as an interval set wants them, as long as
      the last does not end with the last address. */
  lemma {:induction false} ElementsFollow(out: seq<Prefix>, i: nat, j: nat)
    requires Sound(out) && Apart(out) && i < j < |out| && Valid(out[j])
    ensures Low(out[i]) < NextAddress(High(out[i]) - 1) <= Low(out[j])
  {
    hide Low, High;
    Bounds(out[i], 0);
    Bounds(out[j], 0);
    IntervalIff(out[j]);
  }

  predicate Holds(es: seq<Interval>, a: nat) {
    exists i :: 0 <= i < |es| && es[i].first <= a < es[i].end
  }

  predicate ReachesTop(p: Prefix)
    requires p.bits <= 128
  {
    High(p) == Size(Prefix(0, 0))
  }

  /** es is what delegationElements makes of out. */
  predicate ElementsOf(out: seq<Prefix>, es: seq<Interval>)
    requires Sound(out)
  {
    |es| == |out| && forall i :: 0 <= i < |out| ==> es[i] == Interval(Low(out[i]), NextAddress(High(out[i]) - 1))
  }

  lemma {:induction false} ElementsHold(out: seq<Prefix>, es: seq<Interval>, a: nat)
    requires Sound(out) && ElementsOf(out, es)
    requires forall q :: q in out ==> Valid(q) && !ReachesTop(q)
    ensures Holds(es, a) <==> Covers(out, a)
  {
    hide Low, High, Contains, Valid, NextAddress;
    forall i | 0 <= i < |out| ensures es[i].first <= a < es[i].end <==> Contains(out[i], a) {
      assert out[i] in out;
      BelowTop(out[i], a);
    }
    if Covers(out, a) {
      var q :| q in out && Contains(q, a);
      var i :| 0 <= i < |out| && out[i] == q;
      assert es[i].first <= a < es[i].end;
    }
  }

  lemma {:induction false} BelowTop(p: Prefix, a: nat)
    requires Valid(p) && !ReachesTop(p)
    ensures Low(p) <= a < NextAddress(High(p) - 1) <==> Contains(p, a)
  {
    hide Low, High, Contains, NextAddress;
    IntervalIff(p);
  }

  /** There is a prefix of every length that does. */
  lemma {:induction false} TopPrefix(bits: nat)
    requires bits <= 128
    ensures var p := Prefix(Size(Prefix(0, 0)) - 1, bits); Valid(p) && ReachesTop(p)
  {
    hide Pow2;
    var p := Prefix(Size(Prefix(0, 0)) - 1, bits);
    var c, n := Size(p), Pow2(bits);
    Pow2Add(128 - bits, bits);
    assert c * (n - 1) == c * n - c;
    QuotientIs(c * n - 1, c, n - 1);
  }

  lemma TopMissing(out: seq<Prefix>, es: seq<Interval>)
    requires Sound(out) && ElementsOf(out, es)
    ensures !Holds(es, Size(Prefix(0, 0)) - 1)
  {
    hide Low, High, Size;
  }

  lemma {:induction false} MaskedValid(p: Prefix)
    requires Valid(p)
    ensures Valid(Masked(p)) && (ReachesTop(Masked(p)) <==> ReachesTop(p))
    ensures ReachesTop(p) ==> Contains(p, Size(Prefix(0, 0)) - 1)
  {
    hide Pow2, Low, Contains;
    MaskedIs(p);
    MaskedLow(p);
    Bounds(p, Size(Prefix(0, 0)) - 1);
  }

  lemma {:induction false} SetIff(ps: seq<Prefix>, out: seq<Prefix>, es: seq<Interval>)
    requires Sound(ps) && Sound(out) && SameCover(out, ps) && ElementsOf(out, es)
    requires (forall p :: p in ps ==> Valid(p)) && forall q :: q in out ==> exists p :: p in ps && q == Masked(p)
    ensures (forall a: nat :: Holds(es, a) <==> Covers(ps, a)) <==> forall p :: p in ps ==> !ReachesTop(p)
  {
    hide Low, High, Masked, Size, Contains, Holds, ReachesTop, ElementsOf, Valid;
    var top := Prefix(0, 0);
    if p :| p in ps && ReachesTop(p) {
      MaskedValid(p);
      TopMissing(out, es);
      assert Covers(ps, Size(top) - 1);
    } else {
      forall q | q in out ensures Valid(q) && !ReachesTop(q) {
        var p :| p in ps && q == Masked(p);
        MaskedValid(p);
      }
      forall a: nat ensures Holds(es, a) <==> Covers(ps, a) {
        ElementsHold(out, es, a);
      }
    }
  }

  /** The firewall's set of its own prefixes holds exactly the addresses of the LANs and the delegations,
      sorted out and made intervals, when and only when none of those prefixes ends with the last address. */
  method OurElements(lan: seq<Prefix>, delegs: seq<Prefix>) returns (es: seq<Interval>)
    requires Sound(lan + delegs) && forall p :: p in lan + delegs ==> Valid(p)
    ensures (forall a: nat :: Holds(es, a) <==> Covers(lan + delegs, a)) <==> forall p :: p in lan + delegs ==> !ReachesTop(p)
  {
    hide Covers, Apart, SameCover, Holds, Low, High, Masked, NextAddress, Size, ReachesTop;
    var out := Disjoint(lan + delegs);
    es := DelegationElements(out);
    SetIff(lan + delegs, out, es);
  }
}
