/** The /64s a LAN segment gets of a delegation, by its number. */
module Subnets {
  import opened Arith
  import opened Wire
  import opened Prefixes

  datatype Lan = Lan(iface: string, index: int)

  /** splitLAN: the index-th /64, when there are that many. Of a delegation of length 0 there are more than
      an index of sixty-four bits and a sign can name, which is why the code asks nothing there. */
  function SplitLan(p: Prefix, index: int): (r: Option<Prefix>)
    ensures r.Some? ==> r.value.bits == 64 && p.bits <= 64
  {
    if p.bits > 64 || index < 0 || index >= Pow2(64 - p.bits) then None
    else Some(Prefix(Masked(p).addr + index * TWO_64, 64))
  }

  lemma {:induction false} SplitInside(p: Prefix, index: int)
    requires SplitLan(p, index).Some?
    ensures var sub := SplitLan(p, index).value;
            Contains(p, sub.addr) && sub.addr / TWO_64 == p.addr / Size(p) * Pow2(64 - p.bits) + index
  {
    hide Pow2;
    var i, c := p.addr / Size(p), Pow2(64 - p.bits);
    Pow2Known();
    Pow2Add(64 - p.bits, 64);
    assert Size(p) == c * TWO_64;
    assert Masked(p).addr == TWO_64 * (i * c) by { assert i * (c * TWO_64) == TWO_64 * (i * c); }
    var a := SplitLan(p, index).value.addr;
    assert a == TWO_64 * (i * c) + index * TWO_64;
    hide SplitLan, Masked;
    SubnetAt(i, c, i * c, index, a);
  }

  lemma SubnetAt(i: nat, c: nat, n: nat, index: nat, a: nat)
    requires c > 0 && index < c && n == i * c && a == TWO_64 * n + index * TWO_64
    ensures c * TWO_64 > 0 && a / (c * TWO_64) == i && a / TWO_64 == n + index
  {
    MultipleIs(TWO_64, n + index);
    DivDiv(a, TWO_64, c);
    assert n == c * i;
    PairIs(c, i, index, n + index);
    assert c * TWO_64 == TWO_64 * c;
  }

  /** Subnets of different numbers are different, and so overlap nowhere. */
  lemma {:induction false} SplitApart(p: Prefix, i: int, j: int)
    requires SplitLan(p, i).Some? && SplitLan(p, j).Some? && i != j
    ensures SplitLan(p, i) != SplitLan(p, j) && !Overlaps(SplitLan(p, i).value, SplitLan(p, j).value)
  {
    hide Pow2;
    SplitInside(p, i);
    SplitInside(p, j);
    Pow2Known();
  }

  predicate Named(lans: seq<Lan>, index: int) {
    exists k :: 0 <= k < |lans| && lans[k].index == index
  }

  /** No segment names the index-th /64 and the ISP does not keep it for the WAN link. */
  predicate Spare(lans: seq<Lan>, p: Prefix, exclude: Prefix, index: int)
    requires exclude.bits <= 128
  {
    !Named(lans, index) && SplitLan(p, index).Some? && !Overlaps(exclude, SplitLan(p, index).value)
  }

  /** How many of the /64s of p are looked through. */
  function Searched(p: Prefix): nat
    requires p.bits <= 64
  {
    Pow2(if 64 - p.bits < 16 then 64 - p.bits else 16)
  }

  /** The highest below n that is spare. */
  function HighestSpare(lans: seq<Lan>, p: Prefix, exclude: Prefix, n: nat): (r: Option<Prefix>)
    requires p.bits <= 64 && exclude.bits <= 128
    ensures r.Some? ==> exists i: nat :: i < n && Spare(lans, p, exclude, i) && r == SplitLan(p, i)
                                         && forall j :: i < j < n ==> !Spare(lans, p, exclude, j)
    ensures r.None? ==> forall j :: 0 <= j < n ==> !Spare(lans, p, exclude, j)
  {
    if n == 0 then None
    else if Spare(lans, p, exclude, n - 1) then SplitLan(p, n - 1) else HighestSpare(lans, p, exclude, n - 1)
  }

  /** spareSubnet. */
  method SpareSubnet(lans: seq<Lan>, p: Prefix, exclude: Prefix) returns (r: Option<Prefix>)
    requires p.bits <= 64 && exclude.bits <= 128
    ensures r == HighestSpare(lans, p, exclude, Searched(p))
  {
    hide Overlaps, SplitLan;
    var i := Searched(p) - 1;
    while i >= 0
      invariant -1 <= i < Searched(p)
      invariant HighestSpare(lans, p, exclude, Searched(p)) == HighestSpare(lans, p, exclude, i + 1)
    {
      if !Named(lans, i) {
        var sub := SplitLan(p, i);
        if sub.Some? && !Overlaps(exclude, sub.value) { return sub; }
      }
      i := i - 1;
    }
    r := None;
  }

  predicate KeptBack(p: Prefix, exclude: Option<Prefix>, l: Lan)
    requires exclude.Some? ==> exclude.value.bits <= 128
  {
    exclude.Some? && SplitLan(p, l.index).Some? && Overlaps(exclude.value, SplitLan(p, l.index).value)
  }

  /** What a segment gets of p: its own subnet, or the spare one when the ISP keeps that. */
  function SubFor(lans: seq<Lan>, p: Prefix, exclude: Option<Prefix>, l: Lan): (r: Option<Prefix>)
    requires exclude.Some? ==> exclude.value.bits <= 128
    ensures r.Some? ==> r.value.bits == 64
  {
    if SplitLan(p, l.index).None? then None
    else if KeptBack(p, exclude, l) then HighestSpare(lans, p, exclude.value, Searched(p))
    else SplitLan(p, l.index)
  }

  /** Whatever a segment gets is part of the delegation and not the ISP's. */
  lemma {:induction false} SubInside(lans: seq<Lan>, p: Prefix, exclude: Option<Prefix>, l: Lan)
    requires (exclude.Some? ==> exclude.value.bits <= 128) && SubFor(lans, p, exclude, l).Some?
    ensures var sub := SubFor(lans, p, exclude, l).value;
            Contains(p, sub.addr) && !(exclude.Some? && Overlaps(exclude.value, sub))
  {
    hide Overlaps, Contains;
    var i := SpareOr(lans, p, exclude, l);
    SplitInside(p, i);
  }

  lemma {:induction false} SpareOr(lans: seq<Lan>, p: Prefix, exclude: Option<Prefix>, l: Lan) returns (i: int)
    requires (exclude.Some? ==> exclude.value.bits <= 128) && SubFor(lans, p, exclude, l).Some?
    ensures SplitLan(p, i) == SubFor(lans, p, exclude, l)
    ensures if KeptBack(p, exclude, l) then Spare(lans, p, exclude.value, i) else i == l.index
  {
    hide Overlaps, SplitLan;
    if KeptBack(p, exclude, l) {
      var j: nat :| j < Searched(p) && Spare(lans, p, exclude.value, j)
                    && HighestSpare(lans, p, exclude.value, Searched(p)) == SplitLan(p, j);
      i := j;
    } else {
      i := l.index;
    }
  }

  /** A segment whose subnet the ISP keeps goes without only when none of the first 65536, or of as many as
      there are, is spare; and one that has a subnet of its own keeps it. */
  lemma {:induction false} GoesWithout(lans: seq<Lan>, p: Prefix, exclude: Option<Prefix>, l: Lan)
    requires exclude.Some? ==> exclude.value.bits <= 128
    ensures SubFor(lans, p, exclude, l).None? <==>
              || SplitLan(p, l.index).None?
              || (KeptBack(p, exclude, l) && forall i: nat :: i < 0x1_0000 ==> !Spare(lans, p, exclude.value, i))
    ensures SplitLan(p, l.index).Some? && !KeptBack(p, exclude, l) ==> SubFor(lans, p, exclude, l) == SplitLan(p, l.index)
  {
    hide Overlaps;
    if KeptBack(p, exclude, l) {
      SearchedIs(p);
      forall i: nat | i < 0x1_0000 && Spare(lans, p, exclude.value, i) ensures i < Searched(p) {
        BelowSearched(p, i);
      }
      hide SplitLan;
      if HighestSpare(lans, p, exclude.value, Searched(p)).Some? {
        var i: nat :| i < Searched(p) && Spare(lans, p, exclude.value, i);
      }
    }
  }

  lemma SearchedIs(p: Prefix)
    requires p.bits <= 64
    ensures Searched(p) <= 0x1_0000
  {
    hide Pow2;
    Pow2Known();
    Pow2Grows(if 64 - p.bits < 16 then 64 - p.bits else 16, 16);
  }

  lemma {:induction false} Pow2Grows(a: nat, b: nat)
    requires a <= b
    ensures Pow2(a) <= Pow2(b)
  {
    if a < b { Pow2Grows(a, b - 1); }
  }

  lemma BelowSearched(p: Prefix, i: nat)
    requires p.bits <= 64 && i < 0x1_0000 && SplitLan(p, i).Some?
    ensures i < Searched(p)
  {
    hide Pow2;
    Pow2Known();
  }

  /** The index-th /64 is there exactly when a delegation of that length has that many. */
  lemma SplitIff(p: Prefix, index: int)
    ensures SplitLan(p, index).Some? <==> p.bits <= 64 && 0 <= index < Pow2(64 - p.bits)
  {
  }

  /** Two segments with numbers of their own get the same /64 exactly when the ISP keeps both theirs:
      there is but one spare one. */
  lemma {:induction false} SharedIff(lans: seq<Lan>, p: Prefix, exclude: Option<Prefix>, j: nat, k: nat)
    requires (exclude.Some? ==> exclude.value.bits <= 128)
    requires j < |lans| && k < |lans| && lans[j].index != lans[k].index
    requires SubFor(lans, p, exclude, lans[j]).Some? && SubFor(lans, p, exclude, lans[k]).Some?
    ensures SubFor(lans, p, exclude, lans[j]) == SubFor(lans, p, exclude, lans[k]) <==>
              KeptBack(p, exclude, lans[j]) && KeptBack(p, exclude, lans[k])
  {
    hide Overlaps, SplitLan, HighestSpare;
    var x := SpareOr(lans, p, exclude, lans[j]);
    var y := SpareOr(lans, p, exclude, lans[k]);
    if x != y { SplitApart(p, x, y); }
  }

  /** So two segments can come to share a subnet: here the ISP keeps the first two of a /60, and both
      segments that name them get the highest, the sixteenth. */
  lemma {:induction false} SharedSpare(a: string, b: string)
    ensures var lans, p, exclude := [Lan(a, 0), Lan(b, 1)], Prefix(0, 60), Some(Prefix(0, 63));
            SubFor(lans, p, exclude, lans[0]) == SubFor(lans, p, exclude, lans[1]) == Some(Prefix(15 * TWO_64, 64))
  {
    var lans, p, exclude := [Lan(a, 0), Lan(b, 1)], Prefix(0, 60), Prefix(0, 63);
    assert Pow2(4) == 16;
    hide Pow2;
    Pow2Known();
    Pow2Add(4, 64);
    KeptSizes();
    SixteenOf();
    hide SplitLan;
    KeptTwo();
    assert Spare(lans, p, exclude, 15);
  }

  lemma {:induction false} SixteenOf()
    ensures forall i :: 0 <= i < 16 ==> SplitLan(Prefix(0, 60), i) == Some(Prefix(i * TWO_64, 64))
  {
    assert Pow2(4) == 16;
    hide Pow2;
  }

  lemma {:induction false} KeptTwo()
    ensures var exclude := Prefix(0, 63);
            && Overlaps(exclude, Prefix(0, 64)) && Overlaps(exclude, Prefix(TWO_64, 64))
            && !Overlaps(exclude, Prefix(15 * TWO_64, 64))
  {
    hide Pow2;
    KeptSizes();
  }

  lemma {:induction false} KeptSizes()
    ensures Size(Prefix(0, 63)) == 2 * TWO_64 && Size(Prefix(0, 60)) == 16 * TWO_64 && Size(Prefix(0, 64)) == TWO_64
  {
    assert Pow2(1) == 2 && Pow2(4) == 16;
    hide Pow2;
    Pow2Known();
    Pow2Add(1, 64);
    Pow2Add(4, 64);
  }
}
