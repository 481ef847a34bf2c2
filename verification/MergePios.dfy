/** The prefixes a router advertises, merged with each of its Router Advertisements by the rules of
section 5.5.3 of RFC 4862. Times are in seconds. */
module MergePios {
  import opened Prefixes

  const TWO_HOURS: nat := 7200

  datatype Item = Item(prefix: Prefix, preferred: int, valid: int)

  /** What an advertisement has: prefixes with lifetimes, and prefixes with none. */
  datatype Advert = Advert(prefixes: seq<Item>, revoked: seq<Prefix>)

  /** An option whose preferred lifetime is the longer one has been left out of it. */
  predicate Sound(a: Advert) {
    Ordered(a.prefixes)
  }

  predicate Ordered(items: seq<Item>) {
    forall i :: 0 <= i < |items| ==> items[i].preferred <= items[i].valid
  }

  predicate Unique(items: seq<Item>) {
    forall i, j :: 0 <= i < j < |items| ==> items[i].prefix != items[j].prefix
  }

  predicate Named(items: seq<Item>, p: Prefix) {
    exists i :: 0 <= i < |items| && items[i].prefix == p
  }

  /** The first item of a prefix, or -1. */
  function IndexOf(items: seq<Item>, p: Prefix): (k: int)
    ensures -1 <= k < |items| && (k >= 0 ==> items[k].prefix == p)
    ensures k < 0 ==> forall i :: 0 <= i < |items| ==> items[i].prefix != p
  {
    if items == [] then -1
    else
      var k := IndexOf(items[..|items| - 1], p);
      if k >= 0 then k else if items[|items| - 1].prefix == p then |items| - 1 else -1
  }

  /** The expiry of a known prefix that is advertised with a lifetime of vl: shortened to two hours at
      most, and not at all when less is left. */
  function Expiry(was: int, vl: int, now: int): int {
    if vl > TWO_HOURS || now + vl > was then now + vl
    else if was - now <= TWO_HOURS then was
    else now + TWO_HOURS
  }

  function Renewed(h: Item, p: Item, now: int): Item {
    var v := Expiry(h.valid, p.valid - now, now);
    Item(p.prefix, if p.preferred > v then v else p.preferred, v)
  }

  function LeftOut(h: Item, a: Advert, now: int): Item {
    if a.prefixes != [] && !Named(a.prefixes, h.prefix) && h.preferred > now then h.(preferred := now) else h
  }

  function AllLeftOut(have: seq<Item>, a: Advert, now: int): (r: seq<Item>)
    ensures |r| == |have| && forall i :: 0 <= i < |r| ==> r[i] == LeftOut(have[i], a, now)
  {
    seq(|have|, i requires 0 <= i < |have| => LeftOut(have[i], a, now))
  }

  function WithOne(have: seq<Item>, p: Item, now: int): seq<Item> {
    var i := IndexOf(have, p.prefix);
    if i < 0 then have + [p] else have[i := Renewed(have[i], p, now)]
  }

  function With(have: seq<Item>, ps: seq<Item>, now: int): seq<Item> {
    if ps == [] then have else WithOne(With(have, ps[..|ps| - 1], now), ps[|ps| - 1], now)
  }

  function LessOne(have: seq<Item>, p: Prefix, now: int): seq<Item> {
    var i := IndexOf(have, p);
    if i < 0 then have else have[i := Item(p, now, Expiry(have[i].valid, 0, now))]
  }

  function Less(have: seq<Item>, ps: seq<Prefix>, now: int): seq<Item> {
    if ps == [] then have else LessOne(Less(have, ps[..|ps| - 1], now), ps[|ps| - 1], now)
  }

  function Merged(have: seq<Item>, a: Advert, now: int): seq<Item> {
    Less(With(AllLeftOut(have, a, now), a.prefixes, now), a.revoked, now)
  }

  /** mergePIOs. */
  method Merge(have: seq<Item>, a: Advert, now: int) returns (r: seq<Item>)
    ensures r == Merged(have, a, now)
  {
    hide WithOne, LessOne, LeftOut;
    r := LeaveOut(have, a, now);
    ghost var left := r;
    for k := 0 to |a.prefixes|
      invariant r == With(left, a.prefixes[..k], now)
    {
      assert a.prefixes[..k + 1] == a.prefixes[..k] + [a.prefixes[k]];
      r := Take(r, a.prefixes[k], now);
    }
    assert a.prefixes[..|a.prefixes|] == a.prefixes;
    ghost var taken := r;
    for k := 0 to |a.revoked|
      invariant r == Less(taken, a.revoked[..k], now)
    {
      assert a.revoked[..k + 1] == a.revoked[..k] + [a.revoked[k]];
      r := Revoke(r, a.revoked[k], now);
    }
    assert a.revoked[..|a.revoked|] == a.revoked;
    assert left == AllLeftOut(have, a, now);
  }

  method LeaveOut(have: seq<Item>, a: Advert, now: int) returns (r: seq<Item>)
    ensures |r| == |have| && forall i :: 0 <= i < |have| ==> r[i] == LeftOut(have[i], a, now)
  {
    r := have;
    if a.prefixes == [] { return; }
    for i := 0 to |have|
      invariant |r| == |have|
      invariant forall j :: 0 <= j < i ==> r[j] == LeftOut(have[j], a, now)
      invariant forall j :: i <= j < |have| ==> r[j] == have[j]
    {
      if !Named(a.prefixes, have[i].prefix) && have[i].preferred > now {
        r := r[i := have[i].(preferred := now)];
      }
    }
  }

  method Take(have: seq<Item>, p: Item, now: int) returns (r: seq<Item>)
    ensures r == WithOne(have, p, now)
  {
    var i := IndexOf(have, p.prefix);
    if i < 0 { return have + [p]; }
    var q := p.(valid := Expiry(have[i].valid, p.valid - now, now));
    if q.preferred > q.valid { q := q.(preferred := q.valid); }
    r := have[i := q];
  }

  method Revoke(have: seq<Item>, p: Prefix, now: int) returns (r: seq<Item>)
    ensures r == LessOne(have, p, now)
  {
    var i := IndexOf(have, p);
    r := have;
    if i >= 0 {
      r := r[i := r[i].(valid := Expiry(r[i].valid, 0, now))];
      r := r[i := r[i].(preferred := now)];
    }
  }

  // ---- What an advertisement cannot do

  /** to is a list after was: in order, nothing known gone, and nothing that expires sooner than it did
      or than floor, whichever is the sooner. */
  ghost predicate Follows(was: seq<Item>, to: seq<Item>, floor: int) {
    && |was| <= |to| && Unique(to) && Ordered(to)
    && forall i :: 0 <= i < |was| ==>
         to[i].prefix == was[i].prefix && (to[i].valid >= was[i].valid || to[i].valid >= floor)
  }

  lemma FollowsOn(a: seq<Item>, b: seq<Item>, c: seq<Item>, floor: int)
    requires Follows(a, b, floor) && Follows(b, c, floor)
    ensures Follows(a, c, floor)
  {
    hide Unique, Ordered;
  }

  lemma FollowsLower(a: seq<Item>, b: seq<Item>, floor: int, lower: int)
    requires Follows(a, b, floor) && lower <= floor
    ensures Follows(a, b, lower)
  {
    hide Unique, Ordered;
  }

  lemma LeftOutFollows(have: seq<Item>, a: Advert, now: int, floor: int)
    requires Unique(have) && Ordered(have)
    ensures Follows(have, AllLeftOut(have, a, now), floor)
  {
    hide Named;
  }

  lemma WithOneFollows(have: seq<Item>, p: Item, now: int)
    requires Unique(have) && Ordered(have) && p.preferred <= p.valid
    ensures Follows(have, WithOne(have, p, now), now + TWO_HOURS)
  {
    hide IndexOf;
  }

  lemma LessOneFollows(have: seq<Item>, p: Prefix, now: int)
    requires Unique(have) && Ordered(have)
    ensures Follows(have, LessOne(have, p, now), now + TWO_HOURS)
  {
    hide IndexOf;
  }

  lemma {:induction false} WithFollows(have: seq<Item>, ps: seq<Item>, now: int)
    requires Unique(have) && Ordered(have) && Ordered(ps)
    ensures Follows(have, With(have, ps, now), now + TWO_HOURS)
  {
    hide WithOne;
    if ps != [] {
      var n := |ps| - 1;
      WithFollows(have, ps[..n], now);
      WithOneFollows(With(have, ps[..n], now), ps[n], now);
      FollowsOn(have, With(have, ps[..n], now), With(have, ps, now), now + TWO_HOURS);
    }
  }

  lemma {:induction false} LessFollows(have: seq<Item>, ps: seq<Prefix>, now: int)
    requires Unique(have) && Ordered(have)
    ensures Follows(have, Less(have, ps, now), now + TWO_HOURS)
  {
    hide LessOne;
    if ps != [] {
      var n := |ps| - 1;
      LessFollows(have, ps[..n], now);
      LessOneFollows(Less(have, ps[..n], now), ps[n], now);
      FollowsOn(have, Less(have, ps[..n], now), Less(have, ps, now), now + TWO_HOURS);
    }
  }

  lemma {:induction false} MergedFollows(have: seq<Item>, a: Advert, now: int)
    requires Unique(have) && Ordered(have) && Sound(a)
    ensures Follows(have, Merged(have, a, now), now + TWO_HOURS)
  {
    hide With, Less, LeftOut, AllLeftOut;
    var floor := now + TWO_HOURS;
    var left := AllLeftOut(have, a, now);
    var taken := With(left, a.prefixes, now);
    LeftOutFollows(have, a, now, floor);
    WithFollows(left, a.prefixes, now);
    LessFollows(taken, a.revoked, now);
    FollowsOn(have, left, taken, floor);
    FollowsOn(have, taken, Merged(have, a, now), floor);
  }

  /** Advertisements one after another. */
  datatype Trace = Start | Then(before: Trace, a: Advert, now: int)

  function After(have: seq<Item>, tr: Trace): seq<Item> {
    match tr
    case Start => have
    case Then(before, a, now) => Merged(After(have, before), a, now)
  }

  predicate Legal(tr: Trace, since: int) {
    tr.Then? ==> Legal(tr.before, since) && Sound(tr.a) && since <= tr.now
  }

  /** Whatever is advertised from since on, forged or not, no prefix that was known is gone, and none
      expires sooner than it would have or than two hours after since; and the prefixes stay unique and
      in order. */
  lemma {:induction false} NoneTakenAway(have: seq<Item>, tr: Trace, since: int)
    requires Unique(have) && Ordered(have) && Legal(tr, since)
    ensures Follows(have, After(have, tr), since + TWO_HOURS)
  {
    hide Merged, Unique, Ordered;
    if tr.Then? {
      var was := After(have, tr.before);
      NoneTakenAway(have, tr.before, since);
      MergedFollows(was, tr.a, tr.now);
      FollowsLower(was, Merged(was, tr.a, tr.now), tr.now + TWO_HOURS, since + TWO_HOURS);
      FollowsOn(have, was, Merged(was, tr.a, tr.now), since + TWO_HOURS);
    }
  }

  /** A prefix the advertisement does not mention keeps its expiry, and is deprecated when others are
      mentioned. */
  lemma {:induction false} Unmentioned(have: seq<Item>, a: Advert, now: int, i: nat)
    requires i < |have| && !Named(a.prefixes, have[i].prefix) && have[i].prefix !in a.revoked
    ensures var r := Merged(have, a, now);
            i < |r| && r[i].prefix == have[i].prefix && r[i].valid == have[i].valid
            && (a.prefixes != [] && have[i].preferred > now ==> r[i].preferred == now)
  {
    hide LeftOut, With, Less;
    var left := AllLeftOut(have, a, now);
    LeftOutKeeps(have[i], a, now);
    WithKeeps(left, a.prefixes, now, i);
    LessKeeps(With(left, a.prefixes, now), a.revoked, now, i);
  }

  lemma LeftOutKeeps(h: Item, a: Advert, now: int)
    ensures LeftOut(h, a, now).prefix == h.prefix && LeftOut(h, a, now).valid == h.valid
    ensures a.prefixes != [] && !Named(a.prefixes, h.prefix) && h.preferred > now ==> LeftOut(h, a, now).preferred == now
  {
  }

  lemma {:induction false} WithKeeps(have: seq<Item>, ps: seq<Item>, now: int, i: nat)
    requires i < |have| && !Named(ps, have[i].prefix)
    ensures i < |With(have, ps, now)| && With(have, ps, now)[i] == have[i]
  {
    hide IndexOf;
    if ps != [] {
      var n := |ps| - 1;
      assert ps[n].prefix != have[i].prefix;
      assert !Named(ps[..n], have[i].prefix);
      WithKeeps(have, ps[..n], now, i);
    }
  }

  lemma {:induction false} LessKeeps(have: seq<Item>, ps: seq<Prefix>, now: int, i: nat)
    requires i < |have| && have[i].prefix !in ps
    ensures i < |Less(have, ps, now)| && Less(have, ps, now)[i] == have[i]
  {
    hide IndexOf;
    if ps != [] {
      var n := |ps| - 1;
      assert ps[n] != have[i].prefix;
      LessKeeps(have, ps[..n], now, i);
    }
  }

  function Later(x: int, y: int): int { if x < y then y else x }

  function Sooner(x: int, y: int): int { if x < y then x else y }

  /** A known prefix expires when it is said to, but not before what it had or two hours, whichever is sooner. */
  lemma ExpiryIs(was: int, vl: int, now: int)
    ensures Expiry(was, vl, now) == Later(now + vl, Sooner(was, now + TWO_HOURS))
  {
  }

  predicate NamedOnce(ps: seq<Item>, k: nat) {
    k < |ps| && forall j :: 0 <= j < |ps| && j != k ==> ps[j].prefix != ps[k].prefix
  }

  lemma IndexIs(have: seq<Item>, i: nat)
    requires Unique(have) && i < |have|
    ensures IndexOf(have, have[i].prefix) == i
  {
    var k := IndexOf(have, have[i].prefix);
    hide IndexOf;
    assert k >= 0;
  }

  lemma {:induction false} WithTakes(have: seq<Item>, ps: seq<Item>, now: int, i: nat, k: nat)
    requires Unique(have) && Ordered(have) && Ordered(ps) && NamedOnce(ps, k) && i < |have| && have[i].prefix == ps[k].prefix
    ensures i < |With(have, ps, now)| && With(have, ps, now)[i] == Renewed(have[i], ps[k], now)
  {
    hide IndexOf, Renewed;
    var n := |ps| - 1;
    WithFollows(have, ps[..n], now);
    var before := With(have, ps[..n], now);
    if k == n {
      assert !Named(ps[..n], have[i].prefix);
      WithKeeps(have, ps[..n], now, i);
      IndexIs(before, i);
    } else {
      WithTakes(have, ps[..n], now, i, k);
      RenewedIs(have[i], ps[k], now);
      assert ps[n].prefix != have[i].prefix;
    }
  }

  lemma RenewedIs(h: Item, p: Item, now: int)
    ensures var r := Renewed(h, p, now);
            && r.prefix == p.prefix && r.valid == Later(p.valid, Sooner(h.valid, now + TWO_HOURS))
            && r.preferred == Sooner(p.preferred, r.valid)
  {
    ExpiryIs(h.valid, p.valid - now, now);
  }

  /** A known prefix an advertisement gives lifetimes takes them, the longer ones at once, and the shorter down
      to two hours. */
  lemma {:induction false} Mentioned(have: seq<Item>, a: Advert, now: int, i: nat, k: nat)
    requires Unique(have) && Ordered(have) && Sound(a) && NamedOnce(a.prefixes, k)
    requires i < |have| && have[i].prefix == a.prefixes[k].prefix && have[i].prefix !in a.revoked
    ensures var r, p := Merged(have, a, now), a.prefixes[k];
            && i < |r| && r[i].prefix == p.prefix
            && r[i].valid == Later(p.valid, Sooner(have[i].valid, now + TWO_HOURS))
            && r[i].preferred == Sooner(p.preferred, r[i].valid)
  {
    hide LeftOut, With, Less, Renewed;
    var left := AllLeftOut(have, a, now);
    LeftOutFollows(have, a, now, 0);
    LeftOutKeeps(have[i], a, now);
    WithTakes(left, a.prefixes, now, i, k);
    RenewedIs(left[i], a.prefixes[k], now);
    LessKeeps(With(left, a.prefixes, now), a.revoked, now, i);
  }

  predicate RevokedOnce(ps: seq<Prefix>, k: nat) {
    k < |ps| && forall j :: 0 <= j < |ps| && j != k ==> ps[j] != ps[k]
  }

  lemma {:induction false} LessTakes(have: seq<Item>, ps: seq<Prefix>, now: int, i: nat, k: nat)
    requires Unique(have) && Ordered(have) && RevokedOnce(ps, k) && i < |have| && have[i].prefix == ps[k]
    ensures var r := Less(have, ps, now);
            i < |r| && r[i] == Item(ps[k], now, Later(now, Sooner(have[i].valid, now + TWO_HOURS)))
  {
    hide IndexOf, Expiry;
    ExpiryIs(have[i].valid, 0, now);
    var n := |ps| - 1;
    LessFollows(have, ps[..n], now);
    var before := Less(have, ps[..n], now);
    if k == n {
      assert have[i].prefix !in ps[..n];
      LessKeeps(have, ps[..n], now, i);
      IndexIs(before, i);
    } else {
      LessTakes(have, ps[..n], now, i, k);
      assert ps[n] != have[i].prefix;
    }
  }

  /** One given no lifetime is deprecated at once, and expires in two hours at the latest, or when it would have. */
  lemma {:induction false} Withdrawn(have: seq<Item>, a: Advert, now: int, i: nat, k: nat)
    requires Unique(have) && Ordered(have) && Sound(a) && RevokedOnce(a.revoked, k)
    requires i < |have| && have[i].prefix == a.revoked[k] && !Named(a.prefixes, have[i].prefix)
    ensures var r := Merged(have, a, now);
            && i < |r| && r[i] == Item(have[i].prefix, now, Later(now, Sooner(have[i].valid, now + TWO_HOURS)))
  {
    hide LeftOut, With, Less;
    var left := AllLeftOut(have, a, now);
    LeftOutFollows(have, a, now, 0);
    LeftOutKeeps(have[i], a, now);
    WithFollows(left, a.prefixes, now);
    WithKeeps(left, a.prefixes, now, i);
    LessTakes(With(left, a.prefixes, now), a.revoked, now, i, k);
  }

  lemma {:induction false} WithAdds(have: seq<Item>, ps: seq<Item>, now: int, k: nat)
    requires Unique(have) && Ordered(have) && Ordered(ps) && NamedOnce(ps, k) && !Named(have, ps[k].prefix)
    ensures ps[k] in With(have, ps, now)
    ensures forall i :: 0 <= i < |With(have, ps, now)| && With(have, ps, now)[i].prefix == ps[k].prefix ==> With(have, ps, now)[i] == ps[k]
  {
    hide IndexOf, Renewed;
    var n := |ps| - 1;
    WithFollows(have, ps[..n], now);
    WithFollows(have, ps, now);
    var before, r := With(have, ps[..n], now), With(have, ps, now);
    if k == n {
      WithNames(have, ps[..n], now, ps[k].prefix);
      assert IndexOf(before, ps[k].prefix) < 0;
      assert r == before + [ps[k]];
    } else {
      WithAdds(have, ps[..n], now, k);
      var i :| 0 <= i < |before| && before[i] == ps[k];
      assert r[i] == ps[k];
    }
  }

  lemma {:induction false} WithNames(have: seq<Item>, ps: seq<Item>, now: int, p: Prefix)
    requires !Named(have, p) && !Named(ps, p)
    ensures !Named(With(have, ps, now), p)
  {
    hide IndexOf;
    if ps != [] {
      var n := |ps| - 1;
      assert !Named(ps[..n], p) && ps[n].prefix != p;
      WithNames(have, ps[..n], now, p);
    }
  }

  lemma {:induction false} LessSame(have: seq<Item>, ps: seq<Prefix>, now: int, p: Item)
    requires p in have && p.prefix !in ps
    ensures p in Less(have, ps, now)
  {
    hide Less, LessOne;
    var i :| 0 <= i < |have| && have[i] == p;
    LessKeeps(have, ps, now, i);
  }

  /** A prefix that was not known is taken as it is advertised. */
  lemma {:induction false} NewlyNamed(have: seq<Item>, a: Advert, now: int, k: nat)
    requires Unique(have) && Ordered(have) && Sound(a) && NamedOnce(a.prefixes, k)
    requires !Named(have, a.prefixes[k].prefix) && a.prefixes[k].prefix !in a.revoked
    ensures a.prefixes[k] in Merged(have, a, now)
  {
    hide LeftOut, With, Less, Renewed;
    var left := AllLeftOut(have, a, now);
    LeftOutFollows(have, a, now, 0);
    forall i | 0 <= i < |left| ensures left[i].prefix == have[i].prefix { LeftOutKeeps(have[i], a, now); }
    assert !Named(left, a.prefixes[k].prefix);
    WithAdds(left, a.prefixes, now, k);
    LessSame(With(left, a.prefixes, now), a.revoked, now, a.prefixes[k]);
  }
}
