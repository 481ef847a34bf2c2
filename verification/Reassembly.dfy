/** Putting fragmented datagrams together, as the slow path of the translator does (section 4.5 of RFC
8200, RFC 791; overlapping fragments drop the datagram, RFC 5722). */
module Reassembly {
  import opened Arith
  import opened Wire

  const SLOW_GROUPS: nat := 64
  const SLOW_TIMEOUT: int := 30_000_000_000  // nanoseconds

  /** What tells the fragments of one datagram from those of others. */
  datatype Key = Key(src: Bytes, dst: Bytes, id: nat, proto: Byte)

  /** One fragment as it was parsed: its IP header without a fragment header, and what it carries. */
  datatype Piece = Piece(key: Key, hdr: Bytes, off: nat, more: bool, data: Bytes)

  /** Fragments kept by offset, and the payload's length once the last of them has come, else -1. */
  datatype Group = Group(hdr: Option<Bytes>, parts: map<nat, Bytes>, total: int, expires: int)

  type Table = map<Key, Group>

  datatype Outcome =
    | Waiting
    | Complete(hdr: Bytes, proto: Byte, whole: Bytes)
    | Refused(why: string)

  predicate HeaderOk(hdr: Bytes) {
    (|hdr| == 20 && hdr[0] / 16 == 4) || (|hdr| == 40 && hdr[0] / 16 == 6)
  }

  type Fragment = p: Piece | HeaderOk(p.hdr) witness Piece(Key([], [], 0, 0), [0x40] + seq(19, _ => 0), 0, false, [])

  /** The header the datagram has without its fragment header. */
  function Restored(p: Fragment): Bytes {
    if p.hdr[0] / 16 == 6 then p.hdr[6 := p.key.proto] else p.hdr
  }

  function Purged(t: Table, now: int): Table {
    map k | k in t && now <= t[k].expires :: t[k]
  }

  function Open(now: int): Group {
    Group(None, map[], -1, now + SLOW_TIMEOUT)
  }

  /** The group the fragment belongs to, with what its header and its end tell of the datagram. */
  function Noted(t: Table, now: int, p: Fragment): Group {
    var g := if p.key in t then t[p.key] else Open(now);
    var g1 := if p.off == 0 then g.(hdr := Some(Restored(p))) else g;
    if p.more then g1 else g1.(total := p.off + |p.data|)
  }

  predicate Malformed(g: Group, p: Fragment) {
    || (p.more && |p.data| % 8 != 0)
    || p.off + |p.data| > 0xffff
    || (g.total >= 0 && p.off + |p.data| > g.total)
  }

  predicate Apart(o: nat, d: Bytes, p: nat, e: Bytes) {
    p + |e| <= o || o + |d| <= p
  }

  predicate Overlaps(parts: map<nat, Bytes>, off: nat, data: Bytes) {
    exists o :: o in parts && !Apart(o, parts[o], off, data)
  }

  ghost predicate IsLeast(s: set<nat>, m: nat) {
    m in s && forall x :: x in s ==> m <= x
  }

  lemma {:induction false} LeastExists(s: set<nat>)
    requires s != {}
    ensures exists m :: IsLeast(s, m)
  {
    var m: nat :| m in s;
    var rest := s - {m};
    assert s == rest + {m};
    if rest == {} {
      assert IsLeast(s, m);
    } else {
      LeastExists(rest);
      var l: nat :| IsLeast(rest, l);
      assert IsLeast(s, if m <= l then m else l);
    }
  }

  ghost function Least(s: set<nat>): (m: nat)
    requires s != {}
    ensures m in s && forall x :: x in s ==> m <= x
  {
    LeastExists(s);
    var m :| IsLeast(s, m);
    m
  }

  /** whole and the parts after it in the order of their offsets, unless one does not begin where the
      one before it ended. */
  ghost function Join(parts: map<nat, Bytes>, whole: Bytes): Option<Bytes>
    decreases |parts|
  {
    if parts == map[] then Some(whole)
    else
      var o: nat := Least(parts.Keys);
      if o != |whole| then None else Join(parts - {o}, whole + parts[o])
  }

  /** The group with the fragment in it. */
  function Grown(t: Table, now: int, p: Fragment): Group {
    var g := Noted(t, now, p);
    g.(parts := g.parts[p.off := p.data])
  }

  /** The whole payload, once the end and the first header are known and no hole is left. */
  ghost function Whole(g: Group): Option<Bytes> {
    if g.total < 0 || g.hdr.None? then None else Join(g.parts, [])
  }

  /** Why a fragment is refused, before anything is kept of it. */
  ghost function Refusal(live: Table, now: int, p: Fragment): Option<string> {
    var g := Noted(live, now, p);
    if p.key !in live && |live| >= SLOW_GROUPS then Some("too many datagrams")
    else if Malformed(g, p) then Some("malformed fragment")
    else if Overlaps(g.parts, p.off, p.data) then Some("overlapping fragments")
    else None
  }

  /** What a fragment that comes at now does to the table, and what it completes. A fragment refused
      takes the datagram it belongs to with it. */
  ghost function Offer(t: Table, now: int, p: Fragment): (Table, Outcome) {
    var live := Purged(t, now);
    var why, g := Refusal(live, now, p), Grown(live, now, p);
    if why.Some? then (live - {p.key}, Refused(why.value))
    else if Whole(g).None? then (live[p.key := g], Waiting)
    else (live - {p.key}, Complete(g.hdr.value, p.key.proto, Whole(g).value))
  }

  /** The slow path's table, as its code changes it. */
  class SlowPath {
    var groups: Table
    var dropped: nat

    constructor ()
      ensures groups == map[] && dropped == 0
    {
      groups, dropped := map[], 0;
    }

    /** Drops the groups whose time is up. */
    method Purge(now: int)
      modifies this
      ensures groups == Purged(old(groups), now)
      ensures dropped == old(dropped) + |old(groups)| - |groups|
    {
      var keys := groups.Keys;
      while keys != {}
        invariant keys <= old(groups).Keys
        invariant groups == map k | k in old(groups) && (k in keys || now <= old(groups)[k].expires) :: old(groups)[k]
        invariant dropped == old(dropped) + |old(groups)| - |groups|
      {
        var k :| k in keys;
        keys := keys - {k};
        if now > groups[k].expires {
          assert groups.Keys - {k} == (groups - {k}).Keys;
          assert |groups| == |groups.Keys| && |groups - {k}| == |(groups - {k}).Keys|;
          groups := groups - {k};
          dropped := dropped + 1;
        }
      }
    }

    method Reassemble(now: int, p: Fragment) returns (out: Outcome)
      modifies this
      ensures (groups, out) == Offer(old(groups), now, p)
    {
      Purge(now);
      ghost var live := groups;
      if p.key !in groups && |groups| >= SLOW_GROUPS {
        assert live - {p.key} == live;
        return Refused("too many datagrams");
      }
      var g := if p.key in groups then groups[p.key] else Open(now);
      if p.off == 0 { g := g.(hdr := Some(Restored(p))); }
      if !p.more { g := g.(total := p.off + |p.data|); }
      assert g == Noted(live, now, p);
      groups := groups[p.key := g];
      out := Add(now, p, g, live);
    }

    /** The rest of Reassemble, the fragment noted in its group g. */
    method Add(now: int, p: Fragment, g: Group, ghost live: Table) returns (out: Outcome)
      requires groups == live[p.key := g] && g == Noted(live, now, p)
      requires p.key in live || |live| < SLOW_GROUPS
      modifies this`groups
      ensures var why := Refusal(live, now, p);
              groups == (if why.Some? || Whole(Grown(live, now, p)).Some? then live - {p.key} else live[p.key := Grown(live, now, p)])
      ensures out == if Refusal(live, now, p).Some? then Refused(Refusal(live, now, p).value)
                     else if Whole(Grown(live, now, p)).None? then Waiting
                     else Complete(Grown(live, now, p).hdr.value, p.key.proto, Whole(Grown(live, now, p)).value)
    {
      assert live[p.key := g] - {p.key} == live - {p.key};
      if (p.more && |p.data| % 8 != 0) || p.off + |p.data| > 0xffff || (g.total >= 0 && p.off + |p.data| > g.total) {
        groups := groups - {p.key};
        return Refused("malformed fragment");
      }
      var overlap := AnyOverlap(g.parts, p.off, p.data);
      if overlap {
        groups := groups - {p.key};
        return Refused("overlapping fragments");
      }
      var g' := g.(parts := g.parts[p.off := p.data]);
      assert groups[p.key := g'] == live[p.key := g'];
      assert live[p.key := g'] - {p.key} == live - {p.key};
      groups := groups[p.key := g'];
      if g'.total < 0 || g'.hdr.None? {
        return Waiting;
      }
      var whole := InOrder(g'.parts);
      if whole.None? {
        return Waiting;
      }
      groups := groups - {p.key};
      return Complete(g'.hdr.value, p.key.proto, whole.value);
    }

    method AnyOverlap(parts: map<nat, Bytes>, off: nat, data: Bytes) returns (r: bool)
      ensures r <==> Overlaps(parts, off, data)
    {
      var keys := parts.Keys;
      while keys != {}
        invariant keys <= parts.Keys
        invariant forall o :: o in parts && o !in keys ==> Apart(o, parts[o], off, data)
      {
        var o: nat :| o in keys;
        keys := keys - {o};
        if off < o + |parts[o]| && o < off + |data| { return true; }
      }
      return false;
    }

    /** The parts in the order of their offsets, one after the other. */
    method InOrder(parts: map<nat, Bytes>) returns (whole: Option<Bytes>)
      ensures whole == Join(parts, [])
    {
      var rest, got: Bytes := parts, [];
      while rest != map[]
        invariant Join(rest, got) == Join(parts, [])
        decreases |rest|
      {
        LeastExists(rest.Keys);
        ghost var least := Least(rest.Keys);
        var o: nat :| o in rest.Keys && forall x :: x in rest.Keys ==> o <= x;
        assert o == Least(rest.Keys);
        if o != |got| { return None; }
        got := got + rest[o];
        assert (rest - {o}).Keys == rest.Keys - {o};
        rest := rest - {o};
      }
      return Some(got);
    }
  }

  // ---- Any fragments at all

  /** A fragment and when it comes. */
  datatype Arrival = Arrival(now: int, p: Fragment)

  /** The table after the arrivals. */
  ghost function After(t: Table, arrivals: seq<Arrival>): Table {
    if arrivals == [] then t
    else Offer(After(t, arrivals[..|arrivals| - 1]), arrivals[|arrivals| - 1].now, arrivals[|arrivals| - 1].p).0
  }

  ghost predicate InTime(arrivals: seq<Arrival>) {
    forall i, j :: 0 <= i <= j < |arrivals| ==> arrivals[i].now <= arrivals[j].now
  }

  /** Part o of the group is what the i-th arrival brought, within the group's life. */
  predicate Brought(arrivals: seq<Arrival>, i: nat, k: Key, o: nat, d: Bytes, expires: int) {
    i < |arrivals| && arrivals[i].p.key == k && arrivals[i].p.off == o && arrivals[i].p.data == d
    && expires <= arrivals[i].now + SLOW_TIMEOUT
  }

  /** Every part of the group is what some arrival brought. */
  ghost predicate Came(arrivals: seq<Arrival>, k: Key, g: Group) {
    forall o :: o in g.parts ==> exists i :: Brought(arrivals, i, k, o, g.parts[o], g.expires)
  }

  lemma CameSnoc(arrivals: seq<Arrival>, a: Arrival, k: Key, g: Group)
    ensures Came(arrivals, k, g) ==> Came(arrivals + [a], k, g)
  {
    forall o | o in g.parts && Came(arrivals, k, g)
      ensures exists i :: Brought(arrivals + [a], i, k, o, g.parts[o], g.expires)
    {
      var i :| Brought(arrivals, i, k, o, g.parts[o], g.expires);
      assert Brought(arrivals + [a], i, k, o, g.parts[o], g.expires);
    }
  }

  /** Every group is made of arrivals under its key, no two of its parts overlapping. */
  ghost predicate Traced(t: Table, arrivals: seq<Arrival>) {
    && |t| <= SLOW_GROUPS
    && forall k :: k in t ==> Came(arrivals, k, t[k]) && Disjoint(t[k].parts)
  }

  ghost predicate Disjoint(parts: map<nat, Bytes>) {
    forall o, q :: o in parts && q in parts && o != q ==> Apart(o, parts[o], q, parts[q])
  }

  lemma PurgedTraced(t: Table, arrivals: seq<Arrival>, now: int)
    requires Traced(t, arrivals)
    ensures Traced(Purged(t, now), arrivals)
    ensures Opened(t, now) ==> Opened(Purged(t, now), now)
  {
    var live := Purged(t, now);
    assert live.Keys <= t.Keys;
    SubsetSize(live.Keys, t.Keys);
  }

  /** The parts the fragment's group has once it is in. The group is as old as its first fragment, so
      this one is within its life. */
  lemma {:induction false} GroupTraced(live: Table, arrivals: seq<Arrival>, a: Arrival)
    requires Traced(live, arrivals) && Opened(live, a.now)
    requires !Overlaps(Noted(live, a.now, a.p).parts, a.p.off, a.p.data)
    ensures var g := Grown(live, a.now, a.p);
            g.expires <= a.now + SLOW_TIMEOUT && Disjoint(g.parts) && Came(arrivals + [a], a.p.key, g)
  {
    var was, g := Noted(live, a.now, a.p), Grown(live, a.now, a.p);
    assert a.p.key in live ==> was.parts == live[a.p.key].parts && was.expires == live[a.p.key].expires;
    assert Came(arrivals, a.p.key, was);
    CameSnoc(arrivals, a, a.p.key, was);
    assert Brought(arrivals + [a], |arrivals|, a.p.key, a.p.off, a.p.data, g.expires);
  }

  /** The groups were opened no later than now. */
  ghost predicate Opened(t: Table, now: int) {
    forall k :: k in t ==> t[k].expires <= now + SLOW_TIMEOUT
  }

  /** Putting a traced group under its key, or taking the key out. */
  lemma {:induction false} TableTraced(live: Table, t: Table, arrivals: seq<Arrival>, a: Arrival, g: Group)
    requires Traced(live, arrivals) && Opened(live, a.now)
    requires t == live - {a.p.key}
          || (t == live[a.p.key := g] && (a.p.key in live || |live| < SLOW_GROUPS)
              && g.expires <= a.now + SLOW_TIMEOUT && Disjoint(g.parts) && Came(arrivals + [a], a.p.key, g))
    ensures Traced(t, arrivals + [a]) && Opened(t, a.now)
  {
    hide Came, Disjoint;
    if t == live - {a.p.key} {
      SubsetSize(t.Keys, live.Keys);
    } else {
      assert t.Keys == live.Keys + {a.p.key};
    }
    forall k | k in t ensures Came(arrivals + [a], k, t[k]) && Disjoint(t[k].parts) {
      CameSnoc(arrivals, a, k, t[k]);
    }
  }

  lemma {:induction false} OfferTraced(t: Table, arrivals: seq<Arrival>, a: Arrival)
    requires Traced(t, arrivals) && Opened(t, a.now)
    ensures var t' := Offer(t, a.now, a.p).0; Traced(t', arrivals + [a]) && Opened(t', a.now)
  {
    hide Came, Disjoint, Traced, Opened, Overlaps, Purged, Join, Noted, Malformed;
    PurgedTraced(t, arrivals, a.now);
    var live := Purged(t, a.now);
    if !Overlaps(Noted(live, a.now, a.p).parts, a.p.off, a.p.data) {
      GroupTraced(live, arrivals, a);
    }
    TableTraced(live, Offer(t, a.now, a.p).0, arrivals, a, Grown(live, a.now, a.p));
  }

  /** Over any stream of fragments every group is made of what came under its key, and there are never
      more than SLOW_GROUPS of them. */
  lemma {:induction false} AfterTraced(arrivals: seq<Arrival>)
    requires InTime(arrivals)
    ensures Traced(After(map[], arrivals), arrivals)
    ensures arrivals != [] ==> Opened(After(map[], arrivals), arrivals[|arrivals| - 1].now)
  {
    if arrivals != [] {
      var n := |arrivals| - 1;
      AfterTraced(arrivals[..n]);
      assert arrivals == arrivals[..n] + [arrivals[n]];
      OfferTraced(After(map[], arrivals[..n]), arrivals[..n], arrivals[n]);
    }
  }

  /** The arrivals in used tile whole from end to end: each brought its bytes to the place it claimed,
      no two overlap, no byte is without one. */
  ghost predicate Tiles(arrivals: seq<Arrival>, used: set<nat>, k: Key, whole: Bytes) {
    && (forall i :: i in used ==> i < |arrivals| && arrivals[i].p.key == k && Placed(arrivals[i].p, whole))
    && (forall i, j :: i in used && j in used && i != j ==>
          Apart(arrivals[i].p.off, arrivals[i].p.data, arrivals[j].p.off, arrivals[j].p.data))
    && (forall b :: 0 <= b < |whole| ==> Covered(arrivals, used, b))
  }

  ghost predicate Covered(arrivals: seq<Arrival>, used: set<nat>, b: nat) {
    exists i :: i in used && i < |arrivals| && Spans(arrivals[i].p.off, arrivals[i].p.data, b)
  }

  predicate Placed(p: Fragment, whole: Bytes) {
    p.off + |p.data| <= |whole| && whole[p.off..p.off + |p.data|] == p.data
  }

  predicate Spans(off: nat, data: Bytes, b: nat) {
    off <= b < off + |data|
  }

  ghost predicate Held(parts: map<nat, Bytes>, b: nat) {
    exists o :: o in parts && Spans(o, parts[o], b)
  }

  /** whole goes on from head with each part where it belongs, and nothing else. */
  ghost predicate Laid(parts: map<nat, Bytes>, head: Bytes, whole: Bytes) {
    && head <= whole
    && (forall o :: o in parts ==>
          |head| <= o && o + |parts[o]| <= |whole| && whole[o..o + |parts[o]|] == parts[o])
    && (forall b :: |head| <= b < |whole| ==> Held(parts, b))
  }

  lemma LaidBefore(parts: map<nat, Bytes>, o: nat, head: Bytes, whole: Bytes)
    requires o in parts && o == |head| && Laid(parts - {o}, head + parts[o], whole)
    ensures Laid(parts, head, whole)
  {
    var rest := parts - {o};
    assert whole[o..o + |parts[o]|] == (head + parts[o])[o..];
    forall q | q in parts
      ensures |head| <= q && q + |parts[q]| <= |whole| && whole[q..q + |parts[q]|] == parts[q]
    {
      if q != o { assert q in rest && rest[q] == parts[q]; }
    }
    forall b | |head| <= b < |whole| ensures Held(parts, b) {
      if b < o + |parts[o]| {
        assert Spans(o, parts[o], b);
      } else {
        assert Held(rest, b);
        var q :| q in rest && Spans(q, rest[q], b);
        assert Spans(q, parts[q], b);
      }
    }
  }

  lemma {:induction false} JoinTiles(parts: map<nat, Bytes>, head: Bytes)
    requires Join(parts, head).Some?
    ensures Laid(parts, head, Join(parts, head).value)
    decreases |parts|
  {
    hide Laid;
    if parts == map[] {
      LaidNothing(head);
    } else {
      var o: nat := Least(parts.Keys);
      JoinTiles(parts - {o}, head + parts[o]);
      LaidBefore(parts, o, head, Join(parts, head).value);
    }
  }

  lemma LaidNothing(head: Bytes)
    ensures Laid(map[], head, head)
  {
  }

  /** Any datagram the slow path ever puts together, out of any stream of fragments, duplicates and
      overlaps in any order, is tiled by fragments that came under its key in the last SLOW_TIMEOUT. */
  lemma {:induction false} CompleteIsTiled(before: seq<Arrival>, a: Arrival)
    requires InTime(before + [a])
    requires Offer(After(map[], before), a.now, a.p).1.Complete?
    ensures exists used :: Tiles(before + [a], used, a.p.key, Offer(After(map[], before), a.now, a.p).1.whole)
              && forall i :: i in used ==> a.now <= (before + [a])[i].now + SLOW_TIMEOUT
  {
    forall i, j | 0 <= i <= j < |before| ensures before[i].now <= before[j].now {
      assert (before + [a])[i] == before[i] && (before + [a])[j] == before[j];
    }
    AfterTraced(before);
    if before != [] {
      var n := |before|;
      assert (before + [a])[n - 1] == before[n - 1] && (before + [a])[n] == a;
    }
    CompletionTiled(After(map[], before), before, a);
  }

  lemma {:induction false} CompletionTiled(t: Table, before: seq<Arrival>, a: Arrival)
    requires Traced(t, before) && Opened(t, a.now) && Offer(t, a.now, a.p).1.Complete?
    ensures exists used :: Tiles(before + [a], used, a.p.key, Offer(t, a.now, a.p).1.whole)
              && forall i :: i in used ==> a.now <= (before + [a])[i].now + SLOW_TIMEOUT
  {
    PurgedTraced(t, before, a.now);
    LiveTiled(Purged(t, a.now), before, a);
  }

  lemma {:induction false} LiveTiled(live: Table, before: seq<Arrival>, a: Arrival)
    requires Traced(live, before) && Opened(live, a.now)
    requires Refusal(live, a.now, a.p).None? && Whole(Grown(live, a.now, a.p)).Some?
    requires a.p.key in live ==> a.now <= live[a.p.key].expires
    ensures exists used :: Tiles(before + [a], used, a.p.key, Whole(Grown(live, a.now, a.p)).value)
              && forall i :: i in used ==> a.now <= (before + [a])[i].now + SLOW_TIMEOUT
  {
    hide Traced, Opened, Overlaps, Disjoint, Came, Laid, Tiles;
    GroupTraced(live, before, a);
    var g := Grown(live, a.now, a.p);
    JoinTiles(g.parts, []);
    PartsTile(before + [a], a.p.key, g, Whole(g).value);
  }

  ghost function Bringer(arrivals: seq<Arrival>, k: Key, o: nat, d: Bytes, expires: int): (i: nat)
    requires exists i :: Brought(arrivals, i, k, o, d, expires)
    ensures Brought(arrivals, i, k, o, d, expires)
  {
    var i :| Brought(arrivals, i, k, o, d, expires);
    i
  }

  /** The arrivals the parts are from, one for each. */
  ghost function Bringers(arrivals: seq<Arrival>, k: Key, g: Group): (used: set<nat>)
    requires Came(arrivals, k, g)
    ensures forall i :: i in used ==> i < |arrivals| && FromPart(arrivals, k, g, i)
    ensures forall o :: o in g.parts ==> exists i :: i in used && Brought(arrivals, i, k, o, g.parts[o], g.expires)
    ensures forall i, j :: i in used && j in used && arrivals[i].p.off == arrivals[j].p.off ==> i == j
  {
    var used := set o | o in g.parts :: Bringer(arrivals, k, o, g.parts[o], g.expires);
    assert forall o :: o in g.parts ==> Bringer(arrivals, k, o, g.parts[o], g.expires) in used;
    used
  }

  /** The i-th arrival is the part at its offset. */
  predicate FromPart(arrivals: seq<Arrival>, k: Key, g: Group, i: nat)
    requires i < |arrivals|
  {
    var o := arrivals[i].p.off;
    o in g.parts && Brought(arrivals, i, k, o, g.parts[o], g.expires)
  }

  lemma {:induction false} PartsTile(arrivals: seq<Arrival>, k: Key, g: Group, whole: Bytes)
    requires Disjoint(g.parts) && Came(arrivals, k, g) && Laid(g.parts, [], whole)
    ensures exists used :: Tiles(arrivals, used, k, whole)
              && forall i :: i in used ==> g.expires <= arrivals[i].now + SLOW_TIMEOUT
  {
    hide Bringers, Came;
    var used := Bringers(arrivals, k, g);
    forall b | 0 <= b < |whole| ensures Covered(arrivals, used, b) {
      assert Held(g.parts, b);
      var o :| o in g.parts && Spans(o, g.parts[o], b);
      var i :| i in used && Brought(arrivals, i, k, o, g.parts[o], g.expires);
      assert Spans(arrivals[i].p.off, arrivals[i].p.data, b);
    }
    hide Held, Covered;
    assert Tiles(arrivals, used, k, whole);
  }

  /** The group still waited for that the fragment belongs to. */
  predicate Waits(t: Table, now: int, k: Key) {
    k in t && now <= t[k].expires
  }

  /** How many datagrams are waited for. */
  function Waiters(t: Table, now: int): set<Key> {
    set k | k in t && now <= t[k].expires
  }

  ghost predicate Meets(o: nat, d: Bytes, p: Fragment) {
    exists b :: Spans(o, d, b) && Spans(p.off, p.data, b)
  }

  /** They have a byte in common, or one is without bytes and strictly inside the other. */
  ghost predicate Crosses(o: nat, d: Bytes, p: Fragment) {
    || Meets(o, d, p)
    || (p.data == [] && o < p.off < o + |d|)
    || (d == [] && p.off < o < p.off + |p.data|)
  }

  lemma CrossesIff(o: nat, d: Bytes, p: Fragment)
    ensures Crosses(o, d, p) <==> !Apart(o, d, p.off, p.data)
  {
    if d != [] && p.data != [] && !Apart(o, d, p.off, p.data) {
      var b: nat := if o < p.off then p.off else o;
      assert Spans(o, d, b) && Spans(p.off, p.data, b);
    }
  }

  ghost predicate CrossesAny(parts: map<nat, Bytes>, p: Fragment) {
    exists o :: o in parts && Crosses(o, parts[o], p)
  }

  lemma CrossesAnyIff(parts: map<nat, Bytes>, p: Fragment)
    ensures CrossesAny(parts, p) <==> Overlaps(parts, p.off, p.data)
  {
    forall o | o in parts ensures Crosses(o, parts[o], p) <==> !Apart(o, parts[o], p.off, p.data) {
      CrossesIff(o, parts[o], p);
    }
    hide Crosses, Apart;
  }

  lemma LiveIs(t: Table, now: int, k: Key)
    ensures Purged(t, now).Keys == Waiters(t, now) && |Purged(t, now)| == |Waiters(t, now)|
    ensures Waits(t, now, k) <==> k in Purged(t, now)
    ensures Waits(t, now, k) ==> Purged(t, now)[k] == t[k]
  {
  }

  /** A fragment is refused if and only if it is of a datagram too many, or not the last and not of a multiple
      of eight bytes, or reaches beyond what a length can say or the end that is known, or crosses one that
      is kept. */
  lemma {:induction false} RefusedIff(t: Table, now: int, p: Fragment)
    ensures var known := Waits(t, now, p.key);
            Offer(t, now, p).1.Refused? <==>
              || (!known && |Waiters(t, now)| >= SLOW_GROUPS)
              || (p.more && |p.data| % 8 != 0)
              || p.off + |p.data| > 0xffff
              || (p.more && known && t[p.key].total >= 0 && p.off + |p.data| > t[p.key].total)
              || (known && CrossesAny(t[p.key].parts, p))
  {
    hide Purged, Overlaps, CrossesAny, Waiters, Whole, Restored;
    LiveIs(t, now, p.key);
    CrossesAnyIff(if Waits(t, now, p.key) then t[p.key].parts else map[], p);
    NothingCrossed(p);
  }

  lemma NothingCrossed(p: Fragment)
    ensures !Overlaps(map[], p.off, p.data)
  {
  }

  predicate EndsAt(parts: map<nat, Bytes>, end: int) {
    exists o :: o in parts && o + |parts[o]| == end
  }

  predicate Within(parts: map<nat, Bytes>, end: int) {
    forall o :: o in parts ==> o + |parts[o]| <= end
  }

  lemma WholeEnds(g: Group)
    requires Whole(g).Some? && g.parts != map[]
    ensures |Whole(g).value| == g.total <==> EndsAt(g.parts, g.total) && Within(g.parts, g.total)
  {
    JoinTiles(g.parts, []);
    var whole := Whole(g).value;
    if whole == [] {
      var o: nat :| o in g.parts;
      assert o + |g.parts[o]| == 0;
    } else {
      assert Held(g.parts, |whole| - 1);
      var o: nat :| o in g.parts && Spans(o, g.parts[o], |whole| - 1);
      assert o + |g.parts[o]| == |whole|;
    }
  }

  /** What any stream completes ends where its last fragment said exactly when the part that said so is
      still there and none reaches beyond it. */
  lemma LengthIsTotal(before: seq<Arrival>, a: Arrival)
    requires Offer(After(map[], before), a.now, a.p).1.Complete?
    ensures var g := Grown(Purged(After(map[], before), a.now), a.now, a.p);
            |Offer(After(map[], before), a.now, a.p).1.whole| == g.total <==>
              EndsAt(g.parts, g.total) && Within(g.parts, g.total)
  {
    hide Join, After, Refusal, EndsAt, Within;
    var g := Grown(Purged(After(map[], before), a.now), a.now, a.p);
    assert a.p.off in g.parts;
    WholeEnds(g);
  }

  predicate Filled(arrivals: seq<Arrival>) {
    forall i :: 0 <= i < |arrivals| ==> arrivals[i].p.data != []
  }

  /** Each group that knows its end still has the part that ends there, and no part is empty. */
  ghost predicate Anchored(t: Table) {
    forall k :: k in t ==>
      && (t[k].total >= 0 ==> EndsAt(t[k].parts, t[k].total))
      && forall o :: o in t[k].parts ==> t[k].parts[o] != []
  }

  lemma SamePlace(parts: map<nat, Bytes>, off: nat, data: Bytes)
    ensures off in parts && parts[off] != [] && data != [] ==> Overlaps(parts, off, data)
  {
    if off in parts && parts[off] != [] && data != [] {
      assert !Apart(off, parts[off], off, data);
    }
  }

  lemma OfferAnchored(t: Table, now: int, p: Fragment)
    requires Anchored(t) && p.data != []
    ensures Anchored(Offer(t, now, p).0)
    ensures Offer(t, now, p).1.Complete? ==>
              var g := Grown(Purged(t, now), now, p); EndsAt(g.parts, g.total)
  {
    hide Join, Malformed, Overlaps, Restored;
    var live := Purged(t, now);
    var was, g := Noted(live, now, p), Grown(live, now, p);
    if Refusal(live, now, p).None? {
      SamePlace(was.parts, p.off, p.data);
      if !p.more {
        assert p.off in g.parts;
      } else if g.total >= 0 {
        assert EndsAt(was.parts, g.total);
        var o: nat :| o in was.parts && o + |was.parts[o]| == g.total;
        assert o in g.parts && o + |g.parts[o]| == g.total;
      }
    }
  }

  lemma {:induction false} AfterAnchored(arrivals: seq<Arrival>)
    requires Filled(arrivals)
    ensures Anchored(After(map[], arrivals))
  {
    if arrivals != [] {
      var n := |arrivals| - 1;
      AfterAnchored(arrivals[..n]);
      OfferAnchored(After(map[], arrivals[..n]), arrivals[n].now, arrivals[n].p);
    }
  }

  /** Of fragments none of which is empty the part that said the end stays, so only a part beyond it is in
      the way. */
  lemma FilledLength(before: seq<Arrival>, a: Arrival)
    requires Filled(before + [a])
    requires Offer(After(map[], before), a.now, a.p).1.Complete?
    ensures var g := Grown(Purged(After(map[], before), a.now), a.now, a.p);
            |Offer(After(map[], before), a.now, a.p).1.whole| == g.total <==> Within(g.parts, g.total)
  {
    forall i | 0 <= i < |before| ensures before[i].p.data != [] {
      assert (before + [a])[i] == before[i];
    }
    assert (before + [a])[|before|] == a;
    AfterAnchored(before);
    OfferAnchored(After(map[], before), a.now, a.p);
    LengthIsTotal(before, a);
  }

  /** And a part can reach beyond: only the fragment arriving is held against the end, so one that
      came before the last is kept though it lies past it. */
  lemma {:induction false} LongerThanItsEnd(p: Fragment)
    requires p.data == [0, 0, 0, 0, 0, 0, 0, 0]
    ensures var at := (off: nat, more: bool) => Arrival(0, p.(off := off, more := more));
            var t := After(map[], [at(16, true), at(8, false)]);
            && p.key in t && t[p.key].total == 16
            && Offer(t, 0, at(0, true).p).1.Complete?
            && |Offer(t, 0, at(0, true).p).1.whole| == 24
  {
    hide Offer;
    var a1, a2 := Arrival(0, p.(off := 16, more := true)), Arrival(0, p.(off := 8, more := false));
    BeyondKept(p);
    BeyondGiven(p);
    assert [a1][..0] == [] && [a1, a2][..1] == [a1];
    assert After(map[], [a1]) == Offer(map[], 0, a1.p).0;
    assert After(map[], [a1, a2]) == Offer(After(map[], [a1]), 0, a2.p).0;
  }

  /** The part past the end waits where it is when the last fragment comes. */
  lemma {:induction false} BeyondKept(p: Fragment)
    requires |p.data| == 8
    ensures Offer(map[], 0, p.(off := 16, more := true)).0 ==
              map[p.key := Group(None, map[16 := p.data], -1, SLOW_TIMEOUT)]
    ensures Offer(map[p.key := Group(None, map[16 := p.data], -1, SLOW_TIMEOUT)], 0, p.(off := 8, more := false)).0 ==
              map[p.key := Group(None, map[16 := p.data, 8 := p.data], 16, SLOW_TIMEOUT)]
  {
    hide Join;
    var p16, p8 := p.(off := 16, more := true), p.(off := 8, more := false);
    var t1 := map[p.key := Group(None, map[16 := p.data], -1, SLOW_TIMEOUT)];
    assert Purged(map[], 0) == map[] && Purged(t1, 0) == t1;
    assert Grown(map[], 0, p16) == t1[p.key];
    assert !Overlaps(map[], 16, p.data) && !Overlaps(map[16 := p.data], 8, p.data);
  }

  lemma {:induction false} BeyondGiven(p: Fragment)
    requires |p.data| == 8
    ensures var t := map[p.key := Group(None, map[16 := p.data, 8 := p.data], 16, SLOW_TIMEOUT)];
            Offer(t, 0, p.(off := 0, more := true)).1 ==
              Complete(Restored(p.(off := 0, more := true)), p.key.proto, p.data + p.data + p.data)
  {
    hide Join;
    var p0 := p.(off := 0, more := true);
    var parts := map[16 := p.data, 8 := p.data];
    var t := map[p.key := Group(None, parts, 16, SLOW_TIMEOUT)];
    assert Purged(t, 0) == t && !Overlaps(parts, 0, p.data);
    assert Grown(t, 0, p0) == Group(Some(Restored(p0)), parts[0 := p.data], 16, SLOW_TIMEOUT);
    ThreeJoin(parts[0 := p.data], p.data);
  }

  lemma {:induction false} ThreeJoin(parts: map<nat, Bytes>, d: Bytes)
    requires |d| == 8 && parts == map[16 := d, 8 := d, 0 := d]
    ensures Join(parts, []) == Some(d + d + d)
  {
    var p1, p2 := parts - {0}, parts - {0} - {8};
    assert Least(parts.Keys) == 0 by { assert 0 in parts.Keys; }
    assert p1 == map[16 := d, 8 := d] && Least(p1.Keys) == 8 by { assert 8 in p1.Keys && 16 in p1.Keys; }
    assert p2 == map[16 := d] && Least(p2.Keys) == 16 by { assert 16 in p2.Keys; }
    assert p2 - {16} == map[];
    var none: Bytes := [];
    assert none + d == d;
    assert Join(p2, d + d) == Some(d + d + d);
  }

  /** And the part that said the end can go: an empty fragment at its place overlaps nothing, and is kept
      instead of it. */
  lemma {:induction false} ShorterThanItsEnd(p: Fragment)
    requires p.data == [0, 0, 0, 0, 0, 0, 0, 0]
    ensures var last, none, first := Arrival(0, p.(off := 8, more := false)),
                                     Arrival(0, p.(off := 8, more := true, data := [])), Arrival(0, p.(off := 0, more := true));
            var t := After(map[], [last, none]);
            && p.key in t && t[p.key].total == 16
            && Offer(t, 0, first.p).1.Complete?
            && |Offer(t, 0, first.p).1.whole| == 8
  {
    hide Offer;
    var last, none := Arrival(0, p.(off := 8, more := false)), Arrival(0, p.(off := 8, more := true, data := []));
    EndOverwritten(p);
    EndGone(p);
    assert [last][..0] == [] && [last, none][..1] == [last];
    assert After(map[], [last]) == Offer(map[], 0, last.p).0;
    assert After(map[], [last, none]) == Offer(After(map[], [last]), 0, none.p).0;
  }

  lemma {:induction false} EndOverwritten(p: Fragment)
    requires |p.data| == 8
    ensures Offer(map[], 0, p.(off := 8, more := false)).0 ==
              map[p.key := Group(None, map[8 := p.data], 16, SLOW_TIMEOUT)]
    ensures Offer(map[p.key := Group(None, map[8 := p.data], 16, SLOW_TIMEOUT)], 0, p.(off := 8, more := true, data := [])).0 ==
              map[p.key := Group(None, map[8 := []], 16, SLOW_TIMEOUT)]
  {
    hide Join;
    var last, none := p.(off := 8, more := false), p.(off := 8, more := true, data := []);
    var t1 := map[p.key := Group(None, map[8 := p.data], 16, SLOW_TIMEOUT)];
    assert Purged(map[], 0) == map[] && Purged(t1, 0) == t1;
    assert Grown(map[], 0, last) == t1[p.key];
    assert !Overlaps(map[], 8, p.data) && !Overlaps(map[8 := p.data], 8, []);
    assert map[8 := p.data][8 := []] == map[8 := []];
  }

  lemma {:induction false} EndGone(p: Fragment)
    requires |p.data| == 8
    ensures var t := map[p.key := Group(None, map[8 := []], 16, SLOW_TIMEOUT)];
            Offer(t, 0, p.(off := 0, more := true)).1 ==
              Complete(Restored(p.(off := 0, more := true)), p.key.proto, p.data)
  {
    hide Join;
    var p0 := p.(off := 0, more := true);
    var parts := map[8 := []];
    var t := map[p.key := Group(None, parts, 16, SLOW_TIMEOUT)];
    assert Purged(t, 0) == t && !Overlaps(parts, 0, p.data);
    assert Grown(t, 0, p0) == Group(Some(Restored(p0)), parts[0 := p.data], 16, SLOW_TIMEOUT);
    TwoJoin(parts[0 := p.data], p.data);
  }

  lemma {:induction false} TwoJoin(parts: map<nat, Bytes>, d: Bytes)
    requires |d| == 8 && parts == map[8 := [], 0 := d]
    ensures Join(parts, []) == Some(d)
  {
    var rest := parts - {0};
    assert Least(parts.Keys) == 0 by { assert 0 in parts.Keys; }
    assert rest == map[8 := []] && Least(rest.Keys) == 8 by { assert 8 in rest.Keys; }
    assert rest - {8} == map[];
    var none: Bytes := [];
    assert none + d == d && d + none == d;
    assert Join(rest, d) == Some(d);
  }
}
