/** The prefix store's recompute (section 3.5 of RFC 9096): what the LANs and the WAN are told of, what is
withdrawn and for how long, and when the consumers are told.

The list of a snapshot is of all interfaces at once, every entry with its interface. */
module PrefixStore {
  import opened Wire
  import opened Prefixes
  import opened Subnets

  datatype Source = FromStatic | FromPd | FromRa | FromUla

  datatype Item = Item(prefix: Prefix, preferred: int, valid: int, source: Source, deprecated: bool, stale: bool,
                       slaac: bool, offLink: bool, exclude: Option<Prefix>, delegated: bool)

  datatype Entry = Entry(iface: string, p: Item)

  // ---- One side of the router: the LANs, or the WAN

  /** What the snapshot lists, and what of it has been withdrawn, by prefix. */
  datatype Side = Side(list: seq<Entry>, revoked: map<Prefix, Entry>)

  function Actives(live: seq<Entry>): set<Prefix> {
    set e | e in live :: e.p.prefix
  }

  /** e is listed and no longer handed out. One that is deprecated already goes without a word. */
  predicate Gone(e: Entry, active: set<Prefix>) {
    e.p.prefix !in active && !e.p.deprecated
  }

  predicate Withdrawn(list: seq<Entry>, active: set<Prefix>, k: Prefix) {
    exists e :: e in list && Gone(e, active) && e.p.prefix == k
  }

  function Until(p: Item, now: int, hold: nat): int {
    if p.valid < now + hold then p.valid else now + hold
  }

  /** What a prefix withdrawn at now is listed as. On the WAN it keeps what its address is retired by. */
  function StaleOf(e: Entry, now: int, hold: nat, wan: bool): Entry {
    Entry(e.iface, Item(e.p.prefix, now, Until(e.p, now, hold), e.p.source, true, true,
                        wan && e.p.slaac, wan && e.p.offLink, None, false))
  }

  /** m is what prefix k is marked as: stale from now on, or as it was. */
  ghost predicate MarkedAs(list: seq<Entry>, base: map<Prefix, Entry>, active: set<Prefix>, now: int, hold: nat, wan: bool,
                           k: Prefix, m: Entry) {
    if Withdrawn(list, active, k) then
      exists e :: e in list && Gone(e, active) && e.p.prefix == k && m == StaleOf(e, now, hold, wan)
    else k in base && m == base[k]
  }

  /** mid holds what was withdrawn before, in base, and what is now. */
  ghost predicate Marked(list: seq<Entry>, base: map<Prefix, Entry>, active: set<Prefix>, now: int, hold: nat, wan: bool,
                         mid: map<Prefix, Entry>) {
    && (forall k :: k in mid <==> Withdrawn(list, active, k) || k in base)
    && (forall k :: k in mid ==> MarkedAs(list, base, active, now, hold, wan, k, mid[k]))
  }

  function Kept(mid: map<Prefix, Entry>, now: int): map<Prefix, Entry> {
    map k | k in mid && now < mid[k].p.valid :: mid[k]
  }

  /** tail lists what is withdrawn, in any order. */
  ghost predicate Lists(tail: seq<Entry>, revoked: map<Prefix, Entry>) {
    |tail| == |revoked| && forall e :: e in tail <==> exists k :: k in revoked && revoked[k] == e
  }

  /** What a recompute at now does to a side: what is handed out, what is marked, and how it is listed. */
  datatype Turn = Turn(now: int, live: seq<Entry>, mid: map<Prefix, Entry>, tail: seq<Entry>)

  ghost predicate Legal(s: Side, t: Turn, hold: nat, wan: bool) {
    && (forall e :: e in t.live ==> !e.p.stale)
    && Marked(s.list, s.revoked - Actives(t.live), Actives(t.live), t.now, hold, wan, t.mid)
    && Lists(t.tail, Kept(t.mid, t.now))
  }

  function Turned(t: Turn): Side {
    Side(t.live + t.tail, Kept(t.mid, t.now))
  }

  ghost predicate WellMarked(k: Prefix, m: Entry, hold: nat) {
    m.p.prefix == k && m.p.stale && m.p.deprecated && m.p.valid <= m.p.preferred + hold
  }

  /** The stale entries are those withdrawn, for no longer than the hold, and no live one is. */
  ghost predicate SideInv(s: Side, hold: nat) {
    && (forall k :: k in s.revoked ==> s.revoked[k] in s.list && WellMarked(k, s.revoked[k], hold))
    && (forall e :: e in s.list && e.p.stale ==> e.p.prefix in s.revoked && s.revoked[e.p.prefix] == e)
    && (forall e :: e in s.list && !e.p.stale ==> e.p.prefix !in s.revoked)
  }

  lemma {:induction false} MidWellMarked(s: Side, t: Turn, hold: nat, wan: bool, k: Prefix)
    requires SideInv(s, hold) && Legal(s, t, hold, wan) && k in t.mid
    ensures WellMarked(k, t.mid[k], hold) && k !in Actives(t.live)
  {
    hide Actives, Lists;
    assert MarkedAs(s.list, s.revoked - Actives(t.live), Actives(t.live), t.now, hold, wan, k, t.mid[k]);
  }

  lemma {:induction false} TurnKeeps(s: Side, t: Turn, hold: nat, wan: bool)
    requires SideInv(s, hold) && Legal(s, t, hold, wan)
    ensures SideInv(Turned(t), hold)
  {
    forall k | k in t.mid ensures WellMarked(k, t.mid[k], hold) && k !in Actives(t.live) {
      MidWellMarked(s, t, hold, wan, k);
    }
    hide Marked, SideInv;
    ListsSound(t, hold);
  }

  lemma {:induction false} ListsSound(t: Turn, hold: nat)
    requires forall k :: k in t.mid ==> WellMarked(k, t.mid[k], hold) && k !in Actives(t.live)
    requires Lists(t.tail, Kept(t.mid, t.now)) && forall e :: e in t.live ==> !e.p.stale
    ensures SideInv(Turned(t), hold)
  {
    var s := Turned(t);
    forall e | e in s.list
      ensures if e.p.stale then e.p.prefix in s.revoked && s.revoked[e.p.prefix] == e else e.p.prefix !in s.revoked
    {
      if e in t.live {
        assert e.p.prefix in Actives(t.live);
      } else {
        assert e in t.tail;
      }
    }
  }

  /** A prefix that stops being handed out, and is on one interface only, is listed stale there. */
  lemma {:induction false} Withdraws(s: Side, t: Turn, hold: nat, wan: bool, e: Entry)
    requires SideInv(s, hold) && Legal(s, t, hold, wan)
    requires e in s.list && Gone(e, Actives(t.live))
    requires forall f :: f in s.list && f.p.prefix == e.p.prefix ==> f == e
    requires t.now < Until(e.p, t.now, hold)
    ensures var k, m := e.p.prefix, StaleOf(e, t.now, hold, wan);
            k in Turned(t).revoked && Turned(t).revoked[k] == m && m in Turned(t).list
  {
    hide Actives;
    var k := e.p.prefix;
    assert Withdrawn(s.list, Actives(t.live), k);
    assert MarkedAs(s.list, s.revoked - Actives(t.live), Actives(t.live), t.now, hold, wan, k, t.mid[k]);
    assert t.mid[k] == StaleOf(e, t.now, hold, wan);
    assert k in Kept(t.mid, t.now);
  }

  /** What is withdrawn and not handed out again is marked as it was. */
  lemma {:induction false} MarkedAgain(s: Side, t: Turn, hold: nat, wan: bool, k: Prefix)
    requires SideInv(s, hold) && Legal(s, t, hold, wan) && k in s.revoked && k !in Actives(t.live)
    ensures k in t.mid && t.mid[k] == s.revoked[k]
  {
    hide Actives;
    var active := Actives(t.live);
    assert !Withdrawn(s.list, active, k);
    assert k in s.revoked - active;
    assert MarkedAs(s.list, s.revoked - active, active, t.now, hold, wan, k, t.mid[k]);
  }

  /** So it stays while its time lasts. */
  lemma {:induction false} StaysOnce(s: Side, t: Turn, hold: nat, wan: bool, k: Prefix)
    requires SideInv(s, hold) && Legal(s, t, hold, wan)
    requires k in s.revoked && k !in Actives(t.live) && t.now < s.revoked[k].p.valid
    ensures k in Turned(t).revoked && Turned(t).revoked[k] == s.revoked[k] && s.revoked[k] in Turned(t).list
  {
    hide Actives, Marked, SideInv;
    MarkedAgain(s, t, hold, wan, k);
    assert k in Kept(t.mid, t.now);
  }

  /** A run of recomputes on one side. */
  datatype Run = From(s: Side) | On(before: Run, t: Turn)

  function Last(run: Run): Side {
    match run
    case From(s) => s
    case On(_, t) => Turned(t)
  }

  function First(run: Run): Side {
    match run
    case From(s) => s
    case On(before, _) => First(before)
  }

  ghost predicate LegalRun(run: Run, hold: nat, wan: bool) {
    run.On? ==> LegalRun(run.before, hold, wan) && Legal(Last(run.before), run.t, hold, wan)
  }

  /** None of the recomputes hands out k, and all of them are before until. */
  ghost predicate Quiet(run: Run, k: Prefix, until: int) {
    run.On? ==> Quiet(run.before, k, until) && k !in Actives(run.t.live) && run.t.now < until
  }

  lemma {:induction false} RunKeeps(run: Run, hold: nat, wan: bool)
    requires LegalRun(run, hold, wan) && SideInv(First(run), hold)
    ensures SideInv(Last(run), hold)
  {
    hide SideInv, Legal, Turned;
    if run.On? {
      RunKeeps(run.before, hold, wan);
      TurnKeeps(Last(run.before), run.t, hold, wan);
    }
  }

  lemma {:induction false} StaysThroughout(run: Run, hold: nat, wan: bool, k: Prefix, m: Entry)
    requires LegalRun(run, hold, wan) && SideInv(First(run), hold) && Quiet(run, k, m.p.valid)
    requires k in First(run).revoked && First(run).revoked[k] == m && m in First(run).list
    ensures k in Last(run).revoked && Last(run).revoked[k] == m && m in Last(run).list
  {
    hide SideInv, Legal, Turned, Actives;
    if run.On? {
      StaysThroughout(run.before, hold, wan, k, m);
      RunKeeps(run.before, hold, wan);
      StaysOnce(Last(run.before), run.t, hold, wan, k);
    }
  }

  /** Section 3.5 of RFC 9096: a prefix that is withdrawn by a recompute is in that snapshot and in every
      one after it, stale and on the interface it was on, until the hold is over or it would have expired
      by itself, unless it is handed out again. run is whatever follows. */
  lemma {:induction false} StaysStale(s: Side, t: Turn, hold: nat, wan: bool, e: Entry, run: Run)
    requires SideInv(s, hold) && Legal(s, t, hold, wan)
    requires e in s.list && Gone(e, Actives(t.live))
    requires forall f :: f in s.list && f.p.prefix == e.p.prefix ==> f == e
    requires t.now < Until(e.p, t.now, hold)
    requires First(run) == Turned(t) && LegalRun(run, hold, wan) && Quiet(run, e.p.prefix, Until(e.p, t.now, hold))
    ensures StaleOf(e, t.now, hold, wan) in Last(run).list
  {
    hide SideInv, Legal, Turned, Actives, Gone;
    Withdraws(s, t, hold, wan, e);
    TurnKeeps(s, t, hold, wan);
    StaysThroughout(run, hold, wan, e.p.prefix, StaleOf(e, t.now, hold, wan));
  }

  /** No snapshot of a run lists a prefix both live and stale, and what is stale is so no longer than the
      hold. */
  lemma {:induction false} NeverBoth(run: Run, hold: nat, wan: bool, e: Entry, f: Entry)
    requires LegalRun(run, hold, wan) && SideInv(First(run), hold)
    requires e in Last(run).list && f in Last(run).list && e.p.prefix == f.p.prefix && e.p.stale
    ensures e == f && e.p.valid <= e.p.preferred + hold && (run.On? ==> run.t.now < e.p.valid)
  {
    hide Legal;
    RunKeeps(run, hold, wan);
  }

  /** What leaves a list unannounced was deprecated already. */
  lemma {:induction false} LeavesQuietly(s: Side, t: Turn, hold: nat, wan: bool, e: Entry)
    requires SideInv(s, hold) && Legal(s, t, hold, wan) && e in s.list
    requires forall f :: f in Turned(t).list ==> f.p.prefix != e.p.prefix
    requires forall f :: f in s.list ==> !Gone(f, Actives(t.live))  // no withdrawal
    requires Kept(t.mid, t.now) == t.mid                            // and no hold that is over
    ensures !e.p.stale && e.p.deprecated
  {
    var k := e.p.prefix;
    assert forall f :: f in t.live ==> f in Turned(t).list;
    assert k !in Actives(t.live);
    if e.p.stale {
      MarkedAgain(s, t, hold, wan, k);
      StaysOnce(s, t, hold, wan, k);
    }
  }

  /** What a recompute has to say of k by itself: that it is withdrawn, or that its hold is over. */
  ghost predicate Reported(s: Side, t: Turn, k: Prefix) {
    Withdrawn(s.list, Actives(t.live), k) || (k in t.mid && k !in Kept(t.mid, t.now))
  }

  predicate Spoken(list: seq<Entry>, k: Prefix) {
    exists e :: e in list && e.p.prefix == k && (!e.p.deprecated || e.p.stale)
  }

  lemma {:induction false} KeptIsListed(s: Side, t: Turn, hold: nat, wan: bool, k: Prefix)
    requires SideInv(s, hold) && Legal(s, t, hold, wan)
    ensures k in Kept(t.mid, t.now) ==> t.mid[k] in Turned(t).list && t.mid[k].p.prefix == k
  {
    if k in Kept(t.mid, t.now) {
      MidWellMarked(s, t, hold, wan, k);
      hide Marked, SideInv, Actives;
      assert Kept(t.mid, t.now)[k] == t.mid[k];
      assert t.mid[k] in t.tail;
    }
  }

  /** A prefix that leaves the list is reported exactly when it was listed as preferred, or as withdrawn
      before; of one that was only deprecated nothing is said. */
  lemma {:induction false} DepartureReported(s: Side, t: Turn, hold: nat, wan: bool, k: Prefix)
    requires SideInv(s, hold) && Legal(s, t, hold, wan)
    requires forall f :: f in Turned(t).list ==> f.p.prefix != k
    ensures Reported(s, t, k) <==> Spoken(s.list, k)
    ensures Reported(s, t, k) <==> k in t.mid && k !in Kept(t.mid, t.now)  // on the WAN, the only way
  {
    var active := Actives(t.live);
    assert forall f :: f in t.live ==> f in Turned(t).list;
    assert k !in active;
    KeptIsListed(s, t, hold, wan, k);
    if Reported(s, t, k) && !Withdrawn(s.list, active, k) {
      assert MarkedAs(s.list, s.revoked - active, active, t.now, hold, wan, k, t.mid[k]);
      assert s.revoked[k] in s.list;
    }
    if Spoken(s.list, k) {
      var e :| e in s.list && e.p.prefix == k && (!e.p.deprecated || e.p.stale);
      if e.p.stale {
        MarkedAgain(s, t, hold, wan, k);
        if k in Kept(t.mid, t.now) { StaysOnce(s, t, hold, wan, k); }
      } else {
        assert Gone(e, active);
      }
    }
  }

  /** How a side is taken through a recompute: the deletions, then the withdrawals, then the list, as the
      code does them for the LANs and for the WAN. gone tells of a withdrawal, over of a hold that is. */
  method Retire(list: seq<Entry>, was: map<Prefix, Entry>, live: seq<Entry>, now: int, hold: nat, wan: bool)
      returns (next: seq<Entry>, revoked: map<Prefix, Entry>, gone: bool, over: bool, ghost t: Turn)
    requires forall e :: e in live ==> !e.p.stale
    ensures t.now == now && t.live == live && Legal(Side(list, was), t, hold, wan)
    ensures Side(next, revoked) == Turned(t)
    ensures gone <==> exists e :: e in list && Gone(e, Actives(live))
    ensures over <==> Kept(t.mid, now) != t.mid
  {
    hide Actives, StaleOf;
    var active := Actives(live);
    var mid: map<Prefix, Entry>;
    mid, gone := Mark(list, was - active, active, now, hold, wan);
    var tail: seq<Entry>;
    revoked, tail, over := Flush(mid, now);
    next := live + tail;
    t := Turn(now, live, mid, tail);
  }

  method Mark(list: seq<Entry>, base: map<Prefix, Entry>, active: set<Prefix>, now: int, hold: nat, wan: bool)
      returns (mid: map<Prefix, Entry>, gone: bool)
    ensures Marked(list, base, active, now, hold, wan, mid)
    ensures gone <==> exists e :: e in list && Gone(e, active)
  {
    hide Marked, Gone, StaleOf;
    mid, gone := base, false;
    MarkedNone(base, active, now, hold, wan);
    for i := 0 to |list|
      invariant Marked(list[..i], base, active, now, hold, wan, mid)
      invariant gone <==> exists e :: e in list[..i] && Gone(e, active)
    {
      var e := list[i];
      assert list[..i + 1] == list[..i] + [e];
      MarkedNext(list[..i], base, active, now, hold, wan, mid, e);
      if Gone(e, active) {
        mid := mid[e.p.prefix := StaleOf(e, now, hold, wan)];
        gone := true;
      }
    }
    assert list[..|list|] == list;
  }

  lemma MarkedNone(base: map<Prefix, Entry>, active: set<Prefix>, now: int, hold: nat, wan: bool)
    ensures Marked([], base, active, now, hold, wan, base)
  {
  }

  lemma {:induction false} MarkedNext(list: seq<Entry>, base: map<Prefix, Entry>, active: set<Prefix>, now: int, hold: nat,
                                      wan: bool, mid: map<Prefix, Entry>, e: Entry)
    requires Marked(list, base, active, now, hold, wan, mid)
    ensures Marked(list + [e], base, active, now, hold, wan,
                   if Gone(e, active) then mid[e.p.prefix := StaleOf(e, now, hold, wan)] else mid)
  {
    hide Gone;
    var to := if Gone(e, active) then mid[e.p.prefix := StaleOf(e, now, hold, wan)] else mid;
    forall k ensures Withdrawn(list + [e], active, k) <==>
                       Withdrawn(list, active, k) || (Gone(e, active) && e.p.prefix == k) {
      WithdrawnNext(list, active, k, e);
    }
    forall k | k in to ensures MarkedAs(list + [e], base, active, now, hold, wan, k, to[k]) {
      if Gone(e, active) && e.p.prefix == k {
        assert e in list + [e];
      } else {
        MarkedAsNext(list, base, active, now, hold, wan, k, to[k], e);
      }
    }
  }

  lemma {:induction false} MarkedAsNext(list: seq<Entry>, base: map<Prefix, Entry>, active: set<Prefix>, now: int, hold: nat,
                                        wan: bool, k: Prefix, m: Entry, e: Entry)
    requires MarkedAs(list, base, active, now, hold, wan, k, m) && !(Gone(e, active) && e.p.prefix == k)
    ensures MarkedAs(list + [e], base, active, now, hold, wan, k, m)
  {
    hide Gone;
    WithdrawnNext(list, active, k, e);
    if Withdrawn(list, active, k) {
      var f :| f in list && Gone(f, active) && f.p.prefix == k && m == StaleOf(f, now, hold, wan);
      assert f in list + [e];
    }
  }

  lemma WithdrawnNext(list: seq<Entry>, active: set<Prefix>, k: Prefix, e: Entry)
    ensures Withdrawn(list + [e], active, k) <==> Withdrawn(list, active, k) || (Gone(e, active) && e.p.prefix == k)
  {
    hide Gone;
    if Withdrawn(list, active, k) {
      var f :| f in list && Gone(f, active) && f.p.prefix == k;
      assert f in list + [e];
    }
    if Gone(e, active) && e.p.prefix == k { assert e in list + [e]; }
  }

  /** What is still held is listed, what is over goes. */
  method Flush(mid: map<Prefix, Entry>, now: int)
      returns (revoked: map<Prefix, Entry>, tail: seq<Entry>, over: bool)
    ensures revoked == Kept(mid, now) && Lists(tail, revoked)
    ensures over <==> revoked != mid
  {
    hide Lists;
    revoked, tail, over := mid, [], false;
    var todo := mid.Keys;
    ListsNone();
    assert revoked - todo == map[];
    while todo != {}
      invariant todo <= revoked.Keys <= mid.Keys && (forall k :: k in revoked ==> revoked[k] == mid[k])
      invariant forall k :: k in mid && k !in todo ==> (k in revoked <==> now < mid[k].p.valid)
      invariant Lists(tail, revoked - todo)
      invariant over <==> revoked != mid
    {
      var k :| k in todo;
      ghost var done := revoked - todo;
      todo := todo - {k};
      if !(now < revoked[k].p.valid) {
        revoked := revoked - {k};
        over := true;
        assert revoked - todo == done;
      } else {
        ListsNext(tail, done, k, revoked[k]);
        tail := tail + [revoked[k]];
        assert revoked - todo == done[k := revoked[k]];
      }
    }
    assert revoked - todo == revoked == Kept(mid, now);
  }

  lemma ListsNone()
    ensures forall m: map<Prefix, Entry> :: m == map[] ==> Lists([], m)
  {
  }

  lemma ListsNext(tail: seq<Entry>, done: map<Prefix, Entry>, k: Prefix, m: Entry)
    requires Lists(tail, done) && k !in done
    ensures Lists(tail + [m], done[k := m])
  {
    var to := done[k := m];
    assert |to| == |done| + 1;
    forall e ensures e in tail + [m] <==> exists j :: j in to && to[j] == e {
      if e in tail {
        var j :| j in done && done[j] == e;
        assert j in to && to[j] == e;
      }
      if e == m { assert k in to && to[k] == e; }
    }
  }

  // ---- The snapshot, and who is told when

  const WAN_HOLD: nat := 600
  const ULA_PREFERRED: nat := 604800
  const ULA_VALID: nat := 2592000

  /** What happened to the prefixes, from the weakest. */
  datatype Change = Nothing | Renew | Add | Revoke

  function Rank(c: Change): nat {
    match c case Nothing => 0 case Renew => 1 case Add => 2 case Revoke => 3
  }

  function Stronger(a: Change, b: Change): Change {
    if Rank(a) > Rank(b) then a else b
  }

  /** rest stands for everything else the consumers are told of. */
  datatype Snapshot = Snapshot(time: int, lan: seq<Entry>, wan: seq<Entry>, noRouter: bool, rest: nat, change: Change)

  /** armed tells that the settle timer runs; sent is what the consumers have been handed. */
  datatype State = State(cur: Snapshot, revoked: map<Prefix, Entry>, revokedW: map<Prefix, Entry>,
                         pending: Change, armed: bool, sent: seq<Snapshot>)

  function LanSide(st: State): Side { Side(st.cur.lan, st.revoked) }

  function WanSide(st: State): Side { Side(st.cur.wan, st.revokedW) }

  /** What the list had under a prefix, of one source or of any. */
  function OldOf(list: seq<Entry>, k: Prefix, src: Option<Source>): Option<Item> {
    if list == [] then None
    else
      var p := list[|list| - 1].p;
      if p.prefix == k && (src.None? || p.source == src.value) then Some(p) else OldOf(list[..|list| - 1], k, src)
  }

  predicate OwnUla(p: Item) {
    p.source.FromUla? && !p.delegated
  }

  predicate Adds(p: Item, was: Option<Item>, own: bool) {
    was.None? || (!own && was.value.deprecated && !p.deprecated)
  }

  predicate Renews(p: Item, was: Option<Item>, own: bool) {
    !own && was.Some? && (was.value.valid != p.valid || was.value.preferred != p.preferred)
  }

  /** The old item a LAN's or the WAN's entry is compared with. */
  function Was(prior: seq<Entry>, p: Item, wan: bool): Option<Item> {
    OldOf(prior, p.prefix, if wan then Some(p.source) else None)
  }

  predicate AnyAdds(prior: seq<Entry>, list: seq<Entry>, wan: bool) {
    exists e :: e in list && Adds(e.p, Was(prior, e.p, wan), !wan && OwnUla(e.p))
  }

  predicate AnyRenews(prior: seq<Entry>, list: seq<Entry>, wan: bool) {
    exists e :: e in list && Renews(e.p, Was(prior, e.p, wan), !wan && OwnUla(e.p))
  }

  function Classified(cur: Snapshot, lan: seq<Entry>, wan: seq<Entry>, noRouter: bool, rest: nat): Change {
    if AnyAdds(cur.lan, lan, false) || AnyAdds(cur.wan, wan, true) then Add
    else if AnyRenews(cur.lan, lan, false) || AnyRenews(cur.wan, wan, true) || cur.noRouter != noRouter || cur.rest != rest
    then Renew else Nothing
  }

  datatype Round = Round(lan: Turn, wan: Turn, noRouter: bool, rest: nat)

  ghost predicate LegalRound(st: State, r: Round, hold: nat) {
    r.lan.now == r.wan.now && Legal(LanSide(st), r.lan, hold, false) && Legal(WanSide(st), r.wan, WAN_HOLD, true)
  }

  ghost predicate Revokes(st: State, r: Round) {
    || (exists e :: e in st.cur.lan && Gone(e, Actives(r.lan.live)))
    || Kept(r.lan.mid, r.lan.now) != r.lan.mid
    || Kept(r.wan.mid, r.wan.now) != r.wan.mid
  }

  ghost function ChangeOf(st: State, r: Round): Change {
    if Revokes(st, r) then Revoke
    else Classified(st.cur, Turned(r.lan).list, Turned(r.wan).list, r.noRouter, r.rest)
  }

  function Published(st: State): State {
    var cur := if st.pending.Nothing? then st.cur else st.cur.(change := st.pending);
    st.(cur := cur, pending := Nothing, armed := false, sent := st.sent + [cur])
  }

  /** A revocation, and a router that came or went, is told at once; the rest when it has settled. */
  ghost predicate TellsNow(st: State, r: Round, settle: nat) {
    ChangeOf(st, r) != Nothing && (settle == 0 || ChangeOf(st, r).Revoke? || st.cur.noRouter != r.noRouter)
  }

  ghost function Computed(st: State, r: Round): State {
    var c := ChangeOf(st, r);
    var lan, wan := Turned(r.lan), Turned(r.wan);
    State(Snapshot(r.lan.now, lan.list, wan.list, r.noRouter, r.rest, c), lan.revoked, wan.revoked,
          Stronger(c, st.pending), st.armed || c != Nothing, st.sent)
  }

  ghost function Next(st: State, r: Round, settle: nat): State {
    if TellsNow(st, r, settle) then Published(Computed(st, r)) else Computed(st, r)
  }

  ghost predicate Inv(st: State, hold: nat) {
    SideInv(LanSide(st), hold) && SideInv(WanSide(st), WAN_HOLD) && (st.armed <==> st.pending != Nothing)
  }

  lemma {:induction false} RoundKeeps(st: State, r: Round, hold: nat, settle: nat)
    requires Inv(st, hold) && LegalRound(st, r, hold)
    ensures Inv(Next(st, r, settle), hold)
  {
    hide SideInv, Legal, ChangeOf, Turned;
    TurnKeeps(LanSide(st), r.lan, hold, false);
    TurnKeeps(WanSide(st), r.wan, WAN_HOLD, true);
    SideIs(Turned(r.lan));
    SideIs(Turned(r.wan));
  }

  lemma SideIs(s: Side)
    ensures s == Side(s.list, s.revoked)
  {
  }

  lemma PublishKeeps(st: State, hold: nat)
    requires Inv(st, hold)
    ensures Inv(Published(st), hold)
  {
    hide SideInv;
  }

  /** What a prefix is listed as once it is withdrawn: as it was, but deprecated and stale from now, and valid
      for the hold, or as long as it was if that is less. */
  lemma StaleTells(e: Entry, now: int, hold: nat, wan: bool)
    ensures var m := StaleOf(e, now, hold, wan);
            && m.iface == e.iface && m.p.prefix == e.p.prefix && m.p.source == e.p.source
            && m.p.deprecated && m.p.stale && m.p.preferred == now
            && m.p.valid <= now + hold && m.p.valid <= e.p.valid && (m.p.valid == now + hold || m.p.valid == e.p.valid)
            && m.p.exclude.None? && !m.p.delegated
            && (m.p.slaac <==> wan && e.p.slaac) && (m.p.offLink <==> wan && e.p.offLink)
  {
  }

  /** A recompute that changes anything is told at once if and only if it is a revocation, or the router came
      or went, or nothing is to settle; otherwise the timer runs. */
  lemma ToldWhen(st: State, r: Round, settle: nat)
    requires ChangeOf(st, r) != Nothing
    ensures var to := Next(st, r, settle);
            var atOnce := settle == 0 || ChangeOf(st, r).Revoke? || st.cur.noRouter != r.noRouter;
            && (atOnce ==> to.sent == st.sent + [to.cur] && !to.armed && to.pending.Nothing?)
            && (!atOnce ==> to.sent == st.sent && to.armed && Rank(to.pending) >= Rank(ChangeOf(st, r)))
  {
    hide Turned, ChangeOf;
  }

  /** The last item listed under a prefix, of the source where that counts; there is one unless none is listed. */
  lemma {:induction false} OldIs(list: seq<Entry>, k: Prefix, src: Option<Source>)
    ensures OldOf(list, k, src).None? <==>
              forall e :: e in list ==> !(e.p.prefix == k && (src.None? || e.p.source == src.value))
    ensures OldOf(list, k, src).Some? ==>
              exists i :: 0 <= i < |list| && list[i].p == OldOf(list, k, src).value
                && list[i].p.prefix == k && (src.None? || list[i].p.source == src.value)
                && forall j :: i < j < |list| ==> !(list[j].p.prefix == k && (src.None? || list[j].p.source == src.value))
  {
    if list != [] {
      var n := |list| - 1;
      OldIs(list[..n], k, src);
      assert list == list[..n] + [list[n]];
    }
  }

  /** An entry that nothing listed before stands for, or that is preferred again, unless it is of the router's
      own ULA. */
  ghost predicate IsNew(e: Entry, prior: seq<Entry>, wan: bool) {
    var was := Was(prior, e.p, wan);
    was.None? || (was.value.deprecated && !e.p.deprecated && (wan || !e.p.source.FromUla? || e.p.delegated))
  }

  /** And one whose lifetimes have changed. */
  ghost predicate IsRenewed(e: Entry, prior: seq<Entry>, wan: bool) {
    var was := Was(prior, e.p, wan);
    was.Some? && (wan || !e.p.source.FromUla? || e.p.delegated) && !(was.value.valid == e.p.valid && was.value.preferred == e.p.preferred)
  }

  /** A recompute that is no revocation is an addition if and only if something is new on either side, and
      otherwise a renewal if and only if lifetimes, the router or the rest have changed. */
  lemma {:induction false} ClassifiedIff(st: State, r: Round)
    requires !Revokes(st, r)
    ensures var lan, wan := Turned(r.lan).list, Turned(r.wan).list;
            var adds := (exists e :: e in lan && IsNew(e, st.cur.lan, false)) || exists e :: e in wan && IsNew(e, st.cur.wan, true);
            var renews := (exists e :: e in lan && IsRenewed(e, st.cur.lan, false)) || exists e :: e in wan && IsRenewed(e, st.cur.wan, true);
            && (ChangeOf(st, r).Add? <==> adds)
            && (ChangeOf(st, r).Renew? <==> !adds && (renews || st.cur.noRouter != r.noRouter || st.cur.rest != r.rest))
            && !ChangeOf(st, r).Revoke?
  {
    hide Turned, Was, Revokes;
    var lan, wan := Turned(r.lan).list, Turned(r.wan).list;
    AnyIs(st.cur.lan, lan, false);
    AnyIs(st.cur.wan, wan, true);
    hide AnyAdds, AnyRenews, IsNew, IsRenewed;
  }

  lemma AnyIs(prior: seq<Entry>, list: seq<Entry>, wan: bool)
    ensures AnyAdds(prior, list, wan) <==> exists e :: e in list && IsNew(e, prior, wan)
    ensures AnyRenews(prior, list, wan) <==> exists e :: e in list && IsRenewed(e, prior, wan)
  {
    hide Was;
    forall e | e in list
      ensures Adds(e.p, Was(prior, e.p, wan), !wan && OwnUla(e.p)) <==> IsNew(e, prior, wan)
      ensures Renews(e.p, Was(prior, e.p, wan), !wan && OwnUla(e.p)) <==> IsRenewed(e, prior, wan)
    {
    }
    hide Adds, Renews, IsNew, IsRenewed;
  }

  /** A withdrawal is told in the recompute that makes it, as a revocation, with nothing left to tell. */
  lemma {:induction false} ToldAtOnce(st: State, r: Round, settle: nat, e: Entry)
    requires e in st.cur.lan && Gone(e, Actives(r.lan.live))
    ensures var to := Next(st, r, settle);
            to.sent == st.sent + [to.cur] && to.cur.change.Revoke? && to.pending.Nothing? && !to.armed
            && to.cur.lan == Turned(r.lan).list
  {
    hide Turned, Classified;
  }

  /** A recompute that tells of nothing changes nothing there is to tell: what it lists was listed, with
      the same lifetimes unless it is the router's own ULA, and what it lists no longer was deprecated. */
  lemma {:induction false} QuietRound(st: State, r: Round, hold: nat, e: Entry)
    requires Inv(st, hold) && LegalRound(st, r, hold) && ChangeOf(st, r).Nothing?
    ensures e in Turned(r.lan).list ==>
              var was := OldOf(st.cur.lan, e.p.prefix, None);
              was.Some? && ((e.p.source.FromUla? && !e.p.delegated) || (was.value.valid == e.p.valid && was.value.preferred == e.p.preferred))
    ensures e in st.cur.lan && (forall f :: f in Turned(r.lan).list ==> f.p.prefix != e.p.prefix) ==>
              !e.p.stale && e.p.deprecated
  {
    hide Turned, Legal, SideInv, OldOf;
    if e in Turned(r.lan).list {
      assert !Adds(e.p, Was(st.cur.lan, e.p, false), OwnUla(e.p));
      assert !Renews(e.p, Was(st.cur.lan, e.p, false), OwnUla(e.p));
    }
    if e in st.cur.lan && (forall f :: f in Turned(r.lan).list ==> f.p.prefix != e.p.prefix) {
      LeavesQuietly(LanSide(st), r.lan, hold, false, e);
    }
  }

  /** A recompute is a revocation exactly when one of the LANs' prefixes is reported, or the hold of one
      of the WAN's is over. */
  lemma {:induction false} RevokesIff(st: State, r: Round)
    ensures Revokes(st, r) <==>
              (exists k :: Reported(LanSide(st), r.lan, k)) || exists k :: k in r.wan.mid && k !in Kept(r.wan.mid, r.wan.now)
  {
    var active := Actives(r.lan.live);
    hide Actives;
    KeptIff(r.lan.mid, r.lan.now);
    KeptIff(r.wan.mid, r.wan.now);
    if e :| e in st.cur.lan && Gone(e, active) {
      assert Reported(LanSide(st), r.lan, e.p.prefix);
    }
    if k :| k in r.lan.mid && k !in Kept(r.lan.mid, r.lan.now) {
      assert Reported(LanSide(st), r.lan, k);
    }
  }

  lemma KeptIff(mid: map<Prefix, Entry>, now: int)
    ensures Kept(mid, now) != mid <==> exists k :: k in mid && k !in Kept(mid, now)
  {
    if forall k :: k in mid ==> k in Kept(mid, now) {
      assert Kept(mid, now) == mid;
    }
  }

  /** Any deprecated entry, whatever its interface and its lifetimes, can leave without a word. */
  lemma {:induction false} LeavesUntold(e: Entry, hold: nat)
    requires e.p.deprecated && !e.p.stale
    ensures exists st, r :: Inv(st, hold) && LegalRound(st, r, hold) && e in st.cur.lan
              && ChangeOf(st, r).Nothing? && Turned(r.lan).list == []
  {
    var st := State(Snapshot(0, [e], [], false, 0, Nothing), map[], map[], Nothing, false, []);
    var none := Turn(0, [], map[], []);
    var r := Round(none, none, false, 0);
    EmptyTurn([e], 0, hold, false);
    EmptyTurn([], 0, WAN_HOLD, true);
    hide Legal, Turned, Actives, Kept;
    assert !Gone(e, {}) && !AnyAdds([e], [], false) && !AnyRenews([e], [], false);
    assert ChangeOf(st, r).Nothing?;
  }

  /** A side all of whose entries are deprecated, and of which nothing was withdrawn, can become empty. */
  lemma {:induction false} EmptyTurn(list: seq<Entry>, t: int, hold: nat, wan: bool)
    requires forall e :: e in list ==> e.p.deprecated
    ensures var none := Turn(t, [], map[], []);
            && Legal(Side(list, map[]), none, hold, wan) && Turned(none) == Side([], map[])
            && Actives(none.live) == {} && Kept(none.mid, t) == none.mid
  {
    hide StaleOf;
  }

  // ---- Whole runs of the store

  datatype Event = Recomputes(r: Round) | Fires

  datatype Trace = Start(st: State) | Then(before: Trace, e: Event)

  ghost function After(tr: Trace, settle: nat): State {
    match tr
    case Start(st) => st
    case Then(before, Recomputes(r)) => Next(After(before, settle), r, settle)
    case Then(before, Fires) => Published(After(before, settle))
  }

  ghost predicate LegalTrace(tr: Trace, hold: nat, settle: nat) {
    match tr
    case Start(st) => Inv(st, hold) && st.pending.Nothing?
    case Then(before, e) =>
      && LegalTrace(before, hold, settle)
      && (if e.Fires? then After(before, settle).armed else LegalRound(After(before, settle), e.r, hold))
  }

  /** The strongest change the consumers have not been told of. */
  ghost function Owed(tr: Trace, settle: nat): Change {
    match tr
    case Start(_) => Nothing
    case Then(_, Fires) => Nothing
    case Then(before, Recomputes(r)) =>
      if TellsNow(After(before, settle), r, settle) then Nothing
      else Stronger(ChangeOf(After(before, settle), r), Owed(before, settle))
  }

  /** Over any run: the sides stay in order, what is owed is pending with the timer running, and what is
      told is told as the strongest of what was owed. */
  lemma {:induction false} RunHolds(tr: Trace, hold: nat, settle: nat)
    requires LegalTrace(tr, hold, settle)
    ensures Inv(After(tr, settle), hold) && After(tr, settle).pending == Owed(tr, settle)
    ensures tr.Then? && Owed(tr, settle).Nothing? && |After(tr, settle).sent| > |After(tr.before, settle).sent| ==>
              var told := After(tr, settle).sent[|After(tr, settle).sent| - 1];
              told.change == (if tr.e.Fires? then Owed(tr.before, settle)
                              else Stronger(ChangeOf(After(tr.before, settle), tr.e.r), Owed(tr.before, settle)))
  {
    hide SideInv, LegalRound, ChangeOf, Turned;
    match tr {
      case Start(_) =>
      case Then(before, Recomputes(r)) =>
        RunHolds(before, hold, settle);
        RoundKeeps(After(before, settle), r, hold, settle);
      case Then(before, Fires) =>
        RunHolds(before, hold, settle);
        PublishKeeps(After(before, settle), hold);
    }
  }

  /** tr goes on from base, and nothing it recomputes hands out k on a LAN, or is as late as until. */
  ghost predicate QuietSince(tr: Trace, base: Trace, k: Prefix, until: int) {
    tr == base ||
    (tr.Then? && QuietSince(tr.before, base, k, until)
     && (tr.e.Recomputes? ==> k !in Actives(tr.e.r.lan.live) && tr.e.r.lan.now < until))
  }

  lemma {:induction false} HeldSince(tr: Trace, base: Trace, hold: nat, settle: nat, k: Prefix, m: Entry)
    requires LegalTrace(tr, hold, settle) && QuietSince(tr, base, k, m.p.valid)
    requires var st := After(base, settle); k in st.revoked && st.revoked[k] == m && m in st.cur.lan
    ensures var st := After(tr, settle); k in st.revoked && st.revoked[k] == m && m in st.cur.lan
  {
    hide SideInv, Legal, Turned, Actives, ChangeOf;
    if tr != base {
      HeldSince(tr.before, base, hold, settle, k, m);
      RunHolds(tr.before, hold, settle);
      if tr.e.Recomputes? { StaysOnce(LanSide(After(tr.before, settle)), tr.e.r.lan, hold, false, k); }
    }
  }

  /** The same of the store: once a recompute r withdraws e, every snapshot there is from then on lists it
      stale, where it was, for as long as it has to be. */
  lemma {:induction false} StaleInEverySnapshot(before: Trace, r: Round, e: Entry, tr: Trace, hold: nat, settle: nat)
    requires LegalTrace(tr, hold, settle) && LegalTrace(Then(before, Recomputes(r)), hold, settle)
    requires QuietSince(tr, Then(before, Recomputes(r)), e.p.prefix, Until(e.p, r.lan.now, hold))
    requires e in After(before, settle).cur.lan && Gone(e, Actives(r.lan.live)) && r.lan.now < Until(e.p, r.lan.now, hold)
    requires forall f :: f in After(before, settle).cur.lan && f.p.prefix == e.p.prefix ==> f == e
    ensures StaleOf(e, r.lan.now, hold, false) in After(tr, settle).cur.lan
  {
    hide SideInv, Legal, Turned, Actives, ChangeOf, Gone;
    RunHolds(before, hold, settle);
    Withdraws(LanSide(After(before, settle)), r.lan, hold, false, e);
    HeldSince(tr, Then(before, Recomputes(r)), hold, settle, e.p.prefix, StaleOf(e, r.lan.now, hold, false));
  }

  /** And no snapshot of the store lists a prefix both live and stale, on a LAN or on the WAN. */
  lemma {:induction false} SnapshotNeverBoth(tr: Trace, hold: nat, settle: nat, e: Entry, f: Entry)
    requires LegalTrace(tr, hold, settle) && e.p.prefix == f.p.prefix && e.p.stale
    ensures var cur := After(tr, settle).cur;
            (e in cur.lan && f in cur.lan) || (e in cur.wan && f in cur.wan) ==> e == f
  {
    hide After, LegalTrace;
    RunHolds(tr, hold, settle);
  }

  // ---- One subscriber

  /** What a step of the store puts into the subscribers' boxes: the snapshot, when it sends one. */
  function Filled(boxes: seq<Option<Snapshot>>, st: State, to: State): (r: seq<Option<Snapshot>>)
    ensures |r| == |boxes|
  {
    seq(|boxes|, i requires 0 <= i < |boxes| => if |to.sent| > |st.sent| then Some(to.cur) else boxes[i])
  }

  lemma Unfilled(boxes: seq<Option<Snapshot>>)
    ensures forall st: State, to: State :: |to.sent| <= |st.sent| ==> Filled(boxes, st, to) == boxes
    ensures forall st: State, to: State, was: State :: |was.sent| == |st.sent| ==> Filled(boxes, st, to) == Filled(boxes, was, to)
  {
  }

  /** A subscriber's part of a run: it subscribes, takes what is in its box at times of its own, and the
      store goes on meanwhile. */
  datatype Watch = Joins(tr: Trace) | Goes(before: Watch, e: Event) | Takes(before: Watch)

  function TraceOf(w: Watch): Trace {
    match w
    case Joins(tr) => tr
    case Goes(before, e) => Then(TraceOf(before), e)
    case Takes(before) => TraceOf(before)
  }

  ghost function Box(w: Watch, settle: nat): Option<Snapshot> {
    match w
    case Joins(tr) => Some(After(tr, settle).cur)
    case Goes(before, _) =>
      Filled([Box(before, settle)], After(TraceOf(before), settle), After(TraceOf(w), settle))[0]
    case Takes(_) => None
  }

  /** The snapshot a subscriber took last. */
  ghost function Taken(w: Watch, settle: nat): Option<Snapshot> {
    match w
    case Joins(_) => None
    case Goes(before, _) => Taken(before, settle)
    case Takes(before) => if Box(before, settle).Some? then Box(before, settle) else Taken(before, settle)
  }

  function WhenJoined(w: Watch): Trace {
    match w
    case Joins(tr) => tr
    case Goes(before, _) => WhenJoined(before)
    case Takes(before) => WhenJoined(before)
  }

  /** However rarely it looks, a subscriber that has just looked has the last snapshot sent, or, if none has
      been since, the one there was when it subscribed. */
  lemma {:induction false} CatchesUp(w: Watch, settle: nat)
    ensures var sent, had := After(TraceOf(w), settle).sent, After(WhenJoined(w), settle).sent;
            |sent| >= |had| && Taken(Takes(w), settle) ==
              Some(if |sent| > |had| then sent[|sent| - 1] else After(WhenJoined(w), settle).cur)
  {
    hide ChangeOf, TellsNow, Turned;
    if !w.Joins? { CatchesUp(w.before, settle); }
  }

  /** The event sends a snapshot. */
  ghost predicate Sends(tr: Trace, settle: nat)
    requires tr.Then?
  {
    |After(tr, settle).sent| > |After(tr.before, settle).sent|
  }

  /** The strongest change a subscriber has been sent since it last looked. */
  ghost function Due(w: Watch, settle: nat): Change {
    match w
    case Joins(tr) => After(tr, settle).cur.change
    case Goes(before, e) =>
      if Sends(TraceOf(w), settle) then Stronger(After(TraceOf(w), settle).cur.change, Due(before, settle)) else Due(before, settle)
    case Takes(_) => Nothing
  }

  /** A snapshot not looked at has made way for one that says less. */
  ghost predicate Overtaken(w: Watch, settle: nat) {
    match w
    case Joins(_) => false
    case Goes(before, e) =>
      if Sends(TraceOf(w), settle) then Rank(After(TraceOf(w), settle).cur.change) < Rank(Due(before, settle))
      else Overtaken(before, settle)
    case Takes(_) => false
  }

  /** What a subscriber finds says as much as all it was sent since it last looked, exactly when the last
      snapshot sent was not weaker than one before it that it has not seen. */
  lemma {:induction false} TellsIff(w: Watch, settle: nat)
    requires Box(w, settle).Some?
    ensures Box(w, settle).value.change == Due(w, settle) <==> !Overtaken(w, settle)
    ensures Rank(Box(w, settle).value.change) <= Rank(Due(w, settle))
  {
    hide After;
    if w.Goes? && !Sends(TraceOf(w), settle) { TellsIff(w.before, settle); }
  }

  /** It looks before each snapshot after the first is sent. */
  ghost predicate Attentive(w: Watch, settle: nat) {
    match w
    case Joins(_) => true
    case Goes(before, e) => Attentive(before, settle) && (Sends(TraceOf(w), settle) ==> Box(before, settle).None?)
    case Takes(before) => Attentive(before, settle)
  }

  lemma {:induction false} NothingDue(w: Watch, settle: nat)
    requires Box(w, settle).None?
    ensures Due(w, settle).Nothing? && !Overtaken(w, settle)
  {
    hide After;
    if w.Goes? { NothingDue(w.before, settle); }
  }

  /** One that does misses nothing. */
  lemma {:induction false} AttentiveIsTold(w: Watch, settle: nat)
    requires Attentive(w, settle)
    ensures !Overtaken(w, settle)
  {
    hide After;
    if w.Goes? {
      if Sends(TraceOf(w), settle) { NothingDue(w.before, settle); } else { AttentiveIsTold(w.before, settle); }
    }
  }

  /** One that does not can miss a revocation: the hold of a prefix is over, which is told at once, and then
      something else changes. What it finds is a renewal. */
  lemma {:induction false} MissesRevocation(m: Entry, hold: nat)
    requires WellMarked(m.p.prefix, m, hold)
    ensures exists w :: LegalTrace(TraceOf(w), hold, 0) && Box(w, 0).Some?
              && Box(w, 0).value.change.Renew? && Due(w, 0).Revoke? && Overtaken(w, 0)
  {
    hide LegalRound, Inv, ChangeOf;
    var k, t := m.p.prefix, m.p.valid;
    var st0 := State(Snapshot(0, [m], [], false, 0, Nothing), map[k := m], map[], Nothing, false, []);
    var over, none := Turn(t, [], map[k := m], []), Turn(t, [], map[], []);
    var r1, r2 := Round(over, none, false, 0), Round(none, none, false, 1);
    var st1 := State(Snapshot(t, [], [], false, 0, Revoke), map[], map[], Nothing, false, [Snapshot(t, [], [], false, 0, Revoke)]);
    var cur2 := Snapshot(t, [], [], false, 1, Renew);
    var st2 := State(cur2, map[], map[], Nothing, false, st1.sent + [cur2]);
    HoldOver(m, hold);
    RestChanged(t, hold);
    var w0 := Joins(Start(st0));
    var w := Goes(Takes(w0), Recomputes(r1));
    var w2 := Goes(w, Recomputes(r2));
    var tr := Start(st0);
    assert LegalTrace(tr, hold, 0) && After(tr, 0) == st0;
    OneMore(tr, r1, hold);
    OneMore(Then(tr, Recomputes(r1)), r2, hold);
    hide After, LegalTrace, Next;
    assert TraceOf(Takes(w0)) == TraceOf(w0) == tr && TraceOf(w) == Then(tr, Recomputes(r1));
    assert TraceOf(w2) == Then(TraceOf(w), Recomputes(r2));
    assert Due(Takes(w0), 0).Nothing? && Due(w, 0).Revoke?;
  }

  lemma OneMore(tr: Trace, r: Round, hold: nat)
    requires LegalTrace(tr, hold, 0) && LegalRound(After(tr, 0), r, hold)
    ensures var to := Then(tr, Recomputes(r)); LegalTrace(to, hold, 0) && After(to, 0) == Next(After(tr, 0), r, 0)
  {
    hide LegalRound, Next;
  }

  lemma {:induction false} HoldOver(m: Entry, hold: nat)
    requires WellMarked(m.p.prefix, m, hold)
    ensures var k, t := m.p.prefix, m.p.valid;
            var st0 := State(Snapshot(0, [m], [], false, 0, Nothing), map[k := m], map[], Nothing, false, []);
            var r1 := Round(Turn(t, [], map[k := m], []), Turn(t, [], map[], []), false, 0);
            var cur := Snapshot(t, [], [], false, 0, Revoke);
            && Inv(st0, hold) && LegalRound(st0, r1, hold) && ChangeOf(st0, r1).Revoke?
            && Next(st0, r1, 0) == State(cur, map[], map[], Nothing, false, [cur])
  {
    var k, t := m.p.prefix, m.p.valid;
    var over := Turn(t, [], map[k := m], []);
    OverTurn(m, hold);
    EmptyTurn([], t, WAN_HOLD, true);
    hide Legal, Turned, Actives, Kept, Classified;
    var st0 := State(Snapshot(0, [m], [], false, 0, Nothing), map[k := m], map[], Nothing, false, []);
    assert SideInv(LanSide(st0), hold) && SideInv(WanSide(st0), WAN_HOLD);
  }

  lemma {:induction false} OverTurn(m: Entry, hold: nat)
    requires WellMarked(m.p.prefix, m, hold)
    ensures var k, t := m.p.prefix, m.p.valid;
            var over := Turn(t, [], map[k := m], []);
            && Legal(Side([m], map[k := m]), over, hold, false) && Turned(over) == Side([], map[])
            && Kept(over.mid, t) == map[] != over.mid
  {
    hide StaleOf;
    var k, t := m.p.prefix, m.p.valid;
    assert Actives([]) == {} && map[k := m] - {} == map[k := m];
    assert Kept(map[k := m], t) == map[];
    assert k in map[k := m];
  }

  lemma {:induction false} RestChanged(t: int, hold: nat)
    ensures var cur1, cur2 := Snapshot(t, [], [], false, 0, Revoke), Snapshot(t, [], [], false, 1, Renew);
            var st1 := State(cur1, map[], map[], Nothing, false, [cur1]);
            var none := Turn(t, [], map[], []);
            var r2 := Round(none, none, false, 1);
            && LegalRound(st1, r2, hold) && ChangeOf(st1, r2).Renew?
            && Next(st1, r2, 0) == State(cur2, map[], map[], Nothing, false, [cur1, cur2])
  {
    EmptyTurn([], t, hold, false);
    EmptyTurn([], t, WAN_HOLD, true);
    hide Legal, Turned, Actives, Kept;
    assert !AnyAdds([], [], false) && !AnyAdds([], [], true);
  }

  // ---- What is handed out

  datatype Update = Update(prefixes: seq<Item>, noRouter: bool)

  predicate Sound(items: seq<Item>) {
    forall p :: p in items ==> !p.stale && (p.exclude.Some? ==> p.exclude.value.bits <= 128)
  }

  /** A prefix that has outlived its preferred lifetime is deprecated. */
  function Aged(p: Item, now: int): Item {
    if p.deprecated || now >= p.preferred then p.(deprecated := true) else p
  }

  /** Those of the items that are still valid, on the WAN. */
  function WanOf(items: seq<Item>, now: int): seq<Entry> {
    if items == [] then []
    else
      var p := items[|items| - 1];
      WanOf(items[..|items| - 1], now) + if now >= p.valid then [] else [Entry("", Aged(p, now))]
  }

  predicate Listed(wan: seq<Entry>, p: Item) {
    exists e :: e in wan && e.p.prefix == p.prefix && e.p.source == p.source
  }

  /** And the prefixes of the upstream's Router Advertisement that are not among them. */
  function WithRa(wan: seq<Entry>, ras: seq<Item>, now: int): seq<Entry> {
    if ras == [] then wan
    else
      var p, all := ras[|ras| - 1], WithRa(wan, ras[..|ras| - 1], now);
      if now >= p.valid || Listed(all, p) then all else all + [Entry("", Aged(p, now))]
  }

  /** An item's subnets for the first n segments. */
  function LanOf(lans: seq<Lan>, p: Item, exclude: Option<Prefix>, n: nat): seq<Entry>
    requires n <= |lans| && (exclude.Some? ==> exclude.value.bits <= 128)
  {
    if n == 0 then []
    else
      var sub := SubFor(lans, p.prefix, exclude, lans[n - 1]);
      LanOf(lans, p, exclude, n - 1) + if sub.None? then [] else [Entry(lans[n - 1].iface, p.(prefix := sub.value))]
  }

  function LansOf(lans: seq<Lan>, items: seq<Item>, now: int): seq<Entry>
    requires Sound(items)
  {
    if items == [] then []
    else
      var p := items[|items| - 1];
      LansOf(lans, items[..|items| - 1], now) + if now >= p.valid then [] else LanOf(lans, Aged(p, now), p.exclude, |lans|)
  }

  /** The router's own ULA is renewed by every recompute; one the upstream delegated is used without. */
  function OwnUlas(ula: seq<Prefix>, now: int): (r: seq<Item>)
    ensures |r| == |ula|
  {
    seq(|ula|, i requires 0 <= i < |ula| =>
      Item(ula[i], now + ULA_PREFERRED, now + ULA_VALID, FromUla, false, false, false, false, None, false))
  }

  function UlaLans(lans: seq<Lan>, ulas: seq<Item>): seq<Entry> {
    if ulas == [] then []
    else UlaLans(lans, ulas[..|ulas| - 1]) + LanOf(lans, ulas[|ulas| - 1], None, |lans|)
  }

  function DelegatedUlas(items: seq<Item>, now: int): seq<Item> {
    if items == [] then []
    else
      var p := items[|items| - 1];
      DelegatedUlas(items[..|items| - 1], now)
      + if now >= p.valid then []
        else [p.(source := FromUla, delegated := true, deprecated := p.deprecated || now >= p.preferred)]
  }

  function Ulas(ula: seq<Prefix>, ulaPd: seq<Item>, now: int): seq<Item> {
    if ula == [] then DelegatedUlas(ulaPd, now) else OwnUlas(ula, now)
  }

  ghost predicate Fresh(list: seq<Entry>) {
    forall e :: e in list ==> !e.p.stale
  }

  lemma {:induction false} LanOfFresh(lans: seq<Lan>, p: Item, exclude: Option<Prefix>, n: nat)
    requires n <= |lans| && !p.stale && (exclude.Some? ==> exclude.value.bits <= 128)
    ensures Fresh(LanOf(lans, p, exclude, n))
  {
    hide SubFor;
    if n > 0 { LanOfFresh(lans, p, exclude, n - 1); }
  }

  lemma {:induction false} WanOfFresh(items: seq<Item>, now: int)
    requires Sound(items)
    ensures Fresh(WanOf(items, now))
  {
    if items != [] {
      assert items[|items| - 1] in items;
      WanOfFresh(items[..|items| - 1], now);
    }
  }

  lemma {:induction false} WithRaFresh(wan: seq<Entry>, ras: seq<Item>, now: int)
    requires Fresh(wan) && Sound(ras)
    ensures Fresh(WithRa(wan, ras, now))
  {
    hide Listed;
    if ras != [] {
      assert ras[|ras| - 1] in ras;
      WithRaFresh(wan, ras[..|ras| - 1], now);
    }
  }

  lemma {:induction false} LansOfFresh(lans: seq<Lan>, items: seq<Item>, now: int)
    requires Sound(items)
    ensures Fresh(LansOf(lans, items, now))
  {
    hide LanOf;
    if items != [] {
      var p := items[|items| - 1];
      assert p in items;
      LansOfFresh(lans, items[..|items| - 1], now);
      LanOfFresh(lans, Aged(p, now), p.exclude, |lans|);
    }
  }

  lemma {:induction false} UlaLansFresh(lans: seq<Lan>, ulas: seq<Item>)
    requires forall p :: p in ulas ==> !p.stale
    ensures Fresh(UlaLans(lans, ulas))
  {
    hide LanOf;
    if ulas != [] {
      assert ulas[|ulas| - 1] in ulas;
      UlaLansFresh(lans, ulas[..|ulas| - 1]);
      LanOfFresh(lans, ulas[|ulas| - 1], None, |lans|);
    }
  }

  lemma {:induction false} DelegatedFresh(items: seq<Item>, now: int)
    requires Sound(items)
    ensures forall p :: p in DelegatedUlas(items, now) ==> !p.stale
  {
    if items != [] {
      assert items[|items| - 1] in items;
      DelegatedFresh(items[..|items| - 1], now);
    }
  }

  // ---- What is handed out, said of each entry

  /** q has what p has but for its prefix and its source, and is deprecated when p is or its preferred lifetime
      is over. */
  predicate AsAt(q: Item, p: Item, now: int) {
    && q.preferred == p.preferred && q.valid == p.valid && now < q.valid
    && (q.deprecated <==> p.deprecated || now >= p.preferred)
    && q.stale == p.stale && q.slaac == p.slaac && q.offLink == p.offLink && q.exclude == p.exclude
  }

  /** e is item p on the WAN. */
  predicate OnWan(e: Entry, p: Item, now: int) {
    e.iface == "" && e.p.prefix == p.prefix && e.p.source == p.source && e.p.delegated == p.delegated && AsAt(e.p, p, now)
  }

  /** e is the subnet of p that segment l has, inside p. */
  predicate OnLan(e: Entry, p: Item, exclude: Option<Prefix>, lans: seq<Lan>, l: Lan)
    requires exclude.Some? ==> exclude.value.bits <= 128
  {
    && e.iface == l.iface && SubFor(lans, p.prefix, exclude, l) == Some(e.p.prefix)
    && p.prefix.bits <= 64 && e.p.prefix.bits == 64 && Contains(p.prefix, e.p.prefix.addr)
  }

  predicate LanEntry(e: Entry, p: Item, lans: seq<Lan>, l: Lan, now: int)
    requires p.exclude.Some? ==> p.exclude.value.bits <= 128
  {
    OnLan(e, p, p.exclude, lans, l) && e.p.source == p.source && e.p.delegated == p.delegated && AsAt(e.p, p, now)
  }

  /** The router's own ULA, renewed; or one the upstream delegated, as long as that lasts. */
  predicate UlaEntry(e: Entry, u: Prefix, lans: seq<Lan>, l: Lan, now: int) {
    && e.iface == l.iface && SubFor(lans, u, None, l) == Some(e.p.prefix)
    && u.bits <= 64 && e.p.prefix.bits == 64 && Contains(u, e.p.prefix.addr)
    && OwnUla(e.p) && !e.p.deprecated && !e.p.stale && e.p.preferred == now + ULA_PREFERRED && e.p.valid == now + ULA_VALID
  }

  predicate UlaPdEntry(e: Entry, p: Item, lans: seq<Lan>, l: Lan, now: int) {
    OnLan(e, p, None, lans, l) && e.p.source.FromUla? && e.p.delegated && AsAt(e.p, p, now)
  }

  /** Where an entry of a LAN is from. */
  ghost predicate FromItem(e: Entry, items: seq<Item>, lans: seq<Lan>, now: int)
    requires Sound(items)
  {
    exists p, l :: p in items && l in lans && LanEntry(e, p, lans, l, now)
  }

  ghost predicate FromOwn(e: Entry, ula: seq<Prefix>, lans: seq<Lan>, now: int) {
    exists u, l :: u in ula && l in lans && UlaEntry(e, u, lans, l, now)
  }

  ghost predicate FromUpstream(e: Entry, ulaPd: seq<Item>, lans: seq<Lan>, now: int) {
    exists p, l :: p in ulaPd && l in lans && UlaPdEntry(e, p, lans, l, now)
  }

  /** What the LANs have: of the items, and of the ULA, every entry; and every subnet there is to take. */
  ghost predicate LanMeans(lan: seq<Entry>, items: seq<Item>, ula: seq<Prefix>, ulaPd: seq<Item>, lans: seq<Lan>, now: int)
    requires Sound(items)
  {
    && (forall e :: e in lan ==>
          || FromItem(e, items, lans, now)
          || (if ula == [] then FromUpstream(e, ulaPd, lans, now) else FromOwn(e, ula, lans, now)))
    && (forall p, l :: p in items && now < p.valid && l in lans && SubFor(lans, p.prefix, p.exclude, l).Some? ==>
          LanHas(lan, p, lans, l, now))
    && (forall u, l :: u in ula && l in lans && SubFor(lans, u, None, l).Some? ==>
          OwnHas(lan, u, lans, l, now))
    && (ula == [] ==> forall p, l :: p in ulaPd && now < p.valid && l in lans && SubFor(lans, p.prefix, None, l).Some? ==>
          UpstreamHas(lan, p, lans, l, now))
  }

  /** What the WAN has: every valid item, and every valid prefix of the Router Advertisement. */
  ghost predicate WanMeans(wan: seq<Entry>, items: seq<Item>, ras: seq<Item>, now: int) {
    && (forall e :: e in wan ==> OnWanOf(e, items + ras, now))
    && (forall p :: p in items && now < p.valid ==> WanHas(wan, p, now))
    && (forall p :: p in ras && now < p.valid ==> exists e :: e in wan && e.p.prefix == p.prefix && e.p.source == p.source)
  }

  ghost predicate OnWanOf(e: Entry, items: seq<Item>, now: int) {
    exists p :: p in items && OnWan(e, p, now)
  }

  ghost predicate WanHas(wan: seq<Entry>, p: Item, now: int) {
    exists e :: e in wan && OnWan(e, p, now)
  }

  lemma OnWanMore(e: Entry, items: seq<Item>, more: seq<Item>, now: int)
    requires OnWanOf(e, items, now) && forall p :: p in items ==> p in more
    ensures OnWanOf(e, more, now)
  {
    hide OnWan;
    var p :| p in items && OnWan(e, p, now);
    assert p in more;
  }

  lemma WanHasMore(wan: seq<Entry>, more: seq<Entry>, p: Item, now: int)
    requires WanHas(wan, p, now) && forall e :: e in wan ==> e in more
    ensures WanHas(more, p, now)
  {
    hide OnWan;
    var e :| e in wan && OnWan(e, p, now);
    assert e in more;
  }

  lemma AgedOnWan(wan: seq<Entry>, items: seq<Item>, p: Item, now: int)
    requires now < p.valid && p in items
    ensures var e := Entry("", Aged(p, now)); OnWanOf(e, items, now) && (e in wan ==> WanHas(wan, p, now))
  {
    assert OnWan(Entry("", Aged(p, now)), p, now);
  }

  lemma {:induction false} WanOfIs(items: seq<Item>, now: int)
    ensures forall e :: e in WanOf(items, now) ==> OnWanOf(e, items, now)
    ensures forall p :: p in items && now < p.valid ==> WanHas(WanOf(items, now), p, now)
  {
    hide OnWanOf, WanHas, Aged;
    if items != [] {
      var n := |items| - 1;
      var p, before, wan := items[n], WanOf(items[..n], now), WanOf(items, now);
      WanOfIs(items[..n], now);
      assert items == items[..n] + [p];
      if now < p.valid { AgedOnWan(wan, items, p, now); }
      forall e | e in wan ensures OnWanOf(e, items, now) {
        if e in before { OnWanMore(e, items[..n], items, now); }
      }
      forall q | q in items && now < q.valid ensures WanHas(wan, q, now) {
        if q in items[..n] { WanHasMore(before, wan, q, now); }
      }
    }
  }

  lemma {:induction false} WithRaIs(wan: seq<Entry>, ras: seq<Item>, now: int)
    ensures var all := WithRa(wan, ras, now);
            && (forall e :: e in wan ==> e in all)
            && (forall e :: e in all ==> e in wan || OnWanOf(e, ras, now))
            && (forall p :: p in ras && now < p.valid ==> Listed(all, p))
  {
    hide OnWanOf, Aged, Listed;
    if ras != [] {
      var n := |ras| - 1;
      var p, before, all := ras[n], WithRa(wan, ras[..n], now), WithRa(wan, ras, now);
      WithRaIs(wan, ras[..n], now);
      assert ras == ras[..n] + [p];
      if now < p.valid {
        AgedOnWan(all, ras, p, now);
        AgedListed(all, p, now);
      }
      forall e | e in all && e !in wan ensures OnWanOf(e, ras, now) {
        if e in before { OnWanMore(e, ras[..n], ras, now); }
      }
      forall q | q in ras && now < q.valid ensures Listed(all, q) {
        if q in ras[..n] { ListedMore(before, all, q); }
      }
    }
  }

  lemma AgedListed(wan: seq<Entry>, p: Item, now: int)
    ensures Entry("", Aged(p, now)) in wan ==> Listed(wan, p)
  {
  }

  lemma ListedMore(wan: seq<Entry>, more: seq<Entry>, p: Item)
    requires Listed(wan, p) && forall e :: e in wan ==> e in more
    ensures Listed(more, p)
  {
  }

  lemma {:induction false} WanIs(items: seq<Item>, ras: seq<Item>, now: int)
    ensures WanMeans(WithRa(WanOf(items, now), ras, now), items, ras, now)
  {
    hide WanOf, WithRa, OnWanOf, WanHas;
    var wan, all := WanOf(items, now), WithRa(WanOf(items, now), ras, now);
    WanOfIs(items, now);
    WithRaIs(wan, ras, now);
    forall e | e in all ensures OnWanOf(e, items + ras, now) {
      if e in wan { OnWanMore(e, items, items + ras, now); } else { OnWanMore(e, ras, items + ras, now); }
    }
    forall p | p in items && now < p.valid ensures WanHas(all, p, now) { WanHasMore(wan, all, p, now); }
  }

  /** One item's subnets: one for each segment with one to take, which says what the item says. */
  lemma {:induction false} LanOfIs(lans: seq<Lan>, p: Item, exclude: Option<Prefix>, n: nat)
    requires n <= |lans| && (exclude.Some? ==> exclude.value.bits <= 128)
    ensures forall e :: e in LanOf(lans, p, exclude, n) ==>
              exists l :: l in lans && OnLan(e, p, exclude, lans, l) && e.p == p.(prefix := e.p.prefix)
    ensures forall l :: l in lans[..n] && SubFor(lans, p.prefix, exclude, l).Some? ==>
              exists e :: e in LanOf(lans, p, exclude, n) && OnLan(e, p, exclude, lans, l) && e.p == p.(prefix := e.p.prefix)
  {
    hide SubFor, Contains;
    if n > 0 {
      LanOfIs(lans, p, exclude, n - 1);
      var l := lans[n - 1];
      assert l in lans && lans[..n] == lans[..n - 1] + [l];
      var sub, before, all := SubFor(lans, p.prefix, exclude, l), LanOf(lans, p, exclude, n - 1), LanOf(lans, p, exclude, n);
      if sub.Some? {
        var e := Entry(l.iface, p.(prefix := sub.value));
        SubIs(lans, p.prefix, exclude, l);
        assert e in all && OnLan(e, p, exclude, lans, l);
      }
      assert forall e :: e in before ==> e in all;
      hide OnLan;
      forall k | k in lans[..n] && SubFor(lans, p.prefix, exclude, k).Some?
        ensures exists e :: e in all && OnLan(e, p, exclude, lans, k) && e.p == p.(prefix := e.p.prefix)
      {
        if k in lans[..n - 1] {
          var e :| e in before && OnLan(e, p, exclude, lans, k) && e.p == p.(prefix := e.p.prefix);
        }
      }
    }
  }

  lemma SubIs(lans: seq<Lan>, p: Prefix, exclude: Option<Prefix>, l: Lan)
    requires (exclude.Some? ==> exclude.value.bits <= 128) && SubFor(lans, p, exclude, l).Some?
    ensures var sub := SubFor(lans, p, exclude, l).value; p.bits <= 64 && sub.bits == 64 && Contains(p, sub.addr)
  {
    hide Contains, HighestSpare;
    SubInside(lans, p, exclude, l);
  }

  /** e is u's subnet of segment l, and otherwise u. */
  predicate SubOf(e: Entry, u: Item, exclude: Option<Prefix>, lans: seq<Lan>, l: Lan)
    requires exclude.Some? ==> exclude.value.bits <= 128
  {
    OnLan(e, u, exclude, lans, l) && e.p == u.(prefix := e.p.prefix)
  }

  ghost predicate SubOfAny(e: Entry, u: Item, exclude: Option<Prefix>, lans: seq<Lan>)
    requires exclude.Some? ==> exclude.value.bits <= 128
  {
    exists l :: l in lans && SubOf(e, u, exclude, lans, l)
  }

  ghost predicate HasSub(lan: seq<Entry>, u: Item, exclude: Option<Prefix>, lans: seq<Lan>, l: Lan)
    requires exclude.Some? ==> exclude.value.bits <= 128
  {
    exists e :: e in lan && SubOf(e, u, exclude, lans, l)
  }

  /** One item's subnets, on all the segments. */
  lemma SubsAre(lans: seq<Lan>, u: Item, exclude: Option<Prefix>)
    requires exclude.Some? ==> exclude.value.bits <= 128
    ensures forall e :: e in LanOf(lans, u, exclude, |lans|) ==> SubOfAny(e, u, exclude, lans)
    ensures forall l :: l in lans && SubFor(lans, u.prefix, exclude, l).Some? ==> HasSub(LanOf(lans, u, exclude, |lans|), u, exclude, lans, l)
  {
    hide LanOf, OnLan, SubFor;
    assert lans[..|lans|] == lans;
    LanOfIs(lans, u, exclude, |lans|);
    forall l | l in lans && SubFor(lans, u.prefix, exclude, l).Some?
      ensures HasSub(LanOf(lans, u, exclude, |lans|), u, exclude, lans, l)
    {
      var e :| e in LanOf(lans, u, exclude, |lans|) && OnLan(e, u, exclude, lans, l) && e.p == u.(prefix := e.p.prefix);
      assert SubOf(e, u, exclude, lans, l);
    }
    forall e | e in LanOf(lans, u, exclude, |lans|) ensures SubOfAny(e, u, exclude, lans) {
      var l :| l in lans && OnLan(e, u, exclude, lans, l) && e.p == u.(prefix := e.p.prefix);
      assert SubOf(e, u, exclude, lans, l);
    }
  }

  ghost predicate LanHas(lan: seq<Entry>, p: Item, lans: seq<Lan>, l: Lan, now: int)
    requires p.exclude.Some? ==> p.exclude.value.bits <= 128
  {
    exists e :: e in lan && LanEntry(e, p, lans, l, now)
  }

  lemma FromMore(e: Entry, items: seq<Item>, more: seq<Item>, lans: seq<Lan>, now: int)
    requires Sound(more) && (forall p :: p in items ==> p in more) && Sound(items) && FromItem(e, items, lans, now)
    ensures FromItem(e, more, lans, now)
  {
    hide LanEntry;
    var p, l :| p in items && l in lans && LanEntry(e, p, lans, l, now);
    assert p in more;
  }

  lemma HasMore(lan: seq<Entry>, more: seq<Entry>, p: Item, lans: seq<Lan>, l: Lan, now: int)
    requires (p.exclude.Some? ==> p.exclude.value.bits <= 128) && LanHas(lan, p, lans, l, now) && forall e :: e in lan ==> e in more
    ensures LanHas(more, p, lans, l, now)
  {
    hide LanEntry;
    var e :| e in lan && LanEntry(e, p, lans, l, now);
    assert e in more;
  }

  /** An item's subnets are entries of it. */
  lemma SubsMean(lans: seq<Lan>, items: seq<Item>, p: Item, now: int)
    requires Sound(items) && p in items && now < p.valid
    ensures var subs := LanOf(lans, Aged(p, now), p.exclude, |lans|);
            && (forall e :: e in subs ==> FromItem(e, items, lans, now))
            && (forall l :: l in lans && SubFor(lans, p.prefix, p.exclude, l).Some? ==> LanHas(subs, p, lans, l, now))
  {
    hide SubFor, OnLan, LanOf;
    var q := Aged(p, now);
    var subs := LanOf(lans, q, p.exclude, |lans|);
    SubsAre(lans, q, p.exclude);
    forall e | e in subs ensures FromItem(e, items, lans, now) {
      var l :| l in lans && SubOf(e, q, p.exclude, lans, l);
      AgedLan(e, p, lans, l, now);
    }
    forall l | l in lans && SubFor(lans, p.prefix, p.exclude, l).Some? ensures LanHas(subs, p, lans, l, now) {
      var e :| e in subs && SubOf(e, q, p.exclude, lans, l);
      AgedLan(e, p, lans, l, now);
    }
  }

  lemma AgedLan(e: Entry, p: Item, lans: seq<Lan>, l: Lan, now: int)
    requires (p.exclude.Some? ==> p.exclude.value.bits <= 128) && now < p.valid
    requires SubOf(e, Aged(p, now), p.exclude, lans, l)
    ensures LanEntry(e, p, lans, l, now)
  {
    hide SubFor, Contains;
  }

  lemma {:induction false} LansOfIs(lans: seq<Lan>, items: seq<Item>, now: int)
    requires Sound(items)
    ensures var lan := LansOf(lans, items, now);
            && (forall e :: e in lan ==> FromItem(e, items, lans, now))
            && (forall p, l :: p in items && now < p.valid && l in lans && SubFor(lans, p.prefix, p.exclude, l).Some? ==>
                  LanHas(lan, p, lans, l, now))
  {
    hide SubFor, LanOf, Aged, FromItem, LanHas;
    if items != [] {
      var n := |items| - 1;
      var p, before, lan := items[n], LansOf(lans, items[..n], now), LansOf(lans, items, now);
      LansOfIs(lans, items[..n], now);
      assert items == items[..n] + [p];
      if now < p.valid { SubsMean(lans, items, p, now); }
      var subs := LanOf(lans, Aged(p, now), p.exclude, |lans|);
      forall e | e in lan ensures FromItem(e, items, lans, now) {
        if e in before { FromMore(e, items[..n], items, lans, now); }
      }
      forall q, l | q in items && now < q.valid && l in lans && SubFor(lans, q.prefix, q.exclude, l).Some?
        ensures LanHas(lan, q, lans, l, now)
      {
        if q in items[..n] { HasMore(before, lan, q, lans, l, now); } else { HasMore(subs, lan, q, lans, l, now); }
      }
    }
  }

  ghost predicate SubOfSome(e: Entry, ulas: seq<Item>, lans: seq<Lan>) {
    exists u :: u in ulas && SubOfAny(e, u, None, lans)
  }

  lemma {:induction false} UlaLansIs(lans: seq<Lan>, ulas: seq<Item>)
    ensures var lan := UlaLans(lans, ulas);
            && (forall e :: e in lan ==> SubOfSome(e, ulas, lans))
            && (forall u, l :: u in ulas && l in lans && SubFor(lans, u.prefix, None, l).Some? ==> HasSub(lan, u, None, lans, l))
  {
    hide SubFor, SubOf, LanOf, SubOfAny, HasSub;
    if ulas != [] {
      var n := |ulas| - 1;
      var p, before, lan := ulas[n], UlaLans(lans, ulas[..n]), UlaLans(lans, ulas);
      UlaLansIs(lans, ulas[..n]);
      assert ulas == ulas[..n] + [p];
      SubsAre(lans, p, None);
      var subs := LanOf(lans, p, None, |lans|);
      forall e | e in lan ensures SubOfSome(e, ulas, lans) {
        if e in before {
          assert SubOfSome(e, ulas[..n], lans);
          var u :| u in ulas[..n] && SubOfAny(e, u, None, lans);
          assert u in ulas;
        }
      }
      forall u, l | u in ulas && l in lans && SubFor(lans, u.prefix, None, l).Some? ensures HasSub(lan, u, None, lans, l) {
        if u in ulas[..n] { SubMore(before, lan, u, lans, l); } else { SubMore(subs, lan, u, lans, l); }
      }
    }
  }

  lemma SubMore(lan: seq<Entry>, more: seq<Entry>, u: Item, lans: seq<Lan>, l: Lan)
    requires HasSub(lan, u, None, lans, l) && forall e :: e in lan ==> e in more
    ensures HasSub(more, u, None, lans, l)
  {
    hide SubOf;
    var e :| e in lan && SubOf(e, u, None, lans, l);
    assert e in more;
  }

  /** u is the ULA item p of the upstream's, at now. */
  predicate UlaOf(u: Item, p: Item, now: int) {
    u.prefix == p.prefix && u.source.FromUla? && u.delegated && AsAt(u, p, now)
  }

  ghost predicate UlaOfAny(u: Item, items: seq<Item>, now: int) {
    exists p :: p in items && UlaOf(u, p, now)
  }

  ghost predicate HasUla(ulas: seq<Item>, p: Item, now: int) {
    exists u :: u in ulas && UlaOf(u, p, now)
  }

  lemma {:induction false} DelegatedIs(items: seq<Item>, now: int)
    ensures forall u :: u in DelegatedUlas(items, now) ==> UlaOfAny(u, items, now)
    ensures forall p :: p in items && now < p.valid ==> HasUla(DelegatedUlas(items, now), p, now)
  {
    if items != [] {
      var n := |items| - 1;
      var p, before, ulas := items[n], DelegatedUlas(items[..n], now), DelegatedUlas(items, now);
      DelegatedIs(items[..n], now);
      assert items == items[..n] + [p];
      if now < p.valid {
        assert UlaOf(ulas[|ulas| - 1], p, now);
        assert ulas[|ulas| - 1] in ulas && p in items;
      }
      hide UlaOf;
      forall u | u in ulas ensures UlaOfAny(u, items, now) {
        if u in before {
          var q :| q in items[..n] && UlaOf(u, q, now);
          assert q in items;
        }
      }
      forall q | q in items && now < q.valid ensures HasUla(ulas, q, now) {
        if q in items[..n] {
          var u :| u in before && UlaOf(u, q, now);
          assert u in ulas;
        }
      }
    }
  }

  lemma {:induction false} UlaPdIs(lans: seq<Lan>, ulaPd: seq<Item>, now: int)
    ensures var lan := UlaLans(lans, DelegatedUlas(ulaPd, now));
            && (forall e :: e in lan ==> FromUpstream(e, ulaPd, lans, now))
            && (forall p, l :: p in ulaPd && now < p.valid && l in lans && SubFor(lans, p.prefix, None, l).Some? ==>
                  UpstreamHas(lan, p, lans, l, now))
  {
    hide SubFor, UlaLans, DelegatedUlas, SubOf, UlaOf, UlaPdEntry;
    var ulas := DelegatedUlas(ulaPd, now);
    var lan := UlaLans(lans, ulas);
    DelegatedIs(ulaPd, now);
    UlaLansIs(lans, ulas);
    forall e | e in lan ensures FromUpstream(e, ulaPd, lans, now) {
      assert SubOfSome(e, ulas, lans);
      var u :| u in ulas && SubOfAny(e, u, None, lans);
      var l :| l in lans && SubOf(e, u, None, lans, l);
      assert UlaOfAny(u, ulaPd, now);
      var p :| p in ulaPd && UlaOf(u, p, now);
      UlaSub(e, u, p, lans, l, now);
    }
    forall p, l | p in ulaPd && now < p.valid && l in lans && SubFor(lans, p.prefix, None, l).Some?
      ensures UpstreamHas(lan, p, lans, l, now)
    {
      assert HasUla(ulas, p, now);
      var u :| u in ulas && UlaOf(u, p, now);
      SamePrefix(u, p, now);
      assert HasSub(lan, u, None, lans, l);
      var e :| e in lan && SubOf(e, u, None, lans, l);
      UlaSub(e, u, p, lans, l, now);
    }
  }

  ghost predicate UpstreamHas(lan: seq<Entry>, p: Item, lans: seq<Lan>, l: Lan, now: int) {
    exists e :: e in lan && UlaPdEntry(e, p, lans, l, now)
  }

  lemma UlaSub(e: Entry, u: Item, p: Item, lans: seq<Lan>, l: Lan, now: int)
    requires SubOf(e, u, None, lans, l) && UlaOf(u, p, now)
    ensures UlaPdEntry(e, p, lans, l, now)
  {
    hide SubFor, Contains;
  }

  lemma SamePrefix(u: Item, p: Item, now: int)
    requires UlaOf(u, p, now)
    ensures u.prefix == p.prefix
  {
  }

  ghost predicate OwnHas(lan: seq<Entry>, u: Prefix, lans: seq<Lan>, l: Lan, now: int) {
    exists e :: e in lan && UlaEntry(e, u, lans, l, now)
  }

  lemma {:induction false} OwnIs(lans: seq<Lan>, ula: seq<Prefix>, now: int)
    ensures var lan := UlaLans(lans, OwnUlas(ula, now));
            && (forall e :: e in lan ==> FromOwn(e, ula, lans, now))
            && (forall u, l :: u in ula && l in lans && SubFor(lans, u, None, l).Some? ==> OwnHas(lan, u, lans, l, now))
  {
    hide SubFor, UlaLans, SubOf, UlaEntry;
    var ulas := OwnUlas(ula, now);
    var lan := UlaLans(lans, ulas);
    UlaLansIs(lans, ulas);
    forall e | e in lan ensures FromOwn(e, ula, lans, now) {
      assert SubOfSome(e, ulas, lans);
      var u :| u in ulas && SubOfAny(e, u, None, lans);
      var l :| l in lans && SubOf(e, u, None, lans, l);
      OwnSub(e, u, lans, l, now);
      assert u.prefix in ula;
    }
    forall u, l | u in ula && l in lans && SubFor(lans, u, None, l).Some? ensures OwnHas(lan, u, lans, l, now) {
      var i :| 0 <= i < |ula| && ula[i] == u;
      assert ulas[i] in ulas && ulas[i].prefix == u;
      assert HasSub(lan, ulas[i], None, lans, l);
      var e :| e in lan && SubOf(e, ulas[i], None, lans, l);
      OwnSub(e, ulas[i], lans, l, now);
    }
  }

  lemma OwnSub(e: Entry, u: Item, lans: seq<Lan>, l: Lan, now: int)
    requires SubOf(e, u, None, lans, l)
    requires u == Item(u.prefix, now + ULA_PREFERRED, now + ULA_VALID, FromUla, false, false, false, false, None, false)
    ensures UlaEntry(e, u.prefix, lans, l, now)
  {
    hide SubFor, Contains;
  }

  lemma {:induction false} LanIs(lans: seq<Lan>, items: seq<Item>, ula: seq<Prefix>, ulaPd: seq<Item>, now: int)
    requires Sound(items)
    ensures LanMeans(LansOf(lans, items, now) + UlaLans(lans, Ulas(ula, ulaPd, now)), items, ula, ulaPd, lans, now)
  {
    hide SubFor, LansOf, UlaLans, DelegatedUlas, OwnUlas, FromItem, FromOwn, FromUpstream, LanHas, OwnHas, UpstreamHas;
    var a, b := LansOf(lans, items, now), UlaLans(lans, Ulas(ula, ulaPd, now));
    var all := a + b;
    LansOfIs(lans, items, now);
    if ula == [] { UlaPdIs(lans, ulaPd, now); } else { OwnIs(lans, ula, now); }
    forall p, l | p in items && now < p.valid && l in lans && SubFor(lans, p.prefix, p.exclude, l).Some?
      ensures LanHas(all, p, lans, l, now)
    {
      HasMore(a, all, p, lans, l, now);
    }
    forall u, l | u in ula && l in lans && SubFor(lans, u, None, l).Some? ensures OwnHas(all, u, lans, l, now) {
      OwnMore(b, all, u, lans, l, now);
    }
    forall p, l | ula == [] && p in ulaPd && now < p.valid && l in lans && SubFor(lans, p.prefix, None, l).Some?
      ensures UpstreamHas(all, p, lans, l, now)
    {
      UpstreamMore(b, all, p, lans, l, now);
    }
  }

  lemma OwnMore(lan: seq<Entry>, more: seq<Entry>, u: Prefix, lans: seq<Lan>, l: Lan, now: int)
    requires OwnHas(lan, u, lans, l, now) && forall e :: e in lan ==> e in more
    ensures OwnHas(more, u, lans, l, now)
  {
    hide UlaEntry;
    var e :| e in lan && UlaEntry(e, u, lans, l, now);
    assert e in more;
  }

  lemma UpstreamMore(lan: seq<Entry>, more: seq<Entry>, p: Item, lans: seq<Lan>, l: Lan, now: int)
    requires UpstreamHas(lan, p, lans, l, now) && forall e :: e in lan ==> e in more
    ensures UpstreamHas(more, p, lans, l, now)
  {
    hide UlaPdEntry;
    var e :| e in lan && UlaPdEntry(e, p, lans, l, now);
    assert e in more;
  }

  class Store {
    const lans: seq<Lan>
    const hold: nat
    const settle: nat
    const preferRa: bool
    const ula: seq<Prefix>
    var sources: map<Source, Update>
    var ulaPd: seq<Item>
    var cur: Snapshot
    var revoked: map<Prefix, Entry>
    var revokedW: map<Prefix, Entry>
    var pending: Change
    var armed: bool
    var sent: seq<Snapshot>
    var boxes: seq<Option<Snapshot>>  // the subscribers' channels, of one snapshot each

    ghost function St(): State
      reads this
    {
      State(cur, revoked, revokedW, pending, armed, sent)
    }

    ghost predicate Given()
      reads this
    {
      Sound(ulaPd) && forall k :: k in sources ==> Sound(sources[k].prefixes)
    }

    constructor (lans: seq<Lan>, hold: nat, settle: nat, preferRa: bool, ula: seq<Prefix>)
      ensures Given() && Inv(St(), hold) && pending.Nothing? && sent == [] && boxes == []
      ensures this.lans == lans && this.hold == hold && this.settle == settle && this.preferRa == preferRa && this.ula == ula
    {
      this.lans, this.hold, this.settle, this.preferRa, this.ula := lans, hold, settle, preferRa, ula;
      sources, ulaPd, revoked, revokedW := map[], [], map[], map[];
      cur := Snapshot(0, [], [], false, 0, Nothing);
      pending, armed, sent, boxes := Nothing, false, [], [];
    }

    /** pickSource: the first that has prefixes, else the first there is. The advertised prefixes are kept
        off the LANs while a delegation may still come. */
    method PickSource(grace: bool) returns (src: Option<Source>, u: Update)
      ensures var order := Order(preferRa);
              && (src.None? ==> forall k :: k in order ==> k !in sources)
              && (src.Some? ==> src.value in sources && src.value in order)
              && (src.Some? && sources[src.value].prefixes == [] ==>
                    forall k :: k in order && k in sources ==> sources[k].prefixes == [])
              && (src.Some? ==> forall i, j :: 0 <= i < j < 3 && order[j] == src.value && order[i] in sources ==>
                    sources[order[i]].prefixes == [] && sources[src.value].prefixes != [])
              && src == Picked(sources, preferRa) && u == Offered(sources, src, grace)
    {
      var order := Order(preferRa);
      for i := 0 to 3
        invariant forall j :: 0 <= j < i && order[j] in sources ==> sources[order[j]].prefixes == []
      {
        if order[i] in sources && sources[order[i]].prefixes != [] {
          u := sources[order[i]];
          if order[i].FromRa? && FromPd !in sources && grace { u := u.(prefixes := []); }
          return Some(order[i]), u;
        }
      }
      for i := 0 to 3
        invariant forall j :: 0 <= j < i ==> order[j] !in sources
      {
        if order[i] in sources { return Some(order[i]), sources[order[i]]; }
      }
      src, u := None, Update([], false);
    }

    /** The WAN's prefixes and the LANs' subnets of them. */
    method HandOut(now: int, items: seq<Item>, ras: seq<Item>) returns (lan: seq<Entry>, wan: seq<Entry>)
      requires Given() && Sound(items) && Sound(ras)
      ensures lan == LansOf(lans, items, now) + UlaLans(lans, Ulas(ula, ulaPd, now))
      ensures wan == WithRa(WanOf(items, now), ras, now)
    {
      hide LansOf, WanOf, UlaLans, Ulas, Listed;
      lan, wan := Split(now, items);
      var known := wan;
      for i := 0 to |ras|
        invariant wan == WithRa(known, ras[..i], now)
      {
        assert ras[..i + 1] == ras[..i] + [ras[i]];
        if now < ras[i].valid && !Listed(wan, ras[i]) { wan := wan + [Entry("", Aged(ras[i], now))]; }
      }
      assert ras[..|ras|] == ras;
      var ulas := SplitUlas(Ulas(ula, ulaPd, now));
      lan := lan + ulas;
    }

    method Split(now: int, items: seq<Item>) returns (lan: seq<Entry>, wan: seq<Entry>)
      requires Sound(items)
      ensures lan == LansOf(lans, items, now) && wan == WanOf(items, now)
    {
      hide LanOf;
      lan, wan := [], [];
      for i := 0 to |items|
        invariant lan == LansOf(lans, items[..i], now) && wan == WanOf(items[..i], now)
      {
        var p := items[i];
        assert items[..i + 1] == items[..i] + [p];
        if now < p.valid {
          wan := wan + [Entry("", Aged(p, now))];
          var subs := Subs(Aged(p, now), p.exclude);
          lan := lan + subs;
        }
      }
      assert items[..|items|] == items;
    }

    method SplitUlas(ulas: seq<Item>) returns (lan: seq<Entry>)
      ensures lan == UlaLans(lans, ulas)
    {
      hide LanOf;
      lan := [];
      for i := 0 to |ulas|
        invariant lan == UlaLans(lans, ulas[..i])
      {
        assert ulas[..i + 1] == ulas[..i] + [ulas[i]];
        var subs := Subs(ulas[i], None);
        lan := lan + subs;
      }
      assert ulas[..|ulas|] == ulas;
    }

    /** One prefix's subnets. */
    method Subs(p: Item, exclude: Option<Prefix>) returns (r: seq<Entry>)
      requires exclude.Some? ==> exclude.value.bits <= 128
      ensures r == LanOf(lans, p, exclude, |lans|)
    {
      hide HighestSpare, SplitLan, Overlaps;
      r := [];
      for i := 0 to |lans|
        invariant r == LanOf(lans, p, exclude, i)
      {
        var sub := SplitLan(p.prefix, lans[i].index);
        if sub.Some? && exclude.Some? && Overlaps(exclude.value, sub.value) {
          sub := SpareSubnet(lans, p.prefix, exclude.value);
        }
        if sub.Some? { r := r + [Entry(lans[i].iface, p.(prefix := sub.value))]; }
      }
    }

    /** classify: the strongest of what is new about what is listed. */
    method Classify(lan: seq<Entry>, wan: seq<Entry>, noRouter: bool, rest: nat) returns (c: Change)
      ensures c == Classified(cur, lan, wan, noRouter, rest)
    {
      hide AnyAdds, AnyRenews;
      c := Compare(cur.lan, lan, false, Nothing);
      c := Compare(cur.wan, wan, true, c);
      if c.Nothing? && (cur.noRouter != noRouter || cur.rest != rest) { c := Renew; }
    }

    /** A subscriber is handed what there is at once. */
    method Subscribe() returns (id: nat)
      modifies this`boxes
      ensures id == |old(boxes)| && boxes == old(boxes) + [Some(cur)]
    {
      id := |boxes|;
      boxes := boxes + [Some(cur)];
    }

    /** What a subscriber has not taken yet makes way. */
    method Publish()
      modifies this`cur, this`pending, this`armed, this`sent, this`boxes
      ensures St() == Published(old(St())) && boxes == Filled(old(boxes), old(St()), St())
    {
      armed := false;
      if !pending.Nothing? { cur := cur.(change := pending); }
      pending := Nothing;
      sent := sent + [cur];
      for i := 0 to |boxes|
        modifies this`boxes
        invariant |boxes| == |old(boxes)| && forall j :: 0 <= j < i ==> boxes[j] == Some(cur)
      {
        if boxes[i].Some? { boxes := boxes[i := None]; }
        boxes := boxes[i := Some(cur)];
      }
    }

    /** recompute, once the startup record has been settled. */
    method Recompute(now: int, grace: bool, rest: nat) returns (ghost r: Round)
      requires Given() && Inv(St(), hold)
      modifies this`cur, this`revoked, this`revokedW, this`pending, this`armed, this`sent, this`boxes
      ensures LegalRound(old(St()), r, hold) && St() == Next(old(St()), r, settle) && Inv(St(), hold)
      ensures boxes == Filled(old(boxes), old(St()), St())
      ensures var src := Picked(sources, preferRa);
              var u := Offered(sources, src, grace).prefixes;
              var ras := if FromRa in sources && (src != Some(FromRa) || u == []) then sources[FromRa].prefixes else [];
              && r.lan.now == now && r.rest == rest && Sound(u)
              && r.noRouter == (FromRa in sources && sources[FromRa].noRouter)
              // and entry by entry
              && LanMeans(r.lan.live, u, ula, ulaPd, lans, now) && WanMeans(r.wan.live, u, ras, now)
              && r.lan.live == LansOf(lans, u, now) + UlaLans(lans, Ulas(ula, ulaPd, now))
              && r.wan.live == WithRa(WanOf(u, now), ras, now)
    {
      hide SideInv, Legal, Turned, Actives, Gone, Kept, Classified, Fresh, LansOf, WanOf, WithRa, UlaLans, Ulas;
      var src, u := PickSource(grace);
      var ra := if FromRa in sources then sources[FromRa] else Update([], false);
      var ras := if src != Some(FromRa) || u.prefixes == [] then ra.prefixes else [];
      var lan, wan := HandOut(now, u.prefixes, ras);
      HandedFresh(u.prefixes, ras, now);
      LanIs(lans, u.prefixes, ula, ulaPd, now);
      WanIs(u.prefixes, ras, now);
      hide LanMeans, WanMeans;
      r := Advance(now, lan, wan, ra.noRouter, rest);
    }

    lemma HandedFresh(items: seq<Item>, ras: seq<Item>, now: int)
      requires Given() && Sound(items) && Sound(ras)
      ensures Fresh(LansOf(lans, items, now) + UlaLans(lans, Ulas(ula, ulaPd, now)))
      ensures Fresh(WithRa(WanOf(items, now), ras, now))
    {
      hide LansOf, WanOf, WithRa, UlaLans;
      LansOfFresh(lans, items, now);
      WanOfFresh(items, now);
      WithRaFresh(WanOf(items, now), ras, now);
      DelegatedFresh(ulaPd, now);
      UlaLansFresh(lans, Ulas(ula, ulaPd, now));
    }

    /** The rest of it: the sides turned, the change classified, the consumers told or the timer set. */
    method Advance(now: int, lan: seq<Entry>, wan: seq<Entry>, noRouter: bool, rest: nat) returns (ghost r: Round)
      requires Inv(St(), hold) && Fresh(lan) && Fresh(wan)
      modifies this`cur, this`revoked, this`revokedW, this`pending, this`armed, this`sent, this`boxes
      ensures LegalRound(old(St()), r, hold) && St() == Next(old(St()), r, settle) && Inv(St(), hold)
      ensures boxes == Filled(old(boxes), old(St()), St())
      ensures r.lan.now == now && r.lan.live == lan && r.wan.live == wan && r.noRouter == noRouter && r.rest == rest
    {
      hide SideInv, Legal, Turned, Actives, Gone, Kept, Classified, Filled;
      Unfilled(boxes);
      ghost var t, tw;
      var list, listW, rev, revW, gone, over, goneW, overW;
      list, rev, gone, over, t := Retire(cur.lan, revoked, lan, now, hold, false);
      listW, revW, goneW, overW, tw := Retire(cur.wan, revokedW, wan, now, WAN_HOLD, true);
      r := Round(t, tw, noRouter, rest);
      RoundKeeps(St(), r, hold, settle);
      var change := if gone || over || overW then Revoke else Nothing;
      if change.Nothing? { change := Classify(list, listW, noRouter, rest); }
      var routerChanged := cur.noRouter != noRouter;
      revoked, revokedW := rev, revW;
      cur := Snapshot(now, list, listW, noRouter, rest, change);
      if change.Nothing? { return; }
      if Rank(change) > Rank(pending) { pending := change; }
      armed := true;
      if settle == 0 || change.Revoke? || routerChanged { Publish(); }
    }
  }

  function Order(preferRa: bool): (o: seq<Source>)
    ensures |o| == 3
  {
    if preferRa then [FromStatic, FromRa, FromPd] else [FromStatic, FromPd, FromRa]
  }

  predicate Gives(sources: map<Source, Update>, k: Source) {
    k in sources && sources[k].prefixes != []
  }

  function Picked(sources: map<Source, Update>, preferRa: bool): (src: Option<Source>)
    ensures src.Some? ==> src.value in sources
  {
    var o := Order(preferRa);
    if Gives(sources, o[0]) then Some(o[0]) else if Gives(sources, o[1]) then Some(o[1])
    else if Gives(sources, o[2]) then Some(o[2])
    else if o[0] in sources then Some(o[0]) else if o[1] in sources then Some(o[1])
    else if o[2] in sources then Some(o[2]) else None
  }

  function Offered(sources: map<Source, Update>, src: Option<Source>, grace: bool): Update
    requires src.Some? ==> src.value in sources
  {
    if src.None? then Update([], false)
    else if src.value.FromRa? && FromPd !in sources && grace then sources[src.value].(prefixes := [])
    else sources[src.value]
  }

  /** What is configured comes first, and then the delegation, or, where the Router Advertisement is
      preferred, that. */
  lemma OrderIs(preferRa: bool)
    ensures var o := Order(preferRa);
            && o[0] == FromStatic && {o[1], o[2]} == {FromPd, FromRa} && (o[1] == FromRa <==> preferRa)
  {
  }

  /** A source with prefixes is picked before any without, and of either kind the first in order; none only when
      there is none at all. */
  lemma PickedIs(sources: map<Source, Update>, preferRa: bool, i: nat, j: nat)
    requires i < 3 && j < 3 && Picked(sources, preferRa) == Some(Order(preferRa)[i])
    ensures var o := Order(preferRa);
            && o[i] in sources
            && (j != i && o[j] in sources && sources[o[j]].prefixes != [] ==> sources[o[i]].prefixes != [] && i < j)
            && (j < i && o[j] in sources ==> sources[o[j]].prefixes == [] && sources[o[i]].prefixes != [])
  {
  }

  lemma PickedNone(sources: map<Source, Update>, preferRa: bool)
    ensures Picked(sources, preferRa).None? <==> FromStatic !in sources && FromPd !in sources && FromRa !in sources
    ensures Picked(sources, preferRa).Some? ==> Picked(sources, preferRa).value in Order(preferRa)
  {
  }

  /** The advertised prefixes are held back if and only if a delegation may still come. */
  lemma OfferedIs(sources: map<Source, Update>, src: Source, grace: bool)
    requires src in sources
    ensures var u := Offered(sources, Some(src), grace);
            && u.noRouter == sources[src].noRouter
            && (src == FromRa && FromPd !in sources && grace ==> u.prefixes == [])
            && (!(src == FromRa && FromPd !in sources && grace) ==> u.prefixes == sources[src].prefixes)
  {
  }

  method Compare(prior: seq<Entry>, list: seq<Entry>, wan: bool, c0: Change) returns (c: Change)
    requires Rank(c0) <= 2
    ensures c == if c0.Add? || AnyAdds(prior, list, wan) then Add
                 else if c0.Renew? || AnyRenews(prior, list, wan) then Renew else Nothing
  {
    hide Adds, Renews, Was;
    c := c0;
    for i := 0 to |list|
      invariant c == if c0.Add? || AnyAdds(prior, list[..i], wan) then Add
                     else if c0.Renew? || AnyRenews(prior, list[..i], wan) then Renew else Nothing
    {
      var p := list[i].p;
      var was, own := Was(prior, p, wan), !wan && OwnUla(p);
      AnyNext(prior, list, wan, i);
      if Adds(p, was, own) {
        c := Add;
      } else if c.Nothing? && Renews(p, was, own) {
        c := Renew;
      }
    }
    assert list[..|list|] == list;
  }

  lemma AnyNext(prior: seq<Entry>, list: seq<Entry>, wan: bool, i: nat)
    requires i < |list|
    ensures var p := list[i].p;
            && (AnyAdds(prior, list[..i + 1], wan) <==>
                  AnyAdds(prior, list[..i], wan) || Adds(p, Was(prior, p, wan), !wan && OwnUla(p)))
            && (AnyRenews(prior, list[..i + 1], wan) <==>
                  AnyRenews(prior, list[..i], wan) || Renews(p, Was(prior, p, wan), !wan && OwnUla(p)))
  {
    hide Adds, Renews, Was;
    assert list[..i + 1] == list[..i] + [list[i]];
    assert list[i] in list[..i + 1];
  }
}
