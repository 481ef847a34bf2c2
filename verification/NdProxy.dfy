/** The Neighbor Discovery proxy's table: which addresses are known on which side of the router, who is
waiting to hear of one, and the routes made for them. Times are in milliseconds. */
module NdProxy {
  import opened Arith
  import opened Wire

  const MAX_SESSIONS: nat := 4096
  const MAX_ASKERS: nat := 8
  const SECOND: int := 1000

  datatype Side = Wan | Lan

  function Other(s: Side): Side { if s.Wan? then Lan else Wan }

  datatype Phase = Probing | Confirmed | Invalid

  datatype Session = Session(phase: Phase, side: Side, expires: int, asked: int)

  datatype Asker = Asker(addr: nat, side: Side)

  datatype State = State(sessions: map<nat, Session>, pending: map<nat, seq<Asker>>, routes: map<nat, int>,
                         fullSince: int, warned: bool)

  /** The sessions go with everything derived from them. */
  function Forgotten(st: State, gone: set<nat>): State {
    st.(sessions := st.sessions - gone, pending := st.pending - gone, routes := st.routes - gone)
  }

  function Expired(st: State, now: int): set<nat> {
    set a | a in st.sessions && now > st.sessions[a].expires
  }

  function Unanswered(st: State): set<nat> {
    set a | a in st.sessions && st.sessions[a].phase.Probing?
  }

  /** Room for one more: what is over goes first, then what nobody has answered for. */
  function Admitted(st: State, now: int): (State, bool) {
    if |st.sessions| < MAX_SESSIONS then (st, true)
    else if now - st.fullSince < SECOND then (st, false)
    else
      var swept := Forgotten(st, Expired(st, now));
      var cut := if |swept.sessions| >= MAX_SESSIONS then Forgotten(swept, Unanswered(swept)) else swept;
      if |cut.sessions| < MAX_SESSIONS then (cut.(warned := false), true)
      else (cut.(fullSince := now, warned := true), false)
  }

  /** via is the interface a route to the target is needed on, and ok whether the kernel takes it. */
  datatype Routing = Routing(via: Option<int>, ok: bool)

  function Routed(st: State, target: nat, route: Routing): State {
    if route.via.None? || (target in st.routes && st.routes[target] == route.via.value) then st
    else
      var off := st.routes - {target};
      st.(routes := if route.ok then off[target := route.via.value] else off)
  }

  function Confirms(st: State, side: Side, target: nat, expires: int): State {
    var asked := if target in st.sessions then st.sessions[target].asked else 0;
    st.(sessions := st.sessions[target := Session(Confirmed, side, expires, asked)])
  }

  function Learned(st: State, side: Side, target: nat, now: int, ttl: nat, route: Routing): State {
    var (room, fits) := if target in st.sessions then (st, true) else Admitted(st, now);
    if !fits then room else Routed(Confirms(room, side, target, now + ttl), target, route)
  }

  function Appended(list: seq<Asker>, a: Asker): seq<Asker> {
    if a in list || |list| >= MAX_ASKERS then list else list + [a]
  }

  /** An asker joins those who wait; a solicitation of the router's own has none. */
  function Waits(st: State, target: nat, asker: Option<Asker>): State {
    if asker.None? then st
    else
      var list := if target in st.pending then st.pending[target] else [];
      st.(pending := st.pending[target := Appended(list, asker.value)])
  }

  // ---- What holds

  predicate Distinct(list: seq<Asker>) {
    |list| <= MAX_ASKERS && forall i, j :: 0 <= i < j < |list| ==> list[i] != list[j]
  }

  ghost predicate Inv(st: State) {
    && |st.sessions| <= MAX_SESSIONS
    && st.pending.Keys <= st.sessions.Keys && st.routes.Keys <= st.sessions.Keys
    && forall a :: a in st.pending ==> Distinct(st.pending[a])
  }

  lemma {:induction false} ForgetKeeps(st: State, gone: set<nat>)
    requires Inv(st)
    ensures Inv(Forgotten(st, gone))
  {
    hide Distinct;
    var kept := st.sessions - gone;
    assert kept.Keys <= st.sessions.Keys;
    SubsetSize(kept.Keys, st.sessions.Keys);
  }

  lemma {:induction false} AdmitKeeps(st: State, now: int)
    requires Inv(st)
    ensures Inv(Admitted(st, now).0) && (Admitted(st, now).1 ==> |Admitted(st, now).0.sessions| < MAX_SESSIONS)
  {
    hide Distinct, Expired, Unanswered, Forgotten;
    var swept := Forgotten(st, Expired(st, now));
    ForgetKeeps(st, Expired(st, now));
    ForgetKeeps(swept, Unanswered(swept));
  }

  lemma {:induction false} ConfirmKeeps(st: State, side: Side, target: nat, expires: int)
    requires Inv(st) && (target in st.sessions || |st.sessions| < MAX_SESSIONS)
    ensures Inv(Confirms(st, side, target, expires)) && target in Confirms(st, side, target, expires).sessions
  {
    hide Distinct;
    var to := Confirms(st, side, target, expires);
    assert to.sessions.Keys == st.sessions.Keys + {target};
  }

  lemma RouteKeeps(st: State, target: nat, route: Routing)
    requires Inv(st) && target in st.sessions
    ensures Inv(Routed(st, target, route)) && Routed(st, target, route).sessions == st.sessions
  {
    hide Distinct;
  }

  lemma {:induction false} LearnKeeps(st: State, side: Side, target: nat, now: int, ttl: nat, route: Routing)
    requires Inv(st)
    ensures Inv(Learned(st, side, target, now, ttl, route))
  {
    hide Inv, Admitted, Confirms, Routed;
    AdmitKeeps(st, now);
    var room := if target in st.sessions then st else Admitted(st, now).0;
    if target in st.sessions || Admitted(st, now).1 {
      ConfirmKeeps(room, side, target, now + ttl);
      RouteKeeps(Confirms(room, side, target, now + ttl), target, route);
    }
  }

  lemma AppendKeeps(list: seq<Asker>, a: Asker)
    requires Distinct(list)
    ensures Distinct(Appended(list, a))
  {
  }

  lemma {:induction false} WaitKeeps(st: State, target: nat, asker: Option<Asker>)
    requires Inv(st) && target in st.sessions
    ensures Inv(Waits(st, target, asker))
  {
    if asker.Some? {
      AppendKeeps(if target in st.pending then st.pending[target] else [], asker.value);
      hide Distinct, Appended;
    }
  }

  // ---- What is confirmed stays

  predicate Holds(st: State, a: nat, t: int) {
    a in st.sessions && st.sessions[a].phase.Confirmed? && st.sessions[a].expires >= t
  }

  lemma {:induction false} AdmitHolds(st: State, now: int, a: nat, t: int)
    requires Holds(st, a, t) && now <= t
    ensures Holds(Admitted(st, now).0, a, t) && Admitted(st, now).0.sessions[a] == st.sessions[a]
  {
    var swept := Forgotten(st, Expired(st, now));
    ForgetHolds(st, Expired(st, now), a, t);
    ForgetHolds(swept, Unanswered(swept), a, t);
    hide Forgotten, Expired, Unanswered;
  }

  lemma ForgetHolds(st: State, gone: set<nat>, a: nat, t: int)
    requires Holds(st, a, t) && a !in gone
    ensures Holds(Forgotten(st, gone), a, t) && Forgotten(st, gone).sessions[a] == st.sessions[a]
  {
  }

  lemma {:induction false} LearnHolds(st: State, side: Side, target: nat, now: int, ttl: nat, route: Routing, a: nat, t: int)
    requires Holds(st, a, t) && now <= t && (target == a ==> t <= now + ttl)
    ensures Holds(Learned(st, side, target, now, ttl, route), a, t)
  {
    hide Admitted;
    AdmitHolds(st, now, a, t);
  }

  // ---- The proxy

  datatype Mode = Forward | ByPrefix

  /** What is sent: an answer to the asker, or a probe on a side. */
  datatype Sends = Silence | Answers | Probes(side: Side)

  /** A solicitation for a target in the scope: from is none when the router itself asks; learn when
      the sender's own address is to be learnt, of that route. */
  datatype Solicit = Solicit(side: Side, target: nat, from: Option<nat>, learn: bool, route: Routing, now: int)

  function Asking(e: Solicit): Option<Asker> {
    if e.from.None? then None else Some(Asker(e.from.value, e.side))
  }

  /** Forward mode: the other side is probed, unless it has been within the second. */
  function Forwarded(st: State, e: Solicit): (State, Sends) {
    var known := e.target in st.sessions;
    if known && st.sessions[e.target].phase.Confirmed? then
      (st, if st.sessions[e.target].side != e.side && e.from.Some? then Answers else Silence)
    else if known && st.sessions[e.target].phase.Invalid? then (st, Silence)
    else if known && e.now - st.sessions[e.target].asked < SECOND then (Waits(st, e.target, Asking(e)), Silence)
    else
      var (room, fits) := if known then (st, true) else Admitted(st, e.now);
      if !fits then (room, Silence)
      else
        var probing := Session(Probing, Other(e.side), e.now + 3 * SECOND, e.now);
        (Waits(room.(sessions := room.sessions[e.target := probing]), e.target, Asking(e)), Probes(Other(e.side)))
  }

  /** Prefix mode answers on the WAN for every address of the LAN, asked for or not. */
  function Vouched(st: State, e: Solicit, ttl: nat): (State, Sends) {
    if !e.side.Wan? || e.from.None? then (st, Silence)
    else
      var (room, fits) := Admitted(st, e.now);
      (if fits then room.(sessions := room.sessions[e.target := Session(Confirmed, Lan, e.now + ttl, 0)]) else room, Answers)
  }

  function Solicited(st: State, mode: Mode, e: Solicit, ttl: nat): (State, Sends) {
    if mode.ByPrefix? then Vouched(st, e, ttl)
    else Forwarded(if e.learn && e.from.Some? then Learned(st, e.side, e.from.value, e.now, ttl, e.route) else st, e)
  }

  /** An advertisement: the target is there, and those who wait are told; covered, when it may be learnt
      of unasked. */
  datatype Advert = Advert(side: Side, target: nat, covered: bool, route: Routing, now: int)

  function Advertised(st: State, e: Advert, ttl: nat): State {
    if e.target !in st.sessions then
      if e.side.Lan? && e.covered then Learned(st, Lan, e.target, e.now, ttl, e.route) else st
    else
      var to := Learned(st, e.side, e.target, e.now, ttl, e.route);
      to.(pending := to.pending - {e.target})
  }

  /** Those told: the ones on the other side, who wait for a target that is known. */
  function Told(st: State, e: Advert): seq<Asker> {
    if e.target in st.sessions && e.target in st.pending then OnOther(st.pending[e.target], e.side) else []
  }

  function OnOther(list: seq<Asker>, side: Side): (r: seq<Asker>)
    ensures forall a :: a in r <==> a in list && a.side != side
  {
    if list == [] then []
    else OnOther(list[..|list| - 1], side) + if list[|list| - 1].side != side then [list[|list| - 1]] else []
  }

  lemma {:induction false} SolicitKeeps(st: State, mode: Mode, e: Solicit, ttl: nat)
    requires Inv(st)
    ensures Inv(Solicited(st, mode, e, ttl).0)
  {
    hide Inv, Learned, Forwarded, Vouched;
    if mode.ByPrefix? {
      VouchKeeps(st, e, ttl);
    } else {
      if e.from.Some? { LearnKeeps(st, e.side, e.from.value, e.now, ttl, e.route); }
      ForwardKeeps(if e.learn && e.from.Some? then Learned(st, e.side, e.from.value, e.now, ttl, e.route) else st, e);
    }
  }

  lemma {:induction false} SetKeeps(st: State, target: nat, s: Session)
    requires Inv(st) && (target in st.sessions || |st.sessions| < MAX_SESSIONS)
    ensures Inv(st.(sessions := st.sessions[target := s]))
  {
    hide Distinct;
    assert st.sessions[target := s].Keys == st.sessions.Keys + {target};
  }

  lemma {:induction false} VouchKeeps(st: State, e: Solicit, ttl: nat)
    requires Inv(st)
    ensures Inv(Vouched(st, e, ttl).0)
  {
    hide Inv, Admitted;
    AdmitKeeps(st, e.now);
    var (room, fits) := Admitted(st, e.now);
    if fits { SetKeeps(room, e.target, Session(Confirmed, Lan, e.now + ttl, 0)); }
  }

  lemma {:induction false} ForwardKeeps(st: State, e: Solicit)
    requires Inv(st)
    ensures Inv(Forwarded(st, e).0)
  {
    hide Inv, Admitted, Waits;
    AdmitKeeps(st, e.now);
    if e.target in st.sessions { WaitKeeps(st, e.target, Asking(e)); }
    var (room, fits) := if e.target in st.sessions then (st, true) else Admitted(st, e.now);
    if fits {
      var probing := Session(Probing, Other(e.side), e.now + 3 * SECOND, e.now);
      SetKeeps(room, e.target, probing);
      WaitKeeps(room.(sessions := room.sessions[e.target := probing]), e.target, Asking(e));
    }
  }

  lemma {:induction false} AdvertKeeps(st: State, e: Advert, ttl: nat)
    requires Inv(st)
    ensures Inv(Advertised(st, e, ttl))
  {
    hide Learned, Distinct;
    LearnKeeps(st, e.side, e.target, e.now, ttl, e.route);
  }

  lemma {:induction false} SolicitHolds(st: State, mode: Mode, e: Solicit, ttl: nat, a: nat, t: int)
    requires Holds(st, a, t) && e.now <= t <= e.now + ttl
    ensures Holds(Solicited(st, mode, e, ttl).0, a, t)
  {
    hide Admitted, Learned;
    if mode.ByPrefix? {
      AdmitHolds(st, e.now, a, t);
    } else {
      var to := if e.learn && e.from.Some? then Learned(st, e.side, e.from.value, e.now, ttl, e.route) else st;
      if e.from.Some? { LearnHolds(st, e.side, e.from.value, e.now, ttl, e.route, a, t); }
      AdmitHolds(to, e.now, a, t);
    }
  }

  lemma {:induction false} AdvertHolds(st: State, e: Advert, ttl: nat, a: nat, t: int)
    requires Holds(st, a, t) && e.now <= t <= e.now + ttl
    ensures Holds(Advertised(st, e, ttl), a, t)
  {
    hide Learned;
    LearnHolds(st, e.side, e.target, e.now, ttl, e.route, a, t);
  }

  class Proxy {
    const ttl: nat
    const mode: Mode
    var sessions: map<nat, Session>
    var pending: map<nat, seq<Asker>>
    var routes: map<nat, int>
    var fullSince: int
    var warned: bool

    ghost function St(): State
      reads this
    {
      State(sessions, pending, routes, fullSince, warned)
    }

    constructor (ttl: nat, mode: Mode)
      ensures this.ttl == ttl && this.mode == mode && Inv(St()) && sessions == map[]
    {
      this.ttl, this.mode := ttl, mode;
      sessions, pending, routes, fullSince, warned := map[], map[], map[], -SECOND, false;
    }

    method Forget(a: nat)
      modifies this`sessions, this`pending, this`routes
      ensures St() == Forgotten(old(St()), {a})
    {
      sessions := sessions - {a};
      pending := pending - {a};
      routes := routes - {a};
    }

    /** The sessions in gone, one by one. */
    method ForgetAll(gone: set<nat>)
      modifies this`sessions, this`pending, this`routes
      ensures St() == Forgotten(old(St()), gone)
    {
      var todo := gone;
      while todo != {}
        invariant todo <= gone && St() == Forgotten(old(St()), gone - todo)
      {
        var a :| a in todo;
        todo := todo - {a};
        ForgottenTwice(old(St()), gone - todo - {a}, a);
        assert gone - todo - {a} + {a} == gone - todo;
        Forget(a);
      }
      assert gone - todo == gone;
    }

    method Sweep(now: int)
      modifies this`sessions, this`pending, this`routes
      ensures St() == Forgotten(old(St()), Expired(old(St()), now))
    {
      ForgetAll(set a | a in sessions && now > sessions[a].expires);
    }

    method Admit(now: int) returns (fits: bool)
      modifies this
      ensures (St(), fits) == Admitted(old(St()), now)
    {
      hide Forgotten;
      if |sessions| < MAX_SESSIONS { return true; }
      if now - fullSince < SECOND { return false; }
      Sweep(now);
      if |sessions| >= MAX_SESSIONS {
        ForgetAll(set a | a in sessions && sessions[a].phase.Probing?);
      }
      if |sessions| < MAX_SESSIONS {
        warned := false;
        return true;
      }
      fullSince, warned := now, true;
      fits := false;
    }

    method Learn(side: Side, target: nat, now: int, route: Routing)
      modifies this
      ensures St() == Learned(old(St()), side, target, now, ttl, route)
    {
      hide Admitted;
      var asked := 0;
      if target in sessions {
        asked := sessions[target].asked;
      } else {
        var fits := Admit(now);
        if !fits { return; }
        if target in sessions { asked := sessions[target].asked; }
      }
      sessions := sessions[target := Session(Confirmed, side, now + ttl, asked)];
      if route.via.None? { return; }
      if target in routes && routes[target] == route.via.value { return; }
      routes := routes - {target};
      if route.ok { routes := routes[target := route.via.value]; }
    }

    /** appendAsker. */
    method Await(target: nat, asker: Option<Asker>)
      modifies this`pending
      ensures St() == Waits(old(St()), target, asker)
    {
      if asker.None? { return; }
      var list := if target in pending then pending[target] else [];
      if asker.value !in list && |list| < MAX_ASKERS { list := list + [asker.value]; }
      pending := pending[target := list];
    }

    method OnSolicit(e: Solicit) returns (sends: Sends)
      modifies this
      ensures (St(), sends) == Solicited(old(St()), mode, e, ttl)
    {
      hide Admitted, Learned, Waits;
      if mode.Forward? && e.learn && e.from.Some? { Learn(e.side, e.from.value, e.now, e.route); }
      if mode.ByPrefix? {
        if !e.side.Wan? || e.from.None? { return Silence; }
        var fits := Admit(e.now);
        if fits { sessions := sessions[e.target := Session(Confirmed, Lan, e.now + ttl, 0)]; }
        return Answers;
      }
      var known := e.target in sessions;
      if known && sessions[e.target].phase.Confirmed? {
        return if sessions[e.target].side != e.side && e.from.Some? then Answers else Silence;
      }
      if known && sessions[e.target].phase.Invalid? { return Silence; }
      if known && e.now - sessions[e.target].asked < SECOND {
        Await(e.target, Asking(e));
        return Silence;
      }
      if !known {
        var fits := Admit(e.now);
        if !fits { return Silence; }
      }
      sessions := sessions[e.target := Session(Probing, Other(e.side), e.now + 3 * SECOND, e.now)];
      Await(e.target, Asking(e));
      sends := Probes(Other(e.side));
    }

    method OnAdvert(e: Advert) returns (told: seq<Asker>)
      modifies this
      ensures St() == Advertised(old(St()), e, ttl) && told == Told(old(St()), e)
    {
      hide Learned;
      told := if e.target in sessions && e.target in pending then OnOther(pending[e.target], e.side) else [];
      if e.target !in sessions {
        if e.side.Lan? && e.covered { Learn(Lan, e.target, e.now, e.route); }
        return;
      }
      Learn(e.side, e.target, e.now, e.route);
      pending := pending - {e.target};
    }
  }

  lemma ForgottenTwice(st: State, gone: set<nat>, a: nat)
    ensures Forgotten(Forgotten(st, gone), {a}) == Forgotten(st, gone + {a})
  {
  }

  // ---- Whole runs

  datatype Event = Solicits(s: Solicit) | Adverts(a: Advert) | Sweeps(at: int) | Rebuilt(when: int)

  function At(e: Event): int {
    match e case Solicits(s) => s.now case Adverts(a) => a.now case Sweeps(at) => at case Rebuilt(when) => when
  }

  datatype Trace = Start(st: State) | Then(before: Trace, e: Event)

  function Step(st: State, mode: Mode, ttl: nat, e: Event): State {
    match e
    case Solicits(s) => Solicited(st, mode, s, ttl).0
    case Adverts(a) => Advertised(st, a, ttl)
    case Sweeps(at) => Forgotten(st, Expired(st, at))
    case Rebuilt(_) => st.(routes := map[])  // the routes are lost with the interface
  }

  function After(tr: Trace, mode: Mode, ttl: nat): State {
    match tr
    case Start(st) => st
    case Then(before, e) => Step(After(before, mode, ttl), mode, ttl, e)
  }

  function First(tr: Trace): State {
    match tr case Start(st) => st case Then(before, _) => First(before)
  }

  lemma {:induction false} StepKeeps(st: State, mode: Mode, ttl: nat, e: Event)
    requires Inv(st)
    ensures Inv(Step(st, mode, ttl, e))
  {
    hide Solicited, Advertised, Forgotten, Distinct;
    match e {
      case Solicits(s) => SolicitKeeps(st, mode, s, ttl);
      case Adverts(a) => AdvertKeeps(st, a, ttl);
      case Sweeps(at) => ForgetKeeps(st, Expired(st, at));
      case Rebuilt(_) =>
    }
  }

  /** Over any run the table has no more than MAX_SESSIONS sessions, whoever waits waits for one of them,
      as do no more than MAX_ASKERS, no one twice, and every route is one of theirs. */
  lemma {:induction false} RunKeeps(tr: Trace, mode: Mode, ttl: nat)
    requires Inv(First(tr))
    ensures Inv(After(tr, mode, ttl))
  {
    hide Inv, Step;
    if tr.Then? {
      RunKeeps(tr.before, mode, ttl);
      StepKeeps(After(tr.before, mode, ttl), mode, ttl, tr.e);
    }
  }

  /** Every event is between the time since and t. */
  predicate Within(tr: Trace, since: int, t: int) {
    tr.Then? ==> Within(tr.before, since, t) && since <= At(tr.e) <= t
  }

  lemma {:induction false} StepHolds(st: State, mode: Mode, ttl: nat, e: Event, a: nat, t: int)
    requires Holds(st, a, t) && At(e) <= t <= At(e) + ttl
    ensures Holds(Step(st, mode, ttl, e), a, t)
  {
    hide Solicited, Advertised;
    match e {
      case Solicits(s) => SolicitHolds(st, mode, s, ttl, a, t);
      case Adverts(s) => AdvertHolds(st, s, ttl, a, t);
      case Sweeps(_) =>
      case Rebuilt(_) =>
    }
  }

  /** A neighbour confirmed at since is in the table, confirmed, until it expires: whatever arrives in
      between, and however full the table is. */
  lemma {:induction false} NeverEvicted(tr: Trace, mode: Mode, ttl: nat, a: nat, since: int, t: int)
    requires Holds(First(tr), a, t) && Within(tr, since, t) && t <= since + ttl
    ensures Holds(After(tr, mode, ttl), a, t)
  {
    hide Holds, Step;
    if tr.Then? {
      NeverEvicted(tr.before, mode, ttl, a, since, t);
      StepHolds(After(tr.before, mode, ttl), mode, ttl, tr.e, a, t);
    }
  }

  /** The sessions a full table keeps: those that are neither over nor unanswered. */
  function Lasting(st: State, now: int): set<nat> {
    set a | a in st.sessions && now <= st.sessions[a].expires && !st.sessions[a].phase.Probing?
  }

  /** Room for one more is found if and only if there is some, or there is without what is over or unanswered
      and none has been refused within the second; and what there is room for is left alone. */
  lemma {:induction false} AdmitIff(st: State, now: int)
    ensures Admitted(st, now).1 <==>
              |st.sessions| < MAX_SESSIONS || (now - st.fullSince >= SECOND && |Lasting(st, now)| < MAX_SESSIONS)
    ensures |st.sessions| < MAX_SESSIONS ==> Admitted(st, now).0 == st
    ensures |st.sessions| >= MAX_SESSIONS && now - st.fullSince < SECOND ==> Admitted(st, now).0 == st
    ensures forall a :: a in Lasting(st, now) ==>
              a in Admitted(st, now).0.sessions && Admitted(st, now).0.sessions[a] == st.sessions[a]
    ensures !Admitted(st, now).1 && now - st.fullSince >= SECOND ==>
              Admitted(st, now).0.fullSince == now && Admitted(st, now).0.warned
    ensures Admitted(st, now).1 && |st.sessions| >= MAX_SESSIONS ==> !Admitted(st, now).0.warned
  {
    CutIs(st, now);
    hide Forgotten, Expired, Unanswered, Lasting;
    assert forall a :: a in Lasting(st, now) ==> a in st.sessions;
  }

  lemma CutIs(st: State, now: int)
    ensures var swept := Forgotten(st, Expired(st, now));
            var cut := Forgotten(swept, Unanswered(swept));
            && |cut.sessions| == |Lasting(st, now)| <= |swept.sessions|
            && swept.fullSince == st.fullSince
            && (forall a :: a in Lasting(st, now) ==>
                  && a in st.sessions && a in swept.sessions && swept.sessions[a] == st.sessions[a]
                  && a in cut.sessions && cut.sessions[a] == st.sessions[a])
  {
    var swept := Forgotten(st, Expired(st, now));
    var cut := Forgotten(swept, Unanswered(swept));
    assert cut.sessions.Keys == Lasting(st, now);
    SubsetSize(Lasting(st, now), swept.sessions.Keys);
  }

  // ---- What is sent

  /** What the last event of a run has sent, if it is a solicitation. */
  function Sent(tr: Trace, mode: Mode, ttl: nat): Sends {
    if tr.Then? && tr.e.Solicits? then Solicited(After(tr.before, mode, ttl), mode, tr.e.s, ttl).1 else Silence
  }

  /** The table once the asker itself is learnt. */
  function Heard(st: State, e: Solicit, ttl: nat): State {
    if e.learn && e.from.Some? then Learned(st, e.side, e.from.value, e.now, ttl, e.route) else st
  }

  predicate KnownOn(st: State, a: nat, side: Side) {
    a in st.sessions && st.sessions[a].phase.Confirmed? && st.sessions[a].side == side
  }

  /** In forward mode an answer is sent if and only if somebody asks for what is known on the other side. */
  lemma {:induction false} AnswersIff(tr: Trace, ttl: nat)
    requires tr.Then? && tr.e.Solicits?
    ensures var s := tr.e.s;
            Sent(tr, Forward, ttl).Answers? <==>
              s.from.Some? && KnownOn(Heard(After(tr.before, Forward, ttl), s, ttl), s.target, Other(s.side))
  {
    hide After, Learned, Admitted, Waits;
  }

  /** The target may be probed: it is new and there is room, or it has been probed and not within the second. */
  predicate Probable(st: State, a: nat, now: int) {
    if a in st.sessions then st.sessions[a].phase.Probing? && now - st.sessions[a].asked >= SECOND
    else Admitted(st, now).1
  }

  /** A probe is sent if and only if the target may be probed, and to the other side only. */
  lemma {:induction false} ProbesIff(tr: Trace, ttl: nat, x: Side)
    requires tr.Then? && tr.e.Solicits?
    ensures var s := tr.e.s;
            Sent(tr, Forward, ttl) == Probes(x) <==>
              x == Other(s.side) && Probable(Heard(After(tr.before, Forward, ttl), s, ttl), s.target, s.now)
    ensures Sent(tr, Forward, ttl).Probes? ==>
              var st, a := After(tr, Forward, ttl), tr.e.s.target;
              a in st.sessions && st.sessions[a] == Session(Probing, Other(tr.e.s.side), tr.e.s.now + 3 * SECOND, tr.e.s.now)
  {
    hide Learned, Admitted;
    assert After(tr, Forward, ttl) == Step(After(tr.before, Forward, ttl), Forward, ttl, tr.e);
  }

  /** a's session lasts from base on, through every event and the learning in it. */
  predicate Lasts(tr: Trace, base: Trace, ttl: nat, a: nat) {
    if tr == base then a in After(tr, Forward, ttl).sessions
    else
      && tr.Then? && Lasts(tr.before, base, ttl, a) && a in After(tr, Forward, ttl).sessions
      && (tr.e.Solicits? ==> a in Heard(After(tr.before, Forward, ttl), tr.e.s, ttl).sessions)
  }

  lemma HeardAsked(st: State, e: Solicit, ttl: nat, a: nat)
    requires a in st.sessions && a in Heard(st, e, ttl).sessions
    ensures Heard(st, e, ttl).sessions[a].asked == st.sessions[a].asked
  {
    LearnAsked(st, e.side, if e.from.Some? then e.from.value else 0, e.now, ttl, e.route, a);
    hide Learned;
  }

  lemma LearnAsked(st: State, side: Side, target: nat, now: int, ttl: nat, route: Routing, a: nat)
    requires a in st.sessions
    ensures var to := Learned(st, side, target, now, ttl, route);
            a in to.sessions ==> to.sessions[a].asked == st.sessions[a].asked
  {
    hide Admitted;
    AdmitRoutes(st, now, a);
  }

  lemma {:induction false} ForwardAsked(st: State, e: Solicit, a: nat)
    requires a in st.sessions
    ensures var to := Forwarded(st, e).0; a in to.sessions ==> to.sessions[a].asked >= st.sessions[a].asked
  {
    hide Admitted;
    AdmitRoutes(st, e.now, a);
  }

  lemma {:induction false} AskedGrows(tr: Trace, base: Trace, ttl: nat, a: nat)
    requires Lasts(tr, base, ttl, a)
    ensures a in After(base, Forward, ttl).sessions && a in After(tr, Forward, ttl).sessions
    ensures After(tr, Forward, ttl).sessions[a].asked >= After(base, Forward, ttl).sessions[a].asked
  {
    hide Learned, Forwarded, Forgotten, Heard;
    if tr != base {
      AskedGrows(tr.before, base, ttl, a);
      StepAsked(After(tr.before, Forward, ttl), ttl, tr.e, a);
    }
  }

  lemma {:induction false} StepAsked(st: State, ttl: nat, e: Event, a: nat)
    requires a in st.sessions && a in Step(st, Forward, ttl, e).sessions
    requires e.Solicits? ==> a in Heard(st, e.s, ttl).sessions
    ensures Step(st, Forward, ttl, e).sessions[a].asked >= st.sessions[a].asked
  {
    hide Learned, Forwarded;
    match e {
      case Solicits(s) =>
        HeardAsked(st, s, ttl, a);
        ForwardAsked(Heard(st, s, ttl), s, a);
      case Adverts(v) => LearnAsked(st, v.side, v.target, v.now, ttl, v.route, a);
      case _ =>
    }
  }

  /** Two probes of one session are a second apart at least. */
  lemma {:induction false} ProbedApart(base: Trace, tr: Trace, ttl: nat)
    requires tr.Then? && tr.e.Solicits? && base.Then? && base.e.Solicits? && base.e.s.target == tr.e.s.target
    requires Sent(base, Forward, ttl).Probes? && Sent(tr, Forward, ttl).Probes?
    requires Lasts(tr.before, base, ttl, tr.e.s.target)
    requires tr.e.s.target in Heard(After(tr.before, Forward, ttl), tr.e.s, ttl).sessions
    ensures tr.e.s.now - base.e.s.now >= SECOND
  {
    hide After, Heard, Lasts;
    var s := tr.e.s;
    ProbesIff(base, ttl, Other(base.e.s.side));
    ProbesIff(tr, ttl, Other(s.side));
    ProbedTo(base, ttl);
    ProbedTo(tr, ttl);
    AskedGrows(tr.before, base, ttl, s.target);
    HeardAsked(After(tr.before, Forward, ttl), s, ttl, s.target);
  }

  lemma ProbedTo(tr: Trace, ttl: nat)
    requires tr.Then? && tr.e.Solicits? && Sent(tr, Forward, ttl).Probes?
    ensures Sent(tr, Forward, ttl) == Probes(Other(tr.e.s.side))
  {
    hide After, Learned, Admitted, Waits;
  }

  /** In prefix mode everybody who asks on the WAN is answered, and nobody else, and nothing is probed. */
  lemma {:induction false} PrefixAnswersIff(tr: Trace, ttl: nat)
    requires tr.Then? && tr.e.Solicits?
    ensures Sent(tr, ByPrefix, ttl).Answers? <==> tr.e.s.side.Wan? && tr.e.s.from.Some?
    ensures !Sent(tr, ByPrefix, ttl).Probes?
  {
    hide After, Admitted;
  }

  /** Who is not answered at once waits, as long as there is room to, and the target is probed or has been. */
  lemma {:induction false} AskerWaits(tr: Trace, ttl: nat)
    requires tr.Then? && tr.e.Solicits? && tr.e.s.from.Some?
    ensures var s, st := tr.e.s, After(tr, Forward, ttl);
            var heard := Heard(After(tr.before, Forward, ttl), s, ttl);
            (if s.target in heard.sessions then heard.sessions[s.target].phase.Probing? else Admitted(heard, s.now).1) ==>
              && s.target in st.pending
              && (Asker(s.from.value, s.side) in st.pending[s.target] || |st.pending[s.target]| >= MAX_ASKERS)
  {
    hide Learned, Admitted;
    assert After(tr, Forward, ttl) == Step(After(tr.before, Forward, ttl), Forward, ttl, tr.e);
  }

  /** And is told when the target shows up on the other side, and then waits no longer. */
  lemma ToldIff(st: State, e: Advert, ttl: nat, x: Asker)
    ensures x in Told(st, e) <==>
              e.target in st.sessions && e.target in st.pending && x in st.pending[e.target] && x.side != e.side
    ensures e.target in st.sessions ==> e.target !in Advertised(st, e, ttl).pending
  {
    hide Learned;
  }

  // ---- Routes and sides

  /** The interfaces of the two sides, and on which of them the layout asks for a route to each target. */
  datatype Links = Links(wan: int, lan: int, needWan: bool, needLan: bool)

  predicate Proper(l: Links) {
    l.wan != l.lan
  }

  function Link(l: Links, s: Side): int { if s.Wan? then l.wan else l.lan }

  predicate Need(l: Links, s: Side) { if s.Wan? then l.needWan else l.needLan }

  function Via(l: Links, s: Side): Option<int> { if Need(l, s) then Some(Link(l, s)) else None }

  /** The routes the event asks for are the layout's. */
  predicate Fits(e: Event, l: Links) {
    match e
    case Solicits(s) => s.route.via == Via(l, s.side)
    case Adverts(a) => a.route.via == Via(l, a.side)
    case _ => true
  }

  predicate AllFit(tr: Trace, l: Links) {
    tr.Then? ==> AllFit(tr.before, l) && Fits(tr.e, l)
  }

  /** There is a session for it, or room for one. */
  predicate Taken(st: State, a: nat, now: int) {
    a in st.sessions || Admitted(st, now).1
  }

  /** The side the event shows a to be on, if it does. */
  function Learns(st: State, mode: Mode, e: Event, a: nat): Option<Side> {
    match e
    case Solicits(s) =>
      if mode.Forward? && s.learn && s.from == Some(a) && Taken(st, a, s.now) then Some(s.side) else None
    case Adverts(v) =>
      if v.target == a && (a in st.sessions || (v.side.Lan? && v.covered && Taken(st, a, v.now))) then Some(v.side) else None
    case _ => None
  }

  /** The side a was last learnt on. */
  function LastLearnt(tr: Trace, mode: Mode, ttl: nat, a: nat): Option<Side> {
    match tr
    case Start(_) => None
    case Then(before, e) =>
      var now := Learns(After(before, mode, ttl), mode, e, a);
      if now.Some? then now else LastLearnt(before, mode, ttl, a)
  }

  /** What is left of what there was. */
  predicate Left(st: State, to: State, a: nat) {
    && (a in to.routes ==> a in st.routes && to.routes[a] == st.routes[a])
    && (a in to.sessions ==> a in st.sessions && to.sessions[a] == st.sessions[a])
  }

  lemma ForgetLeaves(st: State, gone: set<nat>, a: nat)
    ensures Left(st, Forgotten(st, gone), a)
  {
  }

  lemma AdmitRoutes(st: State, now: int, a: nat)
    ensures Left(st, Admitted(st, now).0, a)
  {
    var swept := Forgotten(st, Expired(st, now));
    ForgetLeaves(st, Expired(st, now), a);
    ForgetLeaves(swept, Unanswered(swept), a);
    hide Forgotten, Expired, Unanswered;
  }

  lemma {:induction false} LearnRoutes(st: State, side: Side, target: nat, now: int, ttl: nat, route: Routing, a: nat)
    ensures var to := Learned(st, side, target, now, ttl, route);
            a in to.routes ==>
              if a == target && Taken(st, a, now) && route.via.Some? then to.routes[a] == route.via.value
              else a in st.routes && to.routes[a] == st.routes[a]
    ensures var to := Learned(st, side, target, now, ttl, route);
            a in to.sessions ==>
              if a == target && Taken(st, a, now) then to.sessions[a].side == side && to.sessions[a].phase.Confirmed?
              else a in st.sessions && to.sessions[a] == st.sessions[a]
  {
    hide Admitted, Confirms, Routed;
    AdmitRoutes(st, now, a);
    var room := if target in st.sessions then st else Admitted(st, now).0;
    ConfirmIs(room, side, target, now + ttl, a);
    RouteIs(Confirms(room, side, target, now + ttl), target, route, a);
  }

  lemma ConfirmIs(st: State, side: Side, target: nat, expires: int, a: nat)
    ensures var to := Confirms(st, side, target, expires);
            && to.routes == st.routes
            && (a in to.sessions ==>
                  if a == target then to.sessions[a].side == side && to.sessions[a].phase.Confirmed?
                  else a in st.sessions && to.sessions[a] == st.sessions[a])
  {
  }

  lemma RouteIs(st: State, target: nat, route: Routing, a: nat)
    ensures var to := Routed(st, target, route);
            && to.sessions == st.sessions
            && (a in to.routes ==>
                  if a == target && route.via.Some? then to.routes[a] == route.via.value
                  else a in st.routes && to.routes[a] == st.routes[a])
  {
  }

  /** Learning where there is room. */
  lemma LearnedHere(st: State, side: Side, target: nat, now: int, ttl: nat, route: Routing)
    requires target in st.sessions || |st.sessions| < MAX_SESSIONS
    ensures Learned(st, side, target, now, ttl, route) == Routed(Confirms(st, side, target, now + ttl), target, route)
  {
  }

  lemma AnswerRoutes(st: State, e: Solicit, ttl: nat, a: nat)
    ensures var to := Forwarded(st, e).0; a in to.routes ==> a in st.routes && to.routes[a] == st.routes[a]
    ensures var to := Vouched(st, e, ttl).0; a in to.routes ==> a in st.routes && to.routes[a] == st.routes[a]
  {
    hide Admitted;
    AdmitRoutes(st, e.now, a);
  }

  /** Only learning makes a route, and only on a side that needs one. */
  lemma {:induction false} StepRoutes(st: State, mode: Mode, ttl: nat, e: Event, l: Links, a: nat)
    requires Fits(e, l)
    ensures var to, s := Step(st, mode, ttl, e), Learns(st, mode, e, a);
            a in to.routes ==>
              if s.Some? && Need(l, s.value) then to.routes[a] == Link(l, s.value)
              else a in st.routes && to.routes[a] == st.routes[a]
  {
    hide Learned, Admitted;
    match e {
      case Solicits(s) =>
        var to := if s.learn && s.from.Some? then Learned(st, s.side, s.from.value, s.now, ttl, s.route) else st;
        if s.learn && s.from.Some? { LearnRoutes(st, s.side, s.from.value, s.now, ttl, s.route, a); }
        AnswerRoutes(st, s, ttl, a);
        AnswerRoutes(to, s, ttl, a);
        hide Forwarded, Vouched;
      case Adverts(v) => LearnRoutes(st, v.side, v.target, v.now, ttl, v.route, a);
      case _ =>
    }
  }

  /** Where a route of a run is: on the side its target was last learnt on, if that needs one, else on the
      other, where it was left. */
  lemma {:induction false} RouteSides(tr: Trace, mode: Mode, ttl: nat, l: Links, a: nat)
    requires First(tr).routes == map[] && AllFit(tr, l) && a in After(tr, mode, ttl).routes
    ensures var s := LastLearnt(tr, mode, ttl, a);
            && s.Some?
            && var x := if Need(l, s.value) then s.value else Other(s.value);
               Need(l, x) && After(tr, mode, ttl).routes[a] == Link(l, x)
  {
    hide Step, Learns, Fits;
    if tr.Then? {
      StepRoutes(After(tr.before, mode, ttl), mode, ttl, tr.e, l, a);
      if a in After(tr.before, mode, ttl).routes { RouteSides(tr.before, mode, ttl, l, a); }
    }
  }

  /** So a route is on the side of its session exactly when either the session still says what was last
      learnt, and that side needs a route, or neither. */
  lemma {:induction false} SidesAgreeIff(tr: Trace, mode: Mode, ttl: nat, l: Links, a: nat)
    requires Proper(l) && First(tr).routes == map[] && AllFit(tr, l)
    requires a in After(tr, mode, ttl).routes && a in After(tr, mode, ttl).sessions
    ensures LastLearnt(tr, mode, ttl, a).Some?
    ensures var st, s := After(tr, mode, ttl), LastLearnt(tr, mode, ttl, a).value;
            st.routes[a] == Link(l, st.sessions[a].side) <==> (st.sessions[a].side == s <==> Need(l, s))
  {
    hide After, AllFit;
    RouteSides(tr, mode, ttl, l, a);
  }

  /** Of a target with a route the session is what was learnt last, in forward mode. */
  predicate Settled(st: State, a: nat, s: Option<Side>) {
    a in st.routes ==>
      a in st.sessions && st.sessions[a].phase.Confirmed? && s == Some(st.sessions[a].side)
  }

  lemma {:induction false} StepSettles(st: State, ttl: nat, e: Event, a: nat, s: Option<Side>)
    requires Settled(st, a, s)
    ensures var now := Learns(st, Forward, e, a);
            Settled(Step(st, Forward, ttl, e), a, if now.Some? then now else s)
  {
    hide Learned, Forwarded;
    match e {
      case Solicits(v) =>
        if v.learn && v.from.Some? {
          LearnSettles(st, v.side, v.from.value, v.now, ttl, v.route, a, s);
        }
        var to := if v.learn && v.from.Some? then Learned(st, v.side, v.from.value, v.now, ttl, v.route) else st;
        var now := Learns(st, Forward, e, a);
        ForwardSettles(to, v, a, if now.Some? then now else s);
      case Adverts(v) =>
        LearnSettles(st, v.side, v.target, v.now, ttl, v.route, a, s);
      case _ =>
    }
  }

  lemma {:induction false} LearnSettles(st: State, side: Side, target: nat, now: int, ttl: nat, route: Routing, a: nat,
                                        s: Option<Side>)
    requires Settled(st, a, s)
    ensures Settled(Learned(st, side, target, now, ttl, route), a,
                    if a == target && Taken(st, a, now) then Some(side) else s)
  {
    hide Admitted;
    AdmitSettles(st, now, a, s);
  }

  lemma AdmitSettles(st: State, now: int, a: nat, s: Option<Side>)
    requires Settled(st, a, s)
    ensures Settled(Admitted(st, now).0, a, s)
  {
  }

  lemma {:induction false} ForwardSettles(st: State, e: Solicit, a: nat, s: Option<Side>)
    requires Settled(st, a, s)
    ensures Settled(Forwarded(st, e).0, a, s)
  {
    hide Admitted;
    AdmitSettles(st, e.now, a, s);
    AdmitRoutes(st, e.now, a);
  }

  lemma {:induction false} RunSettles(tr: Trace, ttl: nat, a: nat)
    requires First(tr).routes == map[]
    ensures Settled(After(tr, Forward, ttl), a, LastLearnt(tr, Forward, ttl, a))
  {
    hide Settled, Step, Learns;
    if tr.Then? {
      RunSettles(tr.before, ttl, a);
      StepSettles(After(tr.before, Forward, ttl), ttl, tr.e, a, LastLearnt(tr.before, Forward, ttl, a));
    } else {
      NoRoutes(First(tr), a);
    }
  }

  lemma NoRoutes(st: State, a: nat)
    requires st.routes == map[]
    ensures Settled(st, a, None)
  {
  }

  /** In forward mode, then, a route is on the side of its session exactly when that side needs one. */
  lemma {:induction false} ForwardAgreesIff(tr: Trace, ttl: nat, l: Links, a: nat)
    requires Proper(l) && First(tr).routes == map[] && AllFit(tr, l) && a in After(tr, Forward, ttl).routes
    ensures var st := After(tr, Forward, ttl);
            a in st.sessions && (st.routes[a] == Link(l, st.sessions[a].side) <==> Need(l, st.sessions[a].side))
  {
    hide After, AllFit;
    RunSettles(tr, ttl, a);
    SidesAgreeIff(tr, Forward, ttl, l, a);
  }

  const NOBODY: State := State(map[], map[], map[], 0, false)

  /** A host that moves from the LAN to the WAN, where the layout wants no route, leaves its route behind. */
  lemma LeftBehind(a: nat, ttl: nat)
    ensures var l := Links(2, 3, false, true);
            var tr := Then(Then(Start(NOBODY), Adverts(Advert(Lan, a, true, Routing(Some(3), true), 0))),
                           Adverts(Advert(Wan, a, true, Routing(None, true), 1)));
            var st := After(tr, Forward, ttl);
            && AllFit(tr, l) && a in st.sessions && a in st.routes
            && st.sessions[a].side == Wan && st.routes[a] == Link(l, Lan)
  {
    hide Learned;
    var e1, e2 := Adverts(Advert(Lan, a, true, Routing(Some(3), true), 0)), Adverts(Advert(Wan, a, true, Routing(None, true), 1));
    var t1 := Then(Start(NOBODY), e1);
    LearnedHere(NOBODY, Lan, a, 0, ttl, Routing(Some(3), true));
    var st1 := State(map[a := Session(Confirmed, Lan, ttl, 0)], map[], map[a := 3], 0, false);
    assert After(t1, Forward, ttl) == st1;
    LearnedHere(st1, Wan, a, 1, ttl, Routing(None, true));
    assert After(Then(t1, e2), Forward, ttl) == Step(st1, Forward, ttl, e2);
    var l := Links(2, 3, false, true);
    assert Fits(e1, l) && Fits(e2, l) && AllFit(t1, l);
  }

  /** And in prefix mode, where the layout wants one on either side, a solicitation from the WAN moves a
      session to the LAN and leaves the route that was learnt on the WAN. */
  lemma VouchedAway(a: nat, asker: nat, ttl: nat)
    ensures var l, r := Links(2, 3, true, true), Routing(Some(2), true);
            var ask := Solicits(Solicit(Wan, a, Some(asker), false, r, 0));
            var tr := Then(Then(Then(Start(NOBODY), ask), Adverts(Advert(Wan, a, true, r, 0))), ask);
            var st := After(tr, ByPrefix, ttl);
            && AllFit(tr, l) && a in st.sessions && a in st.routes
            && st.sessions[a].side == Lan && st.routes[a] == Link(l, Wan)
  {
    hide Learned, Admitted;
    var r := Routing(Some(2), true);
    var ask, adv := Solicits(Solicit(Wan, a, Some(asker), false, r, 0)), Adverts(Advert(Wan, a, true, r, 0));
    var t1 := Then(Start(NOBODY), ask);
    RoomThere(NOBODY, 0);
    var st1 := State(map[a := Session(Confirmed, Lan, ttl, 0)], map[], map[], 0, false);
    assert After(t1, ByPrefix, ttl) == st1;
    LearnedHere(st1, Wan, a, 0, ttl, r);
    var t2 := Then(t1, adv);
    var st2 := State(map[a := Session(Confirmed, Wan, ttl, 0)], map[], map[a := 2], 0, false);
    assert After(t2, ByPrefix, ttl) == st2;
    assert |st2.sessions| == |{a}| by { assert st2.sessions.Keys == {a}; }
    RoomThere(st2, 0);
    assert After(Then(t2, ask), ByPrefix, ttl) == Step(st2, ByPrefix, ttl, ask);
    var l := Links(2, 3, true, true);
    assert Fits(ask, l) && Fits(adv, l) && AllFit(t1, l) && AllFit(t2, l);
  }

  lemma RoomThere(st: State, now: int)
    requires |st.sessions| < MAX_SESSIONS
    ensures Admitted(st, now) == (st, true)
  {
  }
}
