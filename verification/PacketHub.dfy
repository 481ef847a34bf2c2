/** The capture hub: one socket for all listeners on an interface, opened and filtered for what they
want, and opened again when it is lost. Every opening is of a generation; what comes late from an
older one must change nothing.

A socket is open while its reader runs. The reader of a socket that is closed, or lost, ends, and
later tells the hub so; the hub's timers fire at any time after they are set. */
module PacketHub {
  import opened Wire

  datatype Kind = Tunnel | Solicitation

  /** What a socket lets through: frames of some kinds, or everything, where the kernel refused its filter. */
  datatype Filter = Only(kinds: set<Kind>) | Everything

  /** A frame, by its kind if it is of any. */
  type Frame = Option<Kind>

  predicate Captures(f: Filter, x: Frame) {
    f.Everything? || (x.Some? && x.value in f.kinds)
  }

  /** How opening goes: it fails, or the filter is attached, or it is not, and the socket is kept without. */
  datatype Opening = Fails | Filtered | Unfiltered

  function FilterFor(how: Opening, kinds: set<Kind>): Filter {
    if how.Unfiltered? then Everything else Only(kinds)
  }

  /** stop is the generation of the socket the hub holds. readers are the sockets open, by generation,
      with their filters; exits are the generations whose readers have ended and not said so yet, timers
      those a timer is set for; live is the context. */
  datatype State = State(subs: map<nat, set<Kind>>, stop: Option<int>, kinds: set<Kind>, gen: int,
                         readers: map<int, Filter>, exits: set<int>, timers: set<int>, live: bool)

  function Wanted(subs: map<nat, set<Kind>>): set<Kind> {
    set s, k | s in subs && k in subs[s] :: k
  }

  /** The hub closes the socket it holds. */
  function Closed(st: State): State {
    if st.stop.None? then st
    else
      var g := st.stop.value;
      st.(stop := None, readers := st.readers - {g}, exits := st.exits + if g in st.readers then {g} else {})
  }

  /** open, which the interface or the kernel may fail: then a timer is set. */
  function Opened(st: State, how: Opening): State {
    if !how.Fails? then st.(stop := Some(st.gen), readers := st.readers[st.gen := FilterFor(how, st.kinds)])
    else st.(timers := st.timers + {st.gen})
  }

  function Reconciled(st: State, how: Opening): State {
    var want := Wanted(st.subs);
    if want == {} then Closed(st)
    else if st.stop.Some? && want == st.kinds then st
    else Opened(Closed(st).(kinds := want, gen := st.gen + 1), how)
  }

  /** A reader's end is told. */
  function Exited(st: State, g: int): State {
    var told := st.(exits := st.exits - {g});
    if st.gen != g || st.stop.None? then told  // closed by the hub itself
    else if st.subs == map[] || !st.live then told.(stop := None)
    else told.(stop := None, gen := st.gen + 1, timers := st.timers + {st.gen + 1})
  }

  function Fired(st: State, g: int, how: Opening): State {
    var off := st.(timers := st.timers - {g});
    if st.gen == g && st.stop.None? && st.subs != map[] then Opened(off, how) else off
  }

  /** A socket is lost: its interface went. */
  function Lost(st: State, g: int): State {
    st.(readers := st.readers - {g}, exits := st.exits + {g})
  }

  class Hub {
    var subs: map<nat, set<Kind>>
    var stop: Option<int>
    var kinds: set<Kind>
    var gen: int
    // the world around it
    var readers: map<int, Filter>
    var exits: set<int>
    var timers: set<int>
    var live: bool

    ghost function St(): State
      reads this
    {
      State(subs, stop, kinds, gen, readers, exits, timers, live)
    }

    constructor ()
      ensures St() == State(map[], None, {}, 0, map[], {}, {}, true)
    {
      subs, stop, kinds, gen := map[], None, {}, 0;
      readers, exits, timers, live := map[], {}, {}, true;
    }

    method Subscribe(id: nat, want: set<Kind>, how: Opening)
      modifies this
      ensures St() == Reconciled(old(St()).(subs := old(subs)[id := want]), how)
    {
      subs := subs[id := want];
      Reconcile(how);
    }

    method Close(id: nat, how: Opening)
      modifies this
      ensures St() == Reconciled(old(St()).(subs := old(subs) - {id}), how)
    {
      subs := subs - {id};
      Reconcile(how);
    }

    method StopSocket()
      requires stop.Some?
      modifies this`stop, this`readers, this`exits
      ensures St() == Closed(old(St()))
    {
      if stop.value in readers { exits := exits + {stop.value}; }
      readers := readers - {stop.value};
      stop := None;
    }

    method Reconcile(how: Opening)
      modifies this`stop, this`kinds, this`gen, this`readers, this`exits, this`timers
      ensures St() == Reconciled(old(St()), how)
    {
      var want := Union();
      if want == {} {
        if stop.Some? { StopSocket(); }
        return;
      }
      if stop.Some? && want == kinds { return; }
      if stop.Some? { StopSocket(); }
      kinds := want;
      gen := gen + 1;
      Open(gen, how);
    }

    method Union() returns (want: set<Kind>)
      ensures want == Wanted(subs)
    {
      want := {};
      var todo := subs.Keys;
      while todo != {}
        invariant todo <= subs.Keys
        invariant want == set s, k | s in subs && s !in todo && k in subs[s] :: k
      {
        var s :| s in todo;
        todo := todo - {s};
        want := want + subs[s];
      }
    }

    method Open(g: int, how: Opening)
      requires g == gen
      modifies this`stop, this`readers, this`timers
      ensures St() == Opened(old(St()), how)
    {
      if !how.Fails? {
        stop := Some(g);
        readers := readers[g := FilterFor(how, kinds)];
      } else {
        timers := timers + {g};
      }
    }

    method OnReaderExit(g: int)
      modifies this`stop, this`gen, this`exits, this`timers
      ensures St() == Exited(old(St()), g)
    {
      exits := exits - {g};
      if gen != g || stop.None? { return; }
      stop := None;
      if subs == map[] || !live { return; }
      gen := gen + 1;
      timers := timers + {gen};
    }

    /** dispatch, for one frame. */
    method Dispatch(g: int, k: Kind) returns (to: set<nat>)
      ensures to == Handed(St(), g, k)
    {
      to := {};
      if gen != g { return; }
      var todo := subs.Keys;
      while todo != {}
        invariant todo <= subs.Keys
        invariant to == set s | s in subs && s !in todo && k in subs[s]
      {
        var s :| s in todo;
        todo := todo - {s};
        if k in subs[s] { to := to + {s}; }
      }
    }

    method OnTimer(g: int, how: Opening)
      modifies this`stop, this`readers, this`timers
      ensures St() == Fired(old(St()), g, how)
    {
      timers := timers - {g};
      if gen == g && stop.None? && subs != map[] { Open(g, how); }
    }
  }

  /** Who is handed a frame of kind k that the socket of generation g captured. */
  function Handed(st: State, g: int, k: Kind): set<nat> {
    if st.gen != g then {} else set s | s in st.subs && k in st.subs[s]
  }

  // ---- What holds in every state

  /** Every listener wants something. */
  predicate Wants(subs: map<nat, set<Kind>>) {
    forall s :: s in subs ==> subs[s] != {}
  }

  /** What does not depend on the listeners. */
  ghost predicate Steady(st: State) {
    && Wants(st.subs)
    // nothing is of a generation to come
    && (forall g :: g in st.readers || g in st.exits || g in st.timers ==> g <= st.gen)
    // the socket held is of this generation, open or about to say that it is not, and there is no other
    && (forall g :: g in st.readers ==> st.stop == Some(g) && st.readers[g] in {Only(st.kinds), Everything})
    && (st.stop.Some? ==> st.stop.value == st.gen && (st.gen in st.readers || st.gen in st.exits) && st.gen !in st.timers)
    // one reader ends once, and a generation a timer is set for has had none
    && (forall g :: g in st.exits ==> g !in st.readers && g !in st.timers)
  }

  /** What is held, or to be opened, is for what is wanted, and a retry is due when there is nothing. */
  ghost predicate Inv(st: State) {
    && Steady(st)
    && (st.stop.Some? || st.subs != map[] ==> st.kinds == Wanted(st.subs) && st.subs != map[])
    && (st.subs != map[] && st.stop.None? && st.live ==> st.gen in st.timers)
  }

  lemma WantedNone(subs: map<nat, set<Kind>>)
    requires Wants(subs)
    ensures Wanted(subs) == {} <==> subs == map[]
  {
    if subs != map[] {
      var s :| s in subs;
      assert subs[s] <= Wanted(subs);
    }
  }

  lemma {:induction false} ReconcileKeeps(st: State, how: Opening)
    requires Steady(st)
    ensures Inv(Reconciled(st, how))
  {
    hide Wanted;
    WantedNone(st.subs);
  }

  lemma ExitKeeps(st: State, g: int)
    requires Inv(st) && g in st.exits
    ensures Inv(Exited(st, g))
  {
    hide Wanted;
  }

  lemma FireKeeps(st: State, g: int, how: Opening)
    requires Inv(st) && g in st.timers
    ensures Inv(Fired(st, g, how))
  {
    hide Wanted;
  }

  lemma LostKeeps(st: State, g: int)
    requires Inv(st) && g in st.readers
    ensures Inv(Lost(st, g))
  {
    hide Wanted;
  }

  /** A change of listeners that changes nothing that is wanted leaves the socket be; any other closes it, and
      opens one anew, under a new generation, unless nothing is wanted. */
  lemma ReconcileIff(st: State, how: Opening)
    ensures var to, want := Reconciled(st, how), Wanted(st.subs);
            && (want != {} && st.stop.Some? && want == st.kinds ==> to == st)
            && (want == {} ==> to.stop.None? && to.gen == st.gen)
            && (want != {} && !(st.stop.Some? && want == st.kinds) ==>
                  && to.gen == st.gen + 1 && to.kinds == want
                  && (if how.Fails? then to.stop.None? && to.gen in to.timers
                      else to.stop == Some(to.gen) && to.gen in to.readers && to.readers[to.gen] == FilterFor(how, want)))
            // and the end of what it closes will be told
            && (st.stop.Some? && to.stop != st.stop && st.stop.value <= st.gen ==>
                  var g := st.stop.value; g !in to.readers && (g in to.exits <==> g in st.readers || g in st.exits))
  {
    hide Wanted;
  }

  /** The end of a reader is acted on if and only if it is the socket's that the hub holds; then it is let go,
      and retried under the next generation if and only if somebody still listens and the context lives. */
  lemma ExitedIff(st: State, g: int)
    ensures var to := Exited(st, g);
            && to == st.(stop := to.stop, gen := to.gen, exits := st.exits - {g}, timers := to.timers)
            && (to.stop != st.stop <==> st.gen == g && st.stop.Some?)
            && (to.stop != st.stop ==> to.stop.None?)
            && (to.gen != st.gen <==> st.gen == g && st.stop.Some? && st.subs != map[] && st.live)
            && (if to.gen != st.gen then to.gen == st.gen + 1 && to.timers == st.timers + {to.gen} else to.timers == st.timers)
  {
  }

  /** A timer opens a socket if and only if it is this generation's, there is none, and somebody listens. */
  lemma FiredIff(st: State, g: int, how: Opening)
    ensures var to, off := Fired(st, g, how), st.(timers := st.timers - {g});
            if st.gen == g && st.stop.None? && st.subs != map[] then
              if how.Fails? then to == st.(timers := st.timers + {g})
              else to == off.(stop := Some(g), readers := st.readers[g := FilterFor(how, st.kinds)])
            else to == off
  {
  }

  // ---- Whole runs

  datatype Event =
    | Subscribes(id: nat, want: set<Kind>, how: Opening)
    | Closes(id: nat, how: Opening)
    | Loses(g: int)
    | Exits(g: int)
    | Fires(g: int, how: Opening)
    | Ends

  function Step(st: State, e: Event): State {
    match e
    case Subscribes(id, want, how) => Reconciled(st.(subs := st.subs[id := want]), how)
    case Closes(id, how) => Reconciled(st.(subs := st.subs - {id}), how)
    case Loses(g) => Lost(st, g)
    case Exits(g) => Exited(st, g)
    case Fires(g, how) => Fired(st, g, how)
    case Ends => st.(live := false)
  }

  predicate Enabled(st: State, e: Event) {
    match e
    case Subscribes(_, want, _) => want != {}
    case Closes(_, _) => true
    case Loses(g) => g in st.readers
    case Exits(g) => g in st.exits
    case Fires(g, _) => g in st.timers
    case Ends => true
  }

  datatype Trace = Start | Then(before: Trace, e: Event)

  function After(tr: Trace): State {
    match tr
    case Start => State(map[], None, {}, 0, map[], {}, {}, true)
    case Then(before, e) => Step(After(before), e)
  }

  predicate Legal(tr: Trace) {
    tr.Then? ==> Legal(tr.before) && Enabled(After(tr.before), tr.e)
  }

  lemma {:induction false} StepKeeps(st: State, e: Event)
    requires Inv(st) && Enabled(st, e)
    ensures Inv(Step(st, e))
  {
    hide Wanted, Reconciled, Exited, Fired, Lost;
    match e {
      case Subscribes(id, want, how) => ReconcileKeeps(st.(subs := st.subs[id := want]), how);
      case Closes(id, how) => ReconcileKeeps(st.(subs := st.subs - {id}), how);
      case Loses(g) => LostKeeps(st, g);
      case Exits(g) => ExitKeeps(st, g);
      case Fires(g, how) => FireKeeps(st, g, how);
      case Ends =>
    }
  }

  lemma {:induction false} RunKeeps(tr: Trace)
    requires Legal(tr)
    ensures Inv(After(tr))
  {
    hide Inv, Step, Enabled;
    match tr {
      case Start => StartHolds();
      case Then(before, e) =>
        RunKeeps(before);
        StepKeeps(After(before), e);
    }
  }

  lemma StartHolds()
    ensures Inv(After(Start))
  {
  }

  /** In every state: one socket at most is open, filtered for exactly what the listeners want; and while
      there are listeners, no socket, and the context lives, the hub is on its way to one. */
  lemma {:induction false} RunSafe(tr: Trace, g: int, h: int)
    requires Legal(tr)
    ensures var st := After(tr);
            && (g in st.readers && h in st.readers ==> g == h)
            && (g in st.readers ==> g == st.gen && st.readers[g] in {Only(Wanted(st.subs)), Everything})
            && (st.subs != map[] && st.live && st.readers == map[] ==>
                  (st.stop.None? && st.gen in st.timers) || (st.stop == Some(st.gen) && st.gen in st.exits))
  {
    hide After, Wanted;
    RunKeeps(tr);
  }

  function Append(tr: Trace, more: Trace): Trace {
    match more
    case Start => tr
    case Then(before, e) => Then(Append(tr, before), e)
  }

  /** e is the end of a reader, or a timer, of a generation that is over. */
  predicate Late(st: State, e: Event) {
    (e.Exits? || e.Fires?) && e.g < st.gen
  }

  /** st as it is when e has come too, which is late. */
  function Told(st: State, e: Event): State {
    if e.Exits? then st.(exits := st.exits - {e.g}) else if e.Fires? then st.(timers := st.timers - {e.g}) else st
  }

  /** What a late event leaves out of the state, the next event never misses. */
  lemma {:induction false} LateStep(st: State, e: Event, next: Event)
    requires Inv(st) && Late(st, e) && Enabled(Told(st, e), next)
    ensures Enabled(st, next) && Late(Step(st, next), e) && Step(Told(st, e), next) == Told(Step(st, next), e)
  {
    hide Wanted;
    if next.Subscribes? || next.Closes? {
      var subs := if next.Subscribes? then st.subs[next.id := next.want] else st.subs - {next.id};
      LateReconciled(st.(subs := subs), e, next.how);
      assert Told(st, e).(subs := subs) == Told(st.(subs := subs), e);
    }
  }

  lemma {:induction false} LateReconciled(st: State, e: Event, how: Opening)
    requires Late(st, e) && (st.stop.Some? ==> st.stop.value == st.gen)
    ensures Late(Reconciled(st, how), e) && Reconciled(Told(st, e), how) == Told(Reconciled(st, how), e)
  {
    hide Wanted;
    var want, off := Wanted(st.subs), Closed(st);
    LateClosed(st, e);
    hide Closed;
    LateOpened(off.(kinds := want, gen := st.gen + 1), e, how);
    hide Opened;
    assert Told(off, e).(kinds := want, gen := st.gen + 1) == Told(off.(kinds := want, gen := st.gen + 1), e);
  }

  lemma LateClosed(st: State, e: Event)
    requires Late(st, e) && (st.stop.Some? ==> st.stop.value == st.gen)
    ensures Closed(st).gen == st.gen && Closed(Told(st, e)) == Told(Closed(st), e)
  {
  }

  lemma LateOpened(st: State, e: Event, how: Opening)
    requires Late(st, e)
    ensures Opened(st, how).gen == st.gen && Opened(Told(st, e), how) == Told(Opened(st, how), e)
  {
  }

  /** The end of a reader, or a timer, of an older generation changes nothing, at once or later: whatever
      follows it could have happened without it, and leaves the hub and its socket as it would have. */
  lemma {:induction false} OldChangesNothing(before: Trace, e: Event, more: Trace)
    requires Legal(Append(Then(before, e), more)) && (e.Exits? || e.Fires?) && e.g != After(before).gen
    ensures Legal(Append(before, more))
    ensures Late(After(Append(before, more)), e)
    ensures After(Append(Then(before, e), more)) == Told(After(Append(before, more)), e)
  {
    hide Inv, Step, Enabled, Told;
    match more {
      case Start =>
        RunKeeps(before);
        LateNow(After(before), e);
      case Then(rest, next) =>
        OldChangesNothing(before, e, rest);
        RunKeeps(Append(before, rest));
        LateStep(After(Append(before, rest)), e, next);
    }
  }

  lemma LateNow(st: State, e: Event)
    requires Inv(st) && Enabled(st, e) && (e.Exits? || e.Fires?) && e.g != st.gen
    ensures Late(st, e) && Step(st, e) == Told(st, e)
  {
  }

  /** A retry that is due, and whose interface is back, gives the listeners their socket again. */
  lemma {:induction false} RetryOpens(tr: Trace)
    requires Legal(tr)
    requires var st := After(tr); st.subs != map[] && st.live && st.stop.None?
    ensures var st, e := After(tr), Fires(After(tr).gen, Filtered);
            Enabled(st, e) && Step(st, e).readers == map[st.gen := Only(Wanted(st.subs))]
  {
    hide After, Wanted;
    RunKeeps(tr);
    var st := After(tr);
    assert forall g :: g in st.readers ==> st.stop == Some(g);
    assert st.readers.Keys == {};
  }

  /** Who is handed a frame, whatever it is. */
  function HandedFrame(st: State, g: int, x: Frame): set<nat> {
    if x.None? then {} else Handed(st, g, x.value)
  }

  /** An open socket captures what is wanted: a listener gets every frame of a kind it asked for. What it
      captures besides, which is nothing exactly when the filter was attached, nobody is handed. */
  lemma {:induction false} CapturesWanted(tr: Trace, g: int, x: Frame)
    requires Legal(tr) && g in After(tr).readers
    ensures HandedFrame(After(tr), g, x) != {} ==> Captures(After(tr).readers[g], x)
    ensures x.Some? ==> forall s :: s in After(tr).subs && x.value in After(tr).subs[s] ==> s in HandedFrame(After(tr), g, x)
  {
    hide After;
    RunKeeps(tr);
    var st := After(tr);
    if HandedFrame(st, g, x) != {} {
      var s :| s in HandedFrame(st, g, x);
      assert s in st.subs && x.value in st.subs[s];
    }
  }

  lemma {:induction false} CapturesOnly(tr: Trace, g: int)
    requires Legal(tr) && g in After(tr).readers
    ensures (forall x :: Captures(After(tr).readers[g], x) ==> HandedFrame(After(tr), g, x) != {})
              <==> !After(tr).readers[g].Everything?
  {
    hide After;
    RunKeeps(tr);
    var st := After(tr);
    if st.readers[g].Everything? {
      assert Captures(st.readers[g], None);
    } else {
      forall x | Captures(st.readers[g], x) ensures HandedFrame(st, g, x) != {} {
        var s :| s in st.subs && x.value in st.subs[s];
        assert s in HandedFrame(st, g, x);
      }
    }
  }

  /** The opening that gave the socket its filter: of the trace, the last that opened one. */
  function LastOpening(tr: Trace): Opening {
    match tr
    case Start => Fails
    case Then(before, e) => if Opens(tr) then How(e) else LastOpening(before)
  }

  /** Its last event opens a socket. */
  predicate Opens(tr: Trace)
    requires tr.Then?
  {
    After(tr).stop.Some? && After(tr).stop != After(tr.before).stop
  }

  /** An open socket is as it was, or has just been opened. */
  predicate OpenAs(st: State, to: State, how: Opening, g: int) {
    g in to.readers ==>
      if to.stop.Some? && to.stop != st.stop then !how.Fails? && to.readers[g] == FilterFor(how, to.kinds)
      else g in st.readers && to.readers[g] == st.readers[g]
  }

  lemma {:induction false} ReconcileOpens(st: State, how: Opening, g: int)
    requires Steady(st)
    ensures OpenAs(st, Reconciled(st, how), how, g)
  {
    hide Wanted;
  }

  function How(e: Event): Opening {
    if e.Subscribes? || e.Closes? || e.Fires? then e.how else Fails
  }

  lemma {:induction false} StepOpens(st: State, e: Event, g: int)
    requires Inv(st) && Enabled(st, e)
    ensures OpenAs(st, Step(st, e), How(e), g)
  {
    hide Wanted, Reconciled;
    match e {
      case Subscribes(id, want, how) => ReconcileOpens(st.(subs := st.subs[id := want]), how, g);
      case Closes(id, how) => ReconcileOpens(st.(subs := st.subs - {id}), how, g);
      case _ =>
    }
  }

  /** The socket is unfiltered exactly when the kernel refused the filter when it was opened. */
  lemma {:induction false} UnfilteredIff(tr: Trace, g: int)
    requires Legal(tr) && g in After(tr).readers
    ensures After(tr).readers[g].Everything? <==> LastOpening(tr).Unfiltered?
  {
    hide Inv, Step, Enabled;
    match tr {
      case Start => assert false;
      case Then(before, e) =>
        RunKeeps(before);
        StepOpens(After(before), e, g);
        if !Opens(tr) { UnfilteredIff(before, g); }
    }
  }
}
