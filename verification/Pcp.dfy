/** The PCP and NAT-PMP server's mappings (RFC 6887, RFC 6886): external ports of the tunnel's IPv4 and
pinholes of the IPv6 filter, and what of them the NAT and the filter are handed. */
module Pcp {
  import opened Arith
  import opened Wire
  import opened Ports

  const CLIENT_PORT: nat := 5350
  const SERVER_PORT: nat := 5351
  const MAX_PER_HOST: nat := 16
  const MIN_EXTERNAL: nat := 1024
  const MIN_LIFETIME: nat := 120
  const MAX_LIFETIME: nat := 86400

  datatype Host = V4(a: nat) | V6(a: nat)

  datatype Key = Key(proto: nat, host: Host, port: nat)

  datatype Mapping = Mapping(external: nat, nonce: nat, expires: int)

  type Table = map<Key, Mapping>

  /** What the NAT and the filter are told of a mapping. */
  datatype Forward = Forward(key: Key, external: nat)

  /** A channel of one slot, and what its reader last took out of it. */
  datatype Mailbox = Mailbox(slot: Option<set<Forward>>, taken: set<Forward>)

  /** setMappings and setPinholes: what has not been taken yet is replaced. */
  function Put(m: Mailbox, v: set<Forward>): Mailbox {
    m.(slot := Some(v))
  }

  function Take(m: Mailbox): Mailbox {
    if m.slot.Some? then Mailbox(None, m.slot.value) else m
  }

  /** What the reader has, or is about to take. */
  function Last(m: Mailbox): set<Forward> {
    if m.slot.Some? then m.slot.value else m.taken
  }

  /** mapIn and holeIn are none when the router does neither; ports is empty when every port is the line's. */
  datatype State = State(ipv4: Option<nat>, ports: seq<Span>, maps: Table, mapIn: Option<Mailbox>, holeIn: Option<Mailbox>,
                         start: int)

  function Forwards(t: Table, v4: bool): set<Forward> {
    set k | k in t && k.host.V4? == v4 :: Forward(k, t[k].external)
  }

  function Pushed(st: State): State {
    st.(mapIn := if st.mapIn.Some? then Some(Put(st.mapIn.value, Forwards(st.maps, true))) else None,
        holeIn := if st.holeIn.Some? then Some(Put(st.holeIn.value, Forwards(st.maps, false))) else None)
  }

  function Dropped(st: State, keys: set<Key>): State {
    if keys !! st.maps.Keys then st else Pushed(st.(maps := st.maps - keys))
  }

  function Added(st: State, key: Key, m: Mapping): State {
    Pushed(st.(maps := st.maps[key := m]))
  }

  /** A renewal tells nobody. */
  function Renewed(st: State, key: Key, expires: int): State
    requires key in st.maps
  {
    st.(maps := st.maps[key := st.maps[key].(expires := expires)])
  }

  function Keys4(t: Table): set<Key> {
    set k | k in t && k.host.V4?
  }

  function Retunnelled(st: State, addr: Option<nat>, ports: seq<Span>, now: int): State {
    if addr == st.ipv4 && ports == st.ports then st
    else Dropped(st.(ipv4 := addr, ports := ports, start := if st.ipv4.Some? then now else st.start), Keys4(st.maps))
  }

  function HostKeys(t: Table, host: Host): set<Key> {
    set k | k in t && k.host == host
  }

  // ---- What holds between requests

  /** A port of the line that may be mapped for proto. */
  predicate OwnPort(ports: seq<Span>, proto: nat, e: nat) {
    && MIN_EXTERNAL <= e <= 0xffff
    && !(proto == UDP && (e == CLIENT_PORT || e == SERVER_PORT))
    && (ports == [] || Has(ports, e))
  }

  predicate Grantable(st: State, proto: nat, e: nat) {
    OwnPort(st.ports, proto, e) && forall k :: k in st.maps && k.proto == proto ==> st.maps[k].external != e
  }

  ghost predicate PortsOwn(st: State) {
    forall k :: k in st.maps && k.host.V4? ==> st.ipv4.Some? && OwnPort(st.ports, k.proto, st.maps[k].external)
  }

  ghost predicate PortsApart(st: State) {
    forall j, k :: j in st.maps && k in st.maps && j != k && j.host.V4? && k.host.V4? && j.proto == k.proto ==>
      st.maps[j].external != st.maps[k].external
  }

  ghost predicate Quota(t: Table) {
    forall h :: |HostKeys(t, h)| <= MAX_PER_HOST
  }

  /** What was handed over is what there is. */
  ghost predicate Handed(st: State) {
    && (st.mapIn.Some? ==> Last(st.mapIn.value) == Forwards(st.maps, true))
    && (st.holeIn.Some? ==> Last(st.holeIn.value) == Forwards(st.maps, false))
  }

  ghost predicate Inv(st: State) {
    Proper(st.ports) && PortsOwn(st) && PortsApart(st) && Quota(st.maps) && Handed(st)
  }

  lemma {:induction false} QuotaFewer(t: Table, u: Table)
    requires Quota(t) && u.Keys <= t.Keys
    ensures Quota(u)
  {
    forall h ensures |HostKeys(u, h)| <= MAX_PER_HOST {
      SubsetSize(HostKeys(u, h), HostKeys(t, h));
    }
  }

  lemma {:induction false} DropKeeps(st: State, keys: set<Key>)
    requires Inv(st)
    ensures Inv(Dropped(st, keys))
  {
    QuotaFewer(st.maps, st.maps - keys);
    hide Quota, OwnPort;
  }

  lemma {:induction false} QuotaMore(t: Table, key: Key, m: Mapping)
    requires Quota(t) && |HostKeys(t, key.host)| < MAX_PER_HOST
    ensures Quota(t[key := m])
  {
    var u := t[key := m];
    forall h ensures |HostKeys(u, h)| <= MAX_PER_HOST {
      assert HostKeys(u, h) == if h == key.host then HostKeys(t, h) + {key} else HostKeys(t, h);
    }
  }

  lemma {:induction false} AddKeeps(st: State, key: Key, m: Mapping)
    requires Inv(st) && key !in st.maps && |HostKeys(st.maps, key.host)| < MAX_PER_HOST
    requires key.host.V4? ==> st.ipv4.Some? && Grantable(st, key.proto, m.external)
    ensures Inv(Added(st, key, m))
  {
    QuotaMore(st.maps, key, m);
    hide Quota, OwnPort;
  }

  /** Renewing changes nothing of what is handed over, so nothing needs to be. */
  lemma {:induction false} RenewKeeps(st: State, key: Key, expires: int)
    requires Inv(st) && key in st.maps
    ensures var to := Renewed(st, key, expires); Inv(to) && to.mapIn == st.mapIn && to.holeIn == st.holeIn
  {
    var now := Renewed(st, key, expires);
    QuotaFewer(st.maps, now.maps);
    SameForwards(st.maps, now.maps);
    hide Quota, OwnPort, Forwards;
  }

  lemma SameForwards(t: Table, u: Table)
    requires t.Keys == u.Keys && forall k :: k in t ==> t[k].external == u[k].external
    ensures forall v4 :: Forwards(t, v4) == Forwards(u, v4)
  {
    forall v4 ensures Forwards(t, v4) == Forwards(u, v4) {
      forall f | f in Forwards(t, v4) ensures f in Forwards(u, v4) { assert f.key in u; }
      forall f | f in Forwards(u, v4) ensures f in Forwards(t, v4) { assert f.key in t; }
    }
  }

  lemma {:induction false} TunnelKeeps(st: State, addr: Option<nat>, ports: seq<Span>, now: int)
    requires Inv(st) && Proper(ports)
    ensures Inv(Retunnelled(st, addr, ports, now))
  {
    if addr != st.ipv4 || ports != st.ports {
      QuotaFewer(st.maps, st.maps - Keys4(st.maps));
      hide Quota, OwnPort;
      var on := st.(ipv4 := addr, ports := ports, start := if st.ipv4.Some? then now else st.start);
      var off := Dropped(on, Keys4(st.maps));
      assert forall k :: k in off.maps ==> !k.host.V4?;
      if Keys4(st.maps) !! st.maps.Keys {
        assert off == on;
      }
    }
  }

  lemma TakeKeeps(st: State)
    requires Inv(st)
    ensures st.mapIn.Some? ==> Inv(st.(mapIn := Some(Take(st.mapIn.value))))
    ensures st.holeIn.Some? ==> Inv(st.(holeIn := Some(Take(st.holeIn.value))))
  {
    hide Quota, OwnPort, Forwards;
  }

  // ---- A request

  /** suggestedAddr is none when unspecified; ext is the address the mapping is on. */
  datatype Ask = Ask(key: Key, ext: Host, suggested: nat, suggestedAddr: Option<Host>, lifetime: nat, prefer: bool,
                     nonce: nat, now: int)

  datatype Code = NotAuthorized | MalformedRequest | MalformedOption | NetworkFailure | NoResources | UnsuppProtocol
                | UserExQuota | CannotProvideExternal

  datatype Reply = Fail(code: Code, lifetime: nat) | Mapped(lifetime: nat, external: nat)

  const SHORT: nat := 30
  const LONG: nat := 1800

  /** PREFER_FAILURE makes the suggestion a condition. */
  predicate Unmet(a: Ask, external: nat) {
    a.prefer && (a.suggested != external || (a.suggestedAddr.Some? && a.suggestedAddr.value != a.ext))
  }

  /** The mapping has to move: the router has come to listen on its port itself. */
  predicate Moves(st: State, a: Ask, stale: bool) {
    a.key in st.maps && a.lifetime != 0 && stale
  }

  /** The state a new port is picked in. */
  function Cleared(st: State, a: Ask, stale: bool): State {
    if Moves(st, a, stale) then Dropped(st, {a.key}) else st
  }

  /** What a request does, when a port that is picked for it is picked. */
  function Answer(st: State, a: Ask, stale: bool, picked: Option<nat>): (State, Reply) {
    var have := a.key in st.maps;
    if have && st.maps[a.key].nonce != a.nonce then
      var left := st.maps[a.key].expires - a.now;
      (st, Fail(NotAuthorized, if left < 0 then 0 else left))
    else if a.lifetime == 0 then
      (Dropped(st, {a.key}), Mapped(0, if have then st.maps[a.key].external else 0))
    else if have && !stale then
      if Unmet(a, st.maps[a.key].external) then (st, Fail(CannotProvideExternal, SHORT))
      else (Renewed(st, a.key, a.now + a.lifetime), Mapped(a.lifetime, st.maps[a.key].external))
    else
      var now := Cleared(st, a, stale);
      if |HostKeys(now.maps, a.key.host)| >= MAX_PER_HOST then (now, Fail(UserExQuota, SHORT))
      else if picked.None? then (now, Fail(if a.prefer then CannotProvideExternal else NoResources, SHORT))
      else if Unmet(a, picked.value) then (now, Fail(CannotProvideExternal, SHORT))
      else (Added(now, a.key, Mapping(picked.value, a.nonce, a.now + a.lifetime)), Mapped(a.lifetime, picked.value))
  }

  /** What pick promises of the port it picks. */
  predicate Pickable(st: State, a: Ask, picked: Option<nat>) {
    picked.Some? && a.key.host.V4? ==> st.ipv4.Some? && Grantable(st, a.key.proto, picked.value)
  }

  lemma {:induction false} AnswerKeeps(st: State, a: Ask, stale: bool, picked: Option<nat>)
    requires Inv(st) && Pickable(Cleared(st, a, stale), a, picked)
    ensures Inv(Answer(st, a, stale, picked).0)
  {
    hide Inv, Grantable, HostKeys, Forwards, Unmet;
    DropKeeps(st, {a.key});
    if a.key in st.maps { RenewKeeps(st, a.key, a.now + a.lifetime); }
    var now := Cleared(st, a, stale);
    if picked.Some? && a.key !in now.maps && |HostKeys(now.maps, a.key.host)| < MAX_PER_HOST {
      AddKeeps(now, a.key, Mapping(picked.value, a.nonce, a.now + a.lifetime));
    }
  }

  /** A success leaves the mapping it tells of, under the nonce that asked; a failure leaves none new. */
  lemma {:induction false} AnswerTells(st: State, a: Ask, stale: bool, picked: Option<nat>)
    requires Pickable(Cleared(st, a, stale), a, picked)
    ensures var (st', r) := Answer(st, a, stale, picked);
            && (r.Mapped? && r.lifetime > 0 ==>
                  && a.key in st'.maps && st'.maps[a.key] == Mapping(r.external, a.nonce, a.now + a.lifetime)
                  && !Unmet(a, r.external))
            && (r.Mapped? && r.lifetime == 0 ==> a.key !in st'.maps)
            && (r.Fail? ==> st'.maps.Keys <= st.maps.Keys)
            && (forall k :: k != a.key ==> (k in st'.maps <==> k in st.maps))
            && (forall k :: k != a.key && k in st.maps ==> st'.maps[k] == st.maps[k])
  {
    hide HostKeys, Forwards, Grantable;
  }

  // ---- Which requests succeed, and who may make them

  /** The key is mapped under another nonce than the one that asks. */
  predicate Foreign(st: State, a: Ask) {
    a.key in st.maps && st.maps[a.key].nonce != a.nonce
  }

  /** Nobody but who has a mapping can touch it, or learns more than when it ends. */
  lemma ForeignRefused(st: State, a: Ask, stale: bool, picked: Option<nat>)
    ensures var (st', r) := Answer(st, a, stale, picked);
            && (Foreign(st, a) ==>
                  st' == st && r == Fail(NotAuthorized, if st.maps[a.key].expires < a.now then 0 else st.maps[a.key].expires - a.now))
            && (r.Fail? && r.code.NotAuthorized? ==> Foreign(st, a))
  {
    hide HostKeys, Forwards, Unmet;
  }

  /** PREFER_FAILURE, or the port and the address asked for. */
  predicate Suits(a: Ask, external: nat) {
    !a.prefer || (a.suggested == external && (a.suggestedAddr.None? || a.suggestedAddr == Some(a.ext)))
  }

  /** The host's other mappings. */
  function OthersOf(st: State, a: Ask): set<Key> {
    set k | k in st.maps && k.host == a.key.host && k != a.key
  }

  /** A mapping is kept as it is, unless the router has come to listen on its port; a new one has to find the
      host's quota not used up and a port that suits. */
  predicate Grants(st: State, a: Ask, stale: bool, picked: Option<nat>) {
    if a.key in st.maps && !stale then Suits(a, st.maps[a.key].external)
    else |OthersOf(st, a)| < MAX_PER_HOST && picked.Some? && Suits(a, picked.value)
  }

  lemma OthersAre(st: State, a: Ask, stale: bool)
    requires a.key in st.maps ==> stale && a.lifetime != 0
    ensures HostKeys(Cleared(st, a, stale).maps, a.key.host) == OthersOf(st, a)
  {
  }

  /** A request for a mapping succeeds exactly when it is its own or nobody's, and is granted. */
  lemma {:induction false} SucceedsIff(st: State, a: Ask, stale: bool, picked: Option<nat>)
    requires a.lifetime > 0
    ensures var (st', r) := Answer(st, a, stale, picked);
            && (r.Mapped? <==> !Foreign(st, a) && Grants(st, a, stale, picked))
            && (r.Mapped? ==>
                  && r.lifetime == a.lifetime
                  && r.external == (if a.key in st.maps && !stale then st.maps[a.key].external else picked.value)
                  && st'.maps == st.maps[a.key := Mapping(r.external, a.nonce, a.now + a.lifetime)])
  {
    hide Forwards;
    if a.key !in st.maps || stale { OthersAre(st, a, stale); }
    hide HostKeys, OthersOf;
  }

  /** And this is why it fails. */
  lemma {:induction false} RefusedWhy(st: State, a: Ask, stale: bool, picked: Option<nat>)
    requires a.lifetime > 0 && !Foreign(st, a) && !Grants(st, a, stale, picked)
    ensures Answer(st, a, stale, picked).1 == Fail(
              if a.key in st.maps && !stale then CannotProvideExternal
              else if |OthersOf(st, a)| >= MAX_PER_HOST then UserExQuota
              else if picked.None? && !a.prefer then NoResources
              else CannotProvideExternal, SHORT)
  {
    hide Forwards;
    if a.key !in st.maps || stale { OthersAre(st, a, stale); }
    hide HostKeys, OthersOf;
  }

  /** What a refusal leaves: all there was, but for a mapping that has lost its port. */
  lemma {:induction false} RefusalLeaves(st: State, a: Ask, stale: bool, picked: Option<nat>)
    ensures var (st', r) := Answer(st, a, stale, picked);
            r.Fail? ==> st'.maps == (if !Foreign(st, a) && a.key in st.maps && stale then st.maps - {a.key} else st.maps)
    ensures Answer(st, a, stale, picked).1.Fail? && !(a.key in st.maps && stale) ==> Answer(st, a, stale, picked).0 == st
  {
    hide HostKeys, Forwards, Unmet;
    assert {a.key} !! st.maps.Keys ==> st.maps - {a.key} == st.maps;
  }

  /** A release under the mapping's own nonce ends it and no other, and always succeeds. */
  lemma Releases(st: State, a: Ask, stale: bool, picked: Option<nat>)
    requires a.lifetime == 0 && !Foreign(st, a)
    ensures var (st', r) := Answer(st, a, stale, picked);
            && st'.maps == st.maps - {a.key}
            && r == Mapped(0, if a.key in st.maps then st.maps[a.key].external else 0)
  {
    hide Forwards;
    assert {a.key} !! st.maps.Keys ==> st.maps - {a.key} == st.maps;
  }

  /** A port has to be looked for. */
  predicate Looks(st: State, a: Ask, stale: bool) {
    !Foreign(st, a) && a.lifetime > 0 && (a.key in st.maps ==> stale) && |OthersOf(st, a)| < MAX_PER_HOST
  }

  /** What is found: for a pinhole the port itself, and for a mapping a port of the line that nobody has, the
      one suggested when that is one; nothing only when there is nothing, or nothing else will do. */
  ghost predicate Finds(st: State, a: Ask, local: set<nat>, picked: Option<nat>) {
    if a.key.host.V6? then
      picked == if a.prefer && a.suggested != a.key.port then None else Some(a.key.port)
    else
      var free := (e: nat) => Grantable(st, a.key.proto, e) && e !in local;
      && (picked.Some? ==> free(picked.value))
      && (free(a.suggested) ==> picked == Some(a.suggested))
      && (!free(a.suggested) && !a.prefer && free(a.key.port) ==> picked == Some(a.key.port))
      && (picked.None? && !a.prefer ==> forall e :: Grantable(st, a.key.proto, e) ==> e in local)
      && (a.prefer && picked.Some? ==> picked.value == a.suggested)
  }

  /** The keys whose time has run out. */
  function Over(t: Table, now: int): set<Key> {
    set k | k in t && now > t[k].expires
  }

  /** The mappings of a host for a protocol. */
  function Of(t: Table, host: Host, proto: nat): set<Key> {
    set k | k in t && k.proto == proto && k.host == host
  }

  function Clamped(lifetime: nat): nat {
    if lifetime == 0 then 0 else if lifetime < MIN_LIFETIME then MIN_LIFETIME
    else if lifetime > MAX_LIFETIME then MAX_LIFETIME else lifetime
  }

  predicate Carries(k: Key) {
    (k.proto == TCP || k.proto == UDP) && k.port != 0
  }

  predicate PcpPort(k: Key) {
    k.proto == UDP && (k.port == CLIENT_PORT || k.port == SERVER_PORT)
  }

  /** The requests that are about a mapping. */
  predicate Mappable(st: State, a: Ask, reachable: bool) {
    && Carries(a.key) && !(a.prefer && a.lifetime == 0)
    && if a.key.host.V4? then st.ipv4.Some? else st.holeIn.Some? && reachable && !PcpPort(a.key)
  }

  /** The answer to the others: why there is none, or that an IPv6 host is reachable as it is. */
  function Declined(st: State, a: Ask, reachable: bool): Reply {
    if a.key.proto == 0 && a.key.port != 0 then Fail(MalformedRequest, LONG)
    else if a.prefer && a.lifetime == 0 then Fail(MalformedOption, LONG)
    else if a.key.host.V4? && st.ipv4.None? then Fail(NetworkFailure, SHORT)
    else if a.key.host.V6? && (PcpPort(a.key) || !reachable) then Fail(NotAuthorized, LONG)
    else if a.key.host.V6? && st.holeIn.None? then Mapped(Clamped(a.lifetime), a.key.port)
    else Fail(UnsuppProtocol, LONG)
  }

  predicate Stale(st: State, a: Ask, listening: set<nat>) {
    a.key.host.V4? && a.key in st.maps && st.maps[a.key].external in listening
  }

  /** A NAT-PMP request by its opcode; a mapping request of less than twelve bytes is Short. */
  datatype PmpRequest =
    | AddressAsked
    | MapAsked(tcp: bool, internal: nat, suggested: nat, lifetime: nat)
    | Short
    | Unknown

  datatype PmpReply = Gives(external: nat, lifetime: nat) | Refused | Down | NoMore | Own(addr: nat) | Unsupported | Silence

  function AsMap(src: nat, tcp: bool, internal: nat, suggested: nat, lifetime: nat, now: int, ipv4: nat): Ask {
    Ask(Key(if tcp then TCP else UDP, V4(src), internal), V4(ipv4), if lifetime != 0 then suggested else 0, None,
        Clamped(lifetime), false, 0, now)
  }

  function InPmp(r: Reply): PmpReply {
    match r
    case Mapped(lifetime, external) => if lifetime == 0 then Gives(0, 0) else Gives(external, lifetime)
    case Fail(code, _) => if code.NotAuthorized? then Refused else NoMore
  }

  /** The request comes to a mapping. */
  predicate PmpMaps(st: State, q: PmpRequest) {
    q.MapAsked? && st.ipv4.Some? && q.internal != 0
  }

  /** NAT-PMP's mapping request is PCP's MAP in other words, under the nonce zero, except that port 0 with
      no lifetime gives up every mapping of the host for the protocol, whoever asked for it. */
  function PmpAnswer(st: State, src: nat, q: PmpRequest, now: int, listening: set<nat>, picked: Option<nat>): (State, PmpReply) {
    match q
    case Unknown => (st, Unsupported)
    case Short => (st, Silence)
    case AddressAsked => (st, if st.ipv4.None? then Down else Own(st.ipv4.value))
    case MapAsked(tcp, internal, suggested, lifetime) =>
      if st.ipv4.None? then (st, Down)
      else if internal == 0 then
        if lifetime != 0 then (st, Refused)
        else (Dropped(st, Of(st.maps, V4(src), if tcp then TCP else UDP)), Gives(0, 0))
      else
        var a := AsMap(src, tcp, internal, suggested, lifetime, now, st.ipv4.value);
        var (st', out) := Answer(st, a, Stale(st, a, listening), picked);
        (st', InPmp(out))
  }

  class Server {
    var ipv4: Option<nat>
    var ports: seq<Span>
    var maps: Table
    var mapIn: Option<Mailbox>
    var holeIn: Option<Mailbox>
    var start: int

    ghost function St(): State
      reads this
    {
      State(ipv4, ports, maps, mapIn, holeIn, start)
    }

    constructor (hasNat: bool, hasFw: bool, now: int)
      ensures Inv(St()) && maps == map[] && ipv4.None? && mapIn.Some? == hasNat && holeIn.Some? == hasFw
    {
      ipv4, ports, maps, start := None, [], map[], now;
      mapIn := if hasNat then Some(Mailbox(None, {})) else None;
      holeIn := if hasFw then Some(Mailbox(None, {})) else None;
      new;
      assert forall h :: HostKeys(maps, h) == {};
      assert Forwards(maps, true) == {} && Forwards(maps, false) == {};
    }

    method Push()
      modifies this`mapIn, this`holeIn
      ensures St() == Pushed(old(St()))
    {
      var v4: set<Forward>, v6: set<Forward> := {}, {};
      var todo := maps.Keys;
      while todo != {}
        invariant todo <= maps.Keys
        invariant v4 == set k | k in maps.Keys - todo && k.host.V4? :: Forward(k, maps[k].external)
        invariant v6 == set k | k in maps.Keys - todo && !k.host.V4? :: Forward(k, maps[k].external)
        invariant St() == old(St())
      {
        var k :| k in todo;
        todo := todo - {k};
        if k.host.V4? { v4 := v4 + {Forward(k, maps[k].external)}; } else { v6 := v6 + {Forward(k, maps[k].external)}; }
      }
      assert v4 == Forwards(maps, true) && v6 == Forwards(maps, false);
      if mapIn.Some? { mapIn := Some(Put(mapIn.value, v4)); }
      if holeIn.Some? { holeIn := Some(Put(holeIn.value, v6)); }
    }

    /** Delete the keys, and tell when there were any. */
    method Drop(keys: set<Key>)
      modifies this`maps, this`mapIn, this`holeIn
      ensures St() == Dropped(old(St()), keys)
    {
      hide Forwards;
      var n := |maps|;
      FewerIff(maps, keys);
      maps := maps - keys;
      if |maps| != n { Push(); }
    }

    method HostMappings(host: Host) returns (n: nat)
      ensures n == |HostKeys(maps, host)|
    {
      n := 0;
      var todo := maps.Keys;
      ghost var met: set<Key> := {};
      while todo != {}
        invariant todo <= maps.Keys && met == (set k | k in maps.Keys - todo && k.host == host) && n == |met|
      {
        var k :| k in todo;
        todo := todo - {k};
        if k.host == host { n, met := n + 1, met + {k}; }
      }
      assert met == HostKeys(maps, host);
    }

    /** pickPort: the suggestion, else the internal port, else any, from a random one on. Without
        PREFER_FAILURE it gives up only when no port of the line is left. */
    method PickPort(proto: nat, internal: nat, suggested: nat, prefer: bool, local: set<nat>, random: nat)
        returns (r: Option<nat>)
      requires Proper(ports)
      ensures r.Some? ==> Grantable(St(), proto, r.value) && r.value !in local
      ensures r.Some? && prefer ==> r.value == suggested
      ensures Grantable(St(), proto, suggested) && suggested !in local ==> r == Some(suggested)
      ensures Grantable(St(), proto, internal) && internal !in local && !prefer ==>
                r == Some(internal) || (Grantable(St(), proto, suggested) && suggested !in local)
      ensures r.None? && !prefer ==> forall e :: Grantable(St(), proto, e) ==> e in local
    {
      hide Grantable, PortAt, Count;
      PortPositive(St(), proto, suggested);
      if suggested != 0 && Free(proto, local, suggested) { return Some(suggested); }
      if prefer { return None; }
      if Free(proto, local, internal) { return Some(internal); }
      var spans := if ports == [] then [Span(MIN_EXTERNAL, 0xffff)] else ports;
      var n := PortCount(spans);
      SpansCount(spans);
      var first := random % n;
      for i := 0 to n
        invariant forall j :: 0 <= j < i ==> !Free(proto, local, PortAt(spans, Probe(first, j, n)))
      {
        var e := NthPort(spans, Probe(first, i, n));
        if Free(proto, local, e) { return Some(e); }
      }
      r := None;
      NoPortLeft(St(), proto, local, spans, first);
    }

    /** pick, for either family: a pinhole is of the port it is asked for. */
    method Pick(key: Key, suggested: nat, prefer: bool, local: set<nat>, random: nat) returns (r: Option<nat>)
      requires Proper(ports)
      ensures r.Some? && key.host.V4? ==> Grantable(St(), key.proto, r.value) && r.value !in local
      ensures r.Some? && key.host.V6? ==> r.value == key.port
      ensures forall a: Ask :: a.key == key && a.suggested == suggested && a.prefer == prefer ==> Finds(St(), a, local, r)
    {
      if key.host.V4? {
        r := PickPort(key.proto, key.port, suggested, prefer, local, random);
      } else {
        r := if !prefer || suggested == key.port then Some(key.port) else None;
      }
    }

    /** mapStateful. listening are the ports the router listens on when it is asked whether the mapping
        has to move, and local when a port is picked; both are of no matter to a pinhole. */
    method MapStateful(a: Ask, listening: set<nat>, local: set<nat>, random: nat) returns (r: Reply, ghost picked: Option<nat>)
      requires Inv(St()) && (a.key.host.V4? ==> ipv4.Some?)
      modifies this`maps, this`mapIn, this`holeIn
      ensures var stale := Stale(old(St()), a, listening);
              (St(), r) == Answer(old(St()), a, stale, picked) && Pickable(Cleared(old(St()), a, stale), a, picked)
              && (Looks(old(St()), a, stale) ==> Finds(Cleared(old(St()), a, stale), a, local, picked))
      ensures Inv(St())
    {
      assert Proper(ports);
      hide Inv, Grantable, HostKeys, Forwards, Unmet, Finds, OthersOf;
      picked := None;
      ghost var stale := Stale(St(), a, listening);
      AnswerKeeps(St(), a, stale, None);
      var have := a.key in maps;
      if have && maps[a.key].nonce != a.nonce {
        var left := maps[a.key].expires - a.now;
        return Fail(NotAuthorized, if left < 0 then 0 else left), picked;
      }
      var was := if have then maps[a.key].external else 0;
      if have && a.lifetime != 0 && a.key.host.V4? && was in listening {
        Drop({a.key});
        have := false;
      }
      if a.lifetime == 0 {
        Drop({a.key});
        return Mapped(0, was), picked;
      }
      if have {
        if Unmet(a, was) { return Fail(CannotProvideExternal, SHORT), picked; }
        maps := maps[a.key := maps[a.key].(expires := a.now + a.lifetime)];
        return Mapped(a.lifetime, was), picked;
      }
      OthersAre(old(St()), a, stale);
      r, picked := MapNew(a, local, random);
      AnswerKeeps(old(St()), a, stale, picked);
    }

    /** The rest of it: a port for a host that has none for this one. */
    method MapNew(a: Ask, local: set<nat>, random: nat) returns (r: Reply, ghost picked: Option<nat>)
      requires Proper(ports) && (a.key.host.V4? ==> ipv4.Some?) && a.key !in maps && a.lifetime != 0
      modifies this`maps, this`mapIn, this`holeIn
      ensures (St(), r) == Answer(old(St()), a, false, picked) && Pickable(old(St()), a, picked)
      ensures |HostKeys(old(maps), a.key.host)| < MAX_PER_HOST ==> Finds(old(St()), a, local, picked)
    {
      hide Grantable, HostKeys, Forwards, Unmet;
      picked := None;
      var n := HostMappings(a.key.host);
      if n >= MAX_PER_HOST { return Fail(UserExQuota, SHORT), picked; }
      var e := Pick(a.key, a.suggested, a.prefer, local, random);
      picked := e;
      if (e.None? && a.prefer) || (e.Some? && Unmet(a, e.value)) { return Fail(CannotProvideExternal, SHORT), picked; }
      if e.None? { return Fail(NoResources, SHORT), picked; }
      maps := maps[a.key := Mapping(e.value, a.nonce, a.now + a.lifetime)];
      Push();
      r := Mapped(a.lifetime, e.value);
    }

    /** mapping, once it has been parsed: which requests come to a mapping, and with what lifetime.
        reachable tells a global address from the others. A request that is refused here, or one of an
        IPv6 host while nothing is filtered, leaves everything as it is. */
    method Map(a: Ask, reachable: bool, listening: set<nat>, local: set<nat>, random: nat)
        returns (r: Reply, ghost picked: Option<nat>)
      requires Inv(St())
      modifies this`maps, this`mapIn, this`holeIn
      ensures Inv(St())
      ensures var b := a.(lifetime := Clamped(a.lifetime));
              if Mappable(old(St()), a, reachable) then
                var c := b.(ext := if a.key.host.V4? then V4(old(ipv4).value) else a.key.host);
                var stale := Stale(old(St()), c, listening);
                && (St(), r) == Answer(old(St()), c, stale, picked) && Pickable(Cleared(old(St()), c, stale), c, picked)
                && (Looks(old(St()), c, stale) ==> Finds(Cleared(old(St()), c, stale), c, local, picked))
              else St() == old(St()) && r == Declined(old(St()), a, reachable)
    {
      hide Inv, Grantable, HostKeys, Forwards, Unmet, Answer;
      picked := None;
      if a.key.proto == 0 && a.key.port != 0 { return Fail(MalformedRequest, LONG), picked; }
      if a.prefer && a.lifetime == 0 { return Fail(MalformedOption, LONG), picked; }
      var b := a.(lifetime := Clamped(a.lifetime));
      if a.key.host.V4? {
        if ipv4.None? { return Fail(NetworkFailure, SHORT), picked; }
        if !Carries(a.key) { return Fail(UnsuppProtocol, LONG), picked; }
        r, picked := MapStateful(b.(ext := V4(ipv4.value)), listening, local, random);
      } else {
        if PcpPort(a.key) || !reachable { return Fail(NotAuthorized, LONG), picked; }
        if holeIn.None? { return Mapped(b.lifetime, a.key.port), picked; }
        if !Carries(a.key) { return Fail(UnsuppProtocol, LONG), picked; }
        r, picked := MapStateful(b.(ext := a.key.host), listening, local, random);
      }
    }

    /** expire. */
    method Expire(now: int)
      requires Inv(St())
      modifies this`maps, this`mapIn, this`holeIn
      ensures St() == Dropped(old(St()), Over(old(maps), now)) && Inv(St())
    {
      DropKeeps(St(), Over(maps, now));
      Drop(Over(maps, now));
    }

    /** setTunnel; addr is none when there is no IPv4 here to map on. */
    method SetTunnel(addr: Option<nat>, newPorts: seq<Span>, now: int) returns (lost: bool, gained: bool)
      requires Inv(St()) && Proper(newPorts)
      modifies this
      ensures St() == Retunnelled(old(St()), addr, newPorts, now) && Inv(St())
      ensures lost <==> old(ipv4).Some? && (addr != old(ipv4) || newPorts != old(ports))
      ensures gained <==> addr.Some? && addr != old(ipv4)
    {
      hide Inv, Forwards;
      TunnelKeeps(St(), addr, newPorts, now);
      if addr == ipv4 && newPorts == ports { return false, false; }
      lost, gained := ipv4.Some?, addr.Some? && addr != ipv4;
      if lost { start := now; }
      ipv4, ports := addr, newPorts;
      Drop(Keys4(maps));
    }

    /** natpmp: the line's own address, or a mapping request, or what is answered to anything else, which
        changes nothing. */
    method NatPmp(src: nat, q: PmpRequest, now: int, listening: set<nat>, local: set<nat>, random: nat)
        returns (r: PmpReply, ghost picked: Option<nat>)
      requires Inv(St())
      modifies this`maps, this`mapIn, this`holeIn
      ensures Inv(St())
      ensures (St(), r) == PmpAnswer(old(St()), src, q, now, listening, picked)
      ensures PmpMaps(old(St()), q) ==>
                var a := AsMap(src, q.tcp, q.internal, q.suggested, q.lifetime, now, old(ipv4).value);
                var stale := Stale(old(St()), a, listening);
                && Pickable(Cleared(old(St()), a, stale), a, picked)
                && (Looks(old(St()), a, stale) ==> Finds(Cleared(old(St()), a, stale), a, local, picked))
    {
      hide Inv, Grantable, HostKeys, Forwards, Unmet, Answer, Dropped;
      picked := None;
      match q {
        case AddressAsked => r := if ipv4.None? then Down else Own(ipv4.value);
        case Unknown => r := Unsupported;
        case Short => r := Silence;
        case MapAsked(tcp, internal, suggested, lifetime) =>
          var proto := if tcp then TCP else UDP;
          if ipv4.None? { return Down, picked; }
          if internal == 0 {
            if lifetime != 0 { return Refused, picked; }
            DropKeeps(St(), Of(maps, V4(src), proto));
            Drop(Of(maps, V4(src), proto));
            return Gives(0, 0), picked;
          }
          var out: Reply;
          out, picked := MapStateful(AsMap(src, tcp, internal, suggested, lifetime, now, ipv4.value), listening, local, random);
          r := InPmp(out);
      }
    }

    predicate Free(proto: nat, local: set<nat>, e: nat)
      reads this
    {
      Grantable(State(ipv4, ports, maps, mapIn, holeIn, start), proto, e) && e !in local
    }
  }

  lemma FewerIff(t: Table, keys: set<Key>)
    ensures |t - keys| == |t| <==> keys !! t.Keys
    ensures keys !! t.Keys ==> t - keys == t
  {
    var both := t.Keys * keys;
    assert t.Keys == (t - keys).Keys + both && (t - keys).Keys !! both;
    assert |t.Keys| == |(t - keys).Keys| + |both|;
  }

  lemma PortPositive(st: State, proto: nat, e: nat)
    ensures Grantable(st, proto, e) ==> e > 0
  {
  }

  lemma SpansCount(spans: seq<Span>)
    requires Proper(spans) && spans != []
    ensures Count(spans) > 0
  {
  }

  lemma {:induction false} NoPortLeft(st: State, proto: nat, local: set<nat>, spans: seq<Span>, first: nat)
    requires Proper(spans) && spans == (if st.ports == [] then [Span(MIN_EXTERNAL, 0xffff)] else st.ports)
    requires first < Count(spans)
    requires forall j :: 0 <= j < Count(spans) ==>
               !(Grantable(st, proto, PortAt(spans, Probe(first, j, Count(spans))))
                 && PortAt(spans, Probe(first, j, Count(spans))) !in local)
    ensures forall e :: Grantable(st, proto, e) ==> e in local
  {
    hide PortAt, Count;
    forall e | Grantable(st, proto, e) ensures e in local {
      assert Has(spans, e) by {
        if st.ports == [] { assert In(spans[0], e); }
      }
      var i := PortReached(spans, e);
      var j := ProbesReach(first, i, Count(spans));
    }
  }

  // ---- Whole runs

  datatype Event =
    | Asked(a: Ask, stale: bool, picked: Option<nat>)  // MAP, or NAT-PMP's
    | Released(host: Host, proto: nat)                 // NAT-PMP's delete-all
    | Expired(now: int)
    | Tunnel(addr: Option<nat>, ports: seq<Span>, now: int)
    | NatTakes
    | FilterTakes

  datatype Trace = Start(hasNat: bool, hasFw: bool) | Then(before: Trace, e: Event)

  function Step(st: State, e: Event): State {
    match e
    case Asked(a, stale, picked) => Answer(st, a, stale, picked).0
    case Released(host, proto) => Dropped(st, Of(st.maps, host, proto))
    case Expired(now) => Dropped(st, Over(st.maps, now))
    case Tunnel(addr, ports, now) => Retunnelled(st, addr, ports, now)
    case NatTakes => if st.mapIn.Some? then st.(mapIn := Some(Take(st.mapIn.value))) else st
    case FilterTakes => if st.holeIn.Some? then st.(holeIn := Some(Take(st.holeIn.value))) else st
  }

  function After(tr: Trace): State {
    match tr
    case Start(hasNat, hasFw) =>
      State(None, [], map[], if hasNat then Some(Mailbox(None, {})) else None,
            if hasFw then Some(Mailbox(None, {})) else None, 0)
    case Then(before, e) => Step(After(before), e)
  }

  /** The ports picked are pickable where they are picked, and a port set is made of spans. */
  predicate Legal(tr: Trace) {
    tr.Then? ==>
      && Legal(tr.before)
      && (tr.e.Asked? ==> Pickable(Cleared(After(tr.before), tr.e.a, tr.e.stale), tr.e.a, tr.e.picked))
      && (tr.e.Tunnel? ==> Proper(tr.e.ports))
  }

  lemma {:induction false} StepKeeps(st: State, e: Event)
    requires Inv(st)
    requires e.Asked? ==> Pickable(Cleared(st, e.a, e.stale), e.a, e.picked)
    requires e.Tunnel? ==> Proper(e.ports)
    ensures Inv(Step(st, e))
  {
    hide Inv, Answer, Dropped, Retunnelled, Over, Of, Take;
    match e {
      case Asked(a, stale, picked) => AnswerKeeps(st, a, stale, picked);
      case Released(host, proto) => DropKeeps(st, Of(st.maps, host, proto));
      case Expired(now) => DropKeeps(st, Over(st.maps, now));
      case Tunnel(addr, ports, now) => TunnelKeeps(st, addr, ports, now);
      case NatTakes => TakeKeeps(st);
      case FilterTakes => TakeKeeps(st);
    }
  }

  lemma {:induction false} StartHolds(tr: Trace)
    requires tr.Start?
    ensures Inv(After(tr))
  {
    var st := After(tr);
    assert forall h :: HostKeys(st.maps, h) == {};
    assert Forwards(st.maps, true) == {} && Forwards(st.maps, false) == {};
  }

  lemma {:induction false} RunKeeps(tr: Trace)
    requires Legal(tr)
    ensures Inv(After(tr))
  {
    hide Inv, Step, Pickable;
    match tr {
      case Start(_, _) => StartHolds(tr);
      case Then(before, e) =>
        RunKeeps(before);
        StepKeeps(After(before), e);
    }
  }

  /** Over any run: no external port of a protocol is two hosts', every one is the line's and none is
      PCP's own, no host has more than its share, and what the NAT and the filter have been handed is
      what there is. */
  lemma {:induction false} RunSafe(tr: Trace)
    requires Legal(tr)
    ensures var st := After(tr);
            && (forall j, k :: j in st.maps && k in st.maps && j.host.V4? && k.host.V4? && j.proto == k.proto ==>
                  st.maps[j].external != st.maps[k].external || j == k)
            && (forall k :: k in st.maps && k.host.V4? ==>
                  var e := st.maps[k].external;
                  && 1024 <= e <= 65535 && (st.ports == [] || Has(st.ports, e)) && st.ipv4.Some?
                  && (k.proto == UDP ==> e != 5350 && e != 5351))
            && (forall ks, h :: OfHost(ks, st.maps, h) ==> |ks| <= 16)
            && (st.mapIn.Some? ==> Tells(Last(st.mapIn.value), st.maps, true))
            && (st.holeIn.Some? ==> Tells(Last(st.holeIn.value), st.maps, false))
  {
    hide After, Forwards;
    RunKeeps(tr);
    var st := After(tr);
    forall ks, h | OfHost(ks, st.maps, h) ensures |ks| <= 16 {
      assert ks <= HostKeys(st.maps, h);
      SubsetSize(ks, HostKeys(st.maps, h));
    }
    ForwardsTell(st.maps, true);
    ForwardsTell(st.maps, false);
  }

  /** ks are mappings of one host. */
  ghost predicate OfHost(ks: set<Key>, t: Table, h: Host) {
    forall k :: k in ks ==> k in t && k.host == h
  }

  /** fs is what there is of one family: each mapping, with its port, and nothing else. */
  ghost predicate Tells(fs: set<Forward>, t: Table, v4: bool) {
    && (forall f :: f in fs ==> f.key in t && (f.key.host.V4? <==> v4) && f.external == t[f.key].external)
    && (forall k :: k in t && (k.host.V4? <==> v4) ==> Forward(k, t[k].external) in fs)
  }

  lemma ForwardsTell(t: Table, v4: bool)
    ensures Tells(Forwards(t, v4), t, v4)
  {
  }

  /** Once the NAT has taken what is there for it, it has the mappings there are. */
  lemma {:induction false} NatCatchesUp(tr: Trace)
    requires Legal(tr) && After(tr).mapIn.Some?
    ensures After(Then(tr, NatTakes)).mapIn == Some(Mailbox(None, Forwards(After(tr).maps, true)))
  {
    RunKeeps(tr);
  }

  /** e ends or changes k's mapping m, or is one that may. */
  predicate Touches(st: State, e: Event, k: Key, m: Mapping) {
    match e
    case Asked(a, _, _) => a.key == k && a.nonce == m.nonce
    case Released(host, proto) => host == k.host && proto == k.proto
    case Expired(now) => now > m.expires
    case Tunnel(addr, ports, _) => k.host.V4? && (addr != st.ipv4 || ports != st.ports)
    case NatTakes => false
    case FilterTakes => false
  }

  lemma {:induction false} StepSpares(st: State, e: Event, k: Key, m: Mapping)
    requires k in st.maps && st.maps[k] == m && !Touches(st, e, k, m)
    ensures k in Step(st, e).maps && Step(st, e).maps[k] == m
  {
    hide Forwards;
    match e {
      case Asked(a, stale, picked) =>
        if a.key == k {
          ForeignRefused(st, a, stale, picked);
        } else {
          OtherKept(st, a, stale, picked, k);
        }
        hide Answer;
      case _ =>
    }
  }

  lemma OtherKept(st: State, a: Ask, stale: bool, picked: Option<nat>, k: Key)
    requires k in st.maps && k != a.key
    ensures var st' := Answer(st, a, stale, picked).0; k in st'.maps && st'.maps[k] == st.maps[k]
  {
    hide HostKeys, Forwards, Unmet;
  }

  /** tr goes on from base, and nothing in between touches the mapping. */
  predicate Untouched(tr: Trace, base: Trace, k: Key, m: Mapping) {
    tr == base || (tr.Then? && Untouched(tr.before, base, k, m) && !Touches(After(tr.before), tr.e, k, m))
  }

  /** A mapping stays as it is until a request under its own nonce, NAT-PMP's delete-all for its host and
      protocol, its expiry or, in IPv4, a change of the tunnel. */
  lemma {:induction false} MappingKept(tr: Trace, base: Trace, k: Key)
    requires k in After(base).maps && Untouched(tr, base, k, After(base).maps[k])
    ensures k in After(tr).maps && After(tr).maps[k] == After(base).maps[k]
  {
    hide Step, Touches;
    if tr != base {
      MappingKept(tr.before, base, k);
      StepSpares(After(tr.before), tr.e, k, After(base).maps[k]);
    }
  }

  /** NAT-PMP's delete-all takes what it says, and no more. */
  lemma DeletesAll(st: State, src: nat, tcp: bool, suggested: nat, now: int, listening: set<nat>, picked: Option<nat>, k: Key)
    requires st.ipv4.Some?
    ensures var (st', r) := PmpAnswer(st, src, MapAsked(tcp, 0, suggested, 0), now, listening, picked);
            && r == Gives(0, 0)
            && (k in st'.maps <==> k in st.maps && !(k.host == V4(src) && k.proto == if tcp then TCP else UDP))
            && (k in st'.maps ==> st'.maps[k] == st.maps[k])
  {
    hide Forwards;
  }

  /** NAT-PMP gives a port exactly when that is what the host's mapping for the protocol and port then has, and
      under no nonce; a lifetime is no shorter than PCP's least nor longer than its most. */
  lemma {:induction false} PmpTells(st: State, src: nat, q: PmpRequest, now: int, listening: set<nat>, picked: Option<nat>)
    requires PmpMaps(st, q) && q.lifetime > 0
    ensures var (st', r) := PmpAnswer(st, src, q, now, listening, picked);
            var k := Key(if q.tcp then TCP else UDP, V4(src), q.internal);
            && (r.Gives? ==>
                  && k in st'.maps && st'.maps[k] == Mapping(r.external, 0, now + r.lifetime)
                  && MIN_LIFETIME <= r.lifetime <= MAX_LIFETIME
                  && (MIN_LIFETIME <= q.lifetime <= MAX_LIFETIME ==> r.lifetime == q.lifetime))
            && (r.Refused? <==> k in st.maps && st.maps[k].nonce != 0)
            && (r.Gives? <==>
                  && (k in st.maps ==> st.maps[k].nonce == 0)
                  && ((k in st.maps && st.maps[k].external !in listening) ||
                      (picked.Some? && |set j | j in st.maps && j.host == V4(src) && j != k| < 16)))
            && (!r.Gives? ==> st'.maps.Keys <= st.maps.Keys)
  {
    hide HostKeys, Forwards, Answer, Unmet;
    var a := AsMap(src, q.tcp, q.internal, q.suggested, q.lifetime, now, st.ipv4.value);
    var stale := Stale(st, a, listening);
    ForeignRefused(st, a, stale, picked);
    SucceedsIff(st, a, stale, picked);
    RefusalLeaves(st, a, stale, picked);
    assert OthersOf(st, a) == set j | j in st.maps && j.host == V4(src) && j != a.key;
  }

  /** The request is for the port the host suggests, without a condition. */
  lemma AsMapIs(src: nat, tcp: bool, internal: nat, suggested: nat, lifetime: nat, now: int, ipv4: nat)
    ensures var a := AsMap(src, tcp, internal, suggested, lifetime, now, ipv4);
            && a.key.host == V4(src) && a.key.port == internal && (a.key.proto == TCP <==> tcp) && a.key.proto in {TCP, UDP}
            && a.ext == V4(ipv4) && !a.prefer && a.nonce == 0 && a.now == now
            && (lifetime > 0 ==> a.suggested == suggested && a.lifetime > 0)
  {
  }

  lemma ClampedIs(lifetime: nat)
    ensures Clamped(lifetime) == 0 <==> lifetime == 0
    ensures lifetime > 0 ==> MIN_LIFETIME <= Clamped(lifetime) <= MAX_LIFETIME
    ensures MIN_LIFETIME <= lifetime <= MAX_LIFETIME ==> Clamped(lifetime) == lifetime
    ensures 0 < lifetime < MIN_LIFETIME ==> Clamped(lifetime) == MIN_LIFETIME
    ensures lifetime > MAX_LIFETIME ==> Clamped(lifetime) == MAX_LIFETIME
  {
  }

  /** What is over goes, and nothing else. */
  lemma ExpiresIff(st: State, now: int, k: Key)
    ensures var st' := Dropped(st, Over(st.maps, now));
            && (k in st'.maps <==> k in st.maps && now <= st.maps[k].expires)
            && (k in st'.maps ==> st'.maps[k] == st.maps[k])
            && st'.ipv4 == st.ipv4 && st'.ports == st.ports && st'.start == st.start
  {
    hide Forwards;
  }

  /** A tunnel that comes, goes or changes takes the IPv4 mappings and leaves the pinholes, and the epoch
      begins anew where clients have lost something; the same tunnel takes nothing. */
  lemma TunnelTells(st: State, addr: Option<nat>, ports: seq<Span>, now: int, k: Key)
    ensures var st', same := Retunnelled(st, addr, ports, now), addr == st.ipv4 && ports == st.ports;
            && st'.ipv4 == addr && st'.ports == ports
            && (k in st'.maps <==> k in st.maps && (same || !k.host.V4?))
            && (k in st'.maps ==> st'.maps[k] == st.maps[k])
            && st'.start == if !same && st.ipv4.Some? then now else st.start
  {
    hide Forwards;
  }

  /** A request is about a mapping if and only if it names a port of TCP or UDP, for a lifetime where it sets a
      condition; and, of an IPv4 host, if there is IPv4 to map on, and of an IPv6 host, if there is a filter, the
      host can be reached, and the port is none of PCP's. */
  lemma MappableIff(st: State, a: Ask, reachable: bool)
    ensures Mappable(st, a, reachable) <==>
              && a.key.port != 0 && a.key.proto in {6, 17} && (a.prefer ==> a.lifetime > 0)
              && (a.key.host.V4? ==> st.ipv4.Some?)
              && (a.key.host.V6? ==> st.holeIn.Some? && reachable && !(a.key.proto == 17 && a.key.port in {5350, 5351}))
  {
  }

  /** Which of the requests that are about no mapping get which answer. */
  lemma DeclinedWhy(st: State, a: Ask, reachable: bool)
    requires !Mappable(st, a, reachable)
    ensures var r := Declined(st, a, reachable);
            var own := a.key.proto == 17 && a.key.port in {5350, 5351};
            var sound := (a.key.proto != 0 || a.key.port == 0) && !(a.prefer && a.lifetime == 0);
            && (r.Fail? && r.code.MalformedRequest? <==> a.key.proto == 0 && a.key.port != 0)
            && (r.Fail? && r.code.MalformedOption? <==> (a.key.proto != 0 || a.key.port == 0) && a.prefer && a.lifetime == 0)
            && (r.Fail? && r.code.NetworkFailure? <==> sound && a.key.host.V4? && st.ipv4.None?)
            && (r.Fail? && r.code.NotAuthorized? <==> sound && a.key.host.V6? && (own || !reachable))
            && (r.Mapped? <==> sound && a.key.host.V6? && !own && reachable && st.holeIn.None?)
            && (r.Fail? && r.code.UnsuppProtocol? <==>
                  && sound && (a.key.proto !in {6, 17} || a.key.port == 0)
                  && if a.key.host.V4? then st.ipv4.Some? else !own && reachable && st.holeIn.Some?)
            && (r.Mapped? ==> r.external == a.key.port && r.lifetime == Clamped(a.lifetime))
            && (r.Fail? ==> r.lifetime == if r.code.NetworkFailure? then SHORT else LONG)
  {
  }
}
