# What sixup promises, proved

sixup is an IPv6 router daemon. Most of it talks to the kernel; the parts below decide things by
themselves, and a fault in one of them is a fault in the network: two sources behind one address, a
datagram put together wrong, a prefix the hosts are not told to drop, a port given out twice. This
project models those parts in Dafny and proves what each of them keeps over every input or every run.

How a part is modelled follows its code. What the code updates in place is a class whose methods do
the same updates in the same order, proved against functions on the state; what the code computes is a
function. Clocks, hashes, random starts, and what the kernel answers are parameters, so every statement
is about all of them. A run is a trace of events, and the theorems are about every legal trace.

| files | part |
|---|---|
| `Nat64Pool.dfy` | the NAT64 address pool: two maps, many threads |
| `Reassembly.dfy`, `Refragment.dfy`, `SlowPath.dfy` | the slow path: fragments in, datagrams translated, fragments out |
| `Checksum.dfy`, `Xlat.dfy`, `Rfc6052.dfy` | checksums computed and moved, RFC 7915's translation, RFC 6052's addresses |
| `Pcp.dfy`, `Ports.dfy` | PCP and NAT-PMP mappings |
| `PrefixPool.dfy`, `Leases.dfy` | downstream prefix delegation, DHCPv6 leases |
| `PrefixStore.dfy`, `Subnets.dfy`, `PrefixSet.dfy` | the prefix store, the LANs' subnets, the firewall's prefix set |
| `MapE.dfy` | MAP-E by rule and by table |
| `NdProxy.dfy`, `MergePios.dfy`, `PacketHub.dfy` | the NDP proxy's table, RA prefixes, the capture hub |
| `Arith.dfy`, `Wire.dfy`, `Prefixes.dfy` | quotients and probing, bytes, prefixes as ranges of addresses |

## What does not hold as hoped

Each of these is proved, with the exact condition under which the code does what it should.

- The sweep removes a pair with a lookup and two deletes, and threads come between them. In any run,
  whatever the threads go on to do leaves the maps inverse, at every point of it, if and only if every
  address the sweep deletes from `v6_of` is at that moment nobody's, mapped or half allocated
  (`Nat64Pool.SafeIff`); otherwise two sources come to share an address. Two runs, through the idle
  counters, show it: the sweep takes an address that is half allocated (`Nat64Pool.SweepRace`), and it
  deletes one that was given to a source after the sweep had looked it up in vain (`Nat64Pool.LateDelete`).
- Only the arriving fragment is held against a datagram's end, and one without bytes overlaps nothing.
  What is put together ends where the last fragment said if and only if the part that said so is still
  there and no part lies beyond (`Reassembly.LengthIsTotal`); without empty fragments, if and only if none
  lies beyond (`Reassembly.FilledLength`). Streams that end too late and too early are
  `Reassembly.LongerThanItsEnd` and `Reassembly.ShorterThanItsEnd`.
- The fast path's checksum for a translated ICMPv6 message verifies if and only if the message is not an
  echo reply that is zero but for its type and checksum (`Xlat.Msg6to4Moves`): that one gets 0 where
  0xffff is due (`Xlat.ZerosFail`). The slow path gets it right.
- Each packet of send4 is accepted where it arrives if and only if its length fits sixteen bits
  (`Refragment.ParsedIff`), and all of them are if and only if the parts do (`Refragment.OverlongRefused`).
  Only a device with an MTU above 65535 can break that, and sixup's own have none such.
- Two LAN segments get the same /64 if and only if the ISP keeps both their own (RFC 6603): there is one
  spare subnet, and both are given it (`Subnets.SharedIff`, `Subnets.SharedSpare`).
- A prefix that leaves the list of a side is reported on its own account if and only if it was listed as
  preferred, or as withdrawn before (`PrefixStore.DepartureReported`). One that is only deprecated leaves
  the snapshot without a word; any such entry can (`PrefixStore.LeavesUntold`).
- Two customers of one MAP-E rule who differ in their EA bits share no port if and only if the rule gives
  no ports, or its address bits are at most thirty-two and fall where its IPv4 prefix is zero
  (`MapE.NoneSharedIff`). mapeFromS46 takes rules that have more EA bits, and ors them into the prefix;
  `MapE.SharingRule` is one, with two customers who share.
- The spans a rule gives are proper. Some of them overlap if and only if the rule has no EA bits and gives
  a PSID all the same, with bits where the port's first ones are (`MapE.RulePorts`), as the one of
  `MapE.OverlappingRule` does.
- block counts the prefixes of a length in sixty-four bits, and divides by the count. It is zero if and only
  if the delegation's length is 0 and the prefixes' is 64 (`PrefixPool.CountableIff`); a search that comes
  there panics.
- A subscriber finds the last snapshot sent. It is told of as strong a change as all it was sent since it
  last looked if and only if the last sent was not weaker than one before it (`PrefixStore.TellsIff`); one
  that looks before each is sent misses nothing (`PrefixStore.AttentiveIsTold`), another can find a renewal
  where a revocation was sent (`PrefixStore.MissesRevocation`).
- A host's route is on the side of its session if and only if either the session is what was last learnt and
  that side needs a route, or neither (`NdProxy.SidesAgreeIff`); in forward mode, if and only if the
  session's side needs one (`NdProxy.ForwardAgreesIff`). It is left behind by a host that moves to the other
  side (`NdProxy.LeftBehind`), and in prefix mode by a solicitation (`NdProxy.VouchedAway`).
- The capture hub keeps a socket whose filter the kernel refuses. Every frame captured is some listener's if
  and only if it did not (`PacketHub.CapturesOnly`, `PacketHub.UnfilteredIff`); nobody is handed the others.
- The firewall's set of its own prefixes holds exactly the addresses of the LANs and the delegations if
  and only if none of them ends with the last address there is (`PrefixSet.OurElements`, by
  `PrefixSet.IntervalIff`), as one of each length does (`PrefixSet.TopPrefix`).
- What map6to4 makes of an address, map4to6 makes that address again if and only if it is outside the NAT64
  prefix, or it carries no address of the pool and its other bytes are zero (`Nat64Pool.OutAndBack`). So an
  address in the prefix that carries a pool address goes out as the host that has it, and the host gets what
  comes back: 64:ff9b::198.18.0.5 is one (`Nat64Pool.CarrierShares`), and every host has one
  (`Nat64Pool.Impersonated`). Which addresses go out as one is `Nat64Pool.SharesIff`.
- By itself, embedding undoes extraction if and only if the other bytes are zero (`Rfc6052.ExtractEmbed`).
  Behind ninety-six bits there are no others; behind fewer there are addresses that do not come back
  (`Rfc6052.OthersLost`).
- portSpans guards against a sum that wraps at 256; where it wraps, no port is listed all the same
  (`MapE.WrappedGuard`).

## Model

| member | source | states |
|---|---|---|
| Nat64Pool.RunKeeps | bpf/nat64.c:44-79 | Whatever the interleaving of lookups, inserts and undos of any number of threads and of the calls of clear sweeps: v4_of is inverted by v6_of, all in the unreserved pool, and every entry of v6_of without its partner is held by exactly one allocation in flight, or being taken out by the sweep |
| Nat64Pool.NoSharing | bpf/nat64.c:44-79 | In a state that keeps the invariant no two sources outside the NAT64 prefix have one pool address, and each entry of v6_of without a partner is exactly one thread's, or the one the sweep is deleting |
| Nat64Pool.OutAndBack | bpf/nat64.c:44-93 | Of any address either map knows, in the prefix or not, what goes out leads back to it if and only if it is outside the NAT64 prefix, or carries no pool address and is zero elsewhere |
| Nat64Pool.BackAndOut | bpf/nat64.c:44-93 | Of any IPv4 address, what map4to6 gives goes out as that address if and only if it is not the pool's, or its source has it in both maps |
| Nat64Pool.CallOutAndBack | bpf/nat64.c:44-93 | So it is of every call, in any interleaving, at the step by which it returns |
| Nat64Pool.OutsideRuns | bpf/nat64.c:46-49 | Over any run, no address in the NAT64 prefix is put into either map |
| Nat64Pool.SharesIff | bpf/nat64.c:44-93 | Two addresses go out as one if and only if both are in the prefix and carry the same, or one is and carries the other's pool address |
| Nat64Pool.Impersonated | bpf/nat64.c:44-93 | For every source with a pool address, an address in the prefix, zero in its other bytes, that goes out as the same and does not come back |
| Nat64Pool.CarrierShares | bpf/nat64.c:44-93 | A run of sixup's own pool in which 64:ff9b::198.18.0.5 and a host go out as one |
| Nat64Pool.MappingStays | bpf/nat64.c:82-93 | A source that has a pool address keeps it, and the address leads back to it, over any run, until a sweep comes to take that very address |
| Nat64Pool.SweepKeeps | nat64bpf.go:195-219 | Each map call of the sweep keeps the invariant if and only if, when it is made, the source deleted from v4_of has that address or none, and the address deleted from v6_of is nobody's |
| Nat64Pool.SafeIff | nat64bpf.go:195-219 | In any run of threads and sweeps, v4_of stays inverted whatever the threads do next, from every point of it, if and only if every address a sweep deletes from v6_of is unclaimed then; if one is not, two sources come to share an address |
| Nat64Pool.ClaimedIsUnsafe | nat64bpf.go:209-214 | From any state in which the sweep deletes an address that is mapped or half allocated, the threads alone can come to give it to two sources |
| Nat64Pool.OneGoKeeps | nat64bpf.go:208-214 | With nothing between its calls, the sweep keeps the invariant if and only if no allocation has the address half done |
| Nat64Pool.SweepRace | nat64bpf.go:204-217 | A run, counted idle by two sweeps, in which a half allocated address is taken and two sources come to share it |
| Nat64Pool.LateDelete | nat64bpf.go:208-214 | A run in which the sweep's lookup fails, a source is given the address, and the sweep then deletes it from v6_of: the source's address leads to another |
| Nat64Pool.InPoolByMask | nat64slow.go:413-418 | The two masked comparisons are the range of unreserved pool addresses |
| Nat64Pool.Pool.Map6to4 | bpf/nat64.c:44-79 | The prefix's addresses, or the allocation call by call: a run of the machine, that returns what the maps then say; with no insert turned down, the first of eight places from the hash on that is neither reserved nor somebody's, and nothing only when there is none |
| Nat64Pool.AllocatesAlone | bpf/nat64.c:57-78 | By itself a thread of the machine is given that place, in both maps, and none if and only if all eight are of no use |
| Nat64Pool.ProbesDiffer | bpf/nat64.c:59-64 | The eight probes of a source look at eight different addresses, in a pool of no fewer |
| Nat64Pool.IdleTwice | nat64bpf.go:204-217 | A newly counted address goes in the second of two sweeps if neither finds a flow of it, and only then; never in the first |
| Nat64Pool.Pool.Map4to6 | bpf/nat64.c:82-93 | A pool address by its source, and any other behind the prefix |
| Nat64Pool.Pool.SweepIdle | nat64bpf.go:195-219 | An undisturbed sweep is a run of the machine; it removes exactly the addresses without a flow for the required number of sweeps in a row, and counts the others |
| Reassembly.SlowPath.Reassemble | nat64slow.go:189-238 | A fragment's whole effect on the table and what it completes, expiry, refusals, duplicates and overlaps included |
| Reassembly.RefusedIff | nat64slow.go:189-224 | A fragment is refused if and only if it is of a datagram too many, is not the last and not of a multiple of eight bytes, reaches beyond 65535 or the known end, or crosses a fragment that is kept |
| Reassembly.AfterTraced | nat64slow.go:189-238 | Over any stream, every group is made of disjoint parts that arrived under its key within its life, and there are never more than 64 groups |
| Reassembly.CompleteIsTiled | nat64slow.go:189-238 | Any payload returned, from any stream, is tiled without gap or overlap by fragments that came under its key in the last 30 seconds, every byte where it claimed to be |
| Reassembly.LengthIsTotal | nat64slow.go:211-233 | Whatever any stream completes ends where the last fragment said if and only if the part that said so is still kept and no kept part reaches beyond |
| Reassembly.FilledLength | nat64slow.go:211-233 | In a stream without empty fragments, if and only if no kept part reaches beyond |
| Reassembly.LongerThanItsEnd | nat64slow.go:211-216 | A stream that gives 24 bytes though its last fragment ends at 16 |
| Reassembly.ShorterThanItsEnd | nat64slow.go:217-222 | A stream that gives 8 bytes though its last fragment ends at 16, an empty fragment having come to that one's place |
| Refragment.Sender.Send4 | nat64slow.go:311-330 | The header written over in place gives the fragments of the datagram, and a prefix of them when the device refuses one |
| Refragment.Sender.Send6 | nat64slow.go:333-356 | The datagram goes out whole when it fits the device, else as its fragments, and as a prefix of those when one is refused |
| Refragment.Fields4 | nat64slow.go:315-325 | Every fragment's header has its length, identification, offset and flag, and its checksum verifies |
| Refragment.FragmentsComeTogether | nat64slow.go:143-238 | Among any other traffic that leaves the table room when the first of them comes, each fragment of a datagram gives nothing until all have come, and then exactly its message, header and protocol |
| Refragment.ExactlyOnce | nat64slow.go:143-238 | When all fragments have come the message has been given exactly once, at the last of them |
| Refragment.RoundTrip6 | nat64slow.go:333-356 | The packets send6 cuts, in any order, put together again are the message that was cut |
| Refragment.RoundTrip4 | nat64slow.go:311-330 | The packets send4 cuts, in any order, put together again are the message that was cut |
| Refragment.EveryCutSent | nat64slow.go:311-356 | Every cut of the message is among the packets sent |
| Refragment.ChunkIs | nat64slow.go:314-341 | Parts are the longest of a multiple of eight bytes that the device takes |
| Refragment.PacketsFit | nat64slow.go:311-356 | No packet sent in fragments is longer than the device takes |
| Refragment.WholePacket6 | nat64slow.go:334-337 | A message sent whole is parsed whole |
| Refragment.WholePacket4 | nat64slow.go:315-317 | A message that fits one fragment is sent in one, and parsed whole |
| Refragment.ParsedIff | nat64slow.go:150-153 | Any packet of send4, at whatever offset, is parsed if and only if its length fits the field |
| Refragment.OverlongRefused | nat64slow.go:150-153 | All packets of send4 are parsed if and only if every part fits the field, as it does for every MTU up to 65535 |
| SlowPath.To6 | nat64slow.go:249-282 | Which IPv4 datagrams are translated; the header's fields, every byte of the message, a checksum that verifies, and for UDP one that is not zero |
| SlowPath.To4 | nat64slow.go:285-308 | Which IPv6 datagrams are translated: echoes with both addresses mapped; every byte of the header and the message, and a checksum that verifies |
| SlowPath.EchoThereAndBack | nat64slow.go:249-308 | An echo to IPv6 and back is what it was, type of service and time to live included, its checksum up to the two forms of zero |
| SlowPath.ForwardTo6 | nat64slow.go:241-282 | What is sent of a datagram is the fragments of its translation, and nothing of one refused |
| SlowPath.ForwardTo4 | nat64slow.go:241-308 | What is sent of an IPv6 datagram is the fragments of its translation, and nothing of one refused |
| Checksum.ComputeL4Checksum | nat64slow.go:390-410 | The thirty-two bit accumulation never overflows and is the ones'-complement checksum |
| Checksum.ComputeIcmp6Checksum | ndproxy.go:408-422 | Summing byte by byte and the length first gives the value l4Checksum gives |
| Checksum.FoldIs | nat64slow.go:406-408 | Folding the carries is the sum modulo 65535, zero kept apart |
| Checksum.VerifiesIff | nat64slow.go:390-410 | The checksum of a message is 0 if and only if its words sum to a positive multiple of 65535 |
| Checksum.StoredVerifies | nat64slow.go:269-274 | Storing the checksum, or 0xffff for a UDP checksum of 0, makes the message verify |
| Xlat.L4SixToFour | bpf/xlat.h:501-571 | A right TCP or UDP checksum, moved by the difference of the addresses, is right in IPv4 and is the one computed from nothing; UDP's is not zero |
| Xlat.L4FourToSix | bpf/xlat.h:676-764 | A right TCP or UDP checksum, moved by the difference of the addresses, is right in IPv6 and is the one computed from nothing; UDP's is not zero |
| Xlat.PiecesSixToFour | bpf/xlat.h:560-568 | The fragments of a datagram, only the first of which has its checksum moved, verify in IPv4 when put together there |
| Xlat.PiecesFourToSix | bpf/xlat.h:753-760 | And in IPv6 |
| Xlat.Msg6to4Moves | bpf/xlat.h:401-498 | For every ICMPv6 message, echo or error with its quote, the moved checksum is the computed one modulo 65535, and verifies if and only if the message is not an echo reply that is zero but for its type and checksum |
| Xlat.ZerosFail | bpf/xlat.h:401-438 | An echo reply of zeros, its checksum right, that gets 0 in IPv4 where 0xffff is due |
| Xlat.Msg4to6Moves | bpf/xlat.h:575-673 | For every ICMP message that still fits IPv6, the moved checksum is the computed one and verifies |
| Xlat.HeadFrom4AndBack | bpf/xlat.h:501-764 | An IPv4 header to IPv6 and back: all is kept but a whole packet's identification and Don't Fragment, as said |
| Xlat.HeadFrom6AndBack | bpf/xlat.h:501-764 | An IPv6 header to IPv4 and back: all but the header of an atomic fragment and the upper half of an identification |
| Xlat.HeadsAgree | bpf/xlat.h:501-764 | Either translator gives a header of the same packet: the same payload's length, type of service, time to live, protocol, and place among the fragments |
| Xlat.EncDec4 | bpf/xlat.h:501-571 | Every field of an IPv4 header, and both addresses, read back from the twenty bytes written |
| Xlat.Enc4Verifies | bpf/xlat.h:172-181 | Two rounds of carries are enough, and the header verifies |
| Xlat.PointerBack | bpf/xlat.h:223-256 | A pointer with a counterpart comes back to the field it pointed at |
| Xlat.PointersPoint | bpf/xlat.h:223-256 | A pointer is translated if and only if it is into a field both headers have, and then to that field's first byte |
| Xlat.EchoBack | bpf/xlat.h:259-398 | An echo's ICMP header comes back as it was |
| Xlat.Icmp4to6Says | bpf/xlat.h:326-398 | By a reading of ICMP and of ICMPv6 apart from the translators: a message is translated if and only if ICMPv6 can say what it says, and then says it, a packet's MTU 20 longer and no less than 1280 |
| Xlat.Icmp6to4Says | bpf/xlat.h:259-323 | And to ICMP, a packet's MTU 20 shorter, from 68 to 65535; the codes 1 and 10 for those that say the same |
| Xlat.IcmpThereAndBack | bpf/xlat.h:259-398 | Every ICMP message with a counterpart comes back with its type, saying what it said: an MTU of 1260 or more as it was, a Time Exceeded with its code, an unreachable code 2, 3, 4 and otherwise 10 or 1, by its class |
| Xlat.TooBigFits | bpf/xlat.h:290-299 | The MTU IPv4 is told is at least 68, and 20 more than it never beyond the larger of IPv6's and 88 |
| Xlat.Rewrite4to6Iff | bpf/xlat.h:575-673 | Which ICMP messages are translated, and to what: what they say, and of an error the quoted packet's header and addresses translated, and the bytes after it |
| Xlat.Rewrite6to4Iff | bpf/xlat.h:401-498 | And which ICMPv6 messages |
| Xlat.QuoteThereAndBack | bpf/xlat.h:401-673 | An error to IPv6 and back quotes the same packet: header, addresses and the bytes after it |
| Rfc6052.V4Positions | nat64slow.go:360-369 | Counting past byte 8 gives the positions of section 2.2 of RFC 6052 |
| Rfc6052.Embed4 | nat64slow.go:372-378 | The address written over the prefix is the RFC's layout |
| Rfc6052.Extract4 | nat64slow.go:381-387 | What is read from those positions is the address an IPv6 address carries |
| Rfc6052.EmbedExtract | bpf/xlat.h:193-214 | What is embedded comes out, from an address in the prefix whose u octet is zero |
| Rfc6052.ExtractEmbed | bpf/xlat.h:193-214 | What is extracted embeds to the same address if and only if the other bytes are zero |
| Rfc6052.OthersLost | bpf/xlat.h:193-214 | Under every prefix of up to sixty-four bits, and for every IPv4 address, an address that carries it and does not come back; under one of ninety-six there is none |
| Pcp.Server.PickPort | pcp.go:525-565 | A port picked is the line's, free, not PCP's nor the router's own; the suggestion wins; without PREFER_FAILURE it fails only when no port is left |
| Pcp.Server.MapStateful | pcp.go:448-509 | A request's whole effect: nonce, move, release, renewal, quota, pick; the port looked for is the one suggested, else the internal one, when free, else any, and is missing only when there is none; and the invariant is kept |
| Pcp.Server.Map | pcp.go:370-445 | Which requests come to a mapping, with what lifetime; what the others are answered, and that they change nothing |
| Pcp.Server.NatPmp | natpmp.go:29-115 | Every NAT-PMP request: the address, the opcodes there are not, the requests too short; a mapping request is that MAP, or gives up all mappings of the host for a protocol |
| Pcp.Server.Expire | pcp.go:218-232 | Exactly the mappings whose time is over go, and are told of |
| Pcp.Server.SetTunnel | pcp.go:192-215 | A new address or port set drops the IPv4 mappings, and tells whether clients lost something |
| Pcp.Server.Push | pcp.go:235-256 | The two sets handed over are the two projections of the table |
| Pcp.AnswerTells | pcp.go:448-509 | A success leaves the mapping it tells of, under the nonce that asked and meeting PREFER_FAILURE; a failure leaves none new; other mappings are untouched |
| Pcp.ForeignRefused | pcp.go:461-464 | A request for a key mapped under another nonce changes nothing and is refused with NOT_AUTHORIZED and what is left of the lifetime; no other request is refused so |
| Pcp.SucceedsIff | pcp.go:461-509 | A request for a mapping succeeds if and only if the key is its own or nobody's and, to keep it, PREFER_FAILURE is met, or for a new one, the quota is not used up and a port that suits is found; and the table then differs in that mapping alone |
| Pcp.RefusedWhy | pcp.go:481-498 | Which error a request of one's own gets that is not granted |
| Pcp.RefusalLeaves | pcp.go:461-509 | A refusal leaves the table as it was, but for a mapping whose port the router has taken itself |
| Pcp.Releases | pcp.go:472-479 | A release under the own nonce always succeeds and ends that mapping alone |
| Pcp.MappingKept | pcp.go:192-509 | Over any run, a mapping stays as it is until a request under its own nonce, NAT-PMP's delete-all for its host and protocol, its expiry or, in IPv4, a change of the tunnel |
| Pcp.MappableIff | pcp.go:370-445 | Which requests are about a mapping |
| Pcp.DeclinedWhy | pcp.go:370-445 | Which requests that come to no mapping get which answer |
| Pcp.DeletesAll | natpmp.go:69-87 | NAT-PMP's delete-all takes the host's mappings of the protocol and no more |
| Pcp.PmpTells | natpmp.go:89-115 | A port NAT-PMP gives is that of the host's mapping, under no nonce and with PCP's lifetimes; it is refused if and only if the key is mapped under a nonce |
| Pcp.ExpiresIff | pcp.go:218-232 | Exactly the mappings past their time go |
| Pcp.TunnelTells | pcp.go:192-215 | A change of the tunnel takes the IPv4 mappings, leaves the pinholes, and begins the epoch anew where something was lost |
| Pcp.RenewKeeps | pcp.go:490-500 | A renewal, which pushes nothing, leaves what was handed over exact |
| Pcp.RunSafe | pcp.go:192-232 | Over any run of requests, NAT-PMP's delete-all, expiries and tunnel changes: no port of a protocol is two hosts', all are at least 1024, the line's and not PCP's own, no host has more than 16, and what the NAT and the filter were last handed is what there is |
| Pcp.NatCatchesUp | nat_plan.go:85-101 | When the NAT takes what waits in the one-slot channel, it has the mappings there are |
| Ports.NthPort | pcp.go:584-593 | The i-th port counting through the spans |
| Ports.PortReached | pcp.go:584-593 | Counting comes to every port of the set |
| Ports.PortOnce | pcp.go:584-593 | Counting comes to no port twice, when the spans are disjoint |
| Ports.PortCount | mape.go:241-247 | The sum is the number of ports nthPort counts through |
| PrefixPool.Pool.Block | pd.go:184-199 | A free block of that length inside the delegation; with no more than 4096 it fails only when none is free |
| PrefixPool.FreeIff | pd.go:204-220 | A prefix is free for a key if and only if none of its addresses is a LAN's, the WAN link's or kept for it, or another key's |
| PrefixPool.ShortestIs | pd.go:131-148 | The configured length, or by default the next of /48, /56, /60 and /64 |
| PrefixPool.FirstLengthIs | pd.go:172-173 | The search begins with the longest of the hint, the default and what is inside the delegation |
| PrefixPool.WantedIs | dhcp6s.go:459-474 | The hint is the first of what is held that names no address, or one of its kind |
| PrefixPool.LifetimesAre | dhcp6s.go:443-448 | The lifetimes are the configured ones capped by what is left of the upstream's, the preferred by the valid |
| PrefixPool.UpstreamsAre | pd.go:113-130 | What is delegated from: the upstream's delegations, or the ULA, that are not deprecated and shorter than /64 |
| PrefixPool.CountableIff | pd.go:187-190 | The count divided by is zero if and only if a delegation of length 0 is cut into /64s |
| PrefixPool.Pool.Pick | pd.go:152-180 | What is picked is strictly inside a delegable prefix, of an allowed length and free: the prefix held while usable, else the one asked for when that is, else a block of the shortest length from the hint on, in the first delegation, in which there is one; nothing is found only when every block down to a /64 is taken; it panics only at the /64s of a delegation of length 0, none before having a block left |
| PrefixPool.Pool.Delegate | dhcp6s.go:453-519 | The answer to one IA: of the delegation and of the ULA what the router has while usable, else what it asks for when free, else the largest block there is, nothing only when there is none; T1 and T2; committed as answered, or nothing changed; and what it names but does not get is returned with no lifetime |
| PrefixPool.RenewsInTime | dhcp6s.go:444-493 | T1 and T2 are half and eight tenths of the preferred lifetime of one of the grants, T1 is no later than T2, and neither is later than the preferred lifetime of anything granted |
| PrefixPool.Pool.Undelegate | dhcp6s.go:523-538 | A release ends both delegations of an IA |
| PrefixPool.Pool.DropExpired | dhcp6s.go:769-784 | Exactly the expired ones of the interface go |
| PrefixPool.Pool.DropUnusable | dhcp6s.go:700-721 | After a change of prefixes, what stays would be granted again as it is, and nothing goes that would have been |
| PrefixPool.EverySlot | pd.go:184-199 | Every /n of a delegation is one of the slots counted through |
| PrefixPool.RunApart | dhcp6s.go:453-538 | Over any run of grants, releases, expiries and changes, delegations in force under different keys do not overlap |
| PrefixPool.OneRouter | dhcp6s.go:453-538 | Over any run no address is routed to two routers at once |
| PrefixPool.ClearOfLans | pd.go:204-220 | Every address granted is the upstream delegation's, and no LAN's, no on-link prefix's and no excluded part's at the time |
| Leases.Server.Allocate | dhcp6s.go:639-682 | A pool address that no lease has and none declined; it fails only when every identifier is used, for pools up to half the identifiers |
| Leases.PooledIff | dhcp6s.go:639-682 | The pool is the identifiers of the range in the prefix's first /64 |
| Leases.Server.Assign | dhcp6s.go:392-441 | The binding a client has, no binding, or a new address, and what is committed |
| Leases.Server.GiveUp | dhcp6s.go:295-314 | Release, and Decline, which holds back the client's own address only |
| Leases.Server.PrefixChanged | dhcp6s.go:700-713 | Leases outside the prefix go unless their clients can be told |
| Leases.Server.Expire | dhcp6s.go:769-780 | Exactly the expired leases go |
| Leases.RunSafe | dhcp6s.go:392-441 | Over any run, no address is leased twice, each is of the pool and inside the prefix it was cut from, and none is one held back after a Decline |
| Leases.DeclinedHeld | dhcp6s.go:295-314 | For the whole hour after a client declines its address, whatever happens, nobody is leased it and it counts as used |
| PrefixStore.StaysStale | prefix.go:744-784 | A prefix that stops being handed out is listed stale on its interface in that snapshot and every later one until the hold or its own expiry is over, unless it is handed out again |
| PrefixStore.StaleInEverySnapshot | prefix.go:503-888 | The same of whole runs of the store, recomputes and timers: from the withdrawal on, every snapshot lists the prefix stale where it was, while it must |
| PrefixStore.SnapshotNeverBoth | prefix.go:503-888 | And none lists a prefix both live and stale, on a LAN or on the WAN |
| PrefixStore.NeverBoth | prefix.go:640-784 | No snapshot of a run lists a prefix live and stale, nor stale beyond the hold |
| PrefixStore.ToldAtOnce | prefix.go:744-871 | A withdrawal is published by the recompute that makes it, as a revocation, with nothing left pending |
| PrefixStore.QuietRound | prefix.go:787-855 | A recompute without a change lists what was listed, with the lifetimes it had but for the router's own ULA; what it leaves out was deprecated |
| PrefixStore.DepartureReported | prefix.go:744-784 | A prefix that leaves a side is reported, as withdrawn or as over, if and only if it was listed as preferred or as withdrawn before |
| PrefixStore.RevokesIff | prefix.go:744-790 | A recompute is a revocation if and only if a LAN prefix is reported, or a hold of the WAN is over |
| PrefixStore.LeavesUntold | prefix.go:744-871 | Any deprecated entry can leave in a recompute that reports nothing |
| PrefixStore.RunHolds | prefix.go:856-888 | Over any run, what consumers have not been told is pending with the timer running, and is told as the strongest of it |
| PrefixStore.Store.Recompute | prefix.go:503-871 | The whole of a recompute: source, subnets, WAN prefixes, withdrawals, holds, classification and publication; what it hands out said both as computed and entry by entry |
| PrefixStore.LanIs | prefix.go:628-710 | Of every entry of a LAN: it is a subnet, inside its prefix, of a valid item of the source picked, of the own ULA or of one delegated, with that item's lifetimes, deprecated if and only if the item is or its preferred lifetime is over; and every segment has one of each, where there is a subnet to take |
| PrefixStore.WanIs | prefix.go:628-682 | And of every entry of the WAN, which has every valid item, and every valid prefix of the Router Advertisement |
| PrefixStore.StaleTells | prefix.go:744-769 | What a withdrawn prefix is listed as: itself, deprecated and stale from now, valid for the hold or for as long as it was |
| PrefixStore.ClassifiedIff | prefix.go:787-855 | A recompute that is no revocation is an addition if and only if an entry is new or preferred again, and else a renewal if and only if lifetimes, the router or the rest changed |
| PrefixStore.ToldWhen | prefix.go:855-871 | A change is told at once if and only if it is a revocation, the router came or went, or nothing is to settle; else the timer runs |
| PrefixStore.Store.PickSource | prefix.go:478-501 | The first source with prefixes, else the first there is; advertised prefixes wait while a delegation may come |
| PrefixStore.PickedIs | prefix.go:478-501 | A source with prefixes is picked before any without, and of either kind the first: the configured one, then by preference |
| PrefixStore.OfferedIs | prefix.go:484-492 | The advertised prefixes are held back if and only if no delegation has been concluded and one may still come |
| PrefixStore.Store.Publish | prefix.go:874-888 | The snapshot goes out with the strongest change pending, into every subscriber's channel, in place of one not taken yet |
| PrefixStore.CatchesUp | prefix.go:400-410 | However rarely it looks, a subscriber that has looked has the last snapshot sent, or the one there was when it subscribed |
| PrefixStore.TellsIff | prefix.go:874-888 | Its change is as strong as all sent since it last looked if and only if the last sent was not weaker than one before |
| PrefixStore.AttentiveIsTold | prefix.go:874-888 | A subscriber that looks before each snapshot is sent finds no weaker change |
| PrefixStore.MissesRevocation | prefix.go:786-888 | A run in which a revocation and a change of something else are sent, and a subscriber finds a renewal |
| PrefixStore.Retire | prefix.go:744-784 | Deleting, withdrawing and listing, in any order of the map, is a legal turn of a side, and tells whether anything was withdrawn or a hold was over |
| PrefixStore.Compare | prefix.go:787-828 | The loops over the lists find an addition before a renewal before nothing |
| Subnets.SplitInside | prefix.go:1078-1091 | A segment's subnet is a /64 inside the delegation, at its number |
| Subnets.SplitIff | prefix.go:1078-1091 | There is a subnet of that number if and only if a delegation of that length has so many |
| Subnets.GoesWithout | prefix.go:646-667 | A segment keeps its own subnet unless the ISP does, and goes without only when it has none or none of the first 65536 is spare |
| Subnets.SplitApart | prefix.go:1078-1091 | Different numbers give subnets that do not overlap |
| Subnets.SpareSubnet | prefix.go:1018-1028 | The highest /64 no segment names and the ISP does not keep |
| Subnets.SubInside | prefix.go:640-667 | Whatever a segment gets is the delegation's and not the ISP's |
| Subnets.SharedIff | prefix.go:650-661 | Two segments share a subnet if and only if the ISP keeps both their own |
| Subnets.SharedSpare | prefix.go:650-661 | Two segments of a /60, the first two subnets of which the ISP keeps, are given the same sixteenth one |
| PrefixSet.Disjoint | prefix.go:1438-1449 | Sorted, masked, pairwise disjoint, and of exactly the input's addresses, looking at the last one kept only |
| PrefixSet.LastTells | prefix.go:1443-1447 | Of a prefix later in the order, the last one kept has all or nothing |
| PrefixSet.DelegationElements | firewall.go:388-400 | Setting the host bits one by one gives the last address, and the next one ends the interval |
| PrefixSet.IntervalIff | firewall.go:388-400 | The interval has the prefix's addresses if and only if it does not end at the top |
| PrefixSet.ElementsFollow | firewall.go:388-400 | The intervals of disjoint's prefixes follow one another |
| PrefixSet.OurElements | firewall.go:138-143 | The set made of the LANs' and the delegations' prefixes holds exactly their addresses if and only if none of them ends with the last address |
| PrefixSet.TopPrefix | firewall.go:388-400 | A prefix of each length that does |
| MapE.BitsAt | mape.go:124-132 | The bits read one by one are that field of the address |
| MapE.FieldIffBits | mape.go:124-132 | Two fields are equal if and only if all their bits are |
| MapE.PortSpans | mape.go:106-121 | The loop, in the widths it computes in, lists the spans of the set that SpansOwn describes |
| MapE.SpansOwn | mape.go:106-121 | The ports listed are exactly those whose PSID field is the PSID and whose first bits are not all zero |
| MapE.PortsPartition | mape.go:106-121 | Every port given out is exactly one PSID's, and the others are nobody's |
| MapE.WrappedGuard | mape.go:107-109 | Where the guard's sum wraps, nothing is listed |
| MapE.BmrFor | mape.go:136-147 | The most specific rule the prefix is in, the first of several |
| MapE.AppliesIff | mape.go:157-183 | A rule gives a result exactly when its EA bits are in the prefix, no more than sixty-four, and hold what its IPv4 prefix leaves of an address with the PSID, whose length is the one given or all the others; what is not given is a PSID of 0 without EA bits and an offset of 6 |
| MapE.FromS46 | mape.go:153-212 | A result is there only with a relay and is what the most specific rule gives; with one that matches, it is always that |
| MapE.PairIff | mape.go:153-212 | Under a rule whose address bits fall where its IPv4 prefix is zero, a prefix has an address and a port if and only if its EA bits are the ones that make them up |
| MapE.NoneShared | mape.go:153-212 | Under such a rule, or one without ports, two prefixes that differ in their EA bits share no port of any address |
| MapE.NoneSharedIff | mape.go:163-189 | And under no other: for every rule that can be applied, none share if and only if it is one of those |
| MapE.SharingRule | mape.go:163-189 | A rule of 192.0.2.0/24 with sixteen address bits, and two customers who have a port of one address in common |
| MapE.SpansApart | mape.go:106-121 | The spans of a PSID of its own length are proper, and no two overlap |
| MapE.RulePorts | mape.go:163-210 | Whatever rule is applied, its spans are proper; they overlap if and only if it has no EA bits and a PSID with bits where the port's first ones, two or more, are |
| MapE.OverlappingRule | mape.go:163-210 | A rule for one address with PSID 1, some of whose spans are listed twice |
| MapE.CalcIff | mape.go:34-85 | The prefixes given a result are those of /56 and longer, of a provider known by the first sixteen or twenty-nine bits, whose leading thirty-eight or thirty-one bits are in a table |
| MapE.EntryIs | mape.go:64-86 | The rule is that of the first table with an entry: its IPv4 prefix the entry's bytes, its lengths and offset the table's |
| MapE.CalcRefines | mape.go:34-101 | For every prefix the table matches, the option's algorithm on the table's own rule gives the same IPv4 address, PSID, ports and rule |
| MapE.KeysAre | mape.go:59-60 | The table is looked up by the first thirty-eight, or thirty-one, bits of the prefix |
| MapE.CeTells | mape.go:91-97 | The two forms of the CE address are one octet apart, and tell the IPv4 address and the PSID |
| NdProxy.RunKeeps | ndproxy.go:250-296 | Over any run: at most 4096 sessions, askers and routes only for targets in the table, at most 8 askers each and none twice |
| NdProxy.NeverEvicted | ndproxy.go:270-296 | A confirmed neighbour stays in the table, confirmed, until it expires, whatever arrives |
| NdProxy.RouteSides | ndproxy.go:515-539 | Over any run, a route is on the side its target was last learnt on when that needs one, else on the other |
| NdProxy.SidesAgreeIff | ndproxy.go:440-539 | A route is on the side of its session if and only if either the session is what was last learnt and that side needs a route, or neither |
| NdProxy.ForwardAgreesIff | ndproxy.go:440-539 | In forward mode, if and only if the session's side needs a route |
| NdProxy.LeftBehind | ndproxy.go:527-531 | A host that moves from the LAN to the WAN and leaves its route |
| NdProxy.VouchedAway | ndproxy.go:442-452 | A solicitation in prefix mode that moves a session to the LAN and leaves the route on the WAN |
| NdProxy.Proxy.Admit | ndproxy.go:270-296 | Room is made of what is over, then of what is unanswered, at most once a second |
| NdProxy.AdmitIff | ndproxy.go:270-296 | Room is found if and only if there is some, or there is without what is over or unanswered and none was refused within the second; and what lasts is left alone |
| NdProxy.Proxy.Learn | ndproxy.go:515-539 | A neighbour's session and route, which the kernel may refuse |
| NdProxy.Proxy.OnSolicit | ndproxy.go:426-490 | A solicitation's effect in both modes, and what is sent |
| NdProxy.AnswersIff | ndproxy.go:426-460 | In forward mode, over any run, an answer is sent if and only if somebody asks for a target confirmed, once the asker is learnt, on the other side than the one asked from |
| NdProxy.ProbesIff | ndproxy.go:462-490 | A probe goes to the other side only, if and only if the target is new and there is room, or it has been probed and not within the second |
| NdProxy.ProbedApart | ndproxy.go:462-490 | Over any run, two probes of one session are at least a second apart |
| NdProxy.PrefixAnswersIff | ndproxy.go:441-452 | In prefix mode the answers are exactly those to askers on the WAN, and nothing is probed |
| NdProxy.AskerWaits | ndproxy.go:462-490 | Who asks for a target that is not known is among those who wait, or eight others are |
| NdProxy.ToldIff | ndproxy.go:493-512 | When a target shows up, exactly those are told who wait for it on the other side, and then nobody waits |
| NdProxy.Proxy.OnAdvert | ndproxy.go:493-512 | An advertisement's effect, and who is told |
| NdProxy.Proxy.Sweep | ndproxy.go:250-263 | Exactly the sessions whose time is up go, with all derived from them |
| MergePios.Merge | raclient.go:345-381 | The list after an advertisement: what is left out deprecated, what is named renewed or added, what is revoked cut to the floor, in that order |
| MergePios.NoneTakenAway | raclient.go:345-381 | Over any advertisements, no known prefix is dropped or expires before it would have or two hours after the first; prefixes stay unique and preferred within valid |
| MergePios.Unmentioned | raclient.go:346-352 | A prefix left out keeps its expiry and is deprecated |
| MergePios.Mentioned | raclient.go:355-374 | A known prefix that is given lifetimes takes the valid one, though not before the sooner of what it had and two hours, and the preferred one within that |
| MergePios.Withdrawn | raclient.go:375-379 | One given none is deprecated at once, and expires in two hours or when it would have, if that is sooner |
| MergePios.NewlyNamed | raclient.go:363-368 | One that was not known is taken as it is advertised |
| PacketHub.RunSafe | pkthub.go:42-134 | In every reachable state one socket at most is open, its filter what the listeners want or none; without one, with listeners and a live context, a retry of this generation is pending or the loss is about to be told |
| PacketHub.OldChangesNothing | pkthub.go:103-134 | An exit or a timer of another generation changes nothing, then or later: whatever follows it could have happened without it, with the same effect on hub, socket and listeners |
| PacketHub.RetryOpens | pkthub.go:86-110 | A retry whose interface is back gives the listeners their socket |
| PacketHub.CapturesWanted | pkthub.go:137-159 | Every listener gets what it asked for, and only what is captured is handed to anyone |
| PacketHub.CapturesOnly | netlink.go:744-756 | Every frame captured is some listener's if and only if the socket has its filter |
| PacketHub.UnfilteredIff | netlink.go:744-756 | Over any run, the socket has none if and only if the kernel refused it when that socket was opened |
| PacketHub.Hub.Reconcile | pkthub.go:60-83 | Opens, closes or reopens to match the listeners |
| PacketHub.ReconcileIff | pkthub.go:60-83 | A change of listeners that changes nothing wanted leaves the socket be; any other closes it, and opens one of the next generation with the wanted filter unless nothing is wanted |
| PacketHub.Hub.OnReaderExit | pkthub.go:114-134 | A lost socket is retried under a new generation; one closed by the hub is not |
| PacketHub.ExitedIff | pkthub.go:114-134 | A reader's end is acted on if and only if it is the held socket's, and retried under the next generation if and only if somebody listens and the context lives |
| PacketHub.FiredIff | pkthub.go:104-110 | A timer opens a socket if and only if it is this generation's, there is none, and somebody listens |
| PacketHub.Hub.Dispatch | pkthub.go:137-159 | A frame goes to those who want its kind, of this generation only |
| Prefixes.OverlapsIff | pd.go:204-220 | Prefixes overlap if and only if they share an address, and then one is within the other |

## Left out

- The kernel: netlink, nftables, sysctl, sockets, BPF loading and map internals. An insert may be refused, a packet or a route not taken; that a map call is atomic is assumed.
- bpf_csum_diff and bpf_l4_csum_replace stand for ones'-complement sums; the packet of bpf/xlat.h is a value, so its editing in place and the resizing of the buffer are not captured.
- The guards six_to_four and four_to_six have before they translate, and which packets go to the slow path.
- The CLAT's mapping of addresses, which keeps no tables.
- Parsing of PCP, DHCPv6 and Neighbor Discovery messages, and the bytes of their replies.
- The order in which Go walks a map. Where it could matter, for a prefix listed on two interfaces, the statement asks for one.
- Persistence and what is withdrawn after a restart; a run begins in a state that keeps the invariant.
- What a snapshot carries besides prefixes, taken as one value that changes or does not.
- PrefixStore.Store.Recompute: DNS, options, addresses and the rest of a snapshot are that one value, computed elsewhere; the record of before a restart is settled, and nothing is saved.
- PrefixStore.Store.Publish: the record of what has been advertised is not written.
- PrefixStore.QuietRound: only one direction; DepartureReported is the exact condition.
- PrefixPool.Pool.Delegate: the routes, the reconfigure key, and the answer where downstream delegation is off.
- PrefixStore.StaysStale: the prefix is on one interface, and no startup record is left to settle. The WAN's own withdrawals are stale in the same way, but are reported as a renewal.
- PrefixStore.StaleInEverySnapshot: likewise.
- Nat64Pool.RunKeeps: the sweep's calls are clear; SafeIff says which of them have to be. The sweep's keys are read at one moment.
- Nat64Pool.MappingStays: likewise.
- Refragment.RoundTrip4: all parts within the length field, which OverlongRefused says is needed; packets of the datagram arrive once each, within the life of a group, with room in the table when the first of them does.
- Refragment.RoundTrip6: likewise, for a message that has to be cut.
- Xlat.Msg4to6Moves: a message that has grown past 65535 bytes is excepted; its length wraps.
- Xlat.QuoteThereAndBack: not for a quoted ICMP type of 128 or 129, which an IPv4 packet does not have a meaning for and which comes back as an echo.
- Leases.RunSafe: no static bindings; suffix-only ones are not marked as used by the code.
- Leases.Server.Allocate: identifiers are tried in the sixty-four bits the sum has, so that beyond half of them some may be missed.
- PrefixPool.Pool.Block: not the /64s of a delegation of length 0; their number does not fit sixty-four bits and the code divides by zero (CountableIff), which the searches that call it tell as a panic.
- MapE.PairIff: not for a rule without EA bits, whose one address has one owner.
- MapE.CalcRefines: table values are zero where EA bits go, and the tables themselves are any that are so.
- Pcp.RunSafe: NAT-PMP's delete-all does not look at nonces, by design of the protocol.
- PacketHub.RunSafe: every listener wants some kind of frame; a lost socket counts as closed, though its descriptor is released later.
- Router preference and metrics, tunnels other than MAP-E, statistics, logging, dry run, flags and the firewall's rule text.
