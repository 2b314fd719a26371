# wg-wrapper, verified

A Dafny model of wg-wrapper's own logic with proofs of what that logic promises. wg-wrapper is a userspace WireGuard
server that lets peers out through a SOCKS5 proxy only, a bridge that carries WireGuard over WebSocket, and a Windows
client that turns its routing table into a killswitch. `dafny verify dfyconfig.toml` checks everything.

Code that changes things step by step is a class or a loop here too: each such method is proved equal to a function of
the old state, and the promises are proved about those functions and about runs built from them.

## What is proved

**Isolation** (`Prefixes`, `Packets`, `ServerNet`, `ServerConfig`, `ServerStart`, `WgCore`, `ServerTasks`, `Isolation`,
`Delivery`, `Wire`, `Admission`, `Scenario`). A prefix is an address and a length with its host bits kept, over 32 or
128 bit naturals. Aligned blocks are laminar, so the pairwise test of `validate` is exactly "the two prefixes share an
address", and `validate` accepts exactly the configurations whose prefixes are inside the tunnel subnet and pairwise
disjoint. Over every run of the ingress, egress, device and timer tasks under any accepted configuration, a packet
reaches the stack only with a source its peer alone owns and a destination no peer owns; whatever the server gives a
session to encrypt is for the one owner of its destination and answers that very peer. `Delivery` says the converse for
every step: what must happen to each packet, and the only ways one is lost. `Wire` follows every datagram actually
written: it goes to the sender of a received datagram, and if it is more than a cookie, to one whose datagram proved
the key of the peer whose session wrote it, or drew a cookie and then a flush of that session's queue. That second way
is real: a stranger can draw a queued packet, encrypted as it is, to an address from which nothing was proved. The
ingress task's uses of the table are separate steps, so other tasks run between receiving a datagram and refusing one
of its packets. `Admission` adds the acceptor's atomic steps to those runs: every guard is charged to the owner of the
source of a packet that peer sent, whose own upstream is used. `Scenario` exhibits an accepted configuration, a run in
which a packet goes out and its answer comes back, and one in which the answer is queued and goes to the stranger.

**The peer table** (`WgCore`, `TableSteps`). The session (`Tunn`) is an oracle with two stated assumptions: it keeps
its key and only flushes a finite queue on empty input, and only a holder of the key makes it accept data, decrypt or
answer with more than a cookie. Indices are stable over every run; session indices route back to their peer exactly
below 2^24; a step moves only the endpoint of the index it returns, and every stored endpoint is the sender of a
datagram that gave grounds for it. The code moves an endpoint without proof of the key exactly when a handshake draws a
cookie and the empty inputs that follow write something else, which for a session that flushes means that packets were
waiting. `TableSteps` tells each operation by the calls it makes to the session alone. A session for which the way
round happens is exhibited, and in runs where it does not happen every endpoint is proven.

**Flow caps** (`FlowCaps`). One acceptor against any number of ending tasks, with `fetch_add`, `fetch_sub`, permit and
guard as separate atomic steps.

**The bridge** (`Bridge`, `BridgeFlow`, `Connection`, `ClientPeer`, `Mappings`). The loop and its tasks interleave
freely: one live task per source, only closed channels are ever discarded, and what is written is an ordered,
duplicate-free part of what was received, and all of it while no queue is full and no connection fails. The
reconnecting task, which goes on to its next attempt whenever a connection is lost, runs against an arbitrary script of
network events with time in milliseconds: at most 43 failing attempts in a row, at most 1201 rounds in which nothing
moves, and pauses of 250 ms doubling to 8 s. Together: a task never ends with its channel, 44 failures in a row end it,
and the next sweep after that forgets its source unless it sent something since.

**Proxy codecs** (`Utf8`, `Upstream`, `Octets`, `Socks`, `UdpFlow`). The upstream URL with its conversion of
credentials to UTF-8 text, the SOCKS5 datagram header, the UDP ASSOCIATE handshake against every byte string a proxy
may send, the relay loop and lookups over TCP with exactly what ends them.

**The client's routes** (`RouteTable`, `RoutePlan`, `RouteUndo`, `TunnelTable`, `Killswitch`, `SixBlock`, `TunnelUp`).
`open` is the list of commands it runs, in order, on a machine with IPv4 and IPv6 routes, name rules and interface
metrics. Any command may fail. Dropping the adapter replays the log. The killswitch is stated over both families by
longest prefix, then metric: what escapes is a guard on the configuration and the initial table, checkable before
anything is run. `TunnelUp` says when a tunnel comes up, and exhibits one that does and leaks.

## Where the code and its documentation differ

- `README.md:144` says nothing but the gateway and the relay can leave. A subnet of a second physical interface is not
  in the plan and keeps winning (`Killswitch.OtherLinkEscapes`, on the routing table of the repository's own test);
  `Killswitch.EscapesExactly` says which destinations escape.
- `README.md:147` says IPv6 is blocked. Any initial row more specific than the two halves still wins, such as an
  on-link prefix (`SixBlock.LinkPrefixEscapes`), and so does a half elsewhere at a metric of at most 2. Default rows
  lose (`SixBlock.HalvesBeatDefaults`); `SixBlock.SixEscapesExactly` has the whole condition.
- The comment at `crates/wgclient/src/lib.rs:317` says stale name rules are dropped. They are when the configuration
  names an IPv4 server; otherwise they stay (`RouteUndo.StaleRules`).
- Undo turns the automatic interface metric on even where it was off before (`RouteUndo.RulesRestored`).
- The table at `README.md:89-90` promises an RST for TCP to forbidden ranges; only IPv4 gets one. It does not list 0/8,
  which is refused.
- `percent_decode` takes `%+f` for one byte, as Rust's number parser does; section 2.1 of RFC 3986 does not
  (`Upstream.DecodeIsStrictIff`).
- The comment at `crates/server/src/config.rs:46` is true of text only: escaped bytes that are not UTF-8 come back as
  U+FFFD, which is three bytes (`Upstream.UpstreamRoundTrip`, `Upstream.StrayCredentials`).
- Empty credentials are sent although section 2 of RFC 1929 wants lengths from 1 (`Socks.SpokenIsHeard`).
- The roaming comment at `crates/wgcore/src/lib.rs:126-127` promises proof of the key; `WgCore.RoamsUnprovenIff` says
  exactly when the code moves an endpoint without it, and `WgCore.CookieMovesEndpoint` shows a run that does.
- The comment at `crates/wgcore/src/lib.rs:92-93` calls what the drain writes destined to the peer. The server sends it
  to the sender before any proof is looked at (`crates/server/src/lib.rs:77`), so a queued packet can go to a stranger:
  `WgCore.WritesUnprovenIff` says exactly when, and `Scenario.QueuedPacketAstray` shows a run.

## Model

| member | source | states |
|---|---|---|
| Prefixes.Laminar | crates/server/src/config.rs:101-114 | two blocks of one family that share an address are nested |
| Prefixes.OverlapTestExact | crates/server/src/config.rs:109 | the test "one contains the other's address" holds exactly when the prefixes share an address, host bits or not |
| Prefixes.ContainsNetExact | crates/server/src/config.rs:108 | comparing first and last addresses is inclusion of the address sets |
| Prefixes.ContainsExactly | crates/server/src/config.rs:108-109 | a prefix holds exactly the addresses of its family that agree with it in their first bits |
| Packets.AddressesExactly | crates/wgcore/src/lib.rs:39-48 | source and destination are those of the header, in either family, and a malformed packet has neither |
| Packets.RstMirrors | crates/server/src/net.rs:36-49 | a reset is drawn exactly by IPv4 TCP without RST, carries the packet's addresses and ports the other way round and sequence 0, acknowledges sequence + 1 modulo 2^32, and draws none itself |
| ServerNet.MaskedRange | crates/server/src/net.rs:20-25 | comparing under a mask is testing an aligned range |
| ServerNet.MasksAreRanges | crates/server/src/net.rs:18-20 | the octet tests are the octet ranges |
| ServerNet.RangesExact4 | crates/server/src/net.rs:18-20 | those ranges are the documented IPv4 blocks, over all 2^32 addresses |
| ServerNet.RangesExact6 | crates/server/src/net.rs:24-25 | the segment tests are the documented IPv6 blocks, over all 2^128 addresses |
| ServerNet.AllowedExactly | crates/server/src/net.rs:13-28 | the gate admits exactly the complement of the refused and, without opt-in, the private blocks, read on the low 32 bits of an address in ::ffff:0:0/96 |
| ServerNet.MappedVerdict | crates/server/src/net.rs:23 | every mapped address outside the subnet gets the verdict of the IPv4 address it maps |
| ServerNet.Verdict6 | crates/server/src/net.rs:22-26 | every other IPv6 address is judged by the subnet and the IPv6 blocks alone |
| ServerNet.BestEntry | crates/server/src/net.rs:31-33 | the entry found contains the address and is of maximal length, the last of those; none exactly when nothing contains it |
| ServerNet.PeerForIsOwner | crates/server/src/net.rs:31-33 | over disjoint owners the lookup is the owner relation, both ways |
| ServerNet.PeerForPermuted | crates/server/src/lib.rs:44-51 | the order of the table does not matter |
| ServerConfig.TableMembers | crates/server/src/lib.rs:46-51 | the table holds exactly each peer's prefixes under that peer's index |
| ServerConfig.AcceptedUnambiguous | crates/server/src/config.rs:101-114 | under an accepted configuration no address belongs to two peers |
| ServerConfig.OwnedInsideAddress | crates/server/src/config.rs:108 | every owned address is in the tunnel subnet |
| ServerConfig.FirstOverlap | crates/server/src/config.rs:109 | finds a seen prefix that overlaps, and none exactly when none does |
| ServerConfig.SeparateExtends | crates/server/src/config.rs:107-113 | one prefix more keeps the table disjoint exactly when it overlaps nothing seen |
| ServerConfig.ValidateGlobals | crates/server/src/config.rs:90-100 | accepts exactly the good listeners, keys, upstream, paths and resolver |
| ServerConfig.ValidateSecrets | crates/server/src/config.rs:103-106 | accepts exactly the peers whose keys and upstream parse and that own something |
| ServerConfig.ValidateNets | crates/server/src/config.rs:107-113 | accepts exactly prefixes inside the subnet that keep the table disjoint; complaints are true |
| ServerConfig.ValidatePeer | crates/server/src/config.rs:102-114 | one peer more is accepted exactly when everything so far is still good |
| ServerConfig.Validate | crates/server/src/config.rs:89-116 | Ok exactly for the configurations fit to run; a reported overlap or stray prefix is one |
| ServerConfig.ResolverReachable | crates/server/src/config.rs:97-99 | an accepted resolver is outside the subnet, the refused and, without opt-in, the private blocks, mapped or not |
| ServerStart.AcceptedStarts | crates/server/src/lib.rs:38-51 | an accepted configuration starts exactly when no two peers have the same public key, however spelt |
| ServerStart.StartPeer | crates/server/src/lib.rs:47-50 | registers a peer exactly when its entry parses and its key is new; its prefixes are pushed under the index it got, and it uses its own upstream or else the global one |
| ServerStart.PushNets | crates/server/src/lib.rs:49 | pushes each prefix with the index |
| ServerStart.StartPeers | crates/server/src/lib.rs:46-51 | builds table, ownership table and upstreams of exactly the startable configurations |
| ServerStart.Start | crates/server/src/lib.rs:37-51 | succeeds exactly when startable; ownership table and upstreams are those of the configuration, the global upstream only for peers without their own |
| WgCore.Wg.AddPeer | crates/wgcore/src/lib.rs:79-86 | a new key gets the next index, a known one changes nothing |
| WgCore.Wg.RecvFromNetwork | crates/wgcore/src/lib.rs:94-131 | the loop ends, and table, index and both buffers are those of the specification; buffers only grow |
| WgCore.Wg.Encapsulate | crates/wgcore/src/lib.rs:134-142 | changes one session and appends at most one datagram |
| WgCore.Wg.UpdateTimers | crates/wgcore/src/lib.rs:148-163 | drives every session once, in order, and reports by index |
| WgCore.Drain | crates/wgcore/src/lib.rs:114-125 | feeding empty input ends by the queue measure, with a result that is not a write |
| WgCore.StepStable | crates/wgcore/src/lib.rs:79-163 | every operation keeps the table and the key map inverse, keeps every index, and adds at most one peer, at the end |
| WgCore.AfterConsistent | crates/wgcore/src/lib.rs:58-86 | over every run the table and the key map stay mutually inverse |
| WgCore.IndicesStable | crates/wgcore/src/lib.rs:78-86 | over every run a key keeps its index and no index is taken twice |
| WgCore.SessionRoutesIff | crates/wgcore/src/lib.rs:105-111 | a session index routes back to its peer exactly for peers below 2^24 |
| WgCore.HandshakeRouting | crates/wgcore/src/lib.rs:99-103 | a handshake is routed to a peer exactly when it has that key |
| WgCore.RoamsUnprovenIff | crates/wgcore/src/lib.rs:126-129 | a drain without an error roams without proof of the key exactly when a handshake draws a cookie first and something else after it |
| WgCore.FlushAfterCookieIff | crates/wgcore/src/lib.rs:114-129 | for a session that writes its waiting packets on empty input, cookie and flush happen exactly when a cookie is drawn with packets waiting |
| WgCore.WritesUnprovenIff | crates/wgcore/src/lib.rs:113-125 | more than cookies is written to a sender without proof exactly when the datagram draws a cookie and the empty input after it something else, whatever its kind and however the drain ends |
| WgCore.EndpointStep | crates/wgcore/src/lib.rs:94-131 | a step moves exactly the endpoint of the index it returns, to the sender, exactly where the roaming rule fires; that needs grounds, and lacks proof exactly in the case above |
| WgCore.EndpointsGrounded | crates/wgcore/src/lib.rs:126-129 | over every run each stored endpoint sent a datagram that proved the key or took that way round |
| WgCore.EndpointsProven | crates/wgcore/src/lib.rs:126-129 | in runs where that case never arises, each stored endpoint sent a datagram that proved the key |
| TableSteps.NamedExactly | crates/wgcore/src/lib.rs:98-113 | a datagram is for a peer exactly if it carries its key, or a receiver index in its block of 256 |
| TableSteps.DrainExactly | crates/wgcore/src/lib.rs:114-125 | the loop makes exactly the calls with the datagram and then empty input, puts out all that is written in order, and stops at the first call that writes nothing |
| TableSteps.DrainCalls | crates/wgcore/src/lib.rs:114-125 | every loop is such a series of calls |
| TableSteps.RecvExactly | crates/wgcore/src/lib.rs:94-131 | in terms of those calls: what is put out, what comes up, the index, and the table with one session, and by the roaming rule one endpoint, changed |
| TableSteps.RecvNothing | crates/wgcore/src/lib.rs:98-112 | a datagram for no peer changes nothing, and draws at most the demanded cookie |
| TableSteps.RoamsExactly | crates/wgcore/src/lib.rs:126-129 | the endpoint moves for every proof of the key, save a cookie reply that decrypts nothing, and else exactly by the way round |
| TableSteps.TimersExactly | crates/wgcore/src/lib.rs:148-163 | the timers put out exactly what the sessions write, in the order of the peers |
| WgCore.PacketsAreFromEndpoint | crates/wgcore/src/lib.rs:122-130 | packets come up only from a peer whose endpoint is the sender |
| WgCore.CookieMovesEndpoint | crates/wgcore/src/lib.rs:126-129 | a run in which a cookie over a waiting packet moves an endpoint with no proof |
| ServerTasks.Oversized | crates/server/src/net.rs:60-71 | the packets skipped are exactly those at the head that do not fit |
| ServerTasks.Server.Receive | crates/server/src/lib.rs:73-79 | one datagram: table, replies to the sender, packets waiting |
| ServerTasks.Server.Admit | crates/server/src/lib.rs:79-95 | source check, gate, reset, bounded hand-over, in that order |
| ServerTasks.Server.AdmitOne | crates/server/src/lib.rs:79-95 | deals with the next waiting packet |
| ServerTasks.Server.Ingress | crates/server/src/lib.rs:72-96 | the undisturbed body is the receive step and then each packet's step |
| ServerTasks.Server.Egress | crates/server/src/lib.rs:104-115 | one stack packet goes to the owner of its destination, at the stored endpoint |
| ServerTasks.Server.PollRead | crates/server/src/net.rs:60-71 | yields the first packet that fits and loses those before it |
| ServerTasks.Server.PollWrite | crates/server/src/net.rs:75-78 | queues up to 4096 packets and drops the rest |
| ServerTasks.Server.EncryptTo | crates/server/src/lib.rs:86-91 | encrypts for the peer and sends what comes out to the address, if any |
| ServerTasks.Server.Tick | crates/server/src/lib.rs:123-134 | timer datagrams go to each peer's endpoint, in order |
| ServerTasks.Server.SendOut | crates/server/src/lib.rs:129-132 | each datagram goes to the stored endpoint of its peer, in order; those of peers with none are dropped |
| Delivery.Received | crates/server/src/lib.rs:73-79 | a datagram for a peer runs its session, all of whose writes go back to the sender; what it decrypts waits under that peer |
| Delivery.Unaddressed | crates/server/src/lib.rs:75-78 | one for no peer leaves everything as it is, but for a demanded cookie |
| Delivery.HandedOver | crates/server/src/lib.rs:80-94 | an owned, admitted packet goes to the stack once, at the end, while fewer than 4096 wait, and is lost with 4096 |
| Delivery.Spoofed | crates/server/src/lib.rs:80-84 | one without addresses or under a foreign source is lost without a trace |
| Delivery.TurnedAway | crates/server/src/lib.rs:85-93 | a refused one never reaches the stack; exactly an IPv4 TCP segment without RST draws one reset, for its peer, to where it came from |
| Delivery.ReadInOrder | crates/server/src/net.rs:60-71 | the stack reads the first packet that fits and loses only those before it |
| Delivery.WrittenInOrder | crates/server/src/net.rs:75-78 | what the stack writes waits at the end while fewer than 4096 do |
| Delivery.Departed | crates/server/src/lib.rs:104-115 | a stack packet is given to the session of its destination's owner, and what that writes goes to the stored endpoint |
| Delivery.NothingToDo | crates/server/src/lib.rs:79-105 | with nothing to take, or a malformed packet, the tasks do nothing more |
| Delivery.SendsEach | crates/server/src/lib.rs:129-132 | each timer datagram goes to its peer's endpoint, in order, or is dropped without one |
| Delivery.Ticked | crates/server/src/lib.rs:123-134 | a tick drives every session once, writes that, and touches nothing else |
| Delivery.Inwards | crates/server/src/lib.rs:73-94 | from the datagram to the stack: a decrypted packet of the peer's own for an admitted destination is queued |
| Delivery.Outwards | crates/server/src/lib.rs:104-115 | from the stack to the wire: an answer leaves as the session makes it, for its peer's endpoint |
| Isolation.AdmitKeeps | crates/server/src/lib.rs:79-95 | dealing with one packet keeps every packet owned and every answer justified |
| Isolation.ArriveKeeps | crates/server/src/lib.rs:73-79 | so does receiving |
| Isolation.DepartKeeps | crates/server/src/lib.rs:104-115 | so does egress |
| Isolation.NextKeeps | crates/server/src/lib.rs:66-136 | so does every step of every task |
| Isolation.RunKeeps | crates/server/src/lib.rs:66-136 | hence every interleaving |
| Isolation.SourcesOwnedDestinationsOutside | crates/server/src/lib.rs:79-94 | what reaches the stack has a source its peer alone owns and a destination outside the subnet and every peer |
| Isolation.PeersAreAlone | crates/server/src/lib.rs:87-114 | what is encrypted is for the owner of its destination, answers that peer and no other, and if written at once goes to an address with grounds |
| Isolation.AddressedTowardsProof | crates/server/src/lib.rs:87-114 | and to one that proved the key, where the way round was never taken for that peer and address |
| Wire.NextTraces | crates/server/src/lib.rs:66-136 | every step of every task writes only back to a sender, or to an address with grounds for the peer whose session writes |
| Wire.WrittenTowardsGrounds | crates/server/src/lib.rs:73-134 | over every run each datagram written goes to the sender of a received one; if more than a cookie, where a datagram proved the key of the peer whose session wrote it, or drew a cookie and a flush of it |
| Wire.WrittenTowardsProof | crates/server/src/lib.rs:73-134 | and where that peer's key was proved, if no datagram from there ever drew such a flush |
| Wire.SessionsAreAlone | crates/server/src/lib.rs:87-114 | a session is only ever given packets for its own peer alone that answer packets of that peer alone, queued or not |
| Isolation.FlowsBelongToSenders | crates/server/src/lib.rs:147-149 | a packet given to the stack would pass the acceptor's own checks, as its sender's |
| Admission.NextKeeps | crates/server/src/lib.rs:139-165 | every step of a packet task, of the acceptor or of an ending task keeps each guard charged to the sender of a given packet |
| Admission.ReachableInv | crates/server/src/lib.rs:139-165 | hence every interleaving of them |
| Admission.GuardsBelongToSenders | crates/server/src/lib.rs:147-161 | every live guard is charged to the owner of the source of a given packet whose destination passes the gate, with no more guards than flows opened for that peer |
| Admission.InRange | crates/server/src/lib.rs:149-156 | the index looked up for a given packet is its sender's and in range for the counters |
| Admission.SendersOwnUpstream | crates/server/src/lib.rs:46-51 | over a run on what set-up built it is in range for the upstreams too, and names the one its sender's entry configures, or the global one if it configures none |
| Admission.OfferTakes | crates/server/src/lib.rs:147-150 | a flow offered for a given packet is taken up for its sender exactly while a permit is free |
| Admission.AdmitsUnlessCapped | crates/server/src/lib.rs:150-159 | and undisturbed it is started exactly while its sender has fewer than 512 |
| Scenario.OnePacketEachWay | crates/server/src/lib.rs:66-117 | an accepted configuration and a run meeting every hypothesis, in which a packet reaches the stack and its answer is encrypted and sent home |
| Scenario.QueuedPacketAstray | crates/server/src/lib.rs:75-79 | a run in which a cookie datagram from a stranger draws a queued packet to it, with nothing proved from there and no grounds |
| FlowCaps.Flows.TryAcquire | crates/server/src/lib.rs:150 | takes a permit exactly when one is free |
| FlowCaps.Flows.Charge | crates/server/src/lib.rs:151 | counts up, and is over the cap by the old value |
| FlowCaps.Flows.Discharge | crates/server/src/lib.rs:152 | counts back down, still holding the permit |
| FlowCaps.Flows.DropCount | crates/server/src/lib.rs:32-34 | a guard's drop counts down first |
| FlowCaps.Flows.DropPermit | crates/server/src/lib.rs:30-34 | and then gives the permit back |
| FlowCaps.Flows.Accept | crates/server/src/lib.rs:150-161 | undisturbed, a flow is admitted exactly with a free permit and a peer under its cap, and otherwise leaves no trace |
| FlowCaps.ReachableInv | crates/server/src/lib.rs:142-162 | every interleaving keeps counters, guards and permits in step |
| FlowCaps.CapsHold | crates/server/src/lib.rs:18-34 | free and held permits make 4096; counters sum to at most the held; at most 512 flows a peer; 513 only inside the acceptor |
| FlowCaps.AllGivenBack | crates/server/src/lib.rs:29-34 | when all tasks have ended everything is back |
| FlowCaps.CapsAreExact | crates/server/src/lib.rs:150-155 | a flow is turned away exactly at 512 live flows, or with 4096 permits out |
| Bridge.Loop.Lookup | crates/wsrelay/src/lib.rs:147-157 | the open channel of the source, or a new one in its place |
| Bridge.Loop.Send | crates/wsrelay/src/lib.rs:158 | queues while open and below 1024, else drops |
| Bridge.Loop.Retain | crates/wsrelay/src/lib.rs:160 | removes exactly the entries whose channel is closed |
| Bridge.NextKeeps | crates/wsrelay/src/lib.rs:143-162 | every step of the loop or a task keeps map, queues and written order in step |
| Bridge.OneTaskPerSource | crates/wsrelay/src/lib.rs:149-157 | one live task a source, its channel the stored one, at most 1024 queued, and no live task sees its channel end |
| Bridge.OnlyClosedDiscarded | crates/wsrelay/src/lib.rs:149-160 | from any state, no step but that task's own end takes an open channel out of the map |
| Bridge.WrittenInOrder | crates/wsrelay/src/lib.rs:187-195 | what is written for a source is an ordered, duplicate-free part of what came from it |
| Bridge.SendQueues | crates/wsrelay/src/lib.rs:158 | with room, a datagram joins the end of what is pending, after everything older |
| BridgeFlow.NothingLost | crates/wsrelay/src/lib.rs:145-194 | while a source's queue has room, no write fails and its task lives, what is written and pending for it is exactly what came from it, in order |
| BridgeFlow.Losses | crates/wsrelay/src/lib.rs:158-192 | a full or closed channel loses the datagram in hand, a failed write the one in flight, a task's end what is queued, and nothing else |
| BridgeFlow.TaskGoesOn | crates/wsrelay/src/lib.rs:187-192 | what is pending can be dequeued and written, and then is on the wire |
| ClientPeer.PausesFit | crates/wsrelay/src/lib.rs:20-23 | pauses total less than five minutes exactly up to 41 of them |
| ClientPeer.SleptExactly | crates/wsrelay/src/lib.rs:217-218 | the total of the pauses in closed form |
| ClientPeer.StretchesExtend | crates/wsrelay/src/lib.rs:168-219 | a bound on the stretch at the end bounds every stretch |
| ClientPeer.RoundKeepsSchedule | crates/wsrelay/src/lib.rs:216-218 | a round that does not end the task keeps clock, deadline and pause on schedule |
| Connection.LastMoveAt | crates/wsrelay/src/lib.rs:189-202 | the last datagram or frame before a connection is left sets the time of the last move |
| Connection.NoMove | crates/wsrelay/src/lib.rs:189-202 | and without one nothing moves |
| ClientPeer.OneEvent | crates/wsrelay/src/lib.rs:188-209 | which events end a connection, how, and which move the deadline |
| ClientPeer.Converse | crates/wsrelay/src/lib.rs:187-211 | the connection's loop ends with the first event that ends it, and as that event says; it stays open exactly if none does; the deadline is five minutes after the last datagram or frame |
| ClientPeer.Attend | crates/wsrelay/src/lib.rs:171-215 | so does an attempt with its connection; a failed one moves nothing |
| ClientPeer.Run | crates/wsrelay/src/lib.rs:166-220 | at most 43 failing attempts in a row and 1201 quiet rounds, pauses min(250 * 2^k, 8000), every round when the script says; idle exit only five minutes after the last move; still running only in a connection nothing ended, or with the script used up |
| ClientPeer.Reconnects | crates/wsrelay/src/lib.rs:205-218 | a failed attempt, and a closed or broken connection, is followed by the next attempt until five minutes without a move |
| ClientPeer.Turn | crates/wsrelay/src/lib.rs:168-219 | one turn of the outer loop keeps the schedule, or ends it as the source does |
| Mappings.OnlyIdleEnds | crates/wsrelay/src/lib.rs:147-190 | in the bridge no task ends with its channel |
| Mappings.FailuresEnd | crates/wsrelay/src/lib.rs:166-219 | once attempts only fail, the task is gone as idle within 43 of them, unless it is still in an earlier connection that nothing ended |
| Mappings.SweptAfterEnd | crates/wsrelay/src/lib.rs:147-160 | after a task's end, whatever happens meanwhile, a sweep leaves exactly the sources with a live task, and not its own unless that sent something since |
| Upstream.PercentDecode | crates/server/src/config.rs:47-57 | the loop ends and yields the decoded bytes made into text |
| Utf8.LossyValid | crates/server/src/config.rs:56 | the conversion always yields well-formed UTF-8 |
| Utf8.LossyKeepsIff | crates/server/src/config.rs:56 | it changes nothing exactly if the bytes are well-formed UTF-8 |
| Utf8.LossyGrows | crates/server/src/config.rs:56 | its result is never shorter, and at most three times as long |
| Utf8.TextExactly | crates/server/src/config.rs:56 | bytes count as text exactly if they encode Unicode scalar values by section 3 of RFC 3629 |
| Utf8.BrokenIsLongest | crates/server/src/config.rs:56 | one mark replaces the longest piece that begins a character, or a single byte |
| Upstream.TextSurvivesIff | crates/server/src/config.rs:46-57 | escaping and reading back returns the bytes exactly if they are well-formed UTF-8 |
| Upstream.DecodeEncode | crates/server/src/config.rs:47-55 | before the conversion, decoding undoes every way of escaping that escapes the percent sign |
| Upstream.DecodeIsStrictIff | crates/server/src/config.rs:51 | the decoder is the standard's exactly on text without a signed escape |
| Upstream.HexDigits | crates/server/src/config.rs:51 | a hexadecimal digit counts by its place, in letters of either case |
| Upstream.DecodesEach | crates/server/src/config.rs:50-53 | decoding goes piece by piece: an escape is its byte, a signed one its digit, any other byte itself |
| Upstream.ParseExactly | crates/server/src/config.rs:59-71 | the parser accepts exactly the URLs of the grammar, with exactly the upstream they spell, credentials made into text |
| Upstream.PortExactly | crates/server/src/config.rs:69 | a port is read exactly from its decimal digits below 2^16, behind any zeros and one plus sign |
| Upstream.RefusedExactly | crates/server/src/config.rs:60-65 | a URL is refused for its scheme, or for credentials without a colon before the last "@", exactly if that is so |
| Upstream.UpstreamRoundTrip | crates/server/src/config.rs:42-71 | a host without "@", a port and credentials survive being written and parsed exactly if both halves are well-formed UTF-8; without credentials always |
| Upstream.StrayCredentials | crates/server/src/config.rs:47-71 | credentials of the one byte 0xff come back as EF BF BD |
| Upstream.CredentialsAreText | crates/server/src/config.rs:56-65 | whatever the URL, the credentials it yields are well-formed UTF-8 |
| Octets.FromBeOfBe | crates/server/src/flow.rs:28 | network order bytes read back as the number |
| Octets.BeOfFromBe | crates/server/src/flow.rs:37-38 | and every byte string is the number it reads as |
| Octets.FirstOctetWeighs | crates/server/src/flow.rs:28 | the first octet counts most |
| Socks.UdpHeader | crates/server/src/flow.rs:22-30 | what it prefixes is a datagram of section 7 of RFC 1928 to that address |
| Socks.DatagramLaidOut | crates/server/src/flow.rs:22-30 | such a datagram octet by octet: RSV, FRAG 0, ATYP 1 or 4, address and port in network order, data |
| Socks.UnwrapsExactly | crates/server/src/flow.rs:34-43 | a datagram yields a body exactly if it is an unfragmented one from some address, whatever its reserved bytes |
| Socks.UnwrapWrapped | crates/server/src/flow.rs:22-43 | wrapping then unwrapping is the identity |
| Socks.Control.RequestRelay | crates/server/src/flow.rs:70-81 | request, reply and relay address as specified, byte by byte |
| Socks.Control.SendLogin | crates/server/src/flow.rs:55-67 | credentials are sent if they fit, and the answer's second byte decides |
| Socks.Control.Associate | crates/server/src/flow.rs:47-85 | outcome, bytes left unread and bytes written as specified |
| Socks.Granted | crates/server/src/flow.rs:47-81 | against a grant it succeeds with the address named, 0.0.0.0 and :: replaced by the control peer's, and reads that grant and nothing more |
| Socks.AssociatesExactly | crates/server/src/flow.rs:47-85 | it succeeds against exactly the transcripts that begin with an acceptable grant |
| Socks.SaysExactly | crates/server/src/flow.rs:48-70 | credentials are written exactly when asked for and fitting, the request exactly after that is settled, whatever comes of it |
| Socks.FailsExactly | crates/server/src/flow.rs:51-78 | each failure is reported exactly for its own reason in the proxy's bytes |
| Socks.SpokenIsHeard | crates/server/src/flow.rs:49-70 | a reader of the standard recovers methods, credentials and request; empty credentials are what it refuses |
| UdpFlow.PumpsExactly | crates/server/src/flow.rs:139-159 | datagrams are sent wrapped and in order, at most one is lost at the end, and exactly the replies that unwrap and fit are delivered |
| UdpFlow.RelayEndsExactly | crates/server/src/flow.rs:139-159 | the relay is over exactly at the first silence, failed or empty read, failed send, failed write of a reply that fits, relay failure or control traffic, and every read before was sent |
| UdpFlow.ReplyExactly | crates/server/src/flow.rs:151-152 | a reply is delivered exactly if it is an unfragmented datagram from some address whose data fits |
| UdpFlow.CapExactly | crates/server/src/flow.rs:136 | data fits exactly if it leaves room for 28 bytes of headers |
| UdpFlow.SentUnwraps | crates/server/src/flow.rs:144-147 | the proxy sees the peer's own bytes |
| UdpFlow.IdleEnds | crates/server/src/flow.rs:157 | a silence longer than the idle time ends the relay |
| UdpFlow.FrameDeframes | crates/server/src/flow.rs:172-174 | the resolver reads a frame as its query |
| UdpFlow.DeframesExactly | crates/server/src/flow.rs:177-180 | an answer is read exactly from its length in two octets, all of it, and anything after |
| UdpFlow.ClipsExactly | crates/server/src/flow.rs:187-191 | an answer fits the cap, is itself if it fits, and else its prefix with only TC changed, set exactly when the cap keeps three bytes |
| UdpFlow.LooksUpExactly | crates/server/src/flow.rs:166-194 | every query connected for is framed, in order; what is written is, in order, exactly the clipped answers that arrived whole and could be written; only an empty read or a failed write ends it |
| UdpFlow.LookupsEndExactly | crates/server/src/flow.rs:167-193 | lookups are over exactly after the first empty read or failed write of an answer that came whole |
| UdpFlow.AnswersFit | crates/server/src/flow.rs:187-192 | so no answer written is larger than the cap |
| UdpFlow.Flow.Relay | crates/server/src/flow.rs:136-159 | the loop is the specified fold of the events |
| UdpFlow.Flow.Handle | crates/server/src/flow.rs:140-158 | one event of it |
| UdpFlow.Flow.UdpRelay | crates/server/src/flow.rs:123-160 | hands the stream back exactly without an association, and then untouched; only a refusal marks the proxy |
| UdpFlow.Flow.DnsOverTcp | crates/server/src/flow.rs:163-195 | the loop is the specified run of lookups |
| UdpFlow.Flow.Look | crates/server/src/flow.rs:167-193 | one lookup of it |
| UdpFlow.Flow.HandleUdp | crates/server/src/flow.rs:113-119 | forced, relayed, fallen back or dropped, by port, resolver and association; lookups see every datagram |
| RouteTable.FirstAt | crates/wgclient/src/lib.rs:286-287 | the first line under a heading |
| RouteTable.HeadsExactly | crates/wgclient/src/lib.rs:285-287 | a heading is found exactly behind nothing but white space |
| RouteTable.RowExactly | crates/wgclient/src/lib.rs:285-292 | a line of words, however spaced, is a row exactly if there are five, the first, second and fourth addresses and the fifth a number, and then of those words in that order |
| RouteTable.LineSplits | crates/wgclient/src/lib.rs:289 | every line is words and white space |
| RouteTable.RowsAreLines | crates/wgclient/src/lib.rs:284-293 | the rows of a stretch of lines are its lines that are rows and no headings, in order |
| RouteTable.OnlyTheTableCounts | crates/wgclient/src/lib.rs:284-293 | lines before the active table or from the persistent one on make no difference |
| RouteTable.Best | crates/wgclient/src/lib.rs:294-299 | the first of least metric among numeric-gateway default rows, or none exactly when there is none |
| RouteTable.LanMembers | crates/wgclient/src/lib.rs:302-303 | the LAN is exactly the on-link, non-host, ordinary rows of the interface |
| RouteTable.LanInOrder | crates/wgclient/src/lib.rs:302-303 | in the order of the rows |
| RouteTable.IsLanExactly | crates/wgclient/src/lib.rs:302-303 | which are those of the interface, on-link in either case, no host route, outside 127/8 and 224/4, not the broadcast address |
| RouteTable.ReadRows | crates/wgclient/src/lib.rs:283-293 | the rows of the active table, in order |
| RouteTable.FilterLan | crates/wgclient/src/lib.rs:302-303 | the ordered filter |
| RouteTable.ParseRoutes | crates/wgclient/src/lib.rs:282-305 | default route and LAN of the active rows |
| RouteTable.ReadingExactly | crates/wgclient/src/lib.rs:294-304 | gateway and interface are those of the first row of least metric among 0.0.0.0/0 rows whose gateway is an address, with that interface's LAN; nothing exactly without one |
| RoutePlan.Mask4 | crates/wgclient/src/lib.rs:419 | a mask of that length leaves a block of 2^(32 - length) |
| RoutePlan.Adapter.Do | crates/wgclient/src/lib.rs:375-377 | a command's undo is logged once it has worked |
| RoutePlan.Adapter.SetUpDns | crates/wgclient/src/lib.rs:381-396 | servers, rule and flush in order, stopping at the first failure |
| RoutePlan.Adapter.RouteAllowed | crates/wgclient/src/lib.rs:408-430 | a route for each allowed prefix, defaults split |
| RoutePlan.Adapter.SwallowLan | crates/wgclient/src/lib.rs:433-443 | a full tunnel re-adds each LAN subnet but its own |
| RoutePlan.Adapter.BlockSix | crates/wgclient/src/lib.rs:444-451 | each half of ::/0 unless it is allowed literally |
| RoutePlan.Adapter.RouteHosts | crates/wgclient/src/lib.rs:453-467 | a host route for each distinct server |
| RoutePlan.Adapter.AddRoutes | crates/wgclient/src/lib.rs:402-467 | pins first, then the routes through the adapter |
| RoutePlan.Adapter.Open | crates/wgclient/src/lib.rs:360-469 | the machine, the log and the failure point are those of the plan |
| RoutePlan.Adapter.Drop | crates/wgclient/src/lib.rs:472-478 | replays the log from its end, ignoring failures |
| RouteUndo.OpenLogs | crates/wgclient/src/lib.rs:360-469 | at every failure point nothing initial is gone and everything added is logged |
| RouteUndo.ReplayLeaves | crates/wgclient/src/lib.rs:472-473 | replaying leaves exactly what no working log entry removes, whatever the order |
| RouteUndo.RoutesRestored | crates/wgclient/src/lib.rs:403-473 | after any failure point and a drop, the initial routes are back exactly when no logged deletion names one |
| RouteUndo.OpenLogged | crates/wgclient/src/lib.rs:360-469 | the log holds only inverses of planned commands, and after a success all of them |
| RouteUndo.FailsExactly | crates/wgclient/src/lib.rs:369-467 | a list of commands fails exactly at the first that does not work and is not the clearing of old rules |
| RouteUndo.LoggedExactly | crates/wgclient/src/lib.rs:375-467 | what is logged is exactly the inverses of the commands that were run and worked |
| RouteUndo.ResetsDns | crates/wgclient/src/lib.rs:393-478 | a drop after a success resets the name servers exactly if the configuration names some |
| RouteUndo.SuccessRestores | crates/wgclient/src/lib.rs:403-473 | after a success and a drop, the initial routes of each family are back exactly when the plan adds none of that family with the destination, mask and next hop of one |
| RouteUndo.FailureRestores | crates/wgclient/src/lib.rs:403-473 | and those of both families at every failure point when it adds none |
| RouteUndo.RulesRestored | crates/wgclient/src/lib.rs:388-390 | rules of others survive, none of ours is new, and automatic metrics are on where logged |
| RouteUndo.StaleRules | crates/wgclient/src/lib.rs:386-391 | after a success and a drop no rule of ours is left exactly when there is an IPv4 server or there was none |
| RouteUndo.RuleInForce | crates/wgclient/src/lib.rs:386-391 | while a tunnel with IPv4 servers is up, its rule names them |
| RouteUndo.DnsInOrder | crates/wgclient/src/lib.rs:381-392 | servers are set in order at their places, then rules cleared and the rule added for IPv4 ones, then the cache flushed |
| RouteUndo.V4ServersInOrder | crates/wgclient/src/lib.rs:386 | the rule's servers are the IPv4 ones, in order |
| TunnelTable.ThroughMembers | crates/wgclient/src/lib.rs:408-467 | the planned routes are exactly the allowed prefixes, the LAN subnets but its own, the IPv6 halves not allowed literally, and the servers |
| TunnelTable.IsOwnExactly | crates/wgclient/src/lib.rs:436 | the adapter's own subnet is the one at the first address of its block under its mask |
| TunnelTable.HostsDistinct | crates/wgclient/src/lib.rs:453-454 | no server gets two host routes |
| TunnelTable.DefaultStands | crates/wgclient/src/lib.rs:413 | an allowed default route and both its halves are in the table |
| TunnelTable.TableAfter | crates/wgclient/src/lib.rs:402-467 | after a success the table is the initial rows, the two pins and the planned rows at metric 2, nothing else |
| TunnelTable.Table6After | crates/wgclient/src/lib.rs:408-467 | after a success the IPv6 table is the initial rows and the planned ones, the halves at metric 2, nothing else |
| Killswitch.PrefixCovers | crates/wgclient/src/lib.rs:419 | a planned row covers exactly its prefix |
| Killswitch.HalfCovers | crates/wgclient/src/lib.rs:413 | a full tunnel has a half for every destination |
| Killswitch.EscapesExactly | crates/wgclient/src/lib.rs:402-443 | away from the pins, a destination escapes exactly through an unbeaten initial row elsewhere to which the halves, allowed prefixes, re-added LAN subnets and name servers yield by length, then metric |
| Killswitch.CapturedExactly | crates/wgclient/src/lib.rs:402-443 | under a full tunnel every other destination is captured |
| Killswitch.RoutingIsTheKillswitch | crates/wgclient/src/lib.rs:397-443 | over an ordinary table all but gateway, server, host rows, loopback and multicast is captured |
| Killswitch.OtherLinkEscapes | crates/wgclient/src/lib.rs:302-303 | on the table of the repository's test a second interface's subnet escapes |
| Killswitch.PinHolds | crates/wgclient/src/lib.rs:397-407 | gateway and server stay outside exactly when the configuration does not name them as server or allowed host |
| Killswitch.ReadingLists | crates/wgclient/src/lib.rs:398-399 | a faithful listing tells the plan the on-link subnets |
| SixBlock.SixEscapesExactly | crates/wgclient/src/lib.rs:444-451 | an IPv6 address escapes exactly through an unbeaten initial row elsewhere to which the halves, allowed prefixes and name servers yield by length, then metric |
| SixBlock.HalvesBeatDefaults | crates/wgclient/src/lib.rs:444-451 | such a row is never a default; unless a half is allowed literally it is longer than a half or has a metric of at most 2 |
| SixBlock.LinkPrefixEscapes | crates/wgclient/src/lib.rs:444-451 | under the default full tunnel, an on-link /64 elsewhere escapes |
| TunnelUp.ComesUpExactly | crates/wgclient/src/lib.rs:360-469 | where only host bits are refused, `open` succeeds exactly with an IPv4 address and relay and no host bits in a planned route |
| TunnelUp.TestTunnelLeaks | crates/wgclient/src/lib.rs:500-520 | the default full tunnel over the test's table comes up, meets the hypotheses above, and leaks in both families |

## Left out

- The insides of boringtun, ipstack, tokio-socks, etherparse, ipnet, tungstenite and rustls: oracles with the
  assumptions stated beside them. The stack is assumed to answer, and to open flows for, only packets it was given.
- Cryptography, key generation, base64 and TLS.
- Real sockets, threads, timers and processes. Time is a natural number; what the network does is a script or a run;
  a Windows command is data applied to a machine, and a failing one is taken to have no effect.
- Each task body of the server is one step, except for ingress, which is one step per datagram and one per packet, and
  the acceptor, whose atomic operations are steps. A send to a socket is recorded with the step that causes it.
- `tcp_rst` is modelled on parsed headers; checksums, lifetimes and packet bytes are not. Acknowledging sequence + 1
  answers a bare SYN; for a segment with a payload the model says only what the code does.
- TCP flows after admission (`dial`, `handle_tcp`): library calls around a byte copy.
- The relay side of the bridge (`serve_limited`, `relay_conn`): a semaphore and a two-way copy, easier than the client
  side.
- URLs are bytes; that the configuration file they come from is text is not used.
- `parse_conf`, `resolve_endpoint`, JSON and route text beyond words and headings: parsing of addresses and numbers is
  a library call.
- Failing writes on the control connection, and binding the relay socket: they only end the handshake earlier.
- One read of a lookup is taken to return at most the 1500 bytes its buffer holds; reading the rest of a longer datagram
  belongs to the stack.
- A failed write of a framed query to the resolver counts as asked, with nothing arriving.
- DNS servers and MTU in `open` are commands without effect on the machine: they are not on the undo log.
- Fixing the interface metric changes the totals of rows the adapter may already have; those stay as they were listed.
- Undo after the machine was changed by others while the tunnel was up.
- Killswitch.EscapesExactly: assumes that the route command refuses a destination with host bits, as Windows does, so a
  configuration with some fails to open. The metric an IPv6 route without one gets is an oracle.
- Killswitch.PinHolds: assumes that a route without an interface goes out by the owner of its next hop or by its best
  row, and that interface metrics are at least 1, as Windows has it.
- The Tauri application, its pages, profiles, updater and logs.
