/** One packet there and back. The hypotheses of the isolation theorems are met by a configuration `validate` accepts
    and a run in which a peer's packet reaches the stack and its answer goes home, or, with a session that queues it,
    to a stranger who draws the flush. */
module Scenario {
  import opened Basics
  import opened Prefixes
  import opened Packets
  import opened ServerNet
  import opened Upstream
  import opened ServerConfig
  import opened WgCore
  import opened ServerTasks
  import opened Isolation
  import opened Wire

  const HOME: U32 := 0x0a07_0002
  const FAR: U32 := 0x0101_0101
  const OWNED: IpNet := Prefix(V4(HOME), 32)
  const SUBNET: IpNet := Prefix(V4(0x0a07_0001), 24)
  const PING: Packet := Ipv4(HOME, FAR, OtherTransport, [7])
  const PONG: Packet := Ipv4(FAR, HOME, OtherTransport, [8])
  const KEY: Key := [1]
  const FROM: SockAddr := SockAddr(V4(0x0909_0909), 4000)

  function Proxy(): Bytes {
    SCHEME + ([0x68] + [COLON] + PrintNat(1080))
  }

  function SmallConfig(): Config {
    Config(KEY, SUBNET, Some(FROM), None, Proxy(), None, false, [PeerConfig(KEY, None, [OWNED], None)])
  }

  function AnyKey(): ServerConfig.Reader {
    OwnReader((k: Bytes) => Some(k))
  }

  /** A session that decrypts every data datagram to the same packet, answers anything else with a cookie, and writes
      waiting packets on empty input. */
  function Decrypt(t: Tunn, ip: Ip, d: Bytes): (TunnResult, Tunn) {
    if d == [] then if t.queued == [] then (Done, t) else (ToNetwork([DATA]), t.(queued := t.queued[1..]))
    else (if d[0] == DATA then ToTunnel(PING) else ToNetwork([COOKIE]), t)
  }

  /** It encrypts at once if `ready`, and queues packets if not. */
  function SmallSession(ready: bool): Session {
    Session(Decrypt, if ready then (t: Tunn, p: Packet) => (ToNetwork([DATA]), t) else Enqueue, (t: Tunn) => (Done, t))
  }

  function HasData(key: Key, d: Bytes): bool {
    d != [] && d[0] == DATA
  }

  function OnePeer(endpoint: Option<SockAddr>, queued: seq<Packet>): State {
    State([Peer(KEY, endpoint, Tunn(KEY, queued, 0))], map[KEY := 0])
  }

  function SmallSetting(ready: bool): Setting {
    Setting(RulesOf(SmallConfig(), SmallSession(ready)), OnePeer(None, []), HasData)
  }

  const ARRIVAL: Event := Arrive(FROM, [DATA], Data(0))

  lemma OwnedIsHome(ip: Ip)
    ensures Contains(OWNED, ip) <==> ip == V4(HOME)
  {
    assert HostBits(OWNED) == 0 && Pow2(0) == 1;
  }

  lemma ProxyParses()
    ensures ParseUpstream(Proxy()).Ok?
  {
    PortParses(1080);
    var addr := [0x68] + [COLON] + PrintNat(1080);
    assert IsHostPort(addr);
    SpelledParses(Proxy(), Upstream(addr, None), [], []);
  }

  lemma OwnedInside()
    ensures Inside(OWNED, SUBNET)
  {
    assert HostBits(SUBNET) == 8 && Floor(0x0a07_0001, 8) == 0x0a07_0000 && Pow2(8) == 256;
    forall ip | Contains(OWNED, ip) ensures Contains(SUBNET, ip) {
      OwnedIsHome(ip);
    }
  }

  lemma SmallTable()
    ensures TableOf(SmallConfig().peers) == [(OWNED, 0)]
  {
    assert SmallConfig().peers[..0] == [];
  }

  lemma ConfigAccepted()
    ensures Accepted(SmallConfig(), AnyKey())
  {
    ProxyParses();
    OwnedInside();
    SmallTable();
  }

  lemma Gates()
    ensures PeerFor([(OWNED, 0)], V4(HOME)) == Some(0)
    ensures AllowedDst(SUBNET, V4(FAR), false)
  {
    OwnedIsHome(V4(HOME));
    assert [(OWNED, 0)][..0] == [];
    FarAllowed();
  }

  lemma FarAllowed()
    ensures AllowedDst(SUBNET, V4(FAR), false)
  {
    assert HostBits(SUBNET) == 8 && Pow2(8) == 256;
    Verdict4(SUBNET, FAR, false);
  }

  lemma SettingValid(ready: bool)
    ensures SmallSession(ready).Valid() && SmallSetting(ready).Valid()
  {
  }

  function Arrived(): Net {
    Net(OnePeer(Some(FROM), []), [Recv(FROM, [DATA], Data(0))], [Decrypted(0, FROM, PING)], [], [], [], [], [], [])
  }

  function Admitted(): Net {
    Arrived().(inbox := [], toStack := [PING], given := [(0, PING)])
  }

  function Answered(): Net {
    Admitted().(fromStack := [PONG])
  }

  lemma Arriving(r: Rules, ready: bool)
    requires r == SmallSetting(ready).r && r.session.Valid()
    ensures Next(r, Begin(OnePeer(None, [])), ARRIVAL) == Arrived()
  {
    assert Drain(r.session, Tunn(KEY, [], 0), FROM.ip, [DATA]) == Drained(Tunn(KEY, [], 0), [], ToTunnel(PING));
  }

  lemma Admitting(r: Rules, ready: bool)
    requires r == SmallSetting(ready).r && r.session.Valid()
    ensures Next(r, Arrived(), Admit) == Admitted()
    ensures Next(r, Admitted(), StackWrites(PONG)) == Answered()
  {
    SmallTable();
    Gates();
  }

  lemma Departing(r: Rules)
    requires r == SmallSetting(true).r && r.session.Valid()
    ensures var n := Next(r, Answered(), Depart);
            n.given == [(0, PING)] && n.sent == [Sent(0, PONG, Some(FROM))] && n.wire == [(FROM, [DATA])]
  {
    SmallTable();
    Gates();
  }

  lemma RunSnoc(r: Rules, s0: State, es: seq<Event>, e: Event)
    requires r.session.Valid()
    ensures Run(r, s0, es + [e]) == Next(r, Run(r, s0, es), e)
    ensures Possible(r, s0, es + [e]) <==> Possible(r, s0, es) && Fair(Run(r, s0, es), e)
  {
    assert (es + [e])[..|es|] == es;
  }

  /** One event more, from a state already known. */
  lemma RunOn(r: Rules, s0: State, es: seq<Event>, e: Event, n: Net)
    requires r.session.Valid() && Possible(r, s0, es) && Run(r, s0, es) == n && Fair(n, e)
    ensures Possible(r, s0, es + [e]) && Run(r, s0, es + [e]) == Next(r, n, e)
  {
    RunSnoc(r, s0, es, e);
  }

  lemma StackMayAnswer()
    ensures Fair(Admitted(), StackWrites(PONG))
  {
    assert Answers(PONG, PING) && (0, PING) in Admitted().given;
  }

  lemma Inwards(r: Rules, s0: State, ready: bool) returns (es: seq<Event>)
    requires r == SmallSetting(ready).r && r.session.Valid() && s0 == OnePeer(None, [])
    ensures Possible(r, s0, es) && Run(r, s0, es) == Admitted()
  {
    Arriving(r, ready);
    RunOn(r, s0, [], ARRIVAL, Begin(s0));
    Admitting(r, ready);
    RunOn(r, s0, [] + [ARRIVAL], Admit, Arrived());
    es := [] + [ARRIVAL] + [Admit];
  }

  lemma Outwards(r: Rules, s0: State, ready: bool, inwards: seq<Event>) returns (es: seq<Event>)
    requires r == SmallSetting(ready).r && r.session.Valid() && Possible(r, s0, inwards) && Run(r, s0, inwards) == Admitted()
    ensures Possible(r, s0, es) && Run(r, s0, es) == Answered()
  {
    StackMayAnswer();
    Admitting(r, ready);
    RunOn(r, s0, inwards, StackWrites(PONG), Admitted());
    es := inwards + [StackWrites(PONG)];
  }

  lemma Home(r: Rules, s0: State, answered: seq<Event>) returns (es: seq<Event>)
    requires r == SmallSetting(true).r && r.session.Valid() && Possible(r, s0, answered) && Run(r, s0, answered) == Answered()
    ensures Possible(r, s0, es)
    ensures var n := Run(r, s0, es);
            n.given == [(0, PING)] && n.sent == [Sent(0, PONG, Some(FROM))] && n.wire == [(FROM, [DATA])]
  {
    Departing(r);
    RunOn(r, s0, answered, Depart, Answered());
    es := answered + [Depart];
  }

  /** The hypotheses of the theorems hold together, and their subjects are there. */
  lemma OnePacketEachWay() returns (cfg: Config, read: ServerConfig.Reader, c: Setting, es: seq<Event>)
    ensures Accepted(cfg, read) && c.Valid() && c.r == RulesOf(cfg, c.r.session) && Possible(c.r, c.s0, es)
    ensures var n := Run(c.r, c.s0, es);
            n.given == [(0, PING)] && n.sent == [Sent(0, PONG, Some(FROM))] && n.wire == [(FROM, [DATA])]
  {
    cfg, read, c := SmallConfig(), AnyKey(), SmallSetting(true);
    ConfigAccepted();
    SettingValid(true);
    es := Inwards(c.r, c.s0, true);
    es := Outwards(c.r, c.s0, true, es);
    es := Home(c.r, c.s0, es);
  }

  // ----- the answer goes astray

  const STRANGER: SockAddr := SockAddr(V4(0x0606_0606), 6000)
  const DRAWS_FLUSH: Event := Arrive(STRANGER, [COOKIE], CookieReply(0))

  /** The answer is with the session, which has not written it. */
  function Waiting(): Net {
    Admitted().(wg := OnePeer(Some(FROM), [PONG]), ops := [Recv(FROM, [DATA], Data(0)), Encap(0, PONG)],
                sent := [Sent(0, PONG, Some(FROM))])
  }

  function Astray(): Net {
    Waiting().(wg := OnePeer(Some(FROM), []), ops := Waiting().ops + [Recv(STRANGER, [COOKIE], CookieReply(0))],
               wire := [(STRANGER, [COOKIE]), (STRANGER, [DATA])])
  }

  lemma Queueing(r: Rules)
    requires r == SmallSetting(false).r && r.session.Valid()
    ensures Next(r, Answered(), Depart) == Waiting()
  {
    SmallTable();
    Gates();
    assert [] + [PONG] == [PONG];
  }

  lemma FlushDrains(x: Session)
    requires x == SmallSession(false) && x.Valid()
    ensures Drain(x, Tunn(KEY, [PONG], 0), STRANGER.ip, [COOKIE]) == Drained(Tunn(KEY, [], 0), [[COOKIE], [DATA]], Done)
  {
    var waiting, empty := Tunn(KEY, [PONG], 0), Tunn(KEY, [], 0);
    assert waiting.queued[1..] == [];
    assert Drain(x, empty, STRANGER.ip, []) == Drained(empty, [], Done);
    assert Drain(x, waiting, STRANGER.ip, []) == Drained(empty, [[DATA]], Done);
  }

  lemma Flushing(r: Rules)
    requires r == SmallSetting(false).r && r.session.Valid()
    ensures Next(r, Waiting(), DRAWS_FLUSH) == Astray()
  {
    FlushDrains(r.session);
  }

  lemma Elsewhere(r: Rules, s0: State, answered: seq<Event>) returns (es: seq<Event>)
    requires r == SmallSetting(false).r && r.session.Valid() && Possible(r, s0, answered) && Run(r, s0, answered) == Answered()
    ensures Possible(r, s0, es) && Run(r, s0, es) == Astray()
  {
    Queueing(r);
    RunOn(r, s0, answered, Depart, Answered());
    Flushing(r);
    RunOn(r, s0, answered + [Depart], DRAWS_FLUSH, Waiting());
    es := answered + [Depart] + [DRAWS_FLUSH];
  }

  ghost predicate NeverProved(c: Setting, ops: seq<Op>, a: SockAddr)
    requires c.r.session.Valid()
  {
    forall k, i :: 0 <= k < |ops| && i >= 0 ==> !ProofAt(c.r.session, c.s0, ops, k, i, a, c.genuine)
  }

  lemma StrangerHasNoGrounds(c: Setting)
    requires c == SmallSetting(false) && c.Valid()
    ensures forall i :: !Grounded(c, Astray().ops, i, STRANGER)
    ensures NeverProved(c, Astray().ops, STRANGER)
  {
    var ops := Astray().ops;
    forall k, i: nat | 0 <= k < |ops| ensures !GroundedAt(c.r.session, c.s0, ops, k, i, STRANGER, c.genuine) {
    }
  }

  /** A datagram that proves nothing draws a packet out of the queue, to an address from which nothing was ever
      proved, and which is no grounds for an endpoint. */
  lemma QueuedPacketAstray() returns (cfg: Config, read: ServerConfig.Reader, c: Setting, es: seq<Event>)
    ensures Accepted(cfg, read) && c.Valid() && c.r == RulesOf(cfg, c.r.session) && Possible(c.r, c.s0, es)
    ensures var n := Run(c.r, c.s0, es);
            && n.sent == [Sent(0, PONG, Some(FROM))] && n.wire == [(STRANGER, [COOKIE]), (STRANGER, [DATA])]
            && (forall i :: !Grounded(c, n.ops, i, STRANGER)) && NeverProved(c, n.ops, STRANGER)
  {
    cfg, read, c := SmallConfig(), AnyKey(), SmallSetting(false);
    ConfigAccepted();
    SettingValid(false);
    es := Inwards(c.r, c.s0, false);
    es := Outwards(c.r, c.s0, false, es);
    es := Elsewhere(c.r, c.s0, es);
    StrangerHasNoGrounds(c);
  }
}
