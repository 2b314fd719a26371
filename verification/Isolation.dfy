/** What the validated configuration, the table, the gate and the tasks guarantee together over every run: peers
    are alone, sources are owned, and replies go back to whoever opened the flow. */
module Isolation {
  import opened Basics
  import opened Prefixes
  import opened Packets
  import opened ServerNet
  import opened ServerConfig
  import opened WgCore
  import opened ServerTasks

  datatype Event =
    | Arrive(from: SockAddr, datagram: Bytes, verdict: Verdict)
    | Admit
    | StackReads(size: Packet -> nat, room: nat)
    | StackWrites(packet: Packet)
    | Depart
    | Ticks

  ghost function Next(r: Rules, n: Net, e: Event): Net
    requires r.session.Valid()
  {
    match e
    case Arrive(from, datagram, v) => ArriveSpec(r, n, from, datagram, v)
    case Admit => AdmitNext(r, n)
    case StackReads(size, room) => ReadSpec(n, size, room).0
    case StackWrites(p) => WriteSpec(n, p)
    case Depart => EgressSpec(r, n)
    case Ticks => TickSpec(r, n)
  }

  /** `p` runs along the flow of `q` in the other direction. */
  predicate Answers(p: Packet, q: Packet) {
    DstAddress(p).Some? && DstAddress(p) == SrcAddress(q) && SrcAddress(p) == DstAddress(q)
  }

  /** The ingress task receives only with its inbox empty. Of the environment: datagrams are what the mac check says
      they are, and the stack only answers packets it was given. */
  ghost predicate Fair(n: Net, e: Event) {
    && (e.Arrive? ==> n.inbox == [] && Plausible(Recv(e.from, e.datagram, e.verdict)))
    && (e.StackWrites? ==> exists g :: g in n.given && Answers(e.packet, g.1))
  }

  function Begin(s0: State): Net {
    Net(s0, [], [], [], [], [], [], [], [])
  }

  ghost function Run(r: Rules, s0: State, es: seq<Event>): Net
    requires r.session.Valid()
  {
    if es == [] then Begin(s0) else Next(r, Run(r, s0, es[..|es| - 1]), es[|es| - 1])
  }

  ghost predicate Possible(r: Rules, s0: State, es: seq<Event>)
    requires r.session.Valid()
  {
    es != [] ==> Possible(r, s0, es[..|es| - 1]) && Fair(Run(r, s0, es[..|es| - 1]), es[|es| - 1])
  }

  function RulesOf(cfg: Config, session: Session): Rules {
    var table := TableOf(cfg.peers);
    Rules(session, (ip: Ip) => AllowedDst(cfg.address, ip, cfg.allowPrivate), (ip: Ip) => PeerFor(table, ip))
  }

  // ----- the invariant

  /** The fixed facts of a run: the rules, the table at the start, and what proves a key. */
  datatype Setting = Setting(r: Rules, s0: State, genuine: (Key, Bytes) -> bool) {
    ghost predicate Valid() {
      r.session.Valid() && r.session.Sound(genuine) && Fresh(s0)
    }
  }

  /** Some datagram from that address gave grounds for moving the peer's endpoint there. */
  ghost predicate Grounded(c: Setting, ops: seq<Op>, i: nat, a: SockAddr)
    requires c.r.session.Valid()
  {
    exists k :: 0 <= k < |ops| && GroundedAt(c.r.session, c.s0, ops, k, i, a, c.genuine)
  }

  /** A packet peer `g.0` sent under its own address. */
  predicate Owned(r: Rules, g: (nat, Packet)) {
    && SrcAddress(g.1).Some? && DstAddress(g.1).Some?
    && r.owner(SrcAddress(g.1).value) == Some(g.0)
  }

  predicate Reachable(r: Rules, g: (nat, Packet)) {
    Owned(r, g) && r.gate(DstAddress(g.1).value)
  }

  /** The packet was encrypted for the owner of its destination, answers a packet of that very peer, and is addressed
      only where there were grounds to take that peer to be. */
  ghost predicate Returned(c: Setting, n: Net, s: Sent)
    requires c.r.session.Valid()
  {
    && DstAddress(s.packet).Some? && c.r.owner(DstAddress(s.packet).value) == Some(s.peer)
    && (exists g :: g in n.given + n.refused && g.0 == s.peer && Answers(s.packet, g.1))
    && (s.to.Some? ==> Grounded(c, n.ops, s.peer, s.to.value))
  }

  ghost predicate TableTracks(c: Setting, n: Net)
    requires c.r.session.Valid()
  {
    && n.wg == After(c.r.session, c.s0, n.ops)
    && forall op :: op in n.ops ==> Plausible(op)
  }

  ghost predicate StackTracks(c: Setting, n: Net) {
    && (forall g :: g in n.given ==> Reachable(c.r, g))
    && (forall g :: g in n.refused ==> Owned(c.r, g))
    && (forall p :: p in n.fromStack ==> exists g :: g in n.given && Answers(p, g.1))
  }

  /** Waiting packets came from where there are grounds to take their peer to be. */
  ghost predicate InboxTracks(c: Setting, n: Net)
    requires c.r.session.Valid()
  {
    forall d :: d in n.inbox ==> Grounded(c, n.ops, d.peer, d.from)
  }

  ghost predicate Inv(c: Setting, n: Net)
    requires c.r.session.Valid()
  {
    && TableTracks(c, n) && StackTracks(c, n) && InboxTracks(c, n)
    && forall s :: s in n.sent ==> Returned(c, n, s)
  }

  lemma GroundedGrows(c: Setting, ops: seq<Op>, more: seq<Op>, i: nat, a: SockAddr)
    requires c.r.session.Valid() && Grounded(c, ops, i, a) && ops <= more
    ensures Grounded(c, more, i, a)
  {
    var k :| 0 <= k < |ops| && GroundedAt(c.r.session, c.s0, ops, k, i, a, c.genuine);
    assert more[..k] == ops[..k];
    assert GroundedAt(c.r.session, c.s0, more, k, i, a, c.genuine);
  }

  lemma InboxGrows(c: Setting, n: Net, m: Net)
    requires c.r.session.Valid() && InboxTracks(c, n) && n.ops <= m.ops && forall d :: d in m.inbox ==> d in n.inbox
    ensures InboxTracks(c, m)
  {
    forall d | d in m.inbox ensures Grounded(c, m.ops, d.peer, d.from) {
      GroundedGrows(c, n.ops, m.ops, d.peer, d.from);
    }
  }

  /** Later table operations and later packets keep what was sent justified. */
  lemma ReturnedGrows(c: Setting, n: Net, m: Net, s: Sent)
    requires c.r.session.Valid() && Returned(c, n, s)
    requires n.ops <= m.ops && n.given <= m.given && n.refused <= m.refused
    ensures Returned(c, m, s)
  {
    var g :| g in n.given + n.refused && g.0 == s.peer && Answers(s.packet, g.1);
    assert g in m.given + m.refused by {
      if g in n.given {
        assert g in m.given;
      } else {
        assert g in m.refused;
      }
    }
    if s.to.Some? {
      GroundedGrows(c, n.ops, m.ops, s.peer, s.to.value);
    }
  }

  lemma TableStep(c: Setting, n: Net, op: Op)
    requires c.Valid() && TableTracks(c, n) && Plausible(op)
    ensures TableTracks(c, n.(wg := Step(c.r.session, n.wg, op), ops := n.ops + [op]))
  {
    AfterSnoc(c.r.session, c.s0, n.ops, op);
  }

  /** Encrypting an answer for the owner of its destination keeps the invariant. */
  lemma EncryptKeeps(c: Setting, n: Net, idx: nat, p: Packet, to: Option<SockAddr>, g: (nat, Packet))
    requires c.Valid() && Inv(c, n)
    requires DstAddress(p).Some? && c.r.owner(DstAddress(p).value) == Some(idx)
    requires g in n.given + n.refused && g.0 == idx && Answers(p, g.1)
    requires to.Some? ==> Grounded(c, n.ops, idx, to.value)
    ensures Inv(c, Encrypt(c.r, n, idx, p, to))
  {
    var m := Encrypt(c.r, n, idx, p, to);
    TableStep(c, n, Encap(idx, p));
    InboxGrows(c, n, m);
    assert Returned(c, n, Sent(idx, p, to));
    forall s | s in m.sent ensures Returned(c, m, s) {
      ReturnedGrows(c, n, m, s);
    }
  }

  lemma StoredIsGrounded(c: Setting, n: Net, i: nat, a: SockAddr)
    requires c.Valid() && TableTracks(c, n) && i < |n.wg.peers| && n.wg.peers[i].endpoint == Some(a)
    ensures Grounded(c, n.ops, i, a)
  {
    EndpointsGrounded(c.r.session, c.s0, n.ops, i, a, c.genuine);
  }

  /** What was sent stays justified in a later state that sent nothing more. */
  lemma SentGrows(c: Setting, n: Net, m: Net)
    requires c.r.session.Valid() && (forall s :: s in n.sent ==> Returned(c, n, s)) && m.sent == n.sent
    requires n.ops <= m.ops && n.given <= m.given && n.refused <= m.refused
    ensures forall s :: s in m.sent ==> Returned(c, m, s)
  {
    forall s | s in m.sent ensures Returned(c, m, s) {
      ReturnedGrows(c, n, m, s);
    }
  }

  lemma RefuseKeeps(c: Setting, n: Net, idx: nat, p: Packet)
    requires c.Valid() && Inv(c, n) && Owned(c.r, (idx, p))
    ensures Inv(c, n.(refused := n.refused + [(idx, p)]))
  {
    var m := n.(refused := n.refused + [(idx, p)]);
    InboxGrows(c, n, m);
    SentGrows(c, n, m);
  }

  lemma HandOverKeeps(c: Setting, n: Net, idx: nat, p: Packet)
    requires c.Valid() && Inv(c, n) && Reachable(c.r, (idx, p))
    ensures Inv(c, n.(toStack := n.toStack + [p], given := n.given + [(idx, p)]))
  {
    var m := n.(toStack := n.toStack + [p], given := n.given + [(idx, p)]);
    InboxGrows(c, n, m);
    SentGrows(c, n, m);
    forall q | q in m.fromStack ensures exists g :: g in m.given && Answers(q, g.1) {
      var g :| g in n.given && Answers(q, g.1);
      assert g in m.given;
    }
  }

  lemma AdmitKeeps(c: Setting, n: Net, idx: nat, from: SockAddr, p: Packet)
    requires c.Valid() && Inv(c, n) && Grounded(c, n.ops, idx, from)
    ensures Inv(c, AdmitPacket(c.r, n, idx, from, p))
  {
    var src, dst := SrcAddress(p), DstAddress(p);
    if src.None? || dst.None? || c.r.owner(src.value) != Some(idx) {
    } else if !c.r.gate(dst.value) {
      RefuseKeeps(c, n, idx, p);
      if TcpRst(p).Some? {
        var k := n.(refused := n.refused + [(idx, p)]);
        RstMirrors(p);
        assert (idx, p) in k.refused;
        EncryptKeeps(c, k, idx, TcpRst(p).value, Some(from), (idx, p));
      }
    } else if |n.toStack| < QUEUE {
      HandOverKeeps(c, n, idx, p);
    }
  }

  lemma AdmitNextKeeps(c: Setting, n: Net)
    requires c.Valid() && Inv(c, n)
    ensures Inv(c, AdmitNext(c.r, n))
  {
    if n.inbox != [] {
      var d, m := n.inbox[0], n.(inbox := n.inbox[1..]);
      assert d in n.inbox;
      InboxGrows(c, n, m);
      SentGrows(c, n, m);
      AdmitKeeps(c, m, d.peer, d.from, d.packet);
    }
  }

  lemma ArriveKeeps(c: Setting, n: Net, from: SockAddr, d: Bytes, v: Verdict)
    requires c.Valid() && Inv(c, n) && n.inbox == [] && Plausible(Recv(from, d, v))
    ensures Inv(c, ArriveSpec(c.r, n, from, d, v))
  {
    var x := c.r.session;
    var o := RecvSpec(x, n.wg, from, d, v);
    var m := ArriveSpec(c.r, n, from, d, v);
    TableStep(c, n, Recv(from, d, v));
    SentGrows(c, n, m);
    if o.idx.Some? && o.packets != [] {
      PacketsAreFromEndpoint(x, n.wg, from, d, v);
      StoredIsGrounded(c, m, o.idx.value, from);
    }
  }

  lemma DropHead(c: Setting, n: Net)
    requires c.Valid() && Inv(c, n) && n.fromStack != []
    ensures Inv(c, n.(fromStack := n.fromStack[1..]))
  {
    var m := n.(fromStack := n.fromStack[1..]);
    forall p | p in m.fromStack ensures exists g :: g in m.given && Answers(p, g.1) {
      assert p in n.fromStack;
    }
    InboxGrows(c, n, m);
    SentGrows(c, n, m);
  }

  lemma DepartKeeps(c: Setting, n: Net)
    requires c.Valid() && Inv(c, n)
    ensures Inv(c, EgressSpec(c.r, n))
  {
    if n.fromStack != [] {
      var p := n.fromStack[0];
      var m := n.(fromStack := n.fromStack[1..]);
      assert p in n.fromStack;
      var g :| g in n.given && Answers(p, g.1);
      assert Reachable(c.r, g);
      assert c.r.owner(DstAddress(p).value) == Some(g.0);
      DropHead(c, n);
      var to := if g.0 < |n.wg.peers| then n.wg.peers[g.0].endpoint else None;
      if to.Some? {
        StoredIsGrounded(c, m, g.0, to.value);
      }
      EncryptKeeps(c, m, g.0, p, to, g);
    }
  }

  /** Reading from and writing to the device. */
  lemma DeviceKeeps(c: Setting, n: Net, e: Event)
    requires c.Valid() && Inv(c, n) && Fair(n, e) && (e.StackReads? || e.StackWrites?)
    ensures Inv(c, Next(c.r, n, e))
  {
    var m := Next(c.r, n, e);
    InboxGrows(c, n, m);
    SentGrows(c, n, m);
  }

  lemma TickKeeps(c: Setting, n: Net)
    requires c.Valid() && Inv(c, n)
    ensures Inv(c, TickSpec(c.r, n))
  {
    var m := TickSpec(c.r, n);
    TableStep(c, n, Timers);
    InboxGrows(c, n, m);
    SentGrows(c, n, m);
  }

  lemma NextKeeps(c: Setting, n: Net, e: Event)
    requires c.Valid() && Inv(c, n) && Fair(n, e)
    ensures Inv(c, Next(c.r, n, e))
  {
    match e
    case Arrive(from, d, v) => ArriveKeeps(c, n, from, d, v);
    case Admit => AdmitNextKeeps(c, n);
    case Depart => DepartKeeps(c, n);
    case Ticks => TickKeeps(c, n);
    case _ => DeviceKeeps(c, n, e);
  }

  lemma {:induction false} RunKeeps(c: Setting, es: seq<Event>)
    requires c.Valid() && Possible(c.r, c.s0, es)
    ensures Inv(c, Run(c.r, c.s0, es))
  {
    if es != [] {
      RunKeeps(c, es[..|es| - 1]);
      NextKeeps(c, Run(c.r, c.s0, es[..|es| - 1]), es[|es| - 1]);
    }
  }

  // ----- the guarantee

  /** Over every run of every configuration that `validate` accepts: what reaches the stack from peer `i` carries a
      source only `i` owns and aims outside the tunnel subnet, hence at no peer. */
  lemma SourcesOwnedDestinationsOutside(cfg: Config, read: Reader, c: Setting, es: seq<Event>, g: (nat, Packet))
    requires Accepted(cfg, read) && c.Valid() && c.r == RulesOf(cfg, c.r.session) && Possible(c.r, c.s0, es)
    requires g in Run(c.r, c.s0, es).given
    ensures SrcAddress(g.1).Some? && DstAddress(g.1).Some?
    ensures forall e :: e in TableOf(cfg.peers) && Contains(e.0, SrcAddress(g.1).value) ==> e.1 == g.0
    ensures exists e :: e in TableOf(cfg.peers) && Contains(e.0, SrcAddress(g.1).value) && e.1 == g.0
    ensures !Contains(cfg.address, DstAddress(g.1).value)
    ensures forall e :: e in TableOf(cfg.peers) ==> !Contains(e.0, DstAddress(g.1).value)
  {
    RunKeeps(c, es);
    assert Reachable(c.r, g);
    AcceptedUnambiguous(cfg, read);
    PeerForIsOwner(TableOf(cfg.peers), SrcAddress(g.1).value, g.0);
    forall e | e in TableOf(cfg.peers) ensures !Contains(e.0, DstAddress(g.1).value) {
      TableMembers(cfg.peers, e);
      assert GoodPeer(cfg, cfg.peers[e.1], read);
      assert Inside(e.0, cfg.address);
    }
  }

  /** ... and every packet the server encrypts goes to the one peer owning its destination. It answers a packet
      that peer sent and no packet any other peer sent. If the session writes it at once, that is to an address with
      grounds: a datagram from there proved the peer's key, or took the way round by a cookie. A packet the session
      queues instead is written by a later step. */
  lemma PeersAreAlone(cfg: Config, read: Reader, c: Setting, es: seq<Event>, s: Sent)
    requires Accepted(cfg, read) && c.Valid() && c.r == RulesOf(cfg, c.r.session) && Possible(c.r, c.s0, es)
    requires s in Run(c.r, c.s0, es).sent
    ensures var n := Run(c.r, c.s0, es);
            && DstAddress(s.packet).Some?
            && (forall e :: e in TableOf(cfg.peers) && Contains(e.0, DstAddress(s.packet).value) ==> e.1 == s.peer)
            && (exists g :: g in n.given + n.refused && Answers(s.packet, g.1))
            && (forall g :: g in n.given + n.refused && Answers(s.packet, g.1) ==> g.0 == s.peer)
            && (s.to.Some? ==> Grounded(c, n.ops, s.peer, s.to.value))
  {
    var n := Run(c.r, c.s0, es);
    RunKeeps(c, es);
    assert Returned(c, n, s);
    AcceptedUnambiguous(cfg, read);
    PeerForIsOwner(TableOf(cfg.peers), DstAddress(s.packet).value, s.peer);
    forall g | g in n.given + n.refused && Answers(s.packet, g.1) ensures g.0 == s.peer {
      assert Owned(c.r, g);
    }
  }

  /** Where the way round was never taken for that peer and that address, it is proven. */
  lemma AddressedTowardsProof(cfg: Config, read: Reader, c: Setting, es: seq<Event>, s: Sent)
    requires Accepted(cfg, read) && c.Valid() && c.r == RulesOf(cfg, c.r.session) && Possible(c.r, c.s0, es)
    requires s in Run(c.r, c.s0, es).sent && s.to.Some?
    requires var ops := Run(c.r, c.s0, es).ops;
             forall k :: 0 <= k < |ops| ==> !RoundAt(c.r.session, c.s0, ops, k, s.peer, s.to.value)
    ensures var ops := Run(c.r, c.s0, es).ops;
            exists k :: 0 <= k < |ops| && ProvenAt(c.r.session, c.s0, ops, k, s.peer, s.to.value, c.genuine)
  {
    PeersAreAlone(cfg, read, c, es, s);
    GroundedWithoutRound(c, Run(c.r, c.s0, es).ops, s.peer, s.to.value);
  }

  lemma GroundedWithoutRound(c: Setting, ops: seq<Op>, i: nat, a: SockAddr)
    requires c.Valid() && Grounded(c, ops, i, a)
    requires forall k :: 0 <= k < |ops| ==> !RoundAt(c.r.session, c.s0, ops, k, i, a)
    ensures exists k :: 0 <= k < |ops| && ProvenAt(c.r.session, c.s0, ops, k, i, a, c.genuine)
  {
    var k :| 0 <= k < |ops| && GroundedAt(c.r.session, c.s0, ops, k, i, a, c.genuine);
    AfterConsistent(c.r.session, c.s0, ops[..k]);
    GroundedIsProven(c.r.session, c.s0, ops, k, i, a, c.genuine);
  }

  /** A packet handed to the stack would pass the acceptor's own checks, gate and owner, as its sender's. */
  lemma FlowsBelongToSenders(cfg: Config, c: Setting, es: seq<Event>, g: (nat, Packet))
    requires c.Valid() && c.r == RulesOf(cfg, c.r.session) && Possible(c.r, c.s0, es)
    requires g in Run(c.r, c.s0, es).given
    ensures SrcAddress(g.1).Some? && DstAddress(g.1).Some?
    ensures AllowedDst(cfg.address, DstAddress(g.1).value, cfg.allowPrivate)
    ensures PeerFor(TableOf(cfg.peers), SrcAddress(g.1).value) == Some(g.0)
  {
    RunKeeps(c, es);
    assert Reachable(c.r, g);
  }
}
