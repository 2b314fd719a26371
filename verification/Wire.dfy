/** What is actually written to the network, and to whom. A packet the session queues is written later, by whichever
    step draws the flush, so the address known when it was encrypted says nothing about it. */
module Wire {
  import opened Basics
  import opened Prefixes
  import opened Packets
  import opened ServerNet
  import opened ServerConfig
  import opened WgCore
  import opened ServerTasks
  import opened Isolation

  /** Step `k` of the run wrote `d` with the session of peer `i`. */
  ghost predicate WroteAt(x: Session, s0: State, ops: seq<Op>, k: nat, i: nat, d: Bytes)
    requires x.Valid() && k < |ops|
  {
    var s := After(x, s0, ops[..k]);
    && i < |s.peers|
    && match ops[k]
       case Add(_, _) => false
       case Recv(from, input, v) => Named(s, v) == Some(i) && d in Drain(x, s.peers[i].tunn, from.ip, input).net
       case Encap(idx, p) => idx == i && x.encapsulate(s.peers[i].tunn, p).0 == ToNetwork(d)
       case Timers => x.timers(s.peers[i].tunn).0 == ToNetwork(d)
  }

  /** Step `k` received a datagram from `a` that names peer `i`, whether its session then broke or not. */
  ghost predicate NamedAt(x: Session, s0: State, ops: seq<Op>, k: nat, i: nat, a: SockAddr)
    requires x.Valid() && k < |ops|
  {
    var s := After(x, s0, ops[..k]);
    && ops[k].Recv? && ops[k].from == a && ops[k].datagram != []
    && i < |s.peers| && Named(s, ops[k].verdict) == Some(i)
  }

  /** ... and proves that peer's key. */
  ghost predicate ProofAt(x: Session, s0: State, ops: seq<Op>, k: nat, i: nat, a: SockAddr, genuine: (Key, Bytes) -> bool)
    requires x.Valid() && k < |ops|
  {
    NamedAt(x, s0, ops, k, i, a) && genuine(After(x, s0, ops[..k]).peers[i].publicKey, ops[k].datagram)
  }

  /** ... and draws a cookie and then a flush. */
  ghost predicate FlushAt(x: Session, s0: State, ops: seq<Op>, k: nat, i: nat, a: SockAddr)
    requires x.Valid() && k < |ops|
  {
    && NamedAt(x, s0, ops, k, i, a)
    && FlushAfterCookie(x, After(x, s0, ops[..k]).peers[i].tunn, a.ip, ops[k].datagram)
  }

  /** The cookie the mac check itself demands of a sender, before any session is involved. */
  predicate Demanded(ops: seq<Op>, w: (SockAddr, Bytes)) {
    exists k :: 0 <= k < |ops| && ops[k].Recv? && ops[k].from == w.0 && ops[k].verdict == Demand(w.1)
  }

  // ----- where every datagram comes from

  /** Step `k` wrote it with the session of peer `i`: back to the sender, or to an address with grounds by then. */
  ghost predicate TracedAt(c: Setting, ops: seq<Op>, k: nat, i: nat, w: (SockAddr, Bytes))
    requires c.r.session.Valid() && k < |ops|
  {
    && WroteAt(c.r.session, c.s0, ops, k, i, w.1)
    && if ops[k].Recv? then ops[k].from == w.0 else Grounded(c, ops[..k], i, w.0)
  }

  ghost predicate Traced(c: Setting, ops: seq<Op>, w: (SockAddr, Bytes))
    requires c.r.session.Valid()
  {
    Demanded(ops, w) || exists k, i :: 0 <= k < |ops| && i >= 0 && TracedAt(c, ops, k, i, w)
  }

  ghost predicate WireTracks(c: Setting, n: Net)
    requires c.r.session.Valid()
  {
    forall w :: w in n.wire ==> Traced(c, n.ops, w)
  }

  lemma TracedGrows(c: Setting, ops: seq<Op>, op: Op, w: (SockAddr, Bytes))
    requires c.r.session.Valid() && Traced(c, ops, w)
    ensures Traced(c, ops + [op], w)
  {
    var more := ops + [op];
    if Demanded(ops, w) {
      var k :| 0 <= k < |ops| && ops[k].Recv? && ops[k].from == w.0 && ops[k].verdict == Demand(w.1);
      assert more[k] == ops[k];
    } else {
      var k, i :| 0 <= k < |ops| && i >= 0 && TracedAt(c, ops, k, i, w);
      assert more[..k] == ops[..k] && more[k] == ops[k];
      assert TracedAt(c, more, k, i, w);
    }
  }

  /** One table operation more, and what it made the server write. */
  lemma WireGrows(c: Setting, n: Net, m: Net, op: Op, written: seq<(SockAddr, Bytes)>)
    requires c.r.session.Valid() && WireTracks(c, n) && m.ops == n.ops + [op] && m.wire == n.wire + written
    requires forall w :: w in written ==> Traced(c, m.ops, w)
    ensures WireTracks(c, m)
  {
    forall w | w in m.wire ensures Traced(c, m.ops, w) {
      if w in n.wire {
        TracedGrows(c, n.ops, op, w);
      } else {
        assert w in written;
      }
    }
  }

  /** What the last operation wrote with the session of peer `i`. */
  lemma LastTraced(c: Setting, ops: seq<Op>, op: Op, i: nat, w: (SockAddr, Bytes))
    requires c.r.session.Valid() && WroteAt(c.r.session, c.s0, ops + [op], |ops|, i, w.1)
    requires if op.Recv? then op.from == w.0 else Grounded(c, ops, i, w.0)
    ensures Traced(c, ops + [op], w)
  {
    assert (ops + [op])[..|ops|] == ops;
    assert TracedAt(c, ops + [op], |ops|, i, w);
  }

  lemma ArriveTraces(c: Setting, n: Net, from: SockAddr, d: Bytes, v: Verdict)
    requires c.Valid() && TableTracks(c, n) && WireTracks(c, n)
    ensures WireTracks(c, ArriveSpec(c.r, n, from, d, v))
  {
    var op, o := Recv(from, d, v), RecvSpec(c.r.session, n.wg, from, d, v);
    var m := ArriveSpec(c.r, n, from, d, v);
    assert m.ops[..|n.ops|] == n.ops && m.ops[|n.ops|] == op;
    forall w | w in Addressed(from, o.net) ensures Traced(c, m.ops, w) {
      assert w.0 == from && w.1 in o.net;
      if v.Demand? {
        assert Demanded(m.ops, w);
      } else {
        LastTraced(c, n.ops, op, Named(n.wg, v).value, w);
      }
    }
    WireGrows(c, n, m, op, Addressed(from, o.net));
  }

  lemma EncryptTraces(c: Setting, n: Net, idx: nat, p: Packet, to: Option<SockAddr>)
    requires c.Valid() && TableTracks(c, n) && WireTracks(c, n) && (to.Some? ==> Grounded(c, n.ops, idx, to.value))
    ensures WireTracks(c, Encrypt(c.r, n, idx, p, to))
  {
    var op, m := Encap(idx, p), Encrypt(c.r, n, idx, p, to);
    var (wg, net) := EncapsulateSpec(c.r.session, n.wg, idx, p);
    var written := if to.Some? then Addressed(to.value, net) else [];
    assert m.wire == n.wire + written;
    assert m.ops[..|n.ops|] == n.ops;
    forall w | w in written ensures Traced(c, m.ops, w) {
      LastTraced(c, n.ops, op, idx, w);
    }
    WireGrows(c, n, m, op, written);
  }

  lemma {:induction false} TimersWrite(x: Session, peers: seq<Peer>, e: (nat, Bytes))
    requires e in TimersSpec(x, peers).1
    ensures e.0 < |peers| && x.timers(peers[e.0].tunn).0 == ToNetwork(e.1)
    decreases |peers|
  {
    if peers != [] {
      var last := |peers| - 1;
      if e in TimersSpec(x, peers[..last]).1 {
        TimersWrite(x, peers[..last], e);
      }
    }
  }

  lemma {:induction false} EndpointOf(peers: seq<Peer>, out: seq<(nat, Bytes)>, w: (SockAddr, Bytes)) returns (i: nat)
    requires w in ToEndpoints(peers, out)
    ensures (i, w.1) in out && i < |peers| && peers[i].endpoint == Some(w.0)
    decreases |out|
  {
    var last := |out| - 1;
    if w in ToEndpoints(peers, out[..last]) {
      i := EndpointOf(peers, out[..last], w);
    } else {
      i := out[last].0;
    }
  }

  lemma TickTraces(c: Setting, n: Net)
    requires c.Valid() && TableTracks(c, n) && WireTracks(c, n)
    ensures WireTracks(c, TickSpec(c.r, n))
  {
    var m := TickSpec(c.r, n);
    var (peers, out) := TimersSpec(c.r.session, n.wg.peers);
    assert m.ops[..|n.ops|] == n.ops;
    forall w | w in ToEndpoints(peers, out) ensures Traced(c, m.ops, w) {
      var i := EndpointOf(peers, out, w);
      TimersWrite(c.r.session, n.wg.peers, (i, w.1));
      StoredIsGrounded(c, n, i, w.0);
      LastTraced(c, n.ops, Timers, i, w);
    }
    WireGrows(c, n, m, Timers, ToEndpoints(peers, out));
  }

  lemma AdmitTraces(c: Setting, n: Net)
    requires c.Valid() && Inv(c, n) && WireTracks(c, n)
    ensures WireTracks(c, AdmitNext(c.r, n))
  {
    if n.inbox != [] {
      var d := n.inbox[0];
      var rst := TcpRst(d.packet);
      var m := n.(inbox := n.inbox[1..], refused := n.refused + [(d.peer, d.packet)]);
      assert d in n.inbox;
      if rst.Some? {
        EncryptTraces(c, m, d.peer, rst.value, Some(d.from));
      }
    }
  }

  lemma DepartTraces(c: Setting, n: Net)
    requires c.Valid() && Inv(c, n) && WireTracks(c, n)
    ensures WireTracks(c, EgressSpec(c.r, n))
  {
    if n.fromStack != [] && DstAddress(n.fromStack[0]).Some? {
      var p, m := n.fromStack[0], n.(fromStack := n.fromStack[1..]);
      var idx := c.r.owner(DstAddress(p).value);
      if idx.Some? {
        var to := if idx.value < |n.wg.peers| then n.wg.peers[idx.value].endpoint else None;
        if to.Some? {
          StoredIsGrounded(c, n, idx.value, to.value);
        }
        EncryptTraces(c, m, idx.value, p, to);
      }
    }
  }

  lemma NextTraces(c: Setting, n: Net, e: Event)
    requires c.Valid() && Inv(c, n) && WireTracks(c, n)
    ensures WireTracks(c, Next(c.r, n, e))
  {
    match e
    case Arrive(from, d, v) => ArriveTraces(c, n, from, d, v);
    case Admit => AdmitTraces(c, n);
    case Depart => DepartTraces(c, n);
    case Ticks => TickTraces(c, n);
    case _ =>
  }

  lemma {:induction false} RunTraces(c: Setting, es: seq<Event>)
    requires c.Valid() && Possible(c.r, c.s0, es)
    ensures WireTracks(c, Run(c.r, c.s0, es))
  {
    if es != [] {
      var init := es[..|es| - 1];
      RunKeeps(c, init);
      RunTraces(c, init);
      NextTraces(c, Run(c.r, c.s0, init), es[|es| - 1]);
    }
  }

  // ----- what sessions are given

  /** A session is given nothing but what was recorded as encrypted for its peer. */
  ghost predicate FedIsSent(n: Net) {
    forall op :: op in n.ops && op.Encap? ==> exists s :: s in n.sent && s.peer == op.idx && s.packet == op.packet
  }

  lemma FedGrows(n: Net, m: Net, op: Op)
    requires FedIsSent(n) && n.sent <= m.sent && (m.ops == n.ops || m.ops == n.ops + [op])
    requires op.Encap? ==> exists s :: s in m.sent && s.peer == op.idx && s.packet == op.packet
    ensures FedIsSent(m)
  {
    forall o | o in m.ops && o.Encap? ensures exists s :: s in m.sent && s.peer == o.idx && s.packet == o.packet {
      if o in n.ops {
        var s :| s in n.sent && s.peer == o.idx && s.packet == o.packet;
        assert s in m.sent;
      }
    }
  }

  lemma EncryptFeeds(r: Rules, n: Net, idx: nat, p: Packet, to: Option<SockAddr>)
    requires FedIsSent(n)
    ensures FedIsSent(Encrypt(r, n, idx, p, to))
  {
    var m := Encrypt(r, n, idx, p, to);
    assert m.sent[|n.sent|] == Sent(idx, p, to);
    FedGrows(n, m, Encap(idx, p));
  }

  lemma AdmitFeeds(r: Rules, n: Net)
    requires FedIsSent(n)
    ensures FedIsSent(AdmitNext(r, n))
  {
    if n.inbox != [] && TcpRst(n.inbox[0].packet).Some? {
      var d := n.inbox[0];
      var m := n.(inbox := n.inbox[1..], refused := n.refused + [(d.peer, d.packet)]);
      EncryptFeeds(r, m, d.peer, TcpRst(d.packet).value, Some(d.from));
    }
  }

  lemma DepartFeeds(r: Rules, n: Net)
    requires FedIsSent(n)
    ensures FedIsSent(EgressSpec(r, n))
  {
    if n.fromStack != [] && DstAddress(n.fromStack[0]).Some? {
      var p, m := n.fromStack[0], n.(fromStack := n.fromStack[1..]);
      var idx := r.owner(DstAddress(p).value);
      if idx.Some? {
        EncryptFeeds(r, m, idx.value, p, if idx.value < |n.wg.peers| then n.wg.peers[idx.value].endpoint else None);
      }
    }
  }

  lemma NextFeeds(r: Rules, n: Net, e: Event)
    requires r.session.Valid() && FedIsSent(n)
    ensures FedIsSent(Next(r, n, e))
  {
    match e
    case Arrive(from, d, v) => FedGrows(n, Next(r, n, e), Recv(from, d, v));
    case Admit => AdmitFeeds(r, n);
    case Depart => DepartFeeds(r, n);
    case Ticks => FedGrows(n, Next(r, n, e), Timers);
    case _ =>
  }

  lemma {:induction false} RunFeeds(r: Rules, s0: State, es: seq<Event>)
    requires r.session.Valid()
    ensures FedIsSent(Run(r, s0, es))
  {
    if es != [] {
      RunFeeds(r, s0, es[..|es| - 1]);
      NextFeeds(r, Run(r, s0, es[..|es| - 1]), es[|es| - 1]);
    }
  }

  /** Whatever a session writes, and whenever, the only packets it was ever given go to its own peer alone and answer
      packets of that peer alone. */
  lemma SessionsAreAlone(cfg: Config, read: Reader, c: Setting, es: seq<Event>, op: Op)
    requires Accepted(cfg, read) && c.Valid() && c.r == RulesOf(cfg, c.r.session) && Possible(c.r, c.s0, es)
    requires op in Run(c.r, c.s0, es).ops && op.Encap?
    ensures var n := Run(c.r, c.s0, es);
            && DstAddress(op.packet).Some?
            && (forall e :: e in TableOf(cfg.peers) && Contains(e.0, DstAddress(op.packet).value) ==> e.1 == op.idx)
            && (exists g :: g in n.given + n.refused && g.0 == op.idx && Answers(op.packet, g.1))
            && (forall g :: g in n.given + n.refused && Answers(op.packet, g.1) ==> g.0 == op.idx)
  {
    var n := Run(c.r, c.s0, es);
    RunFeeds(c.r, c.s0, es);
    var s :| s in n.sent && s.peer == op.idx && s.packet == op.packet;
    PeersAreAlone(cfg, read, c, es, s);
  }

  // ----- the guarantee

  /** Grounds are a proof, or a flush, however the drain ended. */
  lemma GroundsAre(c: Setting, ops: seq<Op>, k: nat, i: nat, a: SockAddr)
    requires c.Valid() && k < |ops| && GroundedAt(c.r.session, c.s0, ops, k, i, a, c.genuine)
    ensures ProofAt(c.r.session, c.s0, ops, k, i, a, c.genuine) || FlushAt(c.r.session, c.s0, ops, k, i, a)
  {
    AfterConsistent(c.r.session, c.s0, ops[..k]);
  }

  /** A step that writes more than cookies back to a sender was given proof, or flushed. */
  lemma AnsweredAre(c: Setting, ops: seq<Op>, k: nat, i: nat, d: Bytes)
    requires c.Valid() && k < |ops| && ops[k].Recv? && ops[k].datagram != []
    requires WroteAt(c.r.session, c.s0, ops, k, i, d) && Answer(d)
    ensures ProofAt(c.r.session, c.s0, ops, k, i, ops[k].from, c.genuine)
            || FlushAt(c.r.session, c.s0, ops, k, i, ops[k].from)
  {
    AfterConsistent(c.r.session, c.s0, ops[..k]);
    WritesUnprovenIff(c.r.session, After(c.r.session, c.s0, ops[..k]).peers[i].tunn, ops[k].from.ip, ops[k].datagram);
  }

  /** Step `k` wrote the datagram with the session of peer `i`, and step `j`, no later, received one from where it
      went that proved the key of `i`, or drew the flush. */
  ghost predicate Justified(c: Setting, ops: seq<Op>, w: (SockAddr, Bytes), k: nat, i: nat, j: nat)
    requires c.r.session.Valid() && j <= k < |ops|
  {
    && WroteAt(c.r.session, c.s0, ops, k, i, w.1)
    && (ProofAt(c.r.session, c.s0, ops, j, i, w.0, c.genuine) || FlushAt(c.r.session, c.s0, ops, j, i, w.0))
  }

  lemma TracedIsJustified(c: Setting, ops: seq<Op>, w: (SockAddr, Bytes), k: nat, i: nat) returns (j: nat)
    requires c.Valid() && k < |ops| && TracedAt(c, ops, k, i, w) && Answer(w.1) && Plausible(ops[k])
    ensures j <= k && Justified(c, ops, w, k, i, j)
  {
    if ops[k].Recv? {
      j := k;
      AnsweredAre(c, ops, k, i, w.1);
    } else {
      var h :| 0 <= h < k && GroundedAt(c.r.session, c.s0, ops[..k], h, i, w.0, c.genuine);
      j := h;
      assert ops[..k][..j] == ops[..j] && ops[..k][j] == ops[j];
      GroundsAre(c, ops, j, i, w.0);
    }
  }

  /** Over every run, whatever is written goes to the sender of a received datagram. If it is more than a cookie, it
      was written with the session of one peer, and goes where a datagram proved that peer's key, or drew a cookie and
      then a flush. */
  lemma WrittenTowardsGrounds(c: Setting, es: seq<Event>, w: (SockAddr, Bytes))
    requires c.Valid() && Possible(c.r, c.s0, es) && w in Run(c.r, c.s0, es).wire
    ensures var ops := Run(c.r, c.s0, es).ops;
            && (exists k :: 0 <= k < |ops| && ops[k].Recv? && ops[k].from == w.0)
            && (Answer(w.1) && !Demanded(ops, w) ==> exists k, i, j :: 0 <= j <= k < |ops| && i >= 0 && Justified(c, ops, w, k, i, j))
  {
    var n := Run(c.r, c.s0, es);
    RunKeeps(c, es);
    RunTraces(c, es);
    if !Demanded(n.ops, w) {
      var k, i :| 0 <= k < |n.ops| && i >= 0 && TracedAt(c, n.ops, k, i, w);
      if !n.ops[k].Recv? {
        var h :| 0 <= h < k && GroundedAt(c.r.session, c.s0, n.ops[..k], h, i, w.0, c.genuine);
        assert n.ops[..k][h] == n.ops[h];
      }
      if Answer(w.1) {
        var j := TracedIsJustified(c, n.ops, w, k, i);
      }
    }
  }

  /** Where no datagram from that address ever drew such a flush, its peer's key was proved from there. */
  lemma WrittenTowardsProof(c: Setting, es: seq<Event>, w: (SockAddr, Bytes))
    requires c.Valid() && Possible(c.r, c.s0, es) && w in Run(c.r, c.s0, es).wire
    requires var ops := Run(c.r, c.s0, es).ops;
             && Answer(w.1) && !Demanded(ops, w)
             && forall k, i :: 0 <= k < |ops| && i >= 0 ==> !FlushAt(c.r.session, c.s0, ops, k, i, w.0)
    ensures var ops := Run(c.r, c.s0, es).ops;
            exists k, i, j :: 0 <= j <= k < |ops| && i >= 0 && WroteAt(c.r.session, c.s0, ops, k, i, w.1)
                              && ProofAt(c.r.session, c.s0, ops, j, i, w.0, c.genuine)
  {
    var ops := Run(c.r, c.s0, es).ops;
    WrittenTowardsGrounds(c, es, w);
    var k, i, j :| 0 <= j <= k < |ops| && i >= 0 && Justified(c, ops, w, k, i, j);
    assert !FlushAt(c.r.session, c.s0, ops, j, i, w.0);
  }
}
