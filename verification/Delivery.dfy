/** What must happen to every packet: which step hands it on and where, and the only ways it is lost. The laws read
    packets by their headers, sessions by their calls, and queues by their length. */
module Delivery {
  import opened Basics
  import opened Prefixes
  import opened Packets
  import opened ServerNet
  import opened ServerConfig
  import opened WgCore
  import opened ServerTasks
  import opened Isolation
  import opened TableSteps

  // ----- ingress

  /** Packets and addresses paired, in order. */
  ghost predicate Paired(wire: seq<(SockAddr, Bytes)>, to: SockAddr, net: seq<Bytes>) {
    |wire| == |net| && forall k :: 0 <= k < |net| ==> wire[k] == (to, net[k])
  }

  /** A datagram for peer `i` runs its session. All the session writes goes back to the sender, and what it decrypts
      waits under that peer. */
  lemma Received(r: Rules, n: Net, from: SockAddr, d: Bytes, v: Verdict, i: nat,
                 ts: seq<Tunn>, net: seq<Bytes>, last: TunnResult)
    requires r.session.Valid() && Consistent(n.wg) && n.inbox == [] && i < |n.wg.peers| && Names(n.wg, v, i)
    requires Calls(r.session, ts, from.ip, d, net, last) && ts[0] == n.wg.peers[i].tunn
    ensures var m := Next(r, n, Arrive(from, d, v));
            && m.inbox == (if last.ToTunnel? then [Decrypted(i, from, last.packet)] else [])
            && n.wire <= m.wire && Paired(m.wire[|n.wire|..], from, net)
            && m == n.(wg := m.wg, ops := m.ops, inbox := m.inbox, wire := m.wire)
            && |m.wg.peers| == |n.wg.peers| && m.wg.peers[i].tunn == ts[|ts| - 1]
  {
    RecvExactly(r.session, n.wg, from, d, v, i, ts, net, last);
    var m := Next(r, n, Arrive(from, d, v));
    assert m.wire[|n.wire|..] == Addressed(from, net);
  }

  /** The packet carries addresses of which its peer owns the source. */
  ghost predicate OwnSource(r: Rules, d: Decrypted, src: Ip, dst: Ip) {
    Runs(d.packet, src, dst) && r.owner(src) == Some(d.peer)
  }

  lemma HeaderReads(p: Packet, src: Ip, dst: Ip)
    requires Runs(p, src, dst)
    ensures SrcAddress(p) == Some(src) && DstAddress(p) == Some(dst)
  {
  }

  /** A packet under its peer's own source, with an admitted destination, goes to the stack while fewer than 4096 wait
      there, once and at the end; with 4096 it is lost. */
  lemma HandedOver(r: Rules, n: Net, src: Ip, dst: Ip)
    requires r.session.Valid() && n.inbox != [] && OwnSource(r, n.inbox[0], src, dst) && r.gate(dst)
    ensures var d := n.inbox[0];
            Next(r, n, Admit) ==
              if |n.toStack| < 4096
              then n.(inbox := n.inbox[1..], toStack := n.toStack + [d.packet], given := n.given + [(d.peer, d.packet)])
              else n.(inbox := n.inbox[1..])
  {
    HeaderReads(n.inbox[0].packet, src, dst);
  }

  /** One without addresses, or under a source its peer does not own, is lost without a trace. */
  lemma Spoofed(r: Rules, n: Net)
    requires r.session.Valid() && n.inbox != [] && forall src, dst :: !OwnSource(r, n.inbox[0], src, dst)
    ensures Next(r, n, Admit) == n.(inbox := n.inbox[1..])
  {
    var p := n.inbox[0].packet;
    if !p.Malformed? {
      var src := if p.Ipv4? then V4(p.source4) else V6(p.source6);
      var dst := if p.Ipv4? then V4(p.destination4) else V6(p.destination6);
      HeaderReads(p, src, dst);
      assert !OwnSource(r, n.inbox[0], src, dst);
    }
  }

  /** What the session of peer `i` writes for the packet: nothing, or one datagram. */
  function Sealed(x: Session, t: Tunn, p: Packet): seq<Bytes> {
    var result := x.encapsulate(t, p).0;
    if result.ToNetwork? then [result.datagram] else []
  }

  /** The packet was given to the session of peer `i`, if there is one, and what that wrote went to `to`. */
  ghost predicate SealedFor(x: Session, n: Net, m: Net, i: nat, p: Packet, to: Option<SockAddr>) {
    && m.sent == n.sent + [Sent(i, p, to)] && m.ops == n.ops + [Encap(i, p)]
    && (i >= |n.wg.peers| ==> m.wg == n.wg && m.wire == n.wire)
    && (i < |n.wg.peers| ==>
          && m.wg == n.wg.(peers := n.wg.peers[i := n.wg.peers[i].(tunn := x.encapsulate(n.wg.peers[i].tunn, p).1)])
          && n.wire <= m.wire
          && if to.None? then m.wire == n.wire
             else Paired(m.wire[|n.wire|..], to.value, Sealed(x, n.wg.peers[i].tunn, p)))
  }

  lemma EncryptSeals(r: Rules, n: Net, i: nat, p: Packet, to: Option<SockAddr>)
    requires r.session.Valid()
    ensures SealedFor(r.session, n, Encrypt(r, n, i, p, to), i, p, to)
    ensures var m := Encrypt(r, n, i, p, to);
            m == n.(wg := m.wg, ops := m.ops, sent := m.sent, wire := m.wire)
  {
    var m := Encrypt(r, n, i, p, to);
    if i < |n.wg.peers| && to.Some? {
      assert m.wire[|n.wire|..] == Addressed(to.value, Sealed(r.session, n.wg.peers[i].tunn, p));
    }
  }

  /** A refused packet never reaches the stack. If it is an IPv4 TCP segment without RST, exactly one reset is sealed
      for its own peer and sent where it came from, backwards along its flow; nothing else draws an answer. */
  lemma TurnedAway(r: Rules, n: Net, src: Ip, dst: Ip)
    requires r.session.Valid() && n.inbox != [] && OwnSource(r, n.inbox[0], src, dst) && !r.gate(dst)
    ensures var d, m := n.inbox[0], Next(r, n, Admit);
            && m.inbox == n.inbox[1..] && m.refused == n.refused + [(d.peer, d.packet)]
            && m.given == n.given && m.toStack == n.toStack && m.fromStack == n.fromStack
            && if d.packet.Ipv4? && d.packet.transport.Segment? && !d.packet.transport.tcp.rst
               then exists rst :: TcpRst(d.packet) == Some(rst) && Runs(rst, dst, src)
                                  && SealedFor(r.session, n, m, d.peer, rst, Some(d.from))
               else m.sent == n.sent && m.wg == n.wg && m.ops == n.ops && m.wire == n.wire
  {
    var d := n.inbox[0];
    HeaderReads(d.packet, src, dst);
    RstMirrors(d.packet);
    var k := n.(inbox := n.inbox[1..], refused := n.refused + [(d.peer, d.packet)]);
    if TcpRst(d.packet).Some? {
      EncryptSeals(r, k, d.peer, TcpRst(d.packet).value, Some(d.from));
    }
  }

  /** A datagram that names no peer leaves everything as it is, but for a cookie the mac check may demand. */
  lemma Unaddressed(r: Rules, n: Net, from: SockAddr, d: Bytes, v: Verdict)
    requires r.session.Valid() && Consistent(n.wg) && n.inbox == []
    requires forall i :: 0 <= i < |n.wg.peers| ==> !Names(n.wg, v, i)
    ensures Next(r, n, Arrive(from, d, v)) ==
              n.(ops := n.ops + [Recv(from, d, v)], wire := n.wire + if v.Demand? then [(from, v.cookie)] else [])
  {
    RecvNothing(r.session, n.wg, from, d, v);
  }

  // ----- the device

  /** The stack reads the first packet that fits, in order, and loses only those before it. */
  lemma ReadInOrder(r: Rules, n: Net, size: Packet -> nat, room: nat, k: nat)
    requires r.session.Valid() && k <= |n.toStack| && (forall j :: 0 <= j < k ==> size(n.toStack[j]) > room)
    requires k < |n.toStack| ==> size(n.toStack[k]) <= room
    ensures ReadSpec(n, size, room) ==
              if k < |n.toStack| then (n.(toStack := n.toStack[k + 1..]), Some(n.toStack[k]))
              else (n.(toStack := []), None)
    ensures Next(r, n, StackReads(size, room)) == n.(toStack := if k < |n.toStack| then n.toStack[k + 1..] else [])
  {
    var j := Oversized(n.toStack, size, room);
    assert j == k;
  }

  /** What the stack writes waits at the end of the queue while fewer than 4096 do. */
  lemma WrittenInOrder(r: Rules, n: Net, p: Packet)
    requires r.session.Valid()
    ensures Next(r, n, StackWrites(p)) == if |n.fromStack| < 4096 then n.(fromStack := n.fromStack + [p]) else n
  {
  }

  // ----- egress and timers

  /** The next packet of the stack is sealed for the owner of its destination, and what the session writes goes to the
      endpoint stored for that peer, if there is one. Without addresses or an owner it is lost. */
  lemma Departed(r: Rules, n: Net, src: Ip, dst: Ip)
    requires r.session.Valid() && n.fromStack != [] && Runs(n.fromStack[0], src, dst)
    ensures var m, k := Next(r, n, Depart), n.(fromStack := n.fromStack[1..]);
            match r.owner(dst)
            case None => m == k
            case Some(i) =>
              && m == k.(wg := m.wg, ops := m.ops, sent := m.sent, wire := m.wire)
              && SealedFor(r.session, k, m, i, n.fromStack[0], if i < |n.wg.peers| then n.wg.peers[i].endpoint else None)
  {
    var p, k := n.fromStack[0], n.(fromStack := n.fromStack[1..]);
    HeaderReads(p, src, dst);
    if r.owner(dst).Some? {
      var i := r.owner(dst).value;
      EncryptSeals(r, k, i, p, if i < |n.wg.peers| then n.wg.peers[i].endpoint else None);
    }
  }

  /** With nothing to take, or a malformed packet, the tasks do nothing more. */
  lemma NothingToDo(r: Rules, n: Net)
    requires r.session.Valid()
    ensures n.inbox == [] ==> Next(r, n, Admit) == n
    ensures n.fromStack == [] ==> Next(r, n, Depart) == n
    ensures n.fromStack != [] && n.fromStack[0].Malformed? ==> Next(r, n, Depart) == n.(fromStack := n.fromStack[1..])
  {
  }

  /** Each timer datagram of a peer with an endpoint goes there; those of the others are dropped. */
  lemma {:induction false} SendsEach(peers: seq<Peer>, out: seq<(nat, Bytes)>, more: seq<(nat, Bytes)>)
    ensures ToEndpoints(peers, out + more) == ToEndpoints(peers, out) + ToEndpoints(peers, more)
    ensures |more| == 1 ==>
              ToEndpoints(peers, more) == (if more[0].0 < |peers| && peers[more[0].0].endpoint.Some?
                                           then [(peers[more[0].0].endpoint.value, more[0].1)] else [])
    decreases |more|
  {
    if more == [] {
      assert out + more == out;
    } else {
      var n := |more| - 1;
      SendsEach(peers, out, more[..n]);
      assert (out + more)[..|out| + n] == out + more[..n];
    }
  }

  /** A tick drives every session once, writes the timers' datagrams and touches nothing else. */
  lemma Ticked(r: Rules, n: Net)
    requires r.session.Valid()
    ensures var m, out := Next(r, n, Ticks), TimersSpec(r.session, n.wg.peers).1;
            && m == n.(wg := m.wg, ops := n.ops + [Timers], wire := n.wire + ToEndpoints(n.wg.peers, out))
            && m.wg.byKey == n.wg.byKey && |m.wg.peers| == |n.wg.peers|
            && (forall i :: 0 <= i < |n.wg.peers| ==>
                  m.wg.peers[i] == n.wg.peers[i].(tunn := r.session.timers(n.wg.peers[i].tunn).1))
  {
    SameEndpoints(TimersSpec(r.session, n.wg.peers).0, n.wg.peers, TimersSpec(r.session, n.wg.peers).1);
  }

  lemma {:induction false} SameEndpoints(a: seq<Peer>, b: seq<Peer>, out: seq<(nat, Bytes)>)
    requires |a| == |b| && forall i :: 0 <= i < |a| ==> a[i].endpoint == b[i].endpoint
    ensures ToEndpoints(a, out) == ToEndpoints(b, out)
    decreases |out|
  {
    if out != [] {
      SameEndpoints(a, b, out[..|out| - 1]);
    }
  }

  // ----- there and back

  /** A datagram from which peer `i`'s session decrypts a packet of its own for an admitted destination puts that
      packet at the end of the stack's queue, unless 4096 wait there already. */
  lemma Inwards(r: Rules, n: Net, from: SockAddr, d: Bytes, v: Verdict, i: nat, t: Tunn, p: Packet, src: Ip, dst: Ip)
    requires r.session.Valid() && Consistent(n.wg) && n.inbox == [] && i < |n.wg.peers| && Names(n.wg, v, i)
    requires r.session.decapsulate(n.wg.peers[i].tunn, from.ip, d) == (ToTunnel(p), t)
    requires Runs(p, src, dst) && r.owner(src) == Some(i) && r.gate(dst)
    ensures var m := Next(r, Next(r, n, Arrive(from, d, v)), Admit);
            && m.inbox == [] && m.wire == n.wire
            && m.toStack == (if |n.toStack| < 4096 then n.toStack + [p] else n.toStack)
            && m.given == (if |n.toStack| < 4096 then n.given + [(i, p)] else n.given)
  {
    Received(r, n, from, d, v, i, [n.wg.peers[i].tunn, t], [], ToTunnel(p));
    HandedOver(r, Next(r, n, Arrive(from, d, v)), src, dst);
  }

  /** A packet the stack writes for a destination of peer `i`, with nothing before it, leaves as what the session makes
      of it, for the endpoint of that peer. */
  lemma Outwards(r: Rules, n: Net, i: nat, p: Packet, a: SockAddr, d: Bytes, t: Tunn, src: Ip, dst: Ip)
    requires r.session.Valid() && n.fromStack == [] && Runs(p, src, dst) && r.owner(dst) == Some(i)
    requires i < |n.wg.peers| && n.wg.peers[i].endpoint == Some(a)
    requires r.session.encapsulate(n.wg.peers[i].tunn, p) == (ToNetwork(d), t)
    ensures Next(r, Next(r, n, StackWrites(p)), Depart).wire == n.wire + [(a, d)]
  {
    WrittenInOrder(r, n, p);
    var k := Next(r, n, StackWrites(p));
    Departed(r, k, src, dst);
    var m := Next(r, k, Depart);
    assert m.wire == n.wire + m.wire[|n.wire|..];
  }
}
