/** The running server between the WireGuard table and the userspace stack: ingress, the packet device, egress and
    the timer tick. Each task body is one step on shared state, and runs interleave the steps freely. */
module ServerTasks {
  import opened Basics
  import opened Prefixes
  import opened Packets
  import opened ServerNet
  import opened ServerConfig
  import opened WgCore

  /** Capacity of the two channels to and from the stack. */
  const QUEUE: nat := 4096

  /** What the tasks work with: the session library, the destination gate, and the owner of an address. */
  datatype Rules = Rules(session: Session, gate: Ip -> bool, owner: Ip -> Option<nat>)

  /** A packet encrypted for a peer, and where what the session writes at once is sent, if there is an endpoint. */
  datatype Sent = Sent(peer: nat, packet: Packet, to: Option<SockAddr>)

  /** A packet the ingress task has decrypted and not yet dealt with, its peer, and where its datagram came from. */
  datatype Decrypted = Decrypted(peer: nat, from: SockAddr, packet: Packet)

  /** The shared state, and the ingress task's own `inbox`. `ops` records what was done to the table, `given` the
      packets handed to the stack with the peer they came from, `refused` those turned away at the gate, `sent` the
      packets encrypted, `wire` the datagrams written. */
  datatype Net = Net(
    wg: State, ops: seq<Op>, inbox: seq<Decrypted>, toStack: seq<Packet>, fromStack: seq<Packet>,
    given: seq<(nat, Packet)>, refused: seq<(nat, Packet)>, sent: seq<Sent>, wire: seq<(SockAddr, Bytes)>)

  // ----- specification of the task bodies

  function Addressed(to: SockAddr, datagrams: seq<Bytes>): seq<(SockAddr, Bytes)> {
    seq(|datagrams|, i requires 0 <= i < |datagrams| => (to, datagrams[i]))
  }

  function Encrypt(r: Rules, n: Net, idx: nat, packet: Packet, to: Option<SockAddr>): Net {
    var (wg, net) := EncapsulateSpec(r.session, n.wg, idx, packet);
    n.(wg := wg, ops := n.ops + [Encap(idx, packet)], sent := n.sent + [Sent(idx, packet, to)],
       wire := if to.Some? then n.wire + Addressed(to.value, net) else n.wire)
  }

  /** One decrypted packet of peer `idx`: source check, destination gate, hand-over to the stack. */
  function AdmitPacket(r: Rules, n: Net, idx: nat, from: SockAddr, p: Packet): (m: Net)
    ensures m.inbox == n.inbox
  {
    var src, dst := SrcAddress(p), DstAddress(p);
    if src.None? || dst.None? || r.owner(src.value) != Some(idx) then n
    else if !r.gate(dst.value) then
      var m := n.(refused := n.refused + [(idx, p)]);
      match TcpRst(p)
      case None => m
      case Some(rst) => Encrypt(r, m, idx, rst, Some(from))
    else if |n.toStack| >= QUEUE then n
    else n.(toStack := n.toStack + [p], given := n.given + [(idx, p)])
  }

  function Tagged(idx: nat, from: SockAddr, ps: seq<Packet>): seq<Decrypted> {
    seq(|ps|, k requires 0 <= k < |ps| => Decrypted(idx, from, ps[k]))
  }

  /** The ingress task receives: the first of the times it holds the table. */
  ghost function ArriveSpec(r: Rules, n: Net, from: SockAddr, datagram: Bytes, v: Verdict): Net
    requires r.session.Valid()
  {
    var o := RecvSpec(r.session, n.wg, from, datagram, v);
    n.(wg := o.state, ops := n.ops + [Recv(from, datagram, v)], wire := n.wire + Addressed(from, o.net),
       inbox := if o.idx.Some? then Tagged(o.idx.value, from, o.packets) else [])
  }

  /** It deals with the next packet, holding the table again if that draws a reset. Other tasks may run between. */
  function AdmitNext(r: Rules, n: Net): Net {
    if n.inbox == [] then n
    else
      var d := n.inbox[0];
      AdmitPacket(r, n.(inbox := n.inbox[1..]), d.peer, d.from, d.packet)
  }

  function AdmitRest(r: Rules, n: Net): Net
    decreases |n.inbox|
  {
    if n.inbox == [] then n else AdmitRest(r, AdmitNext(r, n))
  }

  function EgressSpec(r: Rules, n: Net): Net {
    if n.fromStack == [] then n
    else
      var packet := n.fromStack[0];
      var m := n.(fromStack := n.fromStack[1..]);
      var dst := DstAddress(packet);
      if dst.None? then m
      else
        match r.owner(dst.value)
        case None => m
        case Some(idx) => Encrypt(r, m, idx, packet, if idx < |n.wg.peers| then n.wg.peers[idx].endpoint else None)
  }

  /** Number of packets at the head of the queue that do not fit in `room`. */
  function Oversized(queue: seq<Packet>, size: Packet -> nat, room: nat): (k: nat)
    ensures k <= |queue| && (k < |queue| ==> size(queue[k]) <= room)
    ensures forall i :: 0 <= i < k ==> size(queue[i]) > room
  {
    if queue == [] || size(queue[0]) <= room then 0 else 1 + Oversized(queue[1..], size, room)
  }

  /** The stack reads the first packet that fits; those before it are lost, and with none it waits. */
  function ReadSpec(n: Net, size: Packet -> nat, room: nat): (Net, Option<Packet>) {
    var k := Oversized(n.toStack, size, room);
    if k == |n.toStack| then (n.(toStack := []), None) else (n.(toStack := n.toStack[k + 1..]), Some(n.toStack[k]))
  }

  function WriteSpec(n: Net, p: Packet): Net {
    if |n.fromStack| < QUEUE then n.(fromStack := n.fromStack + [p]) else n
  }

  function ToEndpoints(peers: seq<Peer>, out: seq<(nat, Bytes)>): seq<(SockAddr, Bytes)> {
    if out == [] then []
    else
      var last := out[|out| - 1];
      ToEndpoints(peers, out[..|out| - 1])
      + if last.0 < |peers| && peers[last.0].endpoint.Some? then [(peers[last.0].endpoint.value, last.1)] else []
  }

  function TickSpec(r: Rules, n: Net): Net {
    var (peers, out) := TimersSpec(r.session, n.wg.peers);
    n.(wg := n.wg.(peers := peers), ops := n.ops + [Timers], wire := n.wire + ToEndpoints(peers, out))
  }

  // ----- the tasks

  class Server {
    const rules: Rules
    const wg: Wg
    var inbox: seq<Decrypted>
    var toStack: seq<Packet>
    var fromStack: seq<Packet>
    ghost var ops: seq<Op>
    ghost var given: seq<(nat, Packet)>
    ghost var refused: seq<(nat, Packet)>
    ghost var sent: seq<Sent>
    var wire: seq<(SockAddr, Bytes)>

    ghost predicate Valid() {
      rules.session == wg.session && rules.session.Valid()
    }

    ghost function Abs(): Net
      reads this, wg
    {
      Net(wg.Abs(), ops, inbox, toStack, fromStack, given, refused, sent, wire)
    }

    constructor (rules: Rules, wg: Wg)
      requires rules.session == wg.session && rules.session.Valid()
      ensures Valid() && this.wg == wg && this.rules == rules
      ensures Abs() == Net(wg.Abs(), [], [], [], [], [], [], [], [])
    {
      this.rules, this.wg := rules, wg;
      inbox, toStack, fromStack, ops, given, refused, sent, wire := [], [], [], [], [], [], [], [];
    }

    method SendAll(to: SockAddr, datagrams: seq<Bytes>)
      modifies this`wire
      ensures wire == old(wire) + Addressed(to, datagrams)
    {
      var i := 0;
      while i < |datagrams|
        invariant 0 <= i <= |datagrams|
        invariant wire == old(wire) + Addressed(to, datagrams)[..i]
      {
        wire := wire + [(to, datagrams[i])];
        i := i + 1;
      }
    }

    method EncryptTo(idx: nat, packet: Packet, to: Option<SockAddr>)
      requires Valid()
      modifies this, wg
      ensures Abs() == Encrypt(rules, old(Abs()), idx, packet, to)
    {
      var netOut := wg.Encapsulate(idx, packet, []);
      ops := ops + [Encap(idx, packet)];
      sent := sent + [Sent(idx, packet, to)];
      if to.Some? { SendAll(to.value, netOut); }
    }

    method Admit(idx: nat, from: SockAddr, p: Packet)
      requires Valid()
      modifies this, wg
      ensures Abs() == AdmitPacket(rules, old(Abs()), idx, from, p)
    {
      var src, dst := SrcAddress(p), DstAddress(p);
      if src.None? || dst.None? { return; }
      if rules.owner(src.value) != Some(idx) { return; }
      if !rules.gate(dst.value) {
        refused := refused + [(idx, p)];
        var rst := TcpRst(p);
        if rst.Some? { EncryptTo(idx, rst.value, Some(from)); }
        return;
      }
      if |toStack| < QUEUE {
        toStack := toStack + [p];
        given := given + [(idx, p)];
      }
    }

    method Receive(from: SockAddr, datagram: Bytes, v: Verdict)
      requires Valid() && inbox == []
      modifies this, wg
      ensures Abs() == ArriveSpec(rules, old(Abs()), from, datagram, v)
    {
      var idx, netOut, ipOut := wg.RecvFromNetwork(from, datagram, v, [], []);
      ghost var o := RecvSpec(rules.session, old(Abs()).wg, from, datagram, v);
      assert netOut == o.net && ipOut == o.packets;
      ops := ops + [Recv(from, datagram, v)];
      SendAll(from, netOut);
      if idx.Some? { inbox := Tagged(idx.value, from, ipOut); }
    }

    method AdmitOne()
      requires Valid()
      modifies this, wg
      ensures Abs() == AdmitNext(rules, old(Abs()))
    {
      if inbox == [] { return; }
      var d := inbox[0];
      inbox := inbox[1..];
      Admit(d.peer, d.from, d.packet);
    }

    /** The body of the ingress task, when nothing interleaves. */
    method Ingress(from: SockAddr, datagram: Bytes, v: Verdict)
      requires Valid() && inbox == []
      modifies this, wg
      ensures Abs() == AdmitRest(rules, ArriveSpec(rules, old(Abs()), from, datagram, v)) && inbox == []
    {
      Receive(from, datagram, v);
      ghost var all := AdmitRest(rules, Abs());
      while inbox != []
        invariant all == AdmitRest(rules, Abs())
        decreases |Abs().inbox|
      {
        AdmitOne();
      }
    }

    method Egress()
      requires Valid()
      modifies this, wg
      ensures Abs() == EgressSpec(rules, old(Abs()))
    {
      if fromStack == [] { return; }
      var packet := fromStack[0];
      fromStack := fromStack[1..];
      var dst := DstAddress(packet);
      if dst.None? { return; }
      var idx := rules.owner(dst.value);
      if idx.None? { return; }
      var endpoint := wg.Endpoint(idx.value);
      EncryptTo(idx.value, packet, endpoint);
    }

    method PollRead(size: Packet -> nat, room: nat) returns (p: Option<Packet>)
      modifies this`toStack
      ensures (Abs(), p) == ReadSpec(old(Abs()), size, room)
    {
      ghost var skipped := 0;
      while toStack != []
        invariant skipped <= |old(toStack)| && toStack == old(toStack)[skipped..]
        invariant Oversized(old(toStack), size, room) == skipped + Oversized(toStack, size, room)
        decreases |toStack|
      {
        var head := toStack[0];
        toStack := toStack[1..];
        if size(head) <= room { return Some(head); }
        skipped := skipped + 1;
      }
      return None;
    }

    method PollWrite(p: Packet)
      modifies this`fromStack
      ensures Abs() == WriteSpec(old(Abs()), p)
    {
      if |fromStack| < QUEUE { fromStack := fromStack + [p]; }
    }

    /** Each datagram to the endpoint of its peer, if it has one. */
    method SendOut(out: seq<(nat, Bytes)>)
      modifies this`wire
      ensures wire == old(wire) + ToEndpoints(wg.peers, out)
    {
      var i := 0;
      while i < |out|
        modifies this`wire
        invariant 0 <= i <= |out|
        invariant wire == old(wire) + ToEndpoints(wg.peers, out[..i])
      {
        assert out[..i + 1][..i] == out[..i];
        var endpoint := wg.Endpoint(out[i].0);
        if endpoint.Some? { wire := wire + [(endpoint.value, out[i].1)]; }
        i := i + 1;
      }
      assert out[..i] == out;
    }

    method Tick()
      requires Valid()
      modifies this, wg
      ensures Abs() == TickSpec(rules, old(Abs()))
    {
      var out := wg.UpdateTimers();
      ops := ops + [Timers];
      SendOut(out);
    }
  }
}
