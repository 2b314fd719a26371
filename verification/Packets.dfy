/** IP packets as the parsed views the server takes of them: addresses, and a TCP header when there is one. */
module Packets {
  import opened Prefixes
  import opened Basics

  datatype Tcp = Tcp(sourcePort: U16, destinationPort: U16, sequence: U32, acknowledgment: U32, rst: bool, ack: bool)

  datatype Transport = Segment(tcp: Tcp) | OtherTransport

  /** `Malformed` is a packet too short for its version, or of no IP version. */
  datatype Packet =
    | Ipv4(source4: U32, destination4: U32, transport: Transport, payload: Bytes)
    | Ipv6(source6: U128, destination6: U128, transport: Transport, payload: Bytes)
    | Malformed

  function SrcAddress(p: Packet): Option<Ip> {
    match p
    case Ipv4(s, _, _, _) => Some(V4(s))
    case Ipv6(s, _, _, _) => Some(V6(s))
    case Malformed => None
  }

  function DstAddress(p: Packet): Option<Ip> {
    match p
    case Ipv4(_, d, _, _) => Some(V4(d))
    case Ipv6(_, d, _, _) => Some(V6(d))
    case Malformed => None
  }

  /** The header of the packet names these addresses. */
  predicate Runs(p: Packet, src: Ip, dst: Ip) {
    || (p.Ipv4? && src == V4(p.source4) && dst == V4(p.destination4))
    || (p.Ipv6? && src == V6(p.source6) && dst == V6(p.destination6))
  }

  /** The two reads agree: a packet has both addresses or, when malformed, neither. */
  lemma AddressesExactly(p: Packet, src: Ip, dst: Ip)
    ensures SrcAddress(p) == Some(src) && DstAddress(p) == Some(dst) <==> Runs(p, src, dst)
    ensures SrcAddress(p).None? <==> p.Malformed?
    ensures DstAddress(p).None? <==> p.Malformed?
  {
  }

  /** The reset bounced back at a forbidden destination; only IPv4 TCP gets one, and never an RST. */
  function TcpRst(p: Packet): Option<Packet> {
    match p
    case Ipv4(s, d, Segment(t), _) =>
      if t.rst then None
      else Some(Ipv4(d, s, Segment(Tcp(t.destinationPort, t.sourcePort, 0, (t.sequence + 1) % 0x1_0000_0000, true, true)), []))
    case _ => None
  }

  /** A reset goes back along the packet's own flow, acknowledges the octet after its sequence number modulo
      2^32, and never draws another reset, so refusals cannot bounce. */
  lemma RstMirrors(p: Packet)
    ensures TcpRst(p).Some? <==> p.Ipv4? && p.transport.Segment? && !p.transport.tcp.rst
    ensures TcpRst(p).Some? ==>
              var r := TcpRst(p).value;
              && r.Ipv4? && r.source4 == p.destination4 && r.destination4 == p.source4 && r.transport.Segment?
              && r.transport.tcp.sourcePort == p.transport.tcp.destinationPort
              && r.transport.tcp.destinationPort == p.transport.tcp.sourcePort
              && r.transport.tcp.sequence == 0
              && (r.transport.tcp.acknowledgment == 0 <==> p.transport.tcp.sequence == 0xffff_ffff)
              && (r.transport.tcp.acknowledgment != 0 ==> r.transport.tcp.acknowledgment == p.transport.tcp.sequence + 1)
              && r.transport.tcp.rst && r.transport.tcp.ack && r.payload == []
              && TcpRst(r).None?
  {
  }
}
