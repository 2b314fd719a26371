/** The SOCKS5 client's framing: the header of relayed datagrams (section 7 of RFC 1928) and the UDP ASSOCIATE
    handshake (sections 3, 4 and 6 of RFC 1928, section 2 of RFC 1929) against whatever bytes the proxy sends. */
module Socks {
  import opened Basics
  import opened Prefixes
  import opened Octets

  // ----- addresses and datagrams

  /** ATYP, address and port, as the standard lays them out. */
  function Endpoint(a: SockAddr): (b: Bytes)
    ensures |b| == if a.ip.V4? then 7 else 19
  {
    match a.ip
    case V4(bits) => [1] + Be(bits, 4) + Be(a.port, 2)
    case V6(bits) => [4] + Be(bits, 16) + Be(a.port, 2)
  }

  /** A datagram that is not a fragment: RSV, FRAG, the address, and the data. */
  function Datagram(rsv0: Byte, rsv1: Byte, a: SockAddr, body: Bytes): Bytes {
    [rsv0, rsv1, 0] + Endpoint(a) + body
  }

  method UdpHeader(dst: SockAddr) returns (h: Bytes)
    ensures forall body :: h + body == Datagram(0, 0, dst, body)
  {
    h := [0, 0, 0];
    match dst.ip {
      case V4(bits) =>
        h := h + [1];
        h := h + Be(bits, 4);
      case V6(bits) =>
        h := h + [4];
        h := h + Be(bits, 16);
    }
    h := h + Be(dst.port, 2);
    assert h == [0, 0, 0] + Endpoint(dst);
    forall body ensures h + body == Datagram(0, 0, dst, body) {
      assert Datagram(0, 0, dst, body) == ([0, 0, 0] + Endpoint(dst)) + body;
    }
  }

  function UnwrapUdp(datagram: Bytes): Option<Bytes> {
    if |datagram| < 4 || datagram[2] != 0 then None
    else if datagram[3] == 1 && |datagram| >= 10 then Some(datagram[10..])
    else if datagram[3] == 4 && |datagram| >= 22 then Some(datagram[22..])
    else None
  }

  /** Address and port of that type, read back from their bytes. */
  function ReadAddress(kind: Byte, b: Bytes): Option<(SockAddr, Bytes)> {
    if kind == 1 && |b| >= 6 then Some((SockAddr(Address4(b[..4]), Port(b[4..6])), b[6..]))
    else if kind == 4 && |b| >= 18 then Some((SockAddr(Address6(b[..16]), Port(b[16..18])), b[18..]))
    else None
  }

  function ReadEndpoint(b: Bytes): Option<(SockAddr, Bytes)> {
    if b == [] then None else ReadAddress(b[0], b[1..])
  }

  lemma Cut(x: Bytes, y: Bytes, z: Bytes)
    ensures (x + y + z)[..|x|] == x && (x + y + z)[|x|..|x| + |y|] == y && (x + y + z)[|x| + |y|..] == z
  {
  }

  lemma AddressReads(a: SockAddr, rest: Bytes)
    ensures ReadAddress(if a.ip.V4? then 1 else 4, Be(a.ip.Bits(), if a.ip.V4? then 4 else 16) + Be(a.port, 2) + rest)
            == Some((a, rest))
  {
    Widths();
    var n := if a.ip.V4? then 4 else 16;
    FromBeOfBe(a.ip.Bits(), n);
    FromBeOfBe(a.port, 2);
    Cut(Be(a.ip.Bits(), n), Be(a.port, 2), rest);
  }

  lemma EndpointReads(a: SockAddr, rest: Bytes)
    ensures ReadEndpoint(Endpoint(a) + rest) == Some((a, rest))
  {
    var n := if a.ip.V4? then 4 else 16;
    assert (Endpoint(a) + rest)[1..] == Be(a.ip.Bits(), n) + Be(a.port, 2) + rest;
    AddressReads(a, rest);
  }

  lemma ReadsEndpoint(b: Bytes)
    requires ReadEndpoint(b).Some?
    ensures b == Endpoint(ReadEndpoint(b).value.0) + ReadEndpoint(b).value.1
  {
    var n := if b[0] == 1 then 4 else 16;
    var t := b[1..];
    BeOfFromBe(t[..n]);
    BeOfFromBe(t[n..n + 2]);
    assert b == [b[0]] + t[..n] + t[n..n + 2] + t[n + 2..];
  }

  /** Section 7 of RFC 1928 octet by octet: RSV, FRAG, ATYP 1 or 4, address and port in network order, data. */
  lemma DatagramLaidOut(r0: Byte, r1: Byte, a: SockAddr, body: Bytes)
    ensures var d := Datagram(r0, r1, a, body);
            match a.ip
            case V4(bits) =>
              |d| == 10 + |body| && d[..4] == [r0, r1, 0, 1] && FromBe(d[4..8]) == bits && FromBe(d[8..10]) == a.port && d[10..] == body
            case V6(bits) =>
              |d| == 22 + |body| && d[..4] == [r0, r1, 0, 4] && FromBe(d[4..20]) == bits && FromBe(d[20..22]) == a.port && d[22..] == body
  {
    Widths();
    var n := if a.ip.V4? then 4 else 16;
    FromBeOfBe(a.ip.Bits(), n);
    FromBeOfBe(a.port, 2);
    LaidOut([r0, r1, 0], if a.ip.V4? then 1 else 4, Be(a.ip.Bits(), n), Be(a.port, 2), body);
  }

  lemma LaidOut(head: Bytes, kind: Byte, address: Bytes, port: Bytes, body: Bytes)
    requires |head| == 3 && |port| == 2
    ensures var d, n := head + ([kind] + address + port) + body, |address|;
            && |d| == 6 + n + |body| && d[..4] == head + [kind]
            && d[4..4 + n] == address && d[4 + n..6 + n] == port && d[6 + n..] == body
  {
  }

  lemma UnwrapsOnly(datagram: Bytes) returns (a: SockAddr)
    requires UnwrapUdp(datagram).Some?
    ensures |datagram| >= 3 && datagram == Datagram(datagram[0], datagram[1], a, UnwrapUdp(datagram).value)
  {
    var rest := datagram[3..];
    assert rest[1..] == datagram[4..];
    var (read, body) := ReadEndpoint(rest).value;
    assert body == UnwrapUdp(datagram).value;
    ReadsEndpoint(rest);
    a := read;
    assert datagram == [datagram[0], datagram[1], 0] + (Endpoint(a) + body);
  }

  lemma DatagramUnwraps(r0: Byte, r1: Byte, a: SockAddr, body: Bytes)
    ensures UnwrapUdp(Datagram(r0, r1, a, body)) == Some(body)
  {
    var d := Datagram(r0, r1, a, body);
    assert d[3..] == Endpoint(a) + body;
    assert d[3 + |Endpoint(a)|..] == body;
  }

  /** A datagram is accepted, with that body, exactly if it is an unfragmented one from some IPv4 or IPv6 address,
      whatever its reserved bytes. */
  lemma UnwrapsExactly(datagram: Bytes, body: Bytes)
    ensures UnwrapUdp(datagram) == Some(body) <==> exists r0, r1, a :: datagram == Datagram(r0, r1, a, body)
  {
    if UnwrapUdp(datagram) == Some(body) {
      var a := UnwrapsOnly(datagram);
    }
    if r0, r1, a :| datagram == Datagram(r0, r1, a, body) {
      DatagramUnwraps(r0, r1, a, body);
    }
  }

  /** What is wrapped for a destination comes out unchanged. */
  lemma UnwrapWrapped(dst: SockAddr, body: Bytes)
    ensures UnwrapUdp(Datagram(0, 0, dst, body)) == Some(body)
  {
    DatagramUnwraps(0, 0, dst, body);
  }

  // ----- the handshake

  datatype Failure =
    Closed | NotSocks | NoCredentials | TooLong | Rejected | Method(m: Byte) | Refused(rep: Byte) | AddressType(a: Byte)

  datatype Auth = Auth(user: Bytes, pass: Bytes)

  const GREETING: Bytes := [5, 2, 0, 2]
  const ASSOCIATE: Bytes := [5, 3, 0, 1, 0, 0, 0, 0, 0, 0]

  function LoginBytes(auth: Auth): Bytes
    requires |auth.user| < 256 && |auth.pass| < 256
  {
    [1, |auth.user|] + auth.user + [|auth.pass|] + auth.pass
  }

  /** A wildcard stands for the host at the other end of the control connection. */
  function Relay(bound: SockAddr, peer: Ip): SockAddr {
    if bound.ip.Bits() == 0 then SockAddr(peer, bound.port) else bound
  }

  /** The outcome, the bytes of the proxy left unread, and those written to it. */
  datatype Talked = Talked(result: Result<SockAddr, Failure>, unread: Bytes, sent: Bytes)

  function Ask(input: Bytes, peer: Ip, before: Bytes): Talked {
    var sent := before + ASSOCIATE;
    if |input| < 4 then Talked(Err(Closed), [], sent)
    else if input[0] != 5 then Talked(Err(NotSocks), input[4..], sent)
    else if input[1] != 0 then Talked(Err(Refused(input[1])), input[4..], sent)
    else if input[3] != 1 && input[3] != 4 then Talked(Err(AddressType(input[3])), input[4..], sent)
    else
      match ReadAddress(input[3], input[4..])
      case None => Talked(Err(Closed), [], sent)
      case Some((bound, rest)) => Talked(Ok(Relay(bound, peer)), rest, sent)
  }

  function LogIn(auth: Option<Auth>, input: Bytes, peer: Ip): Talked {
    match auth
    case None => Talked(Err(NoCredentials), input, GREETING)
    case Some(a) =>
      if |a.user| >= 256 || |a.pass| >= 256 then Talked(Err(TooLong), input, GREETING)
      else
        var sent := GREETING + LoginBytes(a);
        if |input| < 2 then Talked(Err(Closed), [], sent)
        else if input[1] != 0 then Talked(Err(Rejected), input[2..], sent)
        else Ask(input[2..], peer, sent)
  }

  function Talk(auth: Option<Auth>, input: Bytes, peer: Ip): Talked {
    if |input| < 2 then Talked(Err(Closed), [], GREETING)
    else if input[0] != 5 then Talked(Err(NotSocks), input[2..], GREETING)
    else
      match input[1]
      case 0 => Ask(input[2..], peer, GREETING)
      case 2 => LogIn(auth, input[2..], peer)
      case m => Talked(Err(Method(m)), input[2..], GREETING)
  }

  class Control {
    var input: Bytes
    var sent: Bytes

    constructor (input: Bytes)
      ensures this.input == input && sent == []
    {
      this.input, sent := input, [];
    }

    method WriteAll(b: Bytes)
      modifies `sent
      ensures sent == old(sent) + b
    {
      sent := sent + b;
    }

    /** Exactly `n` bytes, unless the connection closes before. */
    method ReadExact(n: nat) returns (b: Option<Bytes>)
      modifies `input
      ensures if n <= |old(input)| then b == Some(old(input)[..n]) && input == old(input)[n..] else b == None && input == []
    {
      if n <= |input| {
        b := Some(input[..n]);
        input := input[n..];
      } else {
        b := None;
        input := [];
      }
    }

    method RequestRelay(peer: Ip) returns (r: Result<SockAddr, Failure>)
      modifies this
      ensures Talked(r, input, sent) == Ask(old(input), peer, old(sent))
    {
      WriteAll(ASSOCIATE);
      var head := ReadExact(4);
      if head.None? { return Err(Closed); }
      var h := head.value;
      if h[0] != 5 { return Err(NotSocks); }
      if h[1] != 0 { return Err(Refused(h[1])); }
      var bound: SockAddr;
      ghost var rest := input;
      if h[3] == 1 {
        var b := ReadExact(6);
        if b.None? { return Err(Closed); }
        assert b.value[..4] == rest[..4] && b.value[4..] == rest[4..6];
        bound := SockAddr(Address4(b.value[..4]), Port(b.value[4..]));
      } else if h[3] == 4 {
        var b := ReadExact(18);
        if b.None? { return Err(Closed); }
        assert b.value[..16] == rest[..16] && b.value[16..] == rest[16..18];
        bound := SockAddr(Address6(b.value[..16]), Port(b.value[16..]));
      } else {
        return Err(AddressType(h[3]));
      }
      r := Ok(if bound.ip.Bits() == 0 then SockAddr(peer, bound.port) else bound);
    }

    /** The credentials of RFC 1929, when the proxy asks for them. */
    method SendLogin(auth: Option<Auth>) returns (failure: Option<Failure>)
      requires sent == GREETING
      modifies this
      ensures forall peer :: LogIn(auth, old(input), peer) ==
                             if failure.Some? then Talked(Err(failure.value), input, sent) else Ask(input, peer, sent)
    {
      if auth.None? { return Some(NoCredentials); }
      var a := auth.value;
      if |a.user| >= 256 || |a.pass| >= 256 { return Some(TooLong); }
      var req: Bytes := [1, |a.user|];
      req := req + a.user;
      req := req + [|a.pass|];
      req := req + a.pass;
      WriteAll(req);
      var ok := ReadExact(2);
      if ok.None? { return Some(Closed); }
      if ok.value[1] != 0 { return Some(Rejected); }
      failure := None;
    }

    method Associate(auth: Option<Auth>, peer: Ip) returns (r: Result<SockAddr, Failure>)
      requires sent == []
      modifies this
      ensures Talked(r, input, sent) == Talk(auth, old(input), peer)
    {
      WriteAll([5, 2, 0, 2]);
      assert sent == GREETING;
      var chosen := ReadExact(2);
      if chosen.None? { return Err(Closed); }
      if chosen.value[0] != 5 { return Err(NotSocks); }
      var m := chosen.value[1];
      if m == 2 {
        var failure := SendLogin(auth);
        if failure.Some? { return Err(failure.value); }
      } else if m != 0 {
        return Err(Method(m));
      }
      r := RequestRelay(peer);
    }
  }

  // ----- what the proxy must say, and what it hears

  /** The replies of a proxy that grants the association: to the greeting, to the credentials if it asked for them
      (with a version byte nobody checks), and to the request. */
  datatype Grant = Grant(login: Option<Byte>, rsv: Byte, bound: SockAddr)

  function Said(g: Grant): Bytes {
    (if g.login.Some? then [5, 2, g.login.value, 0] else [5, 0]) + ([5, 0, g.rsv] + Endpoint(g.bound))
  }

  /** It may ask only for credentials we have and can send. */
  predicate Acceptable(auth: Option<Auth>, g: Grant) {
    g.login.Some? ==> auth.Some? && |auth.value.user| < 256 && |auth.value.pass| < 256
  }

  function Spoken(auth: Option<Auth>, g: Grant): Bytes
    requires Acceptable(auth, g)
  {
    (if g.login.Some? then GREETING + LoginBytes(auth.value) else GREETING) + ASSOCIATE
  }

  lemma AskGranted(input: Bytes, peer: Ip, sent: Bytes, rsv: Byte, bound: SockAddr, rest: Bytes)
    requires input == [5, 0, rsv] + Endpoint(bound) + rest
    ensures Ask(input, peer, sent) == Talked(Ok(Relay(bound, peer)), rest, sent + ASSOCIATE)
  {
    assert input[3..] == Endpoint(bound) + rest;
    assert input[3..][1..] == input[4..];
    EndpointReads(bound, rest);
  }

  lemma AskGrants(input: Bytes, peer: Ip, sent: Bytes) returns (bound: SockAddr)
    requires Ask(input, peer, sent).result.Ok?
    ensures [5, 0, input[2]] + Endpoint(bound) <= input
  {
    assert input[3..][1..] == input[4..];
    var (b, rest) := ReadEndpoint(input[3..]).value;
    ReadsEndpoint(input[3..]);
    bound := b;
    assert input == [5, 0, input[2]] + Endpoint(bound) + rest;
  }

  /** The last reply of a grant. */
  function Bound(g: Grant): Bytes {
    [5, 0, g.rsv] + Endpoint(g.bound)
  }

  lemma GrantedPlain(auth: Option<Auth>, input: Bytes, peer: Ip, g: Grant, rest: Bytes)
    requires g.login.None? && input == [5, 0] + (Bound(g) + rest)
    ensures Talk(auth, input, peer) == Talked(Ok(Relay(g.bound, peer)), rest, GREETING + ASSOCIATE)
  {
    assert input[2..] == Bound(g) + rest;
    AskGranted(Bound(g) + rest, peer, GREETING, g.rsv, g.bound, rest);
  }

  lemma GrantedLogin(auth: Option<Auth>, input: Bytes, peer: Ip, g: Grant, rest: Bytes)
    requires g.login.Some? && Acceptable(auth, g) && input == [5, 2, g.login.value, 0] + (Bound(g) + rest)
    ensures Talk(auth, input, peer) == Talked(Ok(Relay(g.bound, peer)), rest, GREETING + LoginBytes(auth.value) + ASSOCIATE)
  {
    assert input[2..][2..] == Bound(g) + rest;
    AskGranted(Bound(g) + rest, peer, GREETING + LoginBytes(auth.value), g.rsv, g.bound, rest);
  }

  /** Against replies that begin with a grant, the handshake succeeds with the relay address it names, or the host of
      the control connection for 0.0.0.0 and ::, having read all of it and nothing more. */
  lemma Granted(auth: Option<Auth>, input: Bytes, peer: Ip, g: Grant)
    requires Acceptable(auth, g) && Said(g) <= input
    ensures var host := if g.bound.ip == V4(0) || g.bound.ip == V6(0) then peer else g.bound.ip;
            Talk(auth, input, peer) == Talked(Ok(SockAddr(host, g.bound.port)), input[|Said(g)|..], Spoken(auth, g))
  {
    var rest := input[|Said(g)|..];
    var head := if g.login.Some? then [5, 2, g.login.value, 0] else [5, 0];
    Behind(head, Bound(g), input);
    if g.login.Some? {
      GrantedLogin(auth, input, peer, g, rest);
    } else {
      GrantedPlain(auth, input, peer, g, rest);
    }
  }

  lemma Behind(head: Bytes, body: Bytes, input: Bytes)
    requires head + body <= input
    ensures input == head + (body + input[|head + body|..])
  {
  }

  lemma PlainGrant(input: Bytes, peer: Ip) returns (g: Grant)
    requires |input| >= 2 && input[0] == 5 && input[1] == 0 && Ask(input[2..], peer, GREETING).result.Ok?
    ensures g.login.None? && Said(g) <= input
  {
    var bound := AskGrants(input[2..], peer, GREETING);
    g := Grant(None, input[4], bound);
    assert input == [5, 0] + input[2..] && Bound(g) <= input[2..];
    assert Said(g) == [5, 0] + Bound(g);
  }

  lemma LoginGrant(input: Bytes, peer: Ip, sent: Bytes) returns (g: Grant)
    requires |input| >= 4 && input[0] == 5 && input[1] == 2 && input[3] == 0 && Ask(input[4..], peer, sent).result.Ok?
    ensures g.login.Some? && Said(g) <= input
  {
    var bound := AskGrants(input[4..], peer, sent);
    g := Grant(Some(input[2]), input[6], bound);
    assert input == [5, 2, input[2], 0] + input[4..] && Bound(g) <= input[4..];
    assert Said(g) == [5, 2, input[2], 0] + Bound(g);
  }

  /** A handshake that succeeds was granted. */
  lemma GrantedOnly(auth: Option<Auth>, input: Bytes, peer: Ip) returns (g: Grant)
    requires Talk(auth, input, peer).result.Ok?
    ensures Acceptable(auth, g) && Said(g) <= input
  {
    if input[1] == 0 {
      g := PlainGrant(input, peer);
    } else {
      assert input[2..][2..] == input[4..];
      g := LoginGrant(input, peer, GREETING + LoginBytes(auth.value));
    }
  }

  /** The handshake succeeds against exactly the transcripts that begin with an acceptable grant. */
  lemma AssociatesExactly(auth: Option<Auth>, input: Bytes, peer: Ip)
    ensures Talk(auth, input, peer).result.Ok? <==> exists g :: Acceptable(auth, g) && Said(g) <= input
  {
    if Talk(auth, input, peer).result.Ok? {
      var g := GrantedOnly(auth, input, peer);
    }
    if g :| Acceptable(auth, g) && Said(g) <= input {
      Granted(auth, input, peer, g);
    }
  }

  // ----- what is said when, and what goes wrong

  /** The proxy answered the greeting with that method. */
  predicate Chose(input: Bytes, m: Byte) {
    |input| >= 2 && input[0] == 5 && input[1] == m
  }

  /** The proxy chose credentials, and there are some that fit. */
  predicate LoginDue(auth: Option<Auth>, input: Bytes) {
    Chose(input, 2) && auth.Some? && |auth.value.user| < 256 && |auth.value.pass| < 256
  }

  /** What the proxy sends after it chose no authentication, or accepted the credentials. */
  function AfterLogin(auth: Option<Auth>, input: Bytes): Option<Bytes> {
    if Chose(input, 0) then Some(input[2..])
    else if LoginDue(auth, input) && |input| >= 4 && input[3] == 0 then Some(input[4..])
    else None
  }

  /** Credentials are written exactly when the proxy asked for them and they fit, and the request exactly after that is
      settled, whatever becomes of the handshake. */
  lemma SaysExactly(auth: Option<Auth>, input: Bytes, peer: Ip)
    ensures Talk(auth, input, peer).sent ==
              [5, 2, 0, 2] + (if LoginDue(auth, input) then LoginBytes(auth.value) else [])
              + (if AfterLogin(auth, input).Some? then [5, 3, 0, 1, 0, 0, 0, 0, 0, 0] else [])
  {
    assert GREETING + [] == GREETING && GREETING + [] + ASSOCIATE == GREETING + ASSOCIATE;
    if |input| >= 4 && Chose(input, 2) {
      assert input[2..][1] == input[3] && input[2..][2..] == input[4..];
    }
  }

  /** What was wrong when the handshake fails. */
  predicate Because(f: Failure, auth: Option<Auth>, input: Bytes) {
    var reply := AfterLogin(auth, input);
    match f
    case NoCredentials => Chose(input, 2) && auth.None?
    case TooLong => Chose(input, 2) && auth.Some? && !LoginDue(auth, input)
    case Method(m) => Chose(input, m) && m != 0 && m != 2
    case Rejected => LoginDue(auth, input) && |input| >= 4 && input[3] != 0
    case NotSocks => |input| >= 2 && (input[0] != 5 || (reply.Some? && |reply.value| >= 4 && reply.value[0] != 5))
    case Refused(rep) => reply.Some? && |reply.value| >= 4 && reply.value[0] == 5 && reply.value[1] == rep && rep != 0
    case AddressType(a) => reply.Some? && |reply.value| >= 4 && reply.value[..2] == [5, 0] && reply.value[3] == a && a != 1 && a != 4
    case Closed =>
      || |input| < 2 || (LoginDue(auth, input) && |input| < 4)
      || (reply.Some? && (|reply.value| < 4 ||
                          (reply.value[..2] == [5, 0] && ((reply.value[3] == 1 && |reply.value| < 10) || (reply.value[3] == 4 && |reply.value| < 22)))))
  }

  /** The handshake fails exactly for a reason, and reports it; no two reasons hold at once. */
  lemma FailsExactly(auth: Option<Auth>, input: Bytes, peer: Ip, f: Failure)
    ensures Talk(auth, input, peer).result == Err(f) <==> Because(f, auth, input)
  {
    if |input| >= 2 && input[0] == 5 {
      if input[1] == 0 {
        FailsAfter(input[2..], peer, GREETING, auth, input, f);
      } else if LoginDue(auth, input) && |input| >= 4 && input[3] == 0 {
        assert input[2..][1] == input[3] && input[2..][2..] == input[4..];
        FailsAfter(input[4..], peer, GREETING + LoginBytes(auth.value), auth, input, f);
      }
    }
  }

  lemma FailsAfter(input: Bytes, peer: Ip, sent: Bytes, auth: Option<Auth>, all: Bytes, f: Failure)
    requires AfterLogin(auth, all) == Some(input)
    ensures Ask(input, peer, sent).result == Err(f) <==> Because(f, auth, all)
  {
  }

  // ----- the other side's reading of the standard

  /** VER, NMETHODS, METHODS. */
  function HearGreeting(b: Bytes): Option<(Bytes, Bytes)> {
    if |b| < 2 || b[0] != 5 then None
    else
      var end: nat := b[1] as nat + 2;
      if |b| < end then None else Some((b[2..end], b[end..]))
  }

  /** VER, ULEN, UNAME, PLEN, PASSWD; both lengths are 1 to 255. */
  function HearLogin(b: Bytes): Option<(Auth, Bytes)> {
    if |b| < 2 || b[0] != 1 || b[1] == 0 then None
    else
      var u: nat := b[1] as nat + 2;
      if |b| <= u || b[u] == 0 then None
      else
        var end: nat := b[u] as nat + u + 1;
        if |b| < end then None else Some((Auth(b[2..u], b[u + 1..end]), b[end..]))
  }

  /** VER, CMD, RSV, then the address. */
  function HearRequest(b: Bytes): Option<(Byte, SockAddr, Bytes)> {
    if |b| < 3 || b[0] != 5 || b[2] != 0 then None
    else
      match ReadEndpoint(b[3..])
      case None => None
      case Some((a, rest)) => Some((b[1], a, rest))
  }

  lemma LoginHeard(auth: Auth, rest: Bytes)
    requires |auth.user| < 256 && |auth.pass| < 256
    ensures HearLogin(LoginBytes(auth) + rest).Some? <==> auth.user != [] && auth.pass != []
    ensures auth.user != [] && auth.pass != [] ==> HearLogin(LoginBytes(auth) + rest) == Some((auth, rest))
  {
    var b := LoginBytes(auth) + rest;
    var u := 2 + |auth.user|;
    assert b[u] == |auth.pass|;
    assert b[2..u] == auth.user;
    assert b[u + 1..u + 1 + |auth.pass|] == auth.pass;
    assert b[u + 1 + |auth.pass|..] == rest;
  }

  lemma RequestHeard()
    ensures HearRequest(ASSOCIATE) == Some((3, SockAddr(V4(0), 0), []))
  {
    assert ASSOCIATE[3..] == [1] + [0, 0, 0, 0] + [0, 0];
    assert Be(0, 2) == [0, 0] && Be(0, 4) == [0, 0, 0, 0];
    assert ASSOCIATE[3..] == Endpoint(SockAddr(V4(0), 0)) + [];
    EndpointReads(SockAddr(V4(0), 0), []);
  }

  lemma GreetingHeard(rest: Bytes)
    ensures HearGreeting(GREETING + rest) == Some(([0, 2], rest))
  {
    var b := GREETING + rest;
    assert b[2..4] == [0, 2] && b[4..] == rest;
  }

  /** A proxy that reads what we write by the standard recovers the offered methods, the credentials and the request
      for any source. Empty credentials, which the code sends, are the one thing the standard does not let it read. */
  lemma SpokenIsHeard(auth: Option<Auth>, g: Grant)
    requires Acceptable(auth, g)
    ensures HearGreeting(Spoken(auth, g)).Some?
    ensures var (methods, rest) := HearGreeting(Spoken(auth, g)).value;
            && methods == [0, 2]
            && (g.login.None? ==> HearRequest(rest) == Some((3, SockAddr(V4(0), 0), [])))
            && (g.login.Some? ==>
                  && (HearLogin(rest).Some? <==> auth.value.user != [] && auth.value.pass != [])
                  && (HearLogin(rest).Some? ==> HearLogin(rest).value.0 == auth.value
                                                && HearRequest(HearLogin(rest).value.1) == Some((3, SockAddr(V4(0), 0), []))))
  {
    RequestHeard();
    if g.login.Some? {
      assert Spoken(auth, g) == GREETING + (LoginBytes(auth.value) + ASSOCIATE);
      GreetingHeard(LoginBytes(auth.value) + ASSOCIATE);
      LoginHeard(auth.value, ASSOCIATE);
    } else {
      GreetingHeard(ASSOCIATE);
    }
  }
}
