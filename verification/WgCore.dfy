/** The multi-peer WireGuard table: which peer a datagram belongs to, and when a peer's endpoint follows it. The
    cryptographic session (`Tunn`) is an oracle; everything around it is modelled as written. */
module WgCore {
  import opened Basics
  import opened Prefixes
  import opened Packets

  type Key = Bytes

  /** A session: the key it is bound to, the packets waiting for a handshake, and the rest of its state. */
  datatype Tunn = Tunn(key: Key, queued: seq<Packet>, inner: int)

  datatype TunnResult = Done | Broken | ToNetwork(datagram: Bytes) | ToTunnel(packet: Packet)

  datatype Session = Session(
    decapsulate: (Tunn, Ip, Bytes) -> (TunnResult, Tunn),
    encapsulate: (Tunn, Packet) -> (TunnResult, Tunn),
    timers: Tunn -> (TunnResult, Tunn))
  {
    /** What the table relies on: a session keeps its key, and empty input only writes waiting packets out, each
        at most once. */
    ghost predicate Valid() {
      && (forall t, ip, d :: decapsulate(t, ip, d).1.key == t.key)
      && (forall t, p :: encapsulate(t, p).1.key == t.key)
      && (forall t :: timers(t).1.key == t.key)
      && (forall t, ip :: !decapsulate(t, ip, []).0.ToTunnel?)
      && (forall t, ip :: decapsulate(t, ip, []).0.ToNetwork? ==> |decapsulate(t, ip, []).1.queued| < |t.queued|)
    }

    /** Only the holder of a key makes its session accept data, decrypt, or answer with more than a cookie. */
    ghost predicate Sound(genuine: (Key, Bytes) -> bool) {
      forall t, ip, d :: d != [] && Proof(decapsulate(t, ip, d).0, d) ==> genuine(t.key, d)
    }
  }

  const DATA: Byte := 4
  const COOKIE: Byte := 3

  /** Anything but a cookie reply. */
  predicate Answer(datagram: Bytes) {
    datagram == [] || datagram[0] != COOKIE
  }

  predicate AnyAnswer(net: seq<Bytes>) {
    exists d :: d in net && Answer(d)
  }

  predicate Proof(r: TunnResult, d: Bytes)
    requires d != []
  {
    r.ToTunnel? || (r.ToNetwork? && Answer(r.datagram)) || (d[0] == DATA && !r.Broken?)
  }

  /** The verdict of the mac check, with the sender's static key or the receiver index it carries. */
  datatype Verdict =
    | HandshakeInit(sender: Option<Key>)
    | HandshakeResponse(receiver: U32)
    | CookieReply(receiver: U32)
    | Data(receiver: U32)
    | Demand(cookie: Bytes)
    | Rejected

  datatype Peer = Peer(publicKey: Key, endpoint: Option<SockAddr>, tunn: Tunn)

  datatype State = State(peers: seq<Peer>, byKey: map<Key, nat>)

  const EMPTY: State := State([], map[])

  // ----- specification

  function AddPeerSpec(s: State, key: Key, inner: int): (State, Option<nat>) {
    if key in s.byKey then (s, None)
    else (State(s.peers + [Peer(key, None, Tunn(key, [], inner))], s.byKey[key := |s.peers|]), Some(|s.peers|))
  }

  /** Index a datagram names; it may name no peer. */
  function Named(s: State, v: Verdict): Option<nat> {
    match v
    case HandshakeInit(Some(key)) => if key in s.byKey then Some(s.byKey[key]) else None
    case HandshakeResponse(r) => Some(r / 256)
    case CookieReply(r) => Some(r / 256)
    case Data(r) => Some(r / 256)
    case _ => None
  }

  datatype Drained = Drained(tunn: Tunn, net: seq<Bytes>, last: TunnResult)

  /** Feeds a session its datagram, then empty input until it stops writing to the network. */
  ghost function Drain(x: Session, t: Tunn, ip: Ip, input: Bytes): (r: Drained)
    requires x.Valid()
    ensures !r.last.ToNetwork? && r.tunn.key == t.key
    decreases input != [], |t.queued|
  {
    var (result, next) := x.decapsulate(t, ip, input);
    if result.ToNetwork? then
      var rest := Drain(x, next, ip, []);
      rest.(net := [result.datagram] + rest.net)
    else Drained(next, [], result)
  }

  /** Roaming rule for a drain that did not break. */
  ghost predicate Roams(v: Verdict, r: Drained) {
    r.last.ToTunnel? || v.Data? || (!v.CookieReply? && AnyAnswer(r.net))
  }

  datatype Outcome = Outcome(state: State, idx: Option<nat>, net: seq<Bytes>, packets: seq<Packet>)

  ghost function RecvSpec(x: Session, s: State, from: SockAddr, datagram: Bytes, v: Verdict): Outcome
    requires x.Valid()
  {
    if v.Demand? then Outcome(s, None, [v.cookie], [])
    else
      var named := Named(s, v);
      if named.None? || named.value >= |s.peers| then Outcome(s, None, [], [])
      else
        var i, p := named.value, s.peers[named.value];
        var r := Drain(x, p.tunn, from.ip, datagram);
        if r.last.Broken? then Outcome(s.(peers := s.peers[i := p.(tunn := r.tunn)]), None, r.net, [])
        else
          var endpoint := if Roams(v, r) then Some(from) else p.endpoint;
          Outcome(s.(peers := s.peers[i := Peer(p.publicKey, endpoint, r.tunn)]), Some(i), r.net,
                  if r.last.ToTunnel? then [r.last.packet] else [])
  }

  function EncapsulateSpec(x: Session, s: State, idx: nat, packet: Packet): (State, seq<Bytes>) {
    if idx >= |s.peers| then (s, [])
    else
      var (result, next) := x.encapsulate(s.peers[idx].tunn, packet);
      (s.(peers := s.peers[idx := s.peers[idx].(tunn := next)]), if result.ToNetwork? then [result.datagram] else [])
  }

  function TimersSpec(x: Session, peers: seq<Peer>): (r: (seq<Peer>, seq<(nat, Bytes)>))
    ensures |r.0| == |peers|
    ensures forall i :: 0 <= i < |peers| ==> r.0[i] == peers[i].(tunn := x.timers(peers[i].tunn).1)
  {
    if peers == [] then ([], [])
    else
      var last := |peers| - 1;
      var (done, out) := TimersSpec(x, peers[..last]);
      var (result, next) := x.timers(peers[last].tunn);
      (done + [peers[last].(tunn := next)], out + if result.ToNetwork? then [(last, result.datagram)] else [])
  }

  // ----- the class

  class Wg {
    const session: Session
    var peers: seq<Peer>
    var byKey: map<Key, nat>

    ghost function Abs(): State
      reads this
    {
      State(peers, byKey)
    }

    constructor (session: Session)
      ensures this.session == session && Abs() == EMPTY
    {
      this.session := session;
      peers, byKey := [], map[];
    }

    /** `inner` is the new session's own state. */
    method AddPeer(key: Key, inner: int) returns (idx: Option<nat>)
      modifies this
      ensures (Abs(), idx) == AddPeerSpec(old(Abs()), key, inner)
    {
      if key in byKey { return None; }
      idx := Some(|peers|);
      byKey := byKey[key := |peers|];
      peers := peers + [Peer(key, None, Tunn(key, [], inner))];
    }

    method Endpoint(idx: nat) returns (r: Option<SockAddr>)
      ensures r == if idx < |peers| then peers[idx].endpoint else None
    {
      r := if idx < |peers| then peers[idx].endpoint else None;
    }

    /** Feeds in one datagram; what goes back to the network and up to the stack is appended to the buffers. */
    method RecvFromNetwork(from: SockAddr, datagram: Bytes, v: Verdict, netBefore: seq<Bytes>, ipBefore: seq<Packet>)
      returns (idx: Option<nat>, netOut: seq<Bytes>, ipOut: seq<Packet>)
      requires session.Valid()
      modifies this
      ensures var r := RecvSpec(session, old(Abs()), from, datagram, v);
              Abs() == r.state && idx == r.idx && netOut == netBefore + r.net && ipOut == ipBefore + r.packets
    {
      netOut, ipOut := netBefore, ipBefore;
      var named := Named(State(peers, byKey), v);
      if v.Demand? { return None, netOut + [v.cookie], ipOut; }
      if named.None? || named.value >= |peers| { return None, netOut, ipOut; }
      var i := named.value;
      var tunn, input, decrypted := peers[i].tunn, datagram, false;
      ghost var whole := Drain(session, tunn, from.ip, datagram);
      while true
        invariant !decrypted && ipOut == ipBefore && netBefore <= netOut
        invariant peers == old(peers) && byKey == old(byKey)
        invariant var rest := Drain(session, tunn, from.ip, input);
                  rest.tunn == whole.tunn && rest.last == whole.last && netOut + rest.net == netBefore + whole.net
        decreases input != [], |tunn.queued|
      {
        var (result, next) := session.decapsulate(tunn, from.ip, input);
        match result
        case Done =>
          tunn := next;
          break;
        case Broken =>
          peers := peers[i := peers[i].(tunn := next)];
          return None, netOut, ipOut;
        case ToNetwork(b) =>
          netOut := netOut + [b];
          tunn, input := next, [];
        case ToTunnel(p) =>
          ipOut := ipOut + [p];
          tunn, decrypted := next, true;
          break;
      }
      assert netOut == netBefore + whole.net;
      var answered := AnyAnswer(netOut[|netBefore|..]);
      assert netOut[|netBefore|..] == whole.net;
      if decrypted || v.Data? || (!v.CookieReply? && answered) {
        peers := peers[i := Peer(peers[i].publicKey, Some(from), tunn)];
      } else {
        peers := peers[i := peers[i].(tunn := tunn)];
      }
      return Some(i), netOut, ipOut;
    }

    method Encapsulate(idx: nat, packet: Packet, netBefore: seq<Bytes>) returns (netOut: seq<Bytes>)
      modifies this
      ensures var (s, net) := EncapsulateSpec(session, old(Abs()), idx, packet);
              Abs() == s && netOut == netBefore + net
    {
      netOut := netBefore;
      if idx >= |peers| { return; }
      var (result, next) := session.encapsulate(peers[idx].tunn, packet);
      peers := peers[idx := peers[idx].(tunn := next)];
      if result.ToNetwork? { netOut := netOut + [result.datagram]; }
    }

    method UpdateTimers() returns (out: seq<(nat, Bytes)>)
      modifies this
      ensures (peers, out) == TimersSpec(session, old(peers)) && byKey == old(byKey)
    {
      out := [];
      var i := 0;
      while i < |peers|
        invariant 0 <= i <= |peers| == |old(peers)| && byKey == old(byKey)
        invariant peers[i..] == old(peers)[i..]
        invariant (peers[..i], out) == TimersSpec(session, old(peers)[..i])
      {
        var (result, next) := session.timers(peers[i].tunn);
        ghost var was := peers;
        assert old(peers)[..i + 1][..i] == old(peers)[..i];
        assert was[i] == old(peers)[i] by { assert was[i] == was[i..][0] && old(peers)[i] == old(peers)[i..][0]; }
        peers := peers[i := peers[i].(tunn := next)];
        assert peers[..i + 1] == was[..i] + [peers[i]];
        assert old(peers)[..i + 1][i] == was[i];
        assert out + [] == out;
        assert peers[i + 1..] == was[i..][1..] && old(peers)[i + 1..] == old(peers)[i..][1..];
        if result.ToNetwork? { out := out + [(i, result.datagram)]; }
        i := i + 1;
      }
      assert peers[..i] == peers && old(peers)[..i] == old(peers);
    }
  }

  // ----- runs

  datatype Op =
    | Add(key: Key, inner: int)
    | Recv(from: SockAddr, datagram: Bytes, verdict: Verdict)
    | Encap(idx: nat, packet: Packet)
    | Timers

  /** The mac check rejects empty datagrams and calls data only what has the type of data. */
  predicate Plausible(op: Op) {
    op.Recv? ==> op.datagram != [] && (op.verdict.Data? ==> op.datagram[0] == DATA)
  }

  ghost function Step(x: Session, s: State, op: Op): State
    requires x.Valid()
  {
    match op
    case Add(key, inner) => AddPeerSpec(s, key, inner).0
    case Recv(from, datagram, v) => RecvSpec(x, s, from, datagram, v).state
    case Encap(idx, packet) => EncapsulateSpec(x, s, idx, packet).0
    case Timers => s.(peers := TimersSpec(x, s.peers).0)
  }

  ghost function After(x: Session, s: State, ops: seq<Op>): State
    requires x.Valid()
  {
    if ops == [] then s else Step(x, After(x, s, ops[..|ops| - 1]), ops[|ops| - 1])
  }

  lemma AfterSnoc(x: Session, s: State, ops: seq<Op>, op: Op)
    requires x.Valid()
    ensures After(x, s, ops + [op]) == Step(x, After(x, s, ops), op)
  {
    assert (ops + [op])[..|ops|] == ops;
  }

  /** The table and the key map are inverse to each other, and each session is bound to its peer's key. */
  ghost predicate Consistent(s: State) {
    && (forall i :: 0 <= i < |s.peers| ==>
          && s.peers[i].publicKey in s.byKey && s.byKey[s.peers[i].publicKey] == i
          && s.peers[i].tunn.key == s.peers[i].publicKey)
    && (forall k :: k in s.byKey ==> s.byKey[k] < |s.peers| && s.peers[s.byKey[k]].publicKey == k)
  }

  /** A table whose peers have not been heard from. */
  ghost predicate Fresh(s: State) {
    Consistent(s) && forall i :: 0 <= i < |s.peers| ==> s.peers[i].endpoint.None?
  }

  /** Replacing a peer by one with the same key and a session bound to it changes nothing the key map knows. */
  lemma ReplacePeer(s: State, i: nat, p: Peer)
    requires Consistent(s) && i < |s.peers| && p.publicKey == s.peers[i].publicKey == p.tunn.key
    ensures Consistent(s.(peers := s.peers[i := p]))
  {
  }

  /** A step keeps every index with its key, and registers at most one peer, at the end. */
  lemma StepStable(x: Session, s: State, op: Op)
    requires x.Valid() && Consistent(s)
    ensures var t := Step(x, s, op);
            && Consistent(t)
            && |s.peers| <= |t.peers| <= |s.peers| + 1
            && (|t.peers| > |s.peers| <==> op.Add? && op.key !in s.byKey)
            && (forall i :: 0 <= i < |s.peers| ==> t.peers[i].publicKey == s.peers[i].publicKey)
  {
    var t := Step(x, s, op);
    match op
    case Recv(from, d, v) =>
      var named := Named(s, v);
      if t != s {
        ReplacePeer(s, named.value, t.peers[named.value]);
      }
    case Encap(idx, packet) =>
      if t != s {
        ReplacePeer(s, idx, t.peers[idx]);
      }
    case _ =>
  }

  lemma {:induction false} AfterConsistent(x: Session, s0: State, ops: seq<Op>)
    requires x.Valid() && Consistent(s0)
    ensures Consistent(After(x, s0, ops))
  {
    if ops != [] {
      AfterConsistent(x, s0, ops[..|ops| - 1]);
      StepStable(x, After(x, s0, ops[..|ops| - 1]), ops[|ops| - 1]);
    }
  }

  /** Over every run a key once registered keeps its index, and no index is ever taken twice. */
  lemma {:induction false} IndicesStable(x: Session, s0: State, ops: seq<Op>, k: nat, i: nat)
    requires x.Valid() && Consistent(s0) && k <= |ops| && i < |After(x, s0, ops[..k]).peers|
    ensures i < |After(x, s0, ops).peers| && After(x, s0, ops).peers[i].publicKey == After(x, s0, ops[..k]).peers[i].publicKey
    ensures var s := After(x, s0, ops); s.peers[i].publicKey in s.byKey && s.byKey[s.peers[i].publicKey] == i
  {
    AfterConsistent(x, s0, ops);
    if k < |ops| {
      var init := ops[..|ops| - 1];
      assert init[..k] == ops[..k];
      AfterConsistent(x, s0, init);
      IndicesStable(x, s0, init, k, i);
      StepStable(x, After(x, s0, init), ops[|ops| - 1]);
    } else {
      assert ops[..k] == ops;
    }
  }

  /** The receiver index boringtun hands out for session `session` of peer `idx`: 32 bits, shifted left by 8. */
  function ReceiverIndex(idx: nat, session: Byte): U32 {
    idx % 0x1_0000_0000 * 256 % 0x1_0000_0000 + session
  }

  /** The index without its top bits, which the shift pushes out. */
  lemma ShiftWraps(high: nat, mid: nat, low: nat, idx: nat)
    requires idx == 0x1_0000_0000 * high + 0x100_0000 * mid + low && mid < 256 && low < 0x100_0000
    ensures idx % 0x1_0000_0000 * 256 % 0x1_0000_0000 == 256 * low
  {
    var n := 0x100_0000 * mid + low;
    assert idx % 0x1_0000_0000 == n;
    assert n * 256 == 0x1_0000_0000 * mid + 256 * low;
  }

  lemma ReceiverNames(idx: nat, session: Byte)
    ensures ReceiverIndex(idx, session) / 256 == idx <==> idx < 0x100_0000
  {
    var high, n := idx / 0x1_0000_0000, idx % 0x1_0000_0000;
    var mid, low := n / 0x100_0000, n % 0x100_0000;
    ShiftWraps(high, mid, low, idx);
  }

  /** Datagrams of an established session find their peer exactly while indices fit 24 bits. */
  lemma SessionRoutesIff(s: State, idx: nat, session: Byte)
    ensures Named(s, Data(ReceiverIndex(idx, session))) == Some(idx) <==> idx < 0x100_0000
    ensures Named(s, HandshakeResponse(ReceiverIndex(idx, session))) == Some(idx) <==> idx < 0x100_0000
  {
    ReceiverNames(idx, session);
  }

  /** A handshake is routed to the peer whose key it proves. */
  lemma HandshakeRouting(s: State, key: Key, i: nat)
    requires Consistent(s)
    ensures Named(s, HandshakeInit(Some(key))) == Some(i) <==> i < |s.peers| && s.peers[i].publicKey == key
  {
  }

  // ----- roaming

  /** What the session makes of the datagram itself proves the peer's key. */
  predicate FirstProves(x: Session, t: Tunn, ip: Ip, d: Bytes)
    requires d != []
  {
    Proof(x.decapsulate(t, ip, d).0, d)
  }

  /** The session answers the datagram with a cookie, and writes something else on the empty input the loop follows it
      with: a packet that was waiting goes to whoever sent the datagram. */
  ghost predicate FlushAfterCookie(x: Session, t: Tunn, ip: Ip, d: Bytes)
    requires x.Valid() && d != []
  {
    var (first, next) := x.decapsulate(t, ip, d);
    d[0] != DATA && first.ToNetwork? && !Answer(first.datagram) && AnyAnswer(Drain(x, next, ip, []).net)
  }

  /** The way round the rule: that happens on a handshake. */
  ghost predicate CookieThenAnswer(x: Session, t: Tunn, ip: Ip, d: Bytes, v: Verdict)
    requires x.Valid() && d != []
  {
    !v.CookieReply? && FlushAfterCookie(x, t, ip, d)
  }

  lemma {:induction false} EmptyNeverDecrypts(x: Session, t: Tunn, ip: Ip)
    requires x.Valid()
    ensures !Drain(x, t, ip, []).last.ToTunnel?
    decreases |t.queued|
  {
    var (result, next) := x.decapsulate(t, ip, []);
    if result.ToNetwork? {
      EmptyNeverDecrypts(x, next, ip);
    }
  }

  lemma AnswerAfter(first: Bytes, rest: seq<Bytes>)
    ensures AnyAnswer([first] + rest) <==> Answer(first) || AnyAnswer(rest)
  {
    assert ([first] + rest)[0] == first;
    if AnyAnswer(rest) {
      var d :| d in rest && Answer(d);
      assert d in [first] + rest;
    }
  }

  /** More than cookies is written to a sender that proved nothing in exactly that way, whether the drain breaks or
      not, and whatever the verdict. */
  lemma WritesUnprovenIff(x: Session, t: Tunn, ip: Ip, d: Bytes)
    requires x.Valid() && d != []
    ensures AnyAnswer(Drain(x, t, ip, d).net) && !FirstProves(x, t, ip, d) <==> FlushAfterCookie(x, t, ip, d)
  {
    var (first, next) := x.decapsulate(t, ip, d);
    if first.ToNetwork? {
      AnswerAfter(first.datagram, Drain(x, next, ip, []).net);
    }
  }

  /** A drain that does not break roams without proof in exactly that way. */
  lemma RoamsUnprovenIff(x: Session, t: Tunn, ip: Ip, d: Bytes, v: Verdict)
    requires x.Valid() && d != [] && (v.Data? ==> d[0] == DATA) && !Drain(x, t, ip, d).last.Broken?
    ensures Roams(v, Drain(x, t, ip, d)) && !FirstProves(x, t, ip, d) <==> CookieThenAnswer(x, t, ip, d, v)
  {
    var (first, next) := x.decapsulate(t, ip, d);
    if first.ToNetwork? {
      EmptyNeverDecrypts(x, next, ip);
      AnswerAfter(first.datagram, Drain(x, next, ip, []).net);
    }
  }

  /** Sessions that write a waiting packet on empty input whenever there is one, and never as a cookie. */
  ghost predicate Flushes(x: Session) {
    forall t: Tunn, ip :: t.queued != [] ==>
      x.decapsulate(t, ip, []).0.ToNetwork? && Answer(x.decapsulate(t, ip, []).0.datagram)
  }

  /** For those it happens exactly when a cookie is drawn while packets wait. */
  lemma FlushAfterCookieIff(x: Session, t: Tunn, ip: Ip, d: Bytes)
    requires x.Valid() && Flushes(x) && d != []
    ensures var (first, next) := x.decapsulate(t, ip, d);
            FlushAfterCookie(x, t, ip, d) <==>
              d[0] != DATA && first.ToNetwork? && !Answer(first.datagram) && next.queued != []
  {
    var (first, next) := x.decapsulate(t, ip, d);
    var (second, later) := x.decapsulate(next, ip, []);
    if next.queued != [] {
      AnswerAfter(second.datagram, Drain(x, later, ip, []).net);
    }
  }

  /** Grounds for moving an endpoint: proof of the peer's key, or the way round. */
  ghost predicate Grounds(x: Session, t: Tunn, ip: Ip, d: Bytes, v: Verdict, genuine: (Key, Bytes) -> bool)
    requires x.Valid() && d != []
  {
    genuine(t.key, d) || CookieThenAnswer(x, t, ip, d, v)
  }

  /** A step moves at most the endpoint of the peer a received datagram is returned for, and only to its sender: where
      the roaming rule says so, which needs grounds, and needs no proof in exactly the way described. */
  lemma EndpointStep(x: Session, s: State, op: Op, i: nat, genuine: (Key, Bytes) -> bool)
    requires x.Valid() && x.Sound(genuine) && Consistent(s) && Plausible(op) && i < |s.peers|
    ensures var t := Step(x, s, op);
            if op.Recv? && RecvSpec(x, s, op.from, op.datagram, op.verdict).idx == Some(i) then
              var tunn, ip, d, v := s.peers[i].tunn, op.from.ip, op.datagram, op.verdict;
              var roams := Roams(v, Drain(x, tunn, ip, d));
              && t.peers[i].endpoint == (if roams then Some(op.from) else s.peers[i].endpoint)
              && (roams ==> Grounds(x, tunn, ip, d, v, genuine))
              && (roams && !FirstProves(x, tunn, ip, d) <==> CookieThenAnswer(x, tunn, ip, d, v))
            else t.peers[i].endpoint == s.peers[i].endpoint
  {
    if op.Recv? && RecvSpec(x, s, op.from, op.datagram, op.verdict).idx == Some(i) {
      RoamsUnprovenIff(x, s.peers[i].tunn, op.from.ip, op.datagram, op.verdict);
    }
  }

  /** Step `k` of the run returned peer `i` for a datagram received from `a`. */
  ghost predicate HeardAt(x: Session, s0: State, ops: seq<Op>, k: nat, i: nat, a: SockAddr)
    requires x.Valid() && k < |ops|
  {
    var s := After(x, s0, ops[..k]);
    && ops[k].Recv? && ops[k].datagram != [] && ops[k].from == a && i < |s.peers|
    && RecvSpec(x, s, a, ops[k].datagram, ops[k].verdict).idx == Some(i)
  }

  /** ... with grounds for moving its endpoint there. */
  ghost predicate GroundedAt(x: Session, s0: State, ops: seq<Op>, k: nat, i: nat, a: SockAddr, genuine: (Key, Bytes) -> bool)
    requires x.Valid() && k < |ops|
  {
    HeardAt(x, s0, ops, k, i, a) &&
    Grounds(x, After(x, s0, ops[..k]).peers[i].tunn, a.ip, ops[k].datagram, ops[k].verdict, genuine)
  }

  /** ... by the way round. */
  ghost predicate RoundAt(x: Session, s0: State, ops: seq<Op>, k: nat, i: nat, a: SockAddr)
    requires x.Valid() && k < |ops|
  {
    HeardAt(x, s0, ops, k, i, a) &&
    CookieThenAnswer(x, After(x, s0, ops[..k]).peers[i].tunn, a.ip, ops[k].datagram, ops[k].verdict)
  }

  /** ... with proof of the key the peer then had, and still has. */
  ghost predicate ProvenAt(x: Session, s0: State, ops: seq<Op>, k: nat, i: nat, a: SockAddr, genuine: (Key, Bytes) -> bool)
    requires x.Valid() && k < |ops|
  {
    HeardAt(x, s0, ops, k, i, a) && genuine(After(x, s0, ops[..k]).peers[i].publicKey, ops[k].datagram)
  }

  lemma LastMoves(x: Session, s0: State, init: seq<Op>, op: Op, i: nat, a: SockAddr, genuine: (Key, Bytes) -> bool)
    requires x.Valid() && x.Sound(genuine) && Consistent(After(x, s0, init)) && Plausible(op)
    requires i < |After(x, s0, init).peers| && After(x, s0, init).peers[i].endpoint != Some(a)
    requires Step(x, After(x, s0, init), op).peers[i].endpoint == Some(a)
    ensures GroundedAt(x, s0, init + [op], |init|, i, a, genuine)
  {
    assert (init + [op])[..|init|] == init;
    EndpointStep(x, After(x, s0, init), op, i, genuine);
  }

  lemma GroundedLater(x: Session, s0: State, init: seq<Op>, op: Op, k: nat, i: nat, a: SockAddr, genuine: (Key, Bytes) -> bool)
    requires x.Valid() && k < |init| && GroundedAt(x, s0, init, k, i, a, genuine)
    ensures GroundedAt(x, s0, init + [op], k, i, a, genuine)
  {
    assert (init + [op])[..k] == init[..k];
  }

  /** A peer just registered has no endpoint. */
  lemma AddedUnheard(x: Session, s: State, op: Op, i: nat)
    requires x.Valid() && i < |Step(x, s, op).peers|
    ensures i >= |s.peers| ==> Step(x, s, op).peers[i].endpoint.None?
  {
  }

  /** Over every run, the endpoint stored for a peer is the sender of some datagram that gave grounds for it. */
  lemma {:induction false} EndpointsGrounded(
      x: Session, s0: State, ops: seq<Op>, i: nat, a: SockAddr, genuine: (Key, Bytes) -> bool)
    requires x.Valid() && x.Sound(genuine) && Fresh(s0) && forall op :: op in ops ==> Plausible(op)
    requires i < |After(x, s0, ops).peers| && After(x, s0, ops).peers[i].endpoint == Some(a)
    ensures exists k :: 0 <= k < |ops| && GroundedAt(x, s0, ops, k, i, a, genuine)
    decreases |ops|
  {
    if ops != [] {
      var last := |ops| - 1;
      var init, op := ops[..last], ops[last];
      var s := After(x, s0, init);
      assert ops == init + [op];
      AfterSnoc(x, s0, init, op);
      AfterConsistent(x, s0, init);
      AddedUnheard(x, s, op, i);
      if s.peers[i].endpoint == Some(a) {
        EndpointsGrounded(x, s0, init, i, a, genuine);
        var k :| 0 <= k < last && GroundedAt(x, s0, init, k, i, a, genuine);
        GroundedLater(x, s0, init, op, k, i, a, genuine);
      } else {
        LastMoves(x, s0, init, op, i, a, genuine);
      }
    }
  }

  lemma GroundedIsProven(x: Session, s0: State, ops: seq<Op>, k: nat, i: nat, a: SockAddr, genuine: (Key, Bytes) -> bool)
    requires x.Valid() && k < |ops| && Consistent(After(x, s0, ops[..k]))
    requires GroundedAt(x, s0, ops, k, i, a, genuine) && !RoundAt(x, s0, ops, k, i, a)
    ensures ProvenAt(x, s0, ops, k, i, a, genuine)
  {
  }

  /** In a run that never goes the way round, every stored endpoint is proven. */
  lemma EndpointsProven(x: Session, s0: State, ops: seq<Op>, i: nat, a: SockAddr, genuine: (Key, Bytes) -> bool)
    requires x.Valid() && x.Sound(genuine) && Fresh(s0) && forall op :: op in ops ==> Plausible(op)
    requires i < |After(x, s0, ops).peers| && After(x, s0, ops).peers[i].endpoint == Some(a)
    requires forall k :: 0 <= k < |ops| ==> !RoundAt(x, s0, ops, k, i, a)
    ensures exists k :: 0 <= k < |ops| && ProvenAt(x, s0, ops, k, i, a, genuine)
  {
    EndpointsGrounded(x, s0, ops, i, a, genuine);
    var k :| 0 <= k < |ops| && GroundedAt(x, s0, ops, k, i, a, genuine);
    AfterConsistent(x, s0, ops[..k]);
    GroundedIsProven(x, s0, ops, k, i, a, genuine);
  }

  /** Packets only come up from a peer whose endpoint is the sender of the datagram they came in. */
  lemma PacketsAreFromEndpoint(x: Session, s: State, from: SockAddr, d: Bytes, v: Verdict)
    requires x.Valid()
    ensures var r := RecvSpec(x, s, from, d, v);
            r.packets != [] ==>
              r.idx.Some? && r.idx.value < |r.state.peers| && r.state.peers[r.idx.value].endpoint == Some(from)
  {
  }

  // The way round is real: a session that answers every handshake with a cookie, and then flushes one waiting packet,
  // moves an endpoint without any proof.

  function CookieThenFlush(t: Tunn, ip: Ip, d: Bytes): (TunnResult, Tunn) {
    if d == [] then
      if t.queued == [] then (Done, t) else (ToNetwork([DATA]), t.(queued := t.queued[1..]))
    else if d[0] == DATA then (Broken, t)
    else (ToNetwork([COOKIE]), t)
  }

  function Enqueue(t: Tunn, p: Packet): (TunnResult, Tunn) {
    (Done, t.(queued := t.queued + [p]))
  }

  const COOKIE_SESSION: Session := Session(CookieThenFlush, Enqueue, (t: Tunn) => (Done, t))

  lemma CookieDrain(key: Key, ip: Ip)
    ensures COOKIE_SESSION.Valid() && COOKIE_SESSION.Sound((k, d) => false)
    ensures Drain(COOKIE_SESSION, Tunn(key, [Malformed], 0), ip, [1])
              == Drained(Tunn(key, [], 0), [[COOKIE], [DATA]], Done)
  {
    var x, waiting, empty := COOKIE_SESSION, Tunn(key, [Malformed], 0), Tunn(key, [], 0);
    assert waiting.queued[1..] == [];
    assert Drain(x, empty, ip, []) == Drained(empty, [], Done);
    assert Drain(x, waiting, ip, []) == Drained(empty, [[DATA]], Done);
  }

  /** The table before the handshake: one peer, with a packet waiting. */
  lemma WaitingPacket(key: Key)
    requires COOKIE_SESSION.Valid()
    ensures After(COOKIE_SESSION, EMPTY, [Add(key, 0)] + [Encap(0, Malformed)])
              == State([Peer(key, None, Tunn(key, [Malformed], 0))], map[key := 0])
  {
    var x := COOKIE_SESSION;
    AfterSnoc(x, EMPTY, [], Add(key, 0));
    assert [] + [Add(key, 0)] == [Add(key, 0)];
    assert After(x, EMPTY, [Add(key, 0)]) == State([Peer(key, None, Tunn(key, [], 0))], map[key := 0]);
    AfterSnoc(x, EMPTY, [Add(key, 0)], Encap(0, Malformed));
    assert [] + [Malformed] == [Malformed];
  }

  /** The handshake draws a cookie, the packet goes out, and the endpoint has moved. */
  lemma CookieMovesEndpoint(key: Key, from: SockAddr)
    ensures COOKIE_SESSION.Valid() && COOKIE_SESSION.Sound((k, d) => false)
    ensures After(COOKIE_SESSION, EMPTY,
                  [Add(key, 0)] + [Encap(0, Malformed)] + [Recv(from, [1], HandshakeInit(Some(key)))])
              == State([Peer(key, Some(from), Tunn(key, [], 0))], map[key := 0])
  {
    CookieDrain(key, from.ip);
    WaitingPacket(key);
    AfterSnoc(COOKIE_SESSION, EMPTY, [Add(key, 0)] + [Encap(0, Malformed)], Recv(from, [1], HandshakeInit(Some(key))));
    var net := [[COOKIE], [DATA]];
    assert net[1] in net && Answer(net[1]);
  }
}
